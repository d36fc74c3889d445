/** The processor's own micro-batches, from the feature joins to the rows both sinks receive. */
module Pipeline {
  import opened Wrappers
  import opened Seqs
  import opened Events
  import opened Windows
  import opened Features
  import opened FeatureJoin
  import opened Anomaly
  import opened FeatureSchema
  import opened OfflineStore
  import opened Agreement
  import opened RepeatedUsers

  /** features_df left-joined with the anomaly scores on the user, then fillna on the score. */
  function FullFeatures(t: Tables, o: Orders, scores: seq<Cell>): seq<Wide>
    requires ListsAll(o, t)
  {
    Map(LeftJoin(AllFeatures(t, o), scores, PutScore), FillScore)
  }

  /** computed_at is one timestamp for the whole query. */
  function SinkRow(now: int): Wide -> Row {
    (w: Wide) => Row(w.key.user, map[TxnCount5m := w.txn, AvgSpend1h := w.spend, SessionActivityRate := w.session,
                                     CartAbandonRatio := w.cart, ProductInteractionFreq := w.views,
                                     AnomalyScore := w.score, ComputedAt := Some(now as real)])
  }

  function MicroBatch(events: seq<Event>, o: Orders, scores: seq<Cell>, now: int): seq<Row>
    requires ListsAll(o, BatchTables(events))
  {
    Map(FullFeatures(BatchTables(events), o, scores), SinkRow(now))
  }

  /** The column pair that the scorer hands to the join. */
  function ScoreCells(rows: seq<Scored>): seq<Cell> {
    Map(rows, (r: Scored) => Cell(r.key.user, r.score))
  }

  lemma FullFeaturesPermuted(left: seq<Wide>, left': seq<Wide>, scores: seq<Cell>, scores': seq<Cell>)
    requires multiset(left) == multiset(left') && multiset(scores) == multiset(scores')
    ensures multiset(Map(LeftJoin(left, scores, PutScore), FillScore))
         == multiset(Map(LeftJoin(left', scores', PutScore), FillScore))
  {
    JoinPermuted(left, left', scores, scores', PutScore);
    MapPermuted(LeftJoin(left, scores, PutScore), LeftJoin(left', scores', PutScore), FillScore);
  }

  /** The streaming job and the backfill deliver the same rows, anomaly scores included, each as often, for any
      order and batching of the same events and any listing of the intermediate tables. */
  lemma DeliveredRowsEqual(events: seq<Event>, batches: seq<seq<Event>>, o: Orders, o': Orders, sqrt: real -> real,
                           panes: seq<Key>, days: seq<Key>, panes': seq<Key>, days': seq<Key>)
    requires multiset(Flatten(batches)) == multiset(events)
    requires ListsAll(o, StreamTables(batches)) && ListsAll(o', BatchTables(events))
    requires StreamScorer(FilterEach(batches, IsPurchase)).ListedBy(panes, days)
    requires BatchScorer(Filter(events, IsPurchase)).ListedBy(panes', days')
    ensures var streamed := ScoredRows(StreamScorer(FilterEach(batches, IsPurchase)), panes, days, sqrt);
            var backfilled := ScoredRows(BatchScorer(Filter(events, IsPurchase)), panes', days', sqrt);
            multiset(FullFeatures(StreamTables(batches), o, ScoreCells(streamed)))
            == multiset(FullFeatures(BatchTables(events), o', ScoreCells(backfilled)))
  {
    var streamed := ScoredRows(StreamScorer(FilterEach(batches, IsPurchase)), panes, days, sqrt);
    var backfilled := ScoredRows(BatchScorer(Filter(events, IsPurchase)), panes', days', sqrt);
    StreamingEqualsBackfill(events, batches);
    RowsIgnoreOrder(BatchTables(events), o, o');
    ScorerStreamingEqualsBackfill(events, batches, sqrt, panes, days, panes', days');
    MapPermuted(streamed, backfilled, (r: Scored) => Cell(r.key.user, r.score));
    FullFeaturesPermuted(AllFeatures(BatchTables(events), o), AllFeatures(BatchTables(events), o'),
                         ScoreCells(streamed), ScoreCells(backfilled));
  }

  lemma {:induction false} FillScoreKeepsCount(s: seq<Wide>, k: Key, txn: Option<real>)
    ensures Count(Map(s, FillScore), IsBase(k, txn)) == Count(s, IsBase(k, txn))
  {
    if s == [] {
    } else {
      FillScoreKeepsCount(s[1..], k, txn);
      assert Map(s, FillScore)[1..] == Map(s[1..], FillScore);
    }
  }

  lemma {:induction false} TwoOf<T(!new)>(s: seq<T>, p: T -> bool) returns (i: nat, j: nat)
    requires Count(s, p) >= 2
    ensures i < j < |s| && p(s[i]) && p(s[j])
  {
    if p(s[0]) {
      CountBound(s[1..], p);
      var x :| x in s[1..] && p(x);
      i := 0;
      j :| 1 <= j < |s| && s[j] == x;
    } else {
      i, j := TwoOf(s[1..], p);
      i, j := i + 1, j + 1;
    }
  }

  lemma AtLeastProduct(a: nat, f: nat, n: nat)
    requires a >= n && f >= 1
    ensures a * f >= n
  {
    AtLeastFactor(a, f);
  }

  /** A purchase makes its user appear at least twice in the batch. */
  lemma PurchaserAppearsTwice(events: seq<Event>, o: Orders, scores: seq<Cell>, now: int, e: Event)
    returns (i: nat, j: nat)
    requires ListsAll(o, BatchTables(events)) && e in events && IsPurchase(e)
    ensures var batch := MicroBatch(events, o, scores, now);
            i < j < |batch| && batch[i].user == batch[j].user == e.user
  {
    var k := BaseKey(events, e);
    BaseRowTwice(events, o, scores, k, e);
    i, j := TwoOf(FullFeatures(BatchTables(events), o, scores), IsBase(k, BatchTables(events).txn[k]));
  }

  lemma BaseKey(events: seq<Event>, e: Event) returns (k: Key)
    requires e in events && IsPurchase(e)
    ensures k in BatchTables(events).txn && k.user == e.user
    ensures forall j :: j in BatchTables(events).txn ==> BatchTables(events).txn[j].Some?
  {
    k := EventKeys(e, TUMBLING_5M)[0];
    EventInExactlyItsWindows(e, TUMBLING_5M);
    FilterMembers(events, IsPurchase);
    KeySetOf(Filter(events, IsPurchase), TUMBLING_5M, e, k);
    forall j | j in BatchTables(events).txn
      ensures BatchTables(events).txn[j].Some?
    {
      var _ := PurchaseBehind(events, j);
    }
  }

  lemma BaseRowTwice(events: seq<Event>, o: Orders, scores: seq<Cell>, k: Key, e: Event)
    requires ListsAll(o, BatchTables(events)) && e in events && IsPurchase(e) && k.user == e.user
    requires k in BatchTables(events).txn
    requires forall j :: j in BatchTables(events).txn ==> BatchTables(events).txn[j].Some?
    ensures Count(FullFeatures(BatchTables(events), o, scores), IsBase(k, BatchTables(events).txn[k])) >= 2
  {
    var t := BatchTables(events);
    BaseRowsRepeated(t, o, k, t.txn[k].value);
    SlidingTableFanout(events, o, e);
    MultiplicityAtLeast(o, e.user, 12);
    JoinCount(AllFeatures(t, o), scores, PutScore, k, t.txn[k]);
    AtLeastProduct(Count(AllFeatures(t, o), IsBase(k, t.txn[k])), Fanout(scores, k.user), 2);
    FillScoreKeepsCount(LeftJoin(AllFeatures(t, o), scores, PutScore), k, t.txn[k]);
  }

  lemma JoinedPurchaser(events: seq<Event>, o: Orders, scores: seq<Cell>, w: Wide)
    requires ListsAll(o, BatchTables(events)) && w in LeftJoin(AllFeatures(BatchTables(events), o), scores, PutScore)
    ensures exists e :: e in events && IsPurchase(e) && e.user == w.key.user
  {
    var t := BatchTables(events);
    JoinRows(AllFeatures(t, o), scores, PutScore, w);
    var l, v :| l in AllFeatures(t, o) && Offered(scores, l.key.user, v) && w == PutScore(l, v);
    DeliveredKey(t, o, l);
    var e := PurchaseBehind(events, l.key);
  }

  lemma SinkRowDate(w: Wide, now: int)
    ensures SinkRow(now)(w).user == w.key.user
    ensures EventDate(SinkRow(now)(w)) == Some(Truncate(now as real) / SECONDS_PER_DAY)
  {
  }

  /** Every row of a batch belongs to a purchaser and carries the batch's date. */
  lemma RowsOfBatch(events: seq<Event>, o: Orders, scores: seq<Cell>, now: int, i: nat)
    requires ListsAll(o, BatchTables(events)) && i < |MicroBatch(events, o, scores, now)|
    ensures EventDate(MicroBatch(events, o, scores, now)[i]) == Some(Truncate(now as real) / SECONDS_PER_DAY)
    ensures exists e :: e in events && IsPurchase(e) && e.user == MicroBatch(events, o, scores, now)[i].user
  {
    var joined := LeftJoin(AllFeatures(BatchTables(events), o), scores, PutScore);
    assert joined[i] in joined;
    JoinedPurchaser(events, o, scores, joined[i]);
    SinkRowDate(FillScore(joined[i]), now);
  }

  /** The batches the processor really produces have one row per user only when they are empty. */
  lemma BatchCleanIffNoPurchase(events: seq<Event>, o: Orders, scores: seq<Cell>, now: int)
    requires ListsAll(o, BatchTables(events))
    ensures OneRowPerUser(MicroBatch(events, o, scores, now)) <==> forall e :: e in events ==> !IsPurchase(e)
  {
    if e :| e in events && IsPurchase(e) {
      var i, j := PurchaserAppearsTwice(events, o, scores, now, e);
    } else {
      if MicroBatch(events, o, scores, now) != [] {
        RowsOfBatch(events, o, scores, now, 0);
      }
    }
  }

  /** Once the table knows a purchaser for the day, every further batch with that purchaser is refused and falls
      back. */
  lemma KnownPurchaserForcesFallback(st: Delta, events: seq<Event>, o: Orders, scores: seq<Cell>, now: int, e: Event,
                                     known: Row)
    requires ListsAll(o, BatchTables(events)) && e in events && IsPurchase(e)
    requires st.table.Some? && known in st.table.value && known.user == e.user
    requires EventDate(known) == Some(Truncate(now as real) / SECONDS_PER_DAY)
    ensures var batch := MicroBatch(events, o, scores, now);
            GoesToFallback(st, batch, false)
            && Sunk(st, batch, false) == Delta(st.table, st.fallback + batch)
  {
    var batch := MicroBatch(events, o, scores, now);
    var i, j := PurchaserAppearsTwice(events, o, scores, now, e);
    RowsOfBatch(events, o, scores, now, i);
    RowsOfBatch(events, o, scores, now, j);
    var k :| 0 <= k < |st.table.value| && st.table.value[k] == known;
    assert Matches(st.table.value[k], batch[i]) && Matches(st.table.value[k], batch[j]);
  }

  ghost predicate Buys(events: seq<Event>, u: UserId) {
    exists e :: e in events && IsPurchase(e) && e.user == u
  }

  function Day(now: int): int {
    Truncate(now as real) / SECONDS_PER_DAY
  }

  /** A batch has one date, its users are the purchasers, and each of them has more than one row. */
  lemma BatchIsRepeated(events: seq<Event>, o: Orders, scores: seq<Cell>, now: int)
    requires ListsAll(o, BatchTables(events))
    ensures Repeated(MicroBatch(events, o, scores, now), Day(now))
    ensures forall u :: HasUser(MicroBatch(events, o, scores, now), u) <==> Buys(events, u)
  {
    var batch := MicroBatch(events, o, scores, now);
    forall r | r in batch
      ensures EventDate(r) == Some(Day(now)) && Buys(events, r.user)
    {
      var i :| 0 <= i < |batch| && batch[i] == r;
      RowsOfBatch(events, o, scores, now, i);
    }
    forall u | Buys(events, u)
      ensures exists i, j :: 0 <= i < j < |batch| && batch[i].user == batch[j].user == u
    {
      var e :| e in events && IsPurchase(e) && e.user == u;
      var i, j := PurchaserAppearsTwice(events, o, scores, now, e);
    }
    forall u | Buys(events, u)
      ensures HasUser(batch, u)
    {
      var i, j :| 0 <= i < j < |batch| && batch[i].user == batch[j].user == u;
      assert batch[i] in batch;
    }
  }

  /** Without an outside fault a batch is refused exactly when the table already has one of its purchasers for the
      day. */
  lemma RefusedIffPurchaserKnown(st: Delta, events: seq<Event>, o: Orders, scores: seq<Cell>, now: int)
    requires ListsAll(o, BatchTables(events))
    ensures GoesToFallback(st, MicroBatch(events, o, scores, now), false) <==>
            exists u :: Buys(events, u) && Knows(st, u, Day(now))
  {
    BatchIsRepeated(events, o, scores, now);
    RefusedIff(st, MicroBatch(events, o, scores, now), Day(now));
  }

  // ----- runs of the processor -----

  /** One evaluation of the queries: its events, the order of each table, the scores it joins, and its timestamp. */
  datatype Trigger = Trigger(events: seq<Event>, orders: Orders, scores: seq<Cell>, now: int) {

    ghost predicate Valid() {
      ListsAll(orders, BatchTables(events))
    }

    function Batch(): seq<Row>
      requires Valid()
    {
      MicroBatch(events, orders, scores, now)
    }
  }

  /** `batches` is what the triggers produce. */
  ghost predicate Produces(ts: seq<Trigger>, batches: seq<seq<Row>>) {
    |batches| == |ts| && forall i :: 0 <= i < |ts| ==> ts[i].Valid() && batches[i] == ts[i].Batch()
  }

  function Days(ts: seq<Trigger>): (days: seq<int>)
    ensures |days| == |ts| && forall i :: 0 <= i < |ts| ==> days[i] == Day(ts[i].now)
  {
    seq(|ts|, i requires 0 <= i < |ts| => Day(ts[i].now))
  }

  lemma ProducedAreRepeated(ts: seq<Trigger>, batches: seq<seq<Row>>)
    requires Produces(ts, batches)
    ensures AllRepeated(batches, Days(ts))
    ensures forall i, u :: 0 <= i < |ts| ==> (HasUser(batches[i], u) <==> Buys(ts[i].events, u))
  {
    forall i | 0 <= i < |ts|
      ensures Repeated(batches[i], Day(ts[i].now)) && forall u :: HasUser(batches[i], u) <==> Buys(ts[i].events, u)
    {
      BatchIsRepeated(ts[i].events, ts[i].orders, ts[i].scores, ts[i].now);
    }
  }

  /** Some purchaser of trigger j already bought in a landed trigger of the same day. */
  ghost predicate BoughtBefore(ts: seq<Trigger>, landed: seq<bool>, j: nat)
    requires j <= |landed| && j < |ts|
  {
    exists i, u :: && 0 <= i < j && landed[i] && Day(ts[i].now) == Day(ts[j].now)
                   && Buys(ts[i].events, u) && Buys(ts[j].events, u)
  }

  /** In any run of the processor, a fault-free batch lands exactly if none of its purchasers has landed that day. */
  lemma BatchLandsIff(ts: seq<Trigger>, batches: seq<seq<Row>>, steps: seq<Step>, ttl: int)
    requires Produces(ts, batches) && Reached(batches, steps, ttl).d < |ts|
    ensures var w, w' := Reached(batches, steps, ttl), Reached(batches, steps + [DeltaNext(false)], ttl);
            w.d == |w.landed| && w'.landed == w.landed + [!BoughtBefore(ts, w.landed, w.d)]
  {
    var w, days := Reached(batches, steps, ttl), Days(ts);
    ProducedAreRepeated(ts, batches);
    NextLandsIff(batches, days, steps, ttl);
    NewIffNotBought(ts, batches, w.landed, w.d);
  }

  lemma NewIffNotBought(ts: seq<Trigger>, batches: seq<seq<Row>>, landed: seq<bool>, j: nat)
    requires |batches| == |ts| && j <= |landed| && j < |ts|
    requires forall i, u :: 0 <= i < |ts| ==> (HasUser(batches[i], u) <==> Buys(ts[i].events, u))
    ensures NewThatDay(batches, Days(ts), landed, j, j) <==> !BoughtBefore(ts, landed, j)
  {
    if NewThatDay(batches, Days(ts), landed, j, j) {
      forall i, u | 0 <= i < j && landed[i] && Day(ts[i].now) == Day(ts[j].now) && Buys(ts[i].events, u)
        ensures !Buys(ts[j].events, u)
      {
        assert LandedOn(batches, Days(ts), landed, i, u, Days(ts)[j]);
      }
    }
  }

  /** A purchaser is stored by the first batch of the day that lands, and by no other, in every run of the processor. */
  lemma FirstPurchaseOfDayWins(ts: seq<Trigger>, batches: seq<seq<Row>>, steps: seq<Step>, ttl: int, j: nat)
    requires Produces(ts, batches) && j < |Reached(batches, steps, ttl).landed|
            && Reached(batches, steps, ttl).landed[j]
    ensures j < |ts| && !BoughtBefore(ts, Reached(batches, steps, ttl).landed, j)
  {
    ProducedAreRepeated(ts, batches);
    FirstBatchOfDayWins(batches, Days(ts), steps, ttl);
    NewIffNotBought(ts, batches, Reached(batches, steps, ttl).landed, j);
  }

  /** Trigger k has landed with a purchase of u, and no landed trigger of a later day has one. */
  ghost predicate LastPurchaseDay(ts: seq<Trigger>, landed: seq<bool>, k: nat, u: UserId)
    requires k < |landed| <= |ts|
  {
    && landed[k] && Buys(ts[k].events, u)
    && forall i :: 0 <= i < |landed| && landed[i] && Buys(ts[i].events, u) ==> Day(ts[i].now) <= Day(ts[k].now)
  }

  lemma LastDayIff(ts: seq<Trigger>, batches: seq<seq<Row>>, landed: seq<bool>, k: nat, u: UserId)
    requires |batches| == |ts| && k < |landed| <= |ts|
    requires forall i, v :: 0 <= i < |ts| ==> (HasUser(batches[i], v) <==> Buys(ts[i].events, v))
    ensures LastPurchaseDay(ts, landed, k, u) <==> LastOn(batches, Days(ts), landed, k, u)
  {
  }

  lemma LastDays(ts: seq<Trigger>, batches: seq<seq<Row>>, landed: seq<bool>, u: UserId, row: Row)
    requires |batches| == |ts| && |landed| <= |ts|
    requires forall i, v :: 0 <= i < |ts| ==> (HasUser(batches[i], v) <==> Buys(ts[i].events, v))
    ensures (exists k :: 0 <= k < |landed| && LastOn(batches, Days(ts), landed, k, u))
       <==> (exists k :: 0 <= k < |landed| && LastPurchaseDay(ts, landed, k, u))
    ensures (forall k, s ::
               0 <= k < |landed| && LastOn(batches, Days(ts), landed, k, u) && s in batches[k] && s.user == u ==>
                 SameSix(s, row))
       <==> (forall k, s ::
               0 <= k < |landed| && LastPurchaseDay(ts, landed, k, u) && s in batches[k] && s.user == u ==>
                 SameSix(s, row))
  {
    forall k | 0 <= k < |landed|
      ensures LastPurchaseDay(ts, landed, k, u) <==> LastOn(batches, Days(ts), landed, k, u)
    {
      LastDayIff(ts, batches, landed, k, u);
    }
  }

  /**
   * Agreement for the batches the processor makes: a live hash holds its user's last delivered row. Any latest
   * offline row agrees with it exactly if all the user's rows in the landed batch of its last purchase day carry the
   * same six features. The row itself is in the table exactly if a batch that holds it has landed, and is a latest
   * one exactly if moreover no landed one is of a later day.
   */
  lemma PurchaserAgreement(ts: seq<Trigger>, batches: seq<seq<Row>>, steps: seq<Step>, ttl: int, u: UserId)
    requires Produces(ts, batches) && u in Reached(batches, steps, ttl).online.keys
    ensures var w := Reached(batches, steps, ttl);
            && w.r <= |batches| && w.d == |w.landed| <= |batches| && LastRow(batches, w.r, u).Some?
            && var row := LastRow(batches, w.r, u).value;
            && SameFeatures(w.online.keys[u].fields, row) && SameTime(w.online.keys[u].fields, row)
            && EventDate(row).Some?
            && (OfflineAgrees(w, u) <==>
                && (exists k :: 0 <= k < w.d && LastPurchaseDay(ts, w.landed, k, u))
                && forall k, s ::
                     0 <= k < w.d && LastPurchaseDay(ts, w.landed, k, u) && s in batches[k] && s.user == u ==>
                       SameSix(s, row))
            && (row in Rows(w.offline) <==> exists k :: 0 <= k < w.d && w.landed[k] && row in batches[k])
            && (IsLatest(Rows(w.offline), u, row) <==> row in Rows(w.offline) && NoneLater(batches, w.landed, w.d, row))
  {
    var w := Reached(batches, steps, ttl);
    ProducedAreRepeated(ts, batches);
    RepeatedAgreement(batches, Days(ts), steps, ttl, u);
    LastDays(ts, batches, w.landed, u, LastRow(batches, w.r, u).value);
  }

  lemma SomeOffered(cells: seq<Cell>, u: UserId) returns (v: Option<real>)
    ensures Offered(cells, u, v)
  {
    v := None;
    if c :| c in cells && c.user == u {
      v := c.value;
      assert c == Cell(u, v);
    }
  }

  /** The joins deliver a row for every value that the sliding table offers the user. */
  lemma RowWithSpend(events: seq<Event>, o: Orders, scores: seq<Cell>, now: int, key: Key, v: Option<real>)
    returns (r: Row)
    requires ListsAll(o, BatchTables(events)) && key in BatchTables(events).txn
    requires Offered(Cells(BatchTables(events).spend, o.spend), key.user, v)
    ensures r in MicroBatch(events, o, scores, now) && r.user == key.user && r.OrZero(AvgSpend1h) == v.GetOr(0.0)
  {
    var w := JoinedWithSpend(BatchTables(events), o, key, v);
    r := RowOfJoined(events, o, scores, now, w);
  }

  lemma JoinedWithSpend(t: Tables, o: Orders, key: Key, v: Option<real>) returns (w: Wide)
    requires ListsAll(o, t) && key in t.txn && Offered(Cells(t.spend, o.spend), key.user, v)
    ensures w in Joined(t, o) && w.key == key && w.spend == v
  {
    var u := key.user;
    var session := SomeOffered(Cells(t.session, o.session), u);
    var cart := SomeOffered(Cells(t.cart, o.cart), u);
    var views := SomeOffered(Cells(t.views, o.views), u);
    var base := BaseRows(t.txn, o.txn);
    w := Wide(key, t.txn[key], v, session, cart, views, None);
    var i :| 0 <= i < |o.txn| && o.txn[i] == key;
    assert base[i] == Wide(key, t.txn[key], None, None, None, None, None) && base[i] in base;
    ChainRows(base, Cells(t.spend, o.spend), Cells(t.session, o.session), Cells(t.cart, o.cart),
              Cells(t.views, o.views), w);
  }

  lemma FullRowOf(t: Tables, o: Orders, scores: seq<Cell>, w: Wide) returns (j: nat)
    requires ListsAll(o, t) && w in Joined(t, o)
    ensures j < |FullFeatures(t, o, scores)|
    ensures FullFeatures(t, o, scores)[j].key == w.key
    ensures FullFeatures(t, o, scores)[j].spend == Some(w.spend.GetOr(0.0))
  {
    var i :| 0 <= i < |Joined(t, o)| && Joined(t, o)[i] == w;
    var l := FillFeatures(w);
    assert AllFeatures(t, o)[i] == l && l in AllFeatures(t, o);
    var score := SomeOffered(scores, w.key.user);
    var joined := LeftJoin(AllFeatures(t, o), scores, PutScore);
    JoinRows(AllFeatures(t, o), scores, PutScore, PutScore(l, score));
    j :| 0 <= j < |joined| && joined[j] == PutScore(l, score);
  }

  lemma SinkRowSpend(w: Wide, now: int, x: real)
    requires w.spend == Some(x)
    ensures SinkRow(now)(w).user == w.key.user && SinkRow(now)(w).OrZero(AvgSpend1h) == x
  {
  }

  lemma RowOfJoined(events: seq<Event>, o: Orders, scores: seq<Cell>, now: int, w: Wide) returns (r: Row)
    requires ListsAll(o, BatchTables(events)) && w in Joined(BatchTables(events), o)
    ensures r in MicroBatch(events, o, scores, now)
    ensures r.user == w.key.user && r.OrZero(AvgSpend1h) == w.spend.GetOr(0.0)
  {
    var full := FullFeatures(BatchTables(events), o, scores);
    var j := FullRowOf(BatchTables(events), o, scores, w);
    SinkRowSpend(full[j], now, w.spend.GetOr(0.0));
    r := MicroBatch(events, o, scores, now)[j];
    assert r == SinkRow(now)(full[j]);
  }

  lemma VaryingRows(t: Trigger, u: UserId, v: Option<real>, v': Option<real>) returns (r: Row, r': Row)
    requires t.Valid() && Buys(t.events, u) && v.GetOr(0.0) != v'.GetOr(0.0)
    requires var spend := Cells(BatchTables(t.events).spend, t.orders.spend);
             Offered(spend, u, v) && Offered(spend, u, v')
    ensures r in t.Batch() && r' in t.Batch() && r.user == r'.user == u && !SameSix(r, r')
  {
    var e :| e in t.events && IsPurchase(e) && e.user == u;
    var key := BaseKey(t.events, e);
    r := RowWithSpend(t.events, t.orders, t.scores, t.now, key, v);
    r' := RowWithSpend(t.events, t.orders, t.scores, t.now, key, v');
    assert AvgSpend1h in FEATURES;
  }

  lemma VaryingRowsBreakAgreement(ts: seq<Trigger>, batches: seq<seq<Row>>, steps: seq<Step>, ttl: int, u: UserId,
                                  k: nat, r: Row, r': Row)
    requires Produces(ts, batches) && u in Reached(batches, steps, ttl).online.keys
    requires k < |Reached(batches, steps, ttl).landed| <= |ts|
    requires LastPurchaseDay(ts, Reached(batches, steps, ttl).landed, k, u)
    requires r in batches[k] && r' in batches[k] && r.user == r'.user == u && !SameSix(r, r')
    ensures !OfflineAgrees(Reached(batches, steps, ttl), u)
  {
    PurchaserAgreement(ts, batches, steps, ttl, u);
    var row := LastRow(batches, Reached(batches, steps, ttl).r, u).value;
    assert !SameSix(r, row) || !SameSix(r', row);
  }

  /** So a purchaser whose one-hour averages differ between windows is never stored in agreement. */
  lemma VaryingSpendBreaksAgreement(ts: seq<Trigger>, batches: seq<seq<Row>>, steps: seq<Step>, ttl: int, u: UserId,
                                    k: nat, v: Option<real>, v': Option<real>)
    requires Produces(ts, batches) && u in Reached(batches, steps, ttl).online.keys
    requires k < |Reached(batches, steps, ttl).landed| <= |ts|
    requires LastPurchaseDay(ts, Reached(batches, steps, ttl).landed, k, u)
    requires var spend := Cells(BatchTables(ts[k].events).spend, ts[k].orders.spend);
             Offered(spend, u, v) && Offered(spend, u, v') && v.GetOr(0.0) != v'.GetOr(0.0)
    ensures !OfflineAgrees(Reached(batches, steps, ttl), u)
  {
    var r, r' := VaryingRows(ts[k], u, v, v');
    VaryingRowsBreakAgreement(ts, batches, steps, ttl, u, k, r, r');
  }

  /** From an empty store: the first batch is stored with its duplicates, the second of the day never gets past the
      merge. */
  lemma SecondBatchOfTheDayFallsBack(first: seq<Event>, o1: Orders, scores1: seq<Cell>, t1: int,
                                     second: seq<Event>, o2: Orders, scores2: seq<Cell>, t2: int, d: Event, e: Event)
    requires ListsAll(o1, BatchTables(first)) && ListsAll(o2, BatchTables(second))
    requires d in first && IsPurchase(d) && e in second && IsPurchase(e) && d.user == e.user
    requires Truncate(t1 as real) / SECONDS_PER_DAY == Truncate(t2 as real) / SECONDS_PER_DAY
    ensures var b1, b2 := MicroBatch(first, o1, scores1, t1), MicroBatch(second, o2, scores2, t2);
            && Sunk(NO_TABLE, b1, false) == Delta(Some(b1), [])
            && Sunk(Sunk(NO_TABLE, b1, false), b2, false) == Delta(Some(b1), [] + b2)
  {
    var b1, b2 := MicroBatch(first, o1, scores1, t1), MicroBatch(second, o2, scores2, t2);
    var i, _ := PurchaserAppearsTwice(first, o1, scores1, t1, d);
    RowsOfBatch(first, o1, scores1, t1, i);
    var stored := Delta(Some(b1), []);
    FirstWrite(b1, i);
    KnownPurchaserForcesFallback(stored, second, o2, scores2, t2, e, b1[i]);
  }

  lemma FirstWrite(batch: seq<Row>, i: nat)
    requires i < |batch|
    ensures Sunk(NO_TABLE, batch, false) == Delta(Some(batch), []) && batch[i] in batch
  {
  }
}
