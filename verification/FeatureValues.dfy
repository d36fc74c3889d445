/** The feature tables and the delivered rows in plain terms: which events, over which seconds, give which number. */
module FeatureValues {
  import opened Wrappers
  import opened Seqs
  import opened Analysis
  import opened Events
  import opened Windows
  import opened Features
  import opened FeatureJoin
  import opened FeatureSchema
  import opened Pipeline
  import opened Anomaly

  const ANY := {PageView, AddToCart, Purchase, Search, Abandon}

  function Span(kinds: set<EventType>, u: UserId, start: int, length: int): Event -> bool {
    (e: Event) => e.kind in kinds && e.user == u && start <= e.ts < start + length
  }

  /** The user's events of the given kinds in `length` seconds from `start`. */
  function In(events: seq<Event>, kinds: set<EventType>, u: UserId, start: int, length: int): seq<Event> {
    Filter(events, Span(kinds, u, start, length))
  }

  ghost predicate Opens(events: seq<Event>, kinds: set<EventType>, k: Key, slide: int, length: int)
    requires slide > 0
  {
    && k.start % slide == 0
    && exists e :: e in events && e.kind in kinds && e.user == k.user && k.start <= e.ts < k.start + length
  }

  lemma {:induction false} FilterTwice<T(!new)>(s: seq<T>, p: T -> bool, q: T -> bool, r: T -> bool)
    requires forall x :: r(x) <==> p(x) && q(x)
    ensures Filter(Filter(s, p), q) == Filter(s, r)
  {
    if s == [] {
    } else {
      FilterTwice(s[1..], p, q, r);
      FilterConcat(if p(s[0]) then [s[0]] else [], Filter(s[1..], p), q);
      assert [s[0]][1..] == [];
    }
  }

  lemma InMembers(events: seq<Event>, kinds: set<EventType>, u: UserId, start: int, length: int)
    ensures forall e :: e in In(events, kinds, u, start, length) <==>
              e in events && e.kind in kinds && e.user == u && start <= e.ts < start + length
  {
    FilterMembers(events, Span(kinds, u, start, length));
  }

  /** Groups of a filtered list are spans of the whole list. */
  lemma GroupIsSpan(events: seq<Event>, p: Event -> bool, kinds: set<EventType>, k: Key, spec: Spec, length: int)
    requires spec.Size() == length && forall e :: p(e) <==> e.kind in kinds
    ensures Group(Filter(events, p), k, spec) == In(events, kinds, k.user, k.start, length)
  {
    FilterTwice(events, p, Member(k, spec), Span(kinds, k.user, k.start, length));
  }

  lemma KeysAreSpans(events: seq<Event>, p: Event -> bool, kinds: set<EventType>, k: Key, spec: Spec, length: int)
    requires spec.Valid() && spec.Size() == length && forall e :: p(e) <==> e.kind in kinds
    ensures k in KeySet(Filter(events, p), spec) <==> Opens(events, kinds, k, spec.slide, length)
    ensures Opens(events, kinds, k, spec.slide, length) ==> In(events, kinds, k.user, k.start, length) != []
  {
    GroupIsSpan(events, p, kinds, k, spec, length);
    KeySetIsNonEmptyGroups(Filter(events, p), spec);
    InMembers(events, kinds, k.user, k.start, length);
    var g := In(events, kinds, k.user, k.start, length);
    if g != [] {
      assert g[0] in g;
    }
  }

  lemma AllKept(events: seq<Event>)
    ensures Filter(events, e => true) == events
  {
    if events == [] {
    } else {
      AllKept(events[1..]);
    }
  }

  // ----- the five tables -----

  /** txn_count_5m: purchases in five minutes. */
  lemma TxnTable(events: seq<Event>, k: Key)
    ensures var t := BatchTables(events).txn;
            && (k in t <==> Opens(events, {Purchase}, k, 300, 300))
            && (k in t ==> t[k] == Some(|In(events, {Purchase}, k.user, k.start, 300)| as real))
  {
    GroupIsSpan(events, IsPurchase, {Purchase}, k, TUMBLING_5M, 300);
    KeysAreSpans(events, IsPurchase, {Purchase}, k, TUMBLING_5M, 300);
    TotalsMeaning(In(events, {Purchase}, k.user, k.start, 300));
  }

  /** avg_spend_1h: mean of the known amounts of the purchases in an hour, which starts at any five minutes. */
  lemma SpendTable(events: seq<Event>, k: Key)
    ensures var t, xs := BatchTables(events).spend, Amounts(In(events, {Purchase}, k.user, k.start, 3600));
            && (k in t <==> Opens(events, {Purchase}, k, 300, 3600))
            && (k in t ==> t[k] == if xs == [] then None else Some(Mean(xs)))
  {
    GroupIsSpan(events, IsPurchase, {Purchase}, k, SLIDING_1H, 3600);
    KeysAreSpans(events, IsPurchase, {Purchase}, k, SLIDING_1H, 3600);
    AvgAmountIsMean(In(events, {Purchase}, k.user, k.start, 3600));
  }

  /** The rate as a number that times the number of known sessions is the number of events, 0 without known sessions. */
  ghost predicate IsRate(x: real, g: seq<Event>, sessions: set<SessionId>) {
    && (forall s :: s in sessions <==> exists e :: e in g && e.session == Some(s))
    && if sessions == {} then x == 0.0 else Times(x, |sessions| as real) == |g| as real
  }

  /** session_activity_rate: all events in five minutes per distinct session. */
  lemma SessionTable(events: seq<Event>, k: Key)
    ensures var t, g := BatchTables(events).session, In(events, ANY, k.user, k.start, 300);
            && (k in t <==> Opens(events, ANY, k, 300, 300))
            && (k in t ==> t[k].Some? && IsRate(t[k].value, g, Sessions(g)))
  {
    var g := In(events, ANY, k.user, k.start, 300);
    AllKept(events);
    forall e: Event
      ensures e.kind in ANY
    {
      match e.kind {
        case PageView =>
        case AddToCart =>
        case Purchase =>
        case Search =>
        case Abandon =>
      }
    }
    GroupIsSpan(events, e => true, ANY, k, TUMBLING_5M, 300);
    KeysAreSpans(events, e => true, ANY, k, TUMBLING_5M, 300);
    SessionRateRange(g);
  }

  /** The unbought share of the carts: 0 if purchases cover them, else times the carts it is what is left. */
  ghost predicate IsUnboughtShare(x: real, carts: nat, bought: nat) {
    if carts <= bought then x == 0.0 else Times(x, carts as real) == (carts - bought) as real
  }

  /** cart_abandon_ratio: carts and purchases in half an hour. */
  lemma CartTable(events: seq<Event>, k: Key)
    ensures var t := BatchTables(events).cart;
            && (k in t <==> Opens(events, {AddToCart, Purchase}, k, 1800, 1800))
            && (k in t ==> t[k].Some?
                           && IsUnboughtShare(t[k].value, |In(events, {AddToCart}, k.user, k.start, 1800)|,
                                              |In(events, {Purchase}, k.user, k.start, 1800)|))
  {
    var g := In(events, {AddToCart, Purchase}, k.user, k.start, 1800);
    GroupIsSpan(events, IsCartOrPurchase, {AddToCart, Purchase}, k, TUMBLING_30M, 1800);
    KeysAreSpans(events, IsCartOrPurchase, {AddToCart, Purchase}, k, TUMBLING_30M, 1800);
    CartRatioRange(g);
    PartOfSpan(events, {AddToCart, Purchase}, AddToCart, IsAddToCart, k.user, k.start, 1800);
    PartOfSpan(events, {AddToCart, Purchase}, Purchase, IsPurchase, k.user, k.start, 1800);
  }

  lemma PartOfSpan(events: seq<Event>, kinds: set<EventType>, kind: EventType, p: Event -> bool,
                   u: UserId, start: int, length: int)
    requires kind in kinds && forall e :: p(e) <==> e.kind == kind
    ensures Count(In(events, kinds, u, start, length), p) == |In(events, {kind}, u, start, length)|
  {
    FilterTwice(events, Span(kinds, u, start, length), p, Span({kind}, u, start, length));
    FilterCount(In(events, kinds, u, start, length), p);
  }

  /** product_interaction_freq: page views in an hour that starts on the hour. */
  lemma ViewTable(events: seq<Event>, k: Key)
    ensures var t := BatchTables(events).views;
            && (k in t <==> Opens(events, {PageView}, k, 3600, 3600))
            && (k in t ==> t[k] == Some(|In(events, {PageView}, k.user, k.start, 3600)| as real))
  {
    GroupIsSpan(events, IsPageView, {PageView}, k, TUMBLING_1H, 3600);
    KeysAreSpans(events, IsPageView, {PageView}, k, TUMBLING_1H, 3600);
    TotalsMeaning(In(events, {PageView}, k.user, k.start, 3600));
  }

  // ----- the anomaly score -----

  /** The windows that are scored, and those they are scored against: five minutes and a day, both opening at any five
      minutes. */
  lemma ScoredWindows(events: seq<Event>, k: Key)
    ensures var st := BatchScorer(Filter(events, IsPurchase));
            && (k in st.panes <==> Opens(events, {Purchase}, k, 300, 300))
            && (k in st.days <==> Opens(events, {Purchase}, k, 300, 86400))
  {
    KeysAreSpans(events, IsPurchase, {Purchase}, k, TUMBLING_5M, 300);
    KeysAreSpans(events, IsPurchase, {Purchase}, k, SLIDING_24H, 86400);
  }

  /** sigma is the sample deviation of the amounts, 1 for a single one. */
  ghost predicate IsDeviation(sigma: real, xs: seq<real>)
    requires xs != []
  {
    sigma >= 0.0 && if |xs| == 1 then sigma == 1.0 else Times(Square(sigma), |xs| as real - 1.0) == Spread(xs, Mean(xs))
  }

  /** v times the deviation of the day (and a millionth) is the distance of the two means; 0 without amounts in the day,
      null without amounts in the pane. */
  ghost predicate IsScore(v: Option<real>, pane: seq<real>, day: seq<real>) {
    if day == [] then v == Some(0.0)
    else if pane == [] then v == None
    else
      v.Some? && exists sigma :: IsDeviation(sigma, day)
                                 && Times(v.value, sigma + 0.000001) == Abs(Mean(pane) - Mean(day))
  }

  lemma ScoreIs(events: seq<Event>, pane: Key, day: Key, sqrt: real -> real)
    requires IsSqrt(sqrt) && pane in BatchScorer(Filter(events, IsPurchase)).panes
    requires day in BatchScorer(Filter(events, IsPurchase)).days
    ensures var st := BatchScorer(Filter(events, IsPurchase));
            IsScore(AccScore(st.panes[pane], st.days[day], sqrt),
                    Amounts(In(events, {Purchase}, pane.user, pane.start, 300)),
                    Amounts(In(events, {Purchase}, day.user, day.start, 86400)))
  {
    GroupIsSpan(events, IsPurchase, {Purchase}, pane, TUMBLING_5M, 300);
    GroupIsSpan(events, IsPurchase, {Purchase}, day, SLIDING_24H, 86400);
    GroupScoreIs(In(events, {Purchase}, pane.user, pane.start, 300),
                 In(events, {Purchase}, day.user, day.start, 86400), sqrt);
  }

  lemma GroupScoreIs(pane: seq<Event>, day: seq<Event>, sqrt: real -> real)
    requires IsSqrt(sqrt)
    ensures IsScore(ScoreOf(pane, day, sqrt), Amounts(pane), Amounts(day))
  {
    AvgAmountIsMean(pane);
    AvgAmountIsMean(day);
    if Amounts(day) != [] {
      if Amounts(pane) != [] {
        var sigma, score := ScoreValue(pane, day, sqrt);
        DividedBy(Mean(Amounts(pane)) - Mean(Amounts(day)), sigma + 0.000001, score);
        assert IsDeviation(sigma, Amounts(day));
      } else {
        DayDeviation(day, sqrt);
      }
    }
  }

  lemma DayDeviation(day: seq<Event>, sqrt: real -> real)
    requires IsSqrt(sqrt) && Amounts(day) != []
    ensures StdDev(AccOf(day), sqrt).GetOr(1.0) >= 0.0
  {
    TotalsMeaning(day);
    if |Amounts(day)| >= 2 {
      VarianceIsSpread(day);
    }
  }

  // ----- delivered rows -----

  /** r combines five-minute window k of the user with some value of each other table and some score. */
  ghost predicate Combines(events: seq<Event>, o: Orders, scores: seq<Cell>, now: int, r: Row, k: Key,
                           spend: Option<real>, session: Option<real>, cart: Option<real>, views: Option<real>,
                           score: Option<real>)
    requires ListsAll(o, BatchTables(events))
  {
    var t := BatchTables(events);
    && k in t.txn && k.user == r.user
    && Offered(Cells(t.spend, o.spend), r.user, spend) && Offered(Cells(t.session, o.session), r.user, session)
    && Offered(Cells(t.cart, o.cart), r.user, cart) && Offered(Cells(t.views, o.views), r.user, views)
    && Offered(scores, r.user, score)
    && r.values == map[TxnCount5m := Some(t.txn[k].GetOr(0.0)), AvgSpend1h := Some(spend.GetOr(0.0)),
                       SessionActivityRate := Some(session.GetOr(0.0)), CartAbandonRatio := Some(cart.GetOr(0.0)),
                       ProductInteractionFreq := Some(views.GetOr(0.0)), AnomalyScore := Some(score.GetOr(0.0)),
                       ComputedAt := Some(now as real)]
  }

  lemma FullRow(t: Tables, o: Orders, scores: seq<Cell>, i: nat) returns (c: Wide, score: Option<real>)
    requires ListsAll(o, t) && i < |FullFeatures(t, o, scores)|
    ensures c in Joined(t, o) && Offered(scores, c.key.user, score)
    ensures FullFeatures(t, o, scores)[i] == FillScore(PutScore(FillFeatures(c), score))
  {
    var all := AllFeatures(t, o);
    var joined := LeftJoin(all, scores, PutScore);
    JoinRows(all, scores, PutScore, joined[i]);
    assert joined[i] in joined;
    var l, v :| l in all && Offered(scores, l.key.user, v) && joined[i] == PutScore(l, v);
    var j :| 0 <= j < |all| && all[j] == l;
    c, score := Joined(t, o)[j], v;
    assert c in Joined(t, o) && FillFeatures(c) == l;
  }

  /** Where each of the seven columns of a delivered row comes from. */
  lemma RowCombines(events: seq<Event>, o: Orders, scores: seq<Cell>, now: int, r: Row)
    returns (c: Wide, score: Option<real>)
    requires ListsAll(o, BatchTables(events)) && r in MicroBatch(events, o, scores, now)
    ensures Combines(events, o, scores, now, r, c.key, c.spend, c.session, c.cart, c.views, score)
  {
    var i :| 0 <= i < |MicroBatch(events, o, scores, now)| && MicroBatch(events, o, scores, now)[i] == r;
    c, score := FullRow(BatchTables(events), o, scores, i);
    JoinedRow(BatchTables(events), o, c);
    RowColumns(c, score, now, r);
  }

  lemma RowColumns(c: Wide, score: Option<real>, now: int, r: Row)
    requires r == SinkRow(now)(FillScore(PutScore(FillFeatures(c), score)))
    ensures r.user == c.key.user
    ensures r.values == map[TxnCount5m := Some(c.txn.GetOr(0.0)), AvgSpend1h := Some(c.spend.GetOr(0.0)),
                            SessionActivityRate := Some(c.session.GetOr(0.0)),
                            CartAbandonRatio := Some(c.cart.GetOr(0.0)),
                            ProductInteractionFreq := Some(c.views.GetOr(0.0)), AnomalyScore := Some(score.GetOr(0.0)),
                            ComputedAt := Some(now as real)]
  {
  }

  /** And every such combination is delivered. */
  lemma CombinationDelivered(events: seq<Event>, o: Orders, scores: seq<Cell>, now: int, r: Row, k: Key,
                             spend: Option<real>, session: Option<real>, cart: Option<real>, views: Option<real>,
                             score: Option<real>)
    requires ListsAll(o, BatchTables(events))
    requires Combines(events, o, scores, now, r, k, spend, session, cart, views, score)
    ensures r in MicroBatch(events, o, scores, now)
  {
    var t := BatchTables(events);
    var c := Wide(k, t.txn[k], spend, session, cart, views, None);
    ChainHas(t, o, c);
    var full := FullFeatures(t, o, scores);
    var i := FullHas(t, o, scores, c, score);
    RowColumns(c, score, now, SinkRow(now)(full[i]));
    assert MicroBatch(events, o, scores, now)[i] == SinkRow(now)(full[i]) == r;
  }

  lemma ChainHas(t: Tables, o: Orders, c: Wide)
    requires ListsAll(o, t) && c.key in t.txn && c.txn == t.txn[c.key] && c.score == None
    requires Offered(Cells(t.spend, o.spend), c.key.user, c.spend)
    requires Offered(Cells(t.session, o.session), c.key.user, c.session)
    requires Offered(Cells(t.cart, o.cart), c.key.user, c.cart) && Offered(Cells(t.views, o.views), c.key.user, c.views)
    ensures c in Joined(t, o)
  {
    var base := BaseRows(t.txn, o.txn);
    var i :| 0 <= i < |o.txn| && o.txn[i] == c.key;
    assert base[i] == Wide(c.key, c.txn, None, None, None, None, None) && base[i] in base;
    ChainRows(base, Cells(t.spend, o.spend), Cells(t.session, o.session), Cells(t.cart, o.cart),
              Cells(t.views, o.views), c);
  }

  lemma FullHas(t: Tables, o: Orders, scores: seq<Cell>, c: Wide, score: Option<real>) returns (i: nat)
    requires ListsAll(o, t) && c in Joined(t, o) && Offered(scores, c.key.user, score)
    ensures i < |FullFeatures(t, o, scores)|
    ensures FullFeatures(t, o, scores)[i] == FillScore(PutScore(FillFeatures(c), score))
  {
    var all, l := AllFeatures(t, o), FillFeatures(c);
    var joined := LeftJoin(all, scores, PutScore);
    var j :| 0 <= j < |Joined(t, o)| && Joined(t, o)[j] == c;
    assert all[j] == l && l in all;
    JoinRows(all, scores, PutScore, PutScore(l, score));
    i :| 0 <= i < |joined| && joined[i] == PutScore(l, score);
  }

  /** Page views delivered: those of some hour of the user that has any, or 0 for a user without page views. */
  ghost predicate IsViewCount(events: seq<Event>, u: UserId, x: real) {
    || (exists start: int ::
          && start % 3600 == 0 && In(events, {PageView}, u, start, 3600) != []
          && x == |In(events, {PageView}, u, start, 3600)| as real)
    || (x == 0.0 && forall e :: e in events && e.user == u ==> e.kind != PageView)
  }

  ghost predicate IsSpend(events: seq<Event>, u: UserId, x: real) {
    exists start: int ::
      && start % 300 == 0 && In(events, {Purchase}, u, start, 3600) != []
      && var xs := Amounts(In(events, {Purchase}, u, start, 3600));
      x == if xs == [] then 0.0 else Mean(xs)
  }

  ghost predicate IsTxnCount(events: seq<Event>, u: UserId, x: real) {
    exists start: int ::
      && start % 300 == 0 && In(events, {Purchase}, u, start, 300) != []
      && x == |In(events, {Purchase}, u, start, 300)| as real
  }

  ghost predicate IsSessionRate(events: seq<Event>, u: UserId, x: real) {
    exists start: int ::
      && start % 300 == 0 && In(events, ANY, u, start, 300) != []
      && IsRate(x, In(events, ANY, u, start, 300), Sessions(In(events, ANY, u, start, 300)))
  }

  ghost predicate IsCartRatio(events: seq<Event>, u: UserId, x: real) {
    exists start: int ::
      && start % 1800 == 0 && In(events, {AddToCart, Purchase}, u, start, 1800) != []
      && IsUnboughtShare(x, |In(events, {AddToCart}, u, start, 1800)|, |In(events, {Purchase}, u, start, 1800)|)
  }

  lemma ViewsAt(events: seq<Event>, k: Key)
    requires k in BatchTables(events).views
    ensures IsViewCount(events, k.user, BatchTables(events).views[k].GetOr(0.0))
  {
    ViewTable(events, k);
    SpanOpen(events, {PageView}, k, 3600, 3600);
  }

  lemma ViewsDelivered(events: seq<Event>, o: Orders, u: UserId, v: Option<real>)
    requires ListsAll(o, BatchTables(events)) && Offered(Cells(BatchTables(events).views, o.views), u, v)
    ensures IsViewCount(events, u, v.GetOr(0.0))
  {
    if v == None {
      ViewsOffered(events, o, u, v);
    } else {
      OfferedByTable(BatchTables(events).views, o.views, u, v);
      var k :| k in BatchTables(events).views && k.user == u && BatchTables(events).views[k] == v;
      ViewsAt(events, k);
    }
  }

  lemma SpendAt(events: seq<Event>, k: Key)
    requires k in BatchTables(events).spend
    ensures IsSpend(events, k.user, BatchTables(events).spend[k].GetOr(0.0))
  {
    SpendTable(events, k);
    SpanOpen(events, {Purchase}, k, 300, 3600);
  }

  lemma SpendDelivered(events: seq<Event>, o: Orders, u: UserId, e: Event, v: Option<real>)
    requires ListsAll(o, BatchTables(events)) && Offered(Cells(BatchTables(events).spend, o.spend), u, v)
    requires e in events && IsPurchase(e) && e.user == u
    ensures IsSpend(events, u, v.GetOr(0.0))
  {
    var t := BatchTables(events).spend;
    var own := EventKeys(e, SLIDING_1H)[0];
    EventInExactlyItsWindows(e, SLIDING_1H);
    FilterMembers(events, IsPurchase);
    KeySetOf(Filter(events, IsPurchase), SLIDING_1H, e, own);
    var k := EntryOffered(t, o.spend, u, own, v);
    SpendAt(events, k);
  }

  lemma EntryOffered(t: Table, order: seq<Key>, u: UserId, own: Key, v: Option<real>) returns (k: Key)
    requires Lists(order, t) && Offered(Cells(t, order), u, v) && own in t && own.user == u
    ensures k in t && k.user == u && t[k] == v
  {
    OfferedByTable(t, order, u, v);
    k :| k in t && k.user == u && t[k] == v;
  }

  lemma SessionDelivered(events: seq<Event>, o: Orders, u: UserId, e: Event, v: Option<real>)
    requires ListsAll(o, BatchTables(events)) && Offered(Cells(BatchTables(events).session, o.session), u, v)
    requires e in events && e.user == u
    ensures IsSessionRate(events, u, v.GetOr(0.0))
  {
    var t := BatchTables(events).session;
    var own := EventKeys(e, TUMBLING_5M)[0];
    EventInExactlyItsWindows(e, TUMBLING_5M);
    KeySetOf(events, TUMBLING_5M, e, own);
    var k := EntryOffered(t, o.session, u, own, v);
    SessionTable(events, k);
    SpanOpen(events, ANY, k, 300, 300);
  }

  lemma CartDelivered(events: seq<Event>, o: Orders, u: UserId, e: Event, v: Option<real>)
    requires ListsAll(o, BatchTables(events)) && Offered(Cells(BatchTables(events).cart, o.cart), u, v)
    requires e in events && IsPurchase(e) && e.user == u
    ensures IsCartRatio(events, u, v.GetOr(0.0))
  {
    var t := BatchTables(events).cart;
    var own := EventKeys(e, TUMBLING_30M)[0];
    EventInExactlyItsWindows(e, TUMBLING_30M);
    FilterMembers(events, IsCartOrPurchase);
    KeySetOf(Filter(events, IsCartOrPurchase), TUMBLING_30M, e, own);
    var k := EntryOffered(t, o.cart, u, own, v);
    CartTable(events, k);
    SpanOpen(events, {AddToCart, Purchase}, k, 1800, 1800);
  }

  lemma SpanOpen(events: seq<Event>, kinds: set<EventType>, k: Key, slide: int, length: int)
    requires slide > 0 && Opens(events, kinds, k, slide, length)
    ensures In(events, kinds, k.user, k.start, length) != []
  {
    InMembers(events, kinds, k.user, k.start, length);
  }

  lemma ColumnsRead(r: Row, txn: real, spend: real, session: real, cart: real, views: real, score: real, at: real)
    requires r.values == map[TxnCount5m := Some(txn), AvgSpend1h := Some(spend), SessionActivityRate := Some(session),
                             CartAbandonRatio := Some(cart), ProductInteractionFreq := Some(views),
                             AnomalyScore := Some(score), ComputedAt := Some(at)]
    ensures r.OrZero(TxnCount5m) == txn && r.OrZero(AvgSpend1h) == spend && r.OrZero(SessionActivityRate) == session
    ensures r.OrZero(CartAbandonRatio) == cart && r.OrZero(ProductInteractionFreq) == views
    ensures r.OrZero(AnomalyScore) == score && r.OrZero(ComputedAt) == at
  {
  }

  lemma TxnDelivered(events: seq<Event>, k: Key)
    requires k in BatchTables(events).txn
    ensures IsTxnCount(events, k.user, BatchTables(events).txn[k].GetOr(0.0))
  {
    TxnTable(events, k);
    SpanOpen(events, {Purchase}, k, 300, 300);
  }

  /** The numbers in a delivered row, each as a statement about the user's events. */
  lemma DeliveredValues(events: seq<Event>, o: Orders, scores: seq<Cell>, now: int, r: Row)
    requires ListsAll(o, BatchTables(events)) && r in MicroBatch(events, o, scores, now)
    ensures IsTxnCount(events, r.user, r.OrZero(TxnCount5m)) && IsSpend(events, r.user, r.OrZero(AvgSpend1h))
    ensures IsSessionRate(events, r.user, r.OrZero(SessionActivityRate))
    ensures IsCartRatio(events, r.user, r.OrZero(CartAbandonRatio))
    ensures IsViewCount(events, r.user, r.OrZero(ProductInteractionFreq))
    ensures exists v :: Offered(scores, r.user, v) && r.OrZero(AnomalyScore) == v.GetOr(0.0)
    ensures r.OrZero(ComputedAt) == now as real
  {
    var c, score := RowCombines(events, o, scores, now, r);
    ColumnsRead(r, BatchTables(events).txn[c.key].GetOr(0.0), c.spend.GetOr(0.0), c.session.GetOr(0.0),
                c.cart.GetOr(0.0), c.views.GetOr(0.0), score.GetOr(0.0), now as real);
    CombinedValues(events, o, r.user, c);
  }

  lemma CombinedValues(events: seq<Event>, o: Orders, u: UserId, c: Wide)
    requires ListsAll(o, BatchTables(events)) && c.key in BatchTables(events).txn && c.key.user == u
    requires var t := BatchTables(events);
             && Offered(Cells(t.spend, o.spend), u, c.spend) && Offered(Cells(t.session, o.session), u, c.session)
             && Offered(Cells(t.cart, o.cart), u, c.cart) && Offered(Cells(t.views, o.views), u, c.views)
    ensures IsTxnCount(events, u, BatchTables(events).txn[c.key].GetOr(0.0)) && IsSpend(events, u, c.spend.GetOr(0.0))
    ensures IsSessionRate(events, u, c.session.GetOr(0.0)) && IsCartRatio(events, u, c.cart.GetOr(0.0))
    ensures IsViewCount(events, u, c.views.GetOr(0.0))
  {
    var e := PurchaseBehind(events, c.key);
    TxnDelivered(events, c.key);
    SpendDelivered(events, o, u, e, c.spend);
    SessionDelivered(events, o, u, e, c.session);
    CartDelivered(events, o, u, e, c.cart);
    ViewsDelivered(events, o, u, c.views);
  }

  /** With the scorer's own cells: the score of some five minutes of the user's purchases against some day of them. */
  lemma DeliveredScore(events: seq<Event>, o: Orders, panes: seq<Key>, days: seq<Key>, sqrt: real -> real, now: int,
                       r: Row)
    returns (pane: int, day: int, v: Option<real>)
    requires IsSqrt(sqrt) && ListsAll(o, BatchTables(events))
    requires BatchScorer(Filter(events, IsPurchase)).ListedBy(panes, days)
    requires var rows := ScoredRows(BatchScorer(Filter(events, IsPurchase)), panes, days, sqrt);
             r in MicroBatch(events, o, ScoreCells(rows), now)
    ensures pane % 300 == 0 && In(events, {Purchase}, r.user, pane, 300) != []
    ensures day % 300 == 0 && In(events, {Purchase}, r.user, day, 86400) != []
    ensures IsScore(v, Amounts(In(events, {Purchase}, r.user, pane, 300)),
                    Amounts(In(events, {Purchase}, r.user, day, 86400)))
    ensures r.OrZero(AnomalyScore) == v.GetOr(0.0)
  {
    var rows := ScoredRows(BatchScorer(Filter(events, IsPurchase)), panes, days, sqrt);
    var e;
    e, v := RowScore(events, o, ScoreCells(rows), now, r);
    var s := ScoreOffered(events, panes, days, sqrt, e, v);
    ScoredIs(events, panes, days, sqrt, s);
    pane, day := s.key.start, s.day.start;
  }

  lemma RowScore(events: seq<Event>, o: Orders, scores: seq<Cell>, now: int, r: Row)
    returns (e: Event, v: Option<real>)
    requires ListsAll(o, BatchTables(events)) && r in MicroBatch(events, o, scores, now)
    ensures e in events && IsPurchase(e) && e.user == r.user
    ensures Offered(scores, r.user, v) && r.OrZero(AnomalyScore) == v.GetOr(0.0)
  {
    var c;
    c, v := RowCombines(events, o, scores, now, r);
    e := PurchaseBehind(events, c.key);
  }

  lemma ScoredIs(events: seq<Event>, panes: seq<Key>, days: seq<Key>, sqrt: real -> real, s: Scored)
    requires IsSqrt(sqrt) && BatchScorer(Filter(events, IsPurchase)).ListedBy(panes, days)
    requires s in ScoredRows(BatchScorer(Filter(events, IsPurchase)), panes, days, sqrt)
    ensures var u, pane, day := s.key.user, s.key.start, s.day.start;
            && pane % 300 == 0 && In(events, {Purchase}, u, pane, 300) != []
            && day % 300 == 0 && In(events, {Purchase}, u, day, 86400) != []
            && IsScore(s.score, Amounts(In(events, {Purchase}, u, pane, 300)),
                       Amounts(In(events, {Purchase}, u, day, 86400)))
  {
    ScoredRowsAre(BatchScorer(Filter(events, IsPurchase)), panes, days, sqrt, s);
    ScoreIs(events, s.key, s.day, sqrt);
    ScoredWindows(events, s.key);
    ScoredWindows(events, s.day);
    SpanOpen(events, {Purchase}, s.key, 300, 300);
    SpanOpen(events, {Purchase}, s.day, 300, 86400);
  }

  /** A purchaser always has a scored row, so a joined score is one of them. */
  lemma ScoreOffered(events: seq<Event>, panes: seq<Key>, days: seq<Key>, sqrt: real -> real, e: Event, v: Option<real>)
    returns (s: Scored)
    requires BatchScorer(Filter(events, IsPurchase)).ListedBy(panes, days)
    requires e in events && IsPurchase(e)
    requires Offered(ScoreCells(ScoredRows(BatchScorer(Filter(events, IsPurchase)), panes, days, sqrt)), e.user, v)
    ensures s in ScoredRows(BatchScorer(Filter(events, IsPurchase)), panes, days, sqrt)
    ensures s.key.user == e.user && s.score == v
  {
    var st := BatchScorer(Filter(events, IsPurchase));
    var rows := ScoredRows(st, panes, days, sqrt);
    var cells := ScoreCells(rows);
    var own := OwnScore(events, panes, days, sqrt, e);
    var i :| 0 <= i < |rows| && rows[i] == own;
    assert cells[i].user == e.user && cells[i] in cells;
    var j :| 0 <= j < |cells| && cells[j] == Cell(e.user, v);
    s := rows[j];
  }

  lemma OwnScore(events: seq<Event>, panes: seq<Key>, days: seq<Key>, sqrt: real -> real, e: Event) returns (s: Scored)
    requires BatchScorer(Filter(events, IsPurchase)).ListedBy(panes, days) && e in events && IsPurchase(e)
    ensures s in ScoredRows(BatchScorer(Filter(events, IsPurchase)), panes, days, sqrt) && s.key.user == e.user
  {
    var st, purchases := BatchScorer(Filter(events, IsPurchase)), Filter(events, IsPurchase);
    var k := Key(e.user, PaneStart(e.ts, 300));
    FilterMembers(events, IsPurchase);
    WindowByPane(e, Key(e.user, 0), TUMBLING_5M);
    WindowsOf(purchases, e, k);
    s := Scored(k, k, AccScore(st.panes[k], st.days[k], sqrt));
    ScoredRowsAre(st, panes, days, sqrt, s);
  }
}
