/** Both sinks fed from the same micro-batches by two independent queries, each of which may replay its last batch. */
module Agreement {
  import opened Wrappers
  import opened Seqs
  import opened Events
  import opened FeatureSchema
  import opened OnlineStore
  import opened OnlineRuns
  import opened OfflineStore
  import opened Validator

  /** `r` and `d` batches have reached the online and the offline sink; landed[i] tells whether batch i got into the
      table. */
  datatype World = World(online: State, offline: Delta, r: nat, d: nat, landed: seq<bool>)

  datatype Step =
    | RedisNext | RedisReplay
    | DeltaNext(fault: bool) | DeltaReplay(fault: bool)
    | Wait(seconds: nat) | ExtendKey(user: UserId)

  const START := World(EMPTY, NO_TABLE, 0, 0, [])

  function Do(batches: seq<seq<Row>>, w: World, step: Step, ttl: int): World {
    match step
    case RedisNext =>
      if w.r < |batches| then w.(online := Next(w.online, Sink(batches[w.r]), ttl), r := w.r + 1) else w
    case RedisReplay =>
      if 0 < w.r <= |batches| then w.(online := Next(w.online, Sink(batches[w.r - 1]), ttl)) else w
    case DeltaNext(fault) =>
      if w.d < |batches| then
        w.(offline := Sunk(w.offline, batches[w.d], fault), d := w.d + 1,
           landed := w.landed + [!GoesToFallback(w.offline, batches[w.d], fault)])
      else w
    case DeltaReplay(fault) =>
      if 0 < w.d <= |batches| && w.d == |w.landed| then
        w.(offline := Sunk(w.offline, batches[w.d - 1], fault),
           landed := w.landed[w.d - 1 := w.landed[w.d - 1] || !GoesToFallback(w.offline, batches[w.d - 1], fault)])
      else w
    case Wait(seconds) => w.(online := Next(w.online, Pass(seconds), ttl))
    case ExtendKey(u) => w.(online := Next(w.online, Extend(u), ttl))
  }

  function Reached(batches: seq<seq<Row>>, steps: seq<Step>, ttl: int): World {
    if steps == [] then START
    else Do(batches, Reached(batches, steps[..|steps| - 1], ttl), steps[|steps| - 1], ttl)
  }

  // ----- what the batches say -----

  ghost predicate OneRowPerUser(batch: seq<Row>) {
    forall i, j :: 0 <= i < j < |batch| ==> batch[i].user != batch[j].user
  }

  /** The last row of u in a batch; a batch may have any number of them. */
  function RowFor(batch: seq<Row>, u: UserId): Option<Row> {
    if batch == [] then None
    else if batch[|batch| - 1].user == u then Some(batch[|batch| - 1])
    else RowFor(batch[..|batch| - 1], u)
  }

  lemma {:induction false} NoRowFor(batch: seq<Row>, u: UserId)
    ensures RowFor(batch, u).None? <==> forall i :: 0 <= i < |batch| ==> batch[i].user != u
  {
    if batch == [] {
    } else {
      var front := batch[..|batch| - 1];
      NoRowFor(front, u);
      assert forall i :: 0 <= i < |front| ==> front[i] == batch[i];
    }
  }

  lemma {:induction false} RowForAt(batch: seq<Row>, u: UserId) returns (i: nat)
    requires RowFor(batch, u).Some?
    ensures i < |batch| && RowFor(batch, u) == Some(batch[i]) && batch[i].user == u
    ensures forall j :: i < j < |batch| ==> batch[j].user != u
  {
    i := |batch| - 1;
    if batch[i].user != u {
      i := RowForAt(batch[..i], u);
    }
  }

  /** The last row of u in the last of the first n batches that has one. */
  function LastRow(batches: seq<seq<Row>>, n: nat, u: UserId): Option<Row>
    requires n <= |batches|
  {
    if n == 0 then None
    else if RowFor(batches[n - 1], u).Some? then RowFor(batches[n - 1], u)
    else LastRow(batches, n - 1, u)
  }

  lemma {:induction false} LastRowAt(batches: seq<seq<Row>>, n: nat, u: UserId) returns (k: nat)
    requires n <= |batches| && LastRow(batches, n, u).Some?
    ensures k < n && LastRow(batches, n, u).value in batches[k] && LastRow(batches, n, u).value.user == u
    ensures forall j, s :: k < j < n && s in batches[j] ==> s.user != u
  {
    k := n - 1;
    if RowFor(batches[k], u).Some? {
      var _ := RowForAt(batches[k], u);
    } else {
      NoRowFor(batches[n - 1], u);
      k := LastRowAt(batches, n - 1, u);
    }
  }

  // ----- the online side -----

  /** Every live hash is the payload of its user's last delivered row. */
  ghost predicate OnlineIsLastRow(batches: seq<seq<Row>>, st: State, r: nat)
    requires r <= |batches|
  {
    forall u :: u in st.keys ==>
      LastRow(batches, r, u).Some? && HoldsRow(st.keys[u].fields, LastRow(batches, r, u).value)
  }

  ghost predicate HoldsRow(fields: Hash, row: Row) {
    exists now: int :: fields == RowWrite(row, now).payload
  }

  lemma PayloadReplaces(row: Row, now: int, base: Hash)
    requires base == map[] || exists other: Row :: HoldsRow(base, other)
    ensures base + RowWrite(row, now).payload == RowWrite(row, now).payload
  {
    if base != map[] {
      var other: Row :| HoldsRow(base, other);
      var then': int :| base == RowWrite(other, then').payload;
      assert base.Keys == RowWrite(row, now).payload.Keys;
    }
  }

  /** What a delivery does to the hash of a user with rows in the batch: the last of them decides. */
  lemma SinkOnTouched(st: State, batch: seq<Row>, ttl: int, u: UserId)
    requires RowFor(batch, u).Some?
    requires u in st.keys ==> exists other: Row :: HoldsRow(st.keys[u].fields, other)
    ensures var after := Next(st, Sink(batch), ttl);
            u in after.keys ==> HoldsRow(after.keys[u].fields, RowFor(batch, u).value)
  {
    var ws := RowWrites(batch, st.now);
    EffectOfWrites(st, ws, ttl);
    var i := RowForAt(batch, u);
    assert ws[i].user == u;
    LastRowWins(FieldsOf(st, u), batch, st.now, u, i);
    PayloadReplaces(batch[i], st.now, FieldsOf(st, u));
  }

  lemma SinkOnOthers(st: State, batch: seq<Row>, ttl: int, u: UserId)
    requires RowFor(batch, u).None?
    ensures var after := Next(st, Sink(batch), ttl);
            u in after.keys ==> u in st.keys && after.keys[u] == st.keys[u]
  {
    var ws := RowWrites(batch, st.now);
    EffectOfWrites(st, ws, ttl);
    NoRowFor(batch, u);
    assert !Touched(ws, u);
  }

  lemma SinkEffect(batches: seq<seq<Row>>, st: State, before: nat, after: nat, ttl: int)
    requires 0 < after <= |batches| && (before == after || before == after - 1)
    requires OnlineIsLastRow(batches, st, before)
    ensures OnlineIsLastRow(batches, Next(st, Sink(batches[after - 1]), ttl), after)
  {
    var st' := Next(st, Sink(batches[after - 1]), ttl);
    forall u | u in st'.keys
      ensures LastRow(batches, after, u).Some? && HoldsRow(st'.keys[u].fields, LastRow(batches, after, u).value)
    {
      SinkEffectOnUser(batches, st, before, after, ttl, u, st');
    }
  }

  lemma SinkEffectOnUser(batches: seq<seq<Row>>, st: State, before: nat, after: nat, ttl: int, u: UserId, st': State)
    requires 0 < after <= |batches| && (before == after || before == after - 1)
    requires OnlineIsLastRow(batches, st, before)
    requires st' == Next(st, Sink(batches[after - 1]), ttl) && u in st'.keys
    ensures LastRow(batches, after, u).Some? && HoldsRow(st'.keys[u].fields, LastRow(batches, after, u).value)
  {
    if RowFor(batches[after - 1], u).Some? {
      SinkOnTouched(st, batches[after - 1], ttl, u);
    } else {
      SinkOnOthers(st, batches[after - 1], ttl, u);
      assert LastRow(batches, after, u) == LastRow(batches, after - 1, u);
    }
  }

  // ----- the offline side -----

  /** t came with landed batch i, and no later landed batch has a row for its user and day. */
  ghost predicate Survives(batches: seq<seq<Row>>, landed: seq<bool>, n: nat, i: nat, t: Row)
    requires i < n <= |batches| && n <= |landed|
  {
    && landed[i] && t in batches[i]
    && forall j :: i < j < n && landed[j] ==> !MatchedBy(batches[j], t)
  }

  ghost predicate Layered(batches: seq<seq<Row>>, landed: seq<bool>, n: nat, t: Row)
    requires n <= |batches| && n <= |landed|
  {
    exists i :: 0 <= i < n && Survives(batches, landed, n, i, t)
  }

  /** The table consists of exactly the rows of landed batches that no later landed batch replaces. */
  ghost predicate TableIsLayers(batches: seq<seq<Row>>, st: Delta, landed: seq<bool>, d: nat)
    requires d <= |batches| && d <= |landed|
  {
    forall t :: t in Rows(st) <==> Layered(batches, landed, d, t)
  }

  lemma LayeredLast(batches: seq<seq<Row>>, landed: seq<bool>, m: nat, n: nat, t: Row)
    requires n == m + 1 <= |batches| && n <= |landed|
    ensures Layered(batches, landed, n, t) <==>
            || (landed[m] && t in batches[m])
            || ((landed[m] ==> !MatchedBy(batches[m], t)) && Layered(batches, landed, m, t))
  {
    if i :| 0 <= i < n && Survives(batches, landed, n, i, t) {
      if i < m {
        assert Survives(batches, landed, m, i, t);
      }
    }
    if landed[m] && t in batches[m] {
      assert Survives(batches, landed, n, m, t);
    }
    if i :| (landed[m] ==> !MatchedBy(batches[m], t)) && 0 <= i < m && Survives(batches, landed, m, i, t) {
      assert Survives(batches, landed, n, i, t);
    }
  }

  lemma LayeredPrefix(batches: seq<seq<Row>>, landed: seq<bool>, other: seq<bool>, n: nat, t: Row)
    requires n <= |batches| && n <= |landed| && n <= |other| && forall i :: 0 <= i < n ==> landed[i] == other[i]
    ensures Layered(batches, landed, n, t) <==> Layered(batches, other, n, t)
  {
    if i :| 0 <= i < n && Survives(batches, landed, n, i, t) {
      assert Survives(batches, other, n, i, t);
    }
    if i :| 0 <= i < n && Survives(batches, other, n, i, t) {
      assert Survives(batches, landed, n, i, t);
    }
  }

  /** Batch k - 1 lands, for the first time or again, and becomes the newest layer of the table. */
  lemma Landing(batches: seq<seq<Row>>, st: Delta, landed: seq<bool>, d: nat, k: nat, landed': seq<bool>, fault: bool)
    requires 0 < k <= |batches| && (k == d || k == d + 1) && |landed| == d && |landed'| == k
    requires landed'[k - 1] && forall i :: 0 <= i < k - 1 ==> landed'[i] == landed[i]
    requires TableIsLayers(batches, st, landed, d) && !GoesToFallback(st, batches[k - 1], fault)
    ensures TableIsLayers(batches, Sunk(st, batches[k - 1], fault), landed', k)
  {
    forall t
      ensures t in Rows(Sunk(st, batches[k - 1], fault)) <==> Layered(batches, landed', k, t)
    {
      RowsAfterWrite(st, batches[k - 1], fault, t);
      LayeredLast(batches, landed', k - 1, k, t);
      LayeredPrefix(batches, landed, landed', k - 1, t);
      if k == d {
        LayeredLast(batches, landed, k - 1, k, t);
      }
    }
  }

  /** A delivery that does not land leaves the table as it was. */
  lemma Missing(batches: seq<seq<Row>>, st: Delta, st': Delta, landed: seq<bool>, d: nat)
    requires d < |batches| && |landed| == d && TableIsLayers(batches, st, landed, d) && Rows(st') == Rows(st)
    ensures TableIsLayers(batches, st', landed + [false], d + 1)
  {
    forall t
      ensures t in Rows(st') <==> Layered(batches, landed + [false], d + 1, t)
    {
      LayeredLast(batches, landed + [false], d, d + 1, t);
      LayeredPrefix(batches, landed, landed + [false], d, t);
    }
  }

  // ----- every run -----

  ghost predicate Sound(batches: seq<seq<Row>>, w: World) {
    && w.r <= |batches| && w.d <= |batches| && |w.landed| == w.d
    && OnlineIsLastRow(batches, w.online, w.r)
    && TableIsLayers(batches, w.offline, w.landed, w.d)
  }

  lemma StepKeepsSound(batches: seq<seq<Row>>, w: World, step: Step, ttl: int)
    requires Sound(batches, w)
    ensures Sound(batches, Do(batches, w, step, ttl))
  {
    match step
    case RedisNext =>
      OnlineDelivery(batches, w, step, ttl);
    case RedisReplay =>
      OnlineDelivery(batches, w, step, ttl);
    case DeltaNext(fault) =>
      if w.d < |batches| {
        FirstDelivery(batches, w, fault);
      }
    case DeltaReplay(fault) =>
      if 0 < w.d {
        RepeatedDelivery(batches, w, fault);
      }
    case Wait(seconds) =>
      FieldsKept(batches, w.online, Next(w.online, Pass(seconds), ttl), w.r);
    case ExtendKey(u) =>
      FieldsKept(batches, w.online, Next(w.online, Extend(u), ttl), w.r);
  }

  lemma OnlineDelivery(batches: seq<seq<Row>>, w: World, step: Step, ttl: int)
    requires Sound(batches, w) && (step.RedisNext? || step.RedisReplay?)
    ensures Sound(batches, Do(batches, w, step, ttl))
  {
    if step.RedisNext? && w.r < |batches| {
      SinkEffect(batches, w.online, w.r, w.r + 1, ttl);
    } else if step.RedisReplay? && 0 < w.r {
      SinkEffect(batches, w.online, w.r, w.r, ttl);
    }
  }

  lemma FieldsKept(batches: seq<seq<Row>>, st: State, st': State, r: nat)
    requires r <= |batches| && OnlineIsLastRow(batches, st, r)
    requires forall u :: u in st'.keys ==> u in st.keys && st'.keys[u].fields == st.keys[u].fields
    ensures OnlineIsLastRow(batches, st', r)
  {
  }

  lemma FirstDelivery(batches: seq<seq<Row>>, w: World, fault: bool)
    requires Sound(batches, w) && w.d < |batches|
    ensures var landed := w.landed + [!GoesToFallback(w.offline, batches[w.d], fault)];
            TableIsLayers(batches, Sunk(w.offline, batches[w.d], fault), landed, w.d + 1)
  {
    if GoesToFallback(w.offline, batches[w.d], fault) {
      Missing(batches, w.offline, Sunk(w.offline, batches[w.d], fault), w.landed, w.d);
    } else {
      Landing(batches, w.offline, w.landed, w.d, w.d + 1, w.landed + [true], fault);
    }
  }

  lemma RepeatedDelivery(batches: seq<seq<Row>>, w: World, fault: bool)
    requires Sound(batches, w) && 0 < w.d
    ensures var i := w.d - 1;
            var landed := w.landed[i := w.landed[i] || !GoesToFallback(w.offline, batches[i], fault)];
            TableIsLayers(batches, Sunk(w.offline, batches[i], fault), landed, w.d)
  {
    var i := w.d - 1;
    if GoesToFallback(w.offline, batches[i], fault) {
      assert w.landed[i := w.landed[i]] == w.landed;
    } else {
      Landing(batches, w.offline, w.landed, w.d, w.d, w.landed[i := true], fault);
    }
  }

  /** Whatever the batches, any interleaving of deliveries, replays, faults, waiting and key extension is sound. */
  lemma {:induction false} RunsAreSound(batches: seq<seq<Row>>, steps: seq<Step>, ttl: int)
    ensures Sound(batches, Reached(batches, steps, ttl))
  {
    if steps == [] {
      assert forall t :: !Layered(batches, [], 0, t);
    } else {
      RunsAreSound(batches, steps[..|steps| - 1], ttl);
      StepKeepsSound(batches, Reached(batches, steps[..|steps| - 1], ttl), steps[|steps| - 1], ttl);
    }
  }

  // ----- agreement of the two stores -----

  /** t is an offline row of u with the latest event date. */
  ghost predicate IsLatest(table: seq<Row>, u: UserId, t: Row) {
    && t in table && t.user == u && EventDate(t).Some?
    && forall s :: s in table && s.user == u && EventDate(s).Some? ==> EventDate(s).value <= EventDate(t).value
  }

  /** No landed row of the user of `row` carries a later date. */
  ghost predicate NoneLater(batches: seq<seq<Row>>, landed: seq<bool>, n: nat, row: Row)
    requires n <= |batches| && n <= |landed| && EventDate(row).Some?
  {
    forall i, s :: 0 <= i < n && landed[i] && s in batches[i] && s.user == row.user && EventDate(s).Some? ==>
      EventDate(s).value <= EventDate(row).value
  }

  /** `row` is dated, came with landed batch k, was not replaced since, and nothing landed for its user is of a later
      day. */
  ghost predicate LatestAt(batches: seq<seq<Row>>, landed: seq<bool>, n: nat, k: nat, row: Row)
    requires k < n <= |batches| && n <= |landed|
  {
    EventDate(row).Some? && Survives(batches, landed, n, k, row) && NoneLater(batches, landed, n, row)
  }

  ghost predicate AllLanded(w: World) {
    forall i :: 0 <= i < |w.landed| ==> w.landed[i]
  }

  /** A landed row leaves a row of its user and day in the table for good. */
  lemma {:induction false} LandedLeavesRow(batches: seq<seq<Row>>, landed: seq<bool>, n: nat, i: nat, s: Row)
    returns (t: Row)
    requires i < n <= |batches| && n <= |landed| && landed[i] && s in batches[i] && EventDate(s).Some?
    ensures Layered(batches, landed, n, t) && Matches(s, t)
    decreases n
  {
    var m := n - 1;
    if i == m {
      t := s;
    } else {
      t := LandedLeavesRow(batches, landed, m, i, s);
      if landed[m] && MatchedBy(batches[m], t) {
        var j :| 0 <= j < |batches[m]| && Matches(t, batches[m][j]);
        t := batches[m][j];
      }
    }
    LayeredLast(batches, landed, m, n, t);
  }

  /** Exactly when a row is a latest offline row of its user, for any batches, faults and replays. */
  lemma LatestIff(batches: seq<seq<Row>>, w: World, row: Row)
    requires Sound(batches, w)
    ensures IsLatest(Rows(w.offline), row.user, row) <==>
            exists k :: 0 <= k < w.d && LatestAt(batches, w.landed, w.d, k, row)
  {
    if IsLatest(Rows(w.offline), row.user, row) {
      assert Layered(batches, w.landed, w.d, row);
      var k :| 0 <= k < w.d && Survives(batches, w.landed, w.d, k, row);
      forall i, s | 0 <= i < w.d && w.landed[i] && s in batches[i] && s.user == row.user && EventDate(s).Some?
        ensures EventDate(s).value <= EventDate(row).value
      {
        var t := LandedLeavesRow(batches, w.landed, w.d, i, s);
        assert t in Rows(w.offline);
      }
      assert LatestAt(batches, w.landed, w.d, k, row);
    }
    if k :| 0 <= k < w.d && LatestAt(batches, w.landed, w.d, k, row) {
      assert Layered(batches, w.landed, w.d, row);
      forall s | s in Rows(w.offline) && s.user == row.user && EventDate(s).Some?
        ensures EventDate(s).value <= EventDate(row).value
      {
        assert Layered(batches, w.landed, w.d, s);
        var i :| 0 <= i < w.d && Survives(batches, w.landed, w.d, i, s);
      }
    }
  }

  /** With a latest row from batch k, the latest rows of that user are exactly the rows of k for the user and day. */
  lemma LatestRowsAre(batches: seq<seq<Row>>, w: World, k: nat, row: Row, s: Row)
    requires Sound(batches, w) && k < w.d && LatestAt(batches, w.landed, w.d, k, row)
    ensures IsLatest(Rows(w.offline), row.user, s) <==> s in batches[k] && Matches(row, s)
  {
    var n, landed := w.d, w.landed;
    LatestIff(batches, w, row);
    if IsLatest(Rows(w.offline), row.user, s) {
      assert Matches(row, s) && Matches(s, row);
      assert Layered(batches, landed, n, s);
      var i :| 0 <= i < n && Survives(batches, landed, n, i, s);
      MatchedIn(batches[k], s, row);
      MatchedIn(batches[i], row, s);
    }
    if s in batches[k] && Matches(row, s) {
      forall j | k < j < n && landed[j]
        ensures !MatchedBy(batches[j], s)
      {
        SameMatches(batches[j], row, s);
      }
      assert LatestAt(batches, landed, n, k, s);
      LatestIff(batches, w, s);
    }
  }

  lemma MatchedIn(batch: seq<Row>, t: Row, s: Row)
    requires s in batch && Matches(t, s)
    ensures MatchedBy(batch, t)
  {
    var i :| 0 <= i < |batch| && batch[i] == s;
  }

  lemma SameMatches(batch: seq<Row>, t: Row, s: Row)
    requires Matches(t, s)
    ensures MatchedBy(batch, t) <==> MatchedBy(batch, s)
  {
    if i :| 0 <= i < |batch| && Matches(t, batch[i]) {
      assert Matches(s, batch[i]);
    }
    if i :| 0 <= i < |batch| && Matches(s, batch[i]) {
      assert Matches(t, batch[i]);
    }
  }

  /** The stored text of the six features is that of the row, nulls as zero. */
  ghost predicate SameFeatures(fields: Hash, row: Row) {
    forall f :: f in FEATURES ==> f in fields && fields[f] == Num(row.OrZero(f))
  }

  /** The time stamp is the row's, or the time of the write if the row has none. */
  ghost predicate SameTime(fields: Hash, row: Row) {
    && ComputedAt in fields
    && (row.OrZero(ComputedAt) != 0.0 ==> fields[ComputedAt] == Num(row.OrZero(ComputedAt)))
  }

  lemma HashOfRow(fields: Hash, row: Row)
    requires HoldsRow(fields, row)
    ensures SameFeatures(fields, row) && SameTime(fields, row)
  {
  }

  // ----- values, as the validator reads them from either store -----

  function OfflineVector(row: Row): Vector {
    map f | f in FEATURES && row.Present(f) :: row.values[f].value
  }

  /** {k: float(v) for k, v in data.items() if k != "computed_at"} */
  function OnlineVector(fields: Hash): Vector {
    map f | f in fields && f != ComputedAt && fields[f].Num? :: fields[f].value
  }

  ghost predicate SameSix(s: Row, t: Row) {
    forall f :: f in FEATURES ==> s.OrZero(f) == t.OrZero(f)
  }

  /** online_value == offline_value, on all six features. */
  ghost predicate SameValues(t: Row, fields: Hash) {
    forall f :: f in FEATURES ==> Value(OfflineVector(t), f) == Value(OnlineVector(fields), f)
  }

  lemma VectorValues(fields: Hash, row: Row, t: Row, f: Field)
    requires SameFeatures(fields, row) && f in FEATURES
    ensures Value(OfflineVector(t), f) == t.OrZero(f) && Value(OnlineVector(fields), f) == row.OrZero(f)
  {
    assert f != ComputedAt;
  }

  lemma SameValuesIff(fields: Hash, row: Row, t: Row)
    requires SameFeatures(fields, row)
    ensures SameValues(t, fields) <==> SameSix(t, row)
  {
    forall f | f in FEATURES
      ensures Value(OfflineVector(t), f) == t.OrZero(f) && Value(OnlineVector(fields), f) == row.OrZero(f)
    {
      VectorValues(fields, row, t, f);
    }
  }

  /** There is a latest offline row of u, and whichever is read has the values of the online hash. */
  ghost predicate OfflineAgrees(w: World, u: UserId)
    requires u in w.online.keys
  {
    && (exists t :: IsLatest(Rows(w.offline), u, t))
    && forall t :: IsLatest(Rows(w.offline), u, t) ==> SameValues(t, w.online.keys[u].fields)
  }

  /** By what was delivered and landed u has latest rows, and they have the six features of `row`. */
  ghost predicate Agreed(batches: seq<seq<Row>>, landed: seq<bool>, n: nat, u: UserId, row: Row)
    requires n <= |batches| && n <= |landed|
  {
    && (exists k, s :: 0 <= k < n && LatestAt(batches, landed, n, k, s) && s.user == u)
    && forall k, s :: 0 <= k < n && LatestAt(batches, landed, n, k, s) && s.user == u ==> SameSix(s, row)
  }

  lemma AgreesIff(batches: seq<seq<Row>>, w: World, u: UserId, row: Row)
    requires Sound(batches, w) && u in w.online.keys && SameFeatures(w.online.keys[u].fields, row)
    ensures OfflineAgrees(w, u) <==> Agreed(batches, w.landed, w.d, u, row)
  {
    var fields := w.online.keys[u].fields;
    forall t
      ensures SameValues(t, fields) <==> SameSix(t, row)
    {
      SameValuesIff(fields, row, t);
    }
    forall t: Row | t.user == u
      ensures IsLatest(Rows(w.offline), u, t) <==> exists k :: 0 <= k < w.d && LatestAt(batches, w.landed, w.d, k, t)
    {
      LatestIff(batches, w, t);
    }
  }

  /**
   * online_value == offline_value, for any batches and any run. A live hash holds features and time stamp of its
   * user's last delivered row. Whichever latest offline row is read agrees with it exactly if every row that landed
   * last for the user's latest day has the same six features. And the delivered row itself is among the latest ones
   * exactly if it is one of those that landed last.
   */
  lemma StoresAgree(batches: seq<seq<Row>>, steps: seq<Step>, ttl: int, u: UserId)
    requires u in Reached(batches, steps, ttl).online.keys
    ensures var w := Reached(batches, steps, ttl);
            && w.r <= |batches| && w.d == |w.landed| <= |batches| && LastRow(batches, w.r, u).Some?
            && var row := LastRow(batches, w.r, u).value;
            && row.user == u && SameFeatures(w.online.keys[u].fields, row) && SameTime(w.online.keys[u].fields, row)
            && (OfflineAgrees(w, u) <==> Agreed(batches, w.landed, w.d, u, row))
            && (IsLatest(Rows(w.offline), u, row) <==>
                exists k :: 0 <= k < w.d && LatestAt(batches, w.landed, w.d, k, row))
  {
    var w := Reached(batches, steps, ttl);
    RunsAreSound(batches, steps, ttl);
    var _ := LastRowAt(batches, w.r, u);
    var row := LastRow(batches, w.r, u).value;
    HashOfRow(w.online.keys[u].fields, row);
    LatestIff(batches, w, row);
    AgreesIff(batches, w, u, row);
  }

  /** Given any one latest row of the user, from batch k: the user's rows of batch k for that day decide. */
  lemma LatestBatchDecides(batches: seq<seq<Row>>, w: World, u: UserId, k: nat, latest: Row)
    requires Sound(batches, w) && u in w.online.keys && k < w.d
    requires LatestAt(batches, w.landed, w.d, k, latest) && latest.user == u
    ensures LastRow(batches, w.r, u).Some?
    ensures OfflineAgrees(w, u) <==>
            forall s :: s in batches[k] && Matches(latest, s) ==> SameSix(s, LastRow(batches, w.r, u).value)
  {
    var row, fields := LastRow(batches, w.r, u).value, w.online.keys[u].fields;
    HashOfRow(fields, row);
    forall s
      ensures SameValues(s, fields) <==> SameSix(s, row)
      ensures IsLatest(Rows(w.offline), u, s) <==> s in batches[k] && Matches(latest, s)
    {
      SameValuesIff(fields, row, s);
      LatestRowsAre(batches, w, k, latest, s);
    }
    assert latest in batches[k] && Matches(latest, latest);
  }

  /** Without a lost delivery and with both sinks at the same batch, all that matters is that no date was later. */
  lemma LastIsLatestIff(batches: seq<seq<Row>>, w: World, u: UserId)
    requires Sound(batches, w) && AllLanded(w) && LastRow(batches, w.d, u).Some?
    ensures var row := LastRow(batches, w.d, u).value;
            IsLatest(Rows(w.offline), u, row) <==>
            EventDate(row).Some? && NoneLater(batches, w.landed, w.d, row)
  {
    var row := LastRow(batches, w.d, u).value;
    var k := LastRowAt(batches, w.d, u);
    LatestIff(batches, w, row);
    assert Survives(batches, w.landed, w.d, k, row);
    if EventDate(row).Some? && NoneLater(batches, w.landed, w.d, row) {
      assert LatestAt(batches, w.landed, w.d, k, row);
    }
  }

  // ----- and what the validator makes of it -----

  /** Live users, and for each some latest offline row. */
  ghost predicate Choice(w: World, users: seq<UserId>, latest: map<UserId, Row>) {
    forall u :: u in users ==> u in w.online.keys && u in latest && IsLatest(Rows(w.offline), u, latest[u])
  }

  function SampleOf(w: World, users: seq<UserId>, latest: map<UserId, Row>): Sample
    requires forall u :: u in users ==> u in w.online.keys && u in latest
  {
    Sample(users, map u | u in users :: OfflineVector(latest[u]),
           map u | u in users :: OnlineVector(w.online.keys[u].fields))
  }

  lemma SampleValues(w: World, users: seq<UserId>, latest: map<UserId, Row>, u: UserId)
    requires (forall v :: v in users ==> v in w.online.keys && v in latest) && u in users
    ensures var s := SampleOf(w, users, latest);
            s.OfflineOf(u) == OfflineVector(latest[u]) && s.OnlineOf(u) == OnlineVector(w.online.keys[u].fields)
  {
  }

  /** Reports from agreeing values are zero throughout. */
  lemma EqualValuesReportZero(w: World, users: seq<UserId>, latest: map<UserId, Row>, threshold: real)
    requires NoDup(users) && Choice(w, users, latest) && threshold >= 0.0
    requires forall u :: u in users ==> SameValues(latest[u], w.online.keys[u].fields)
    ensures var s := SampleOf(w, users, latest);
            var r := ReportOf(s, threshold);
            && s.Valid() && r.inconsistentUsers == 0 && r.inconsistencyRate == 0.0 && r.maxDeviation == 0.0
            && r.IsHealthy(threshold) && ClassifySkewSeverity(r) == NoSkew
  {
    var s := SampleOf(w, users, latest);
    forall u, k | u in s.order && 0 <= k < |FEATURES|
      ensures Value(s.OfflineOf(u), FEATURES[k]) == Value(s.OnlineOf(u), FEATURES[k])
    {
      SampleValues(w, users, latest, u);
    }
    EqualSidesReportZero(s, threshold);
  }

  /** Validating any sample of users that agree reports no inconsistency at all, in any run and for any threshold. */
  lemma ValidationReportsZero(batches: seq<seq<Row>>, w: World, users: seq<UserId>, latest: map<UserId, Row>,
                              threshold: real)
    requires Sound(batches, w) && NoDup(users) && Choice(w, users, latest) && threshold >= 0.0
    requires forall u :: u in users ==> Agreed(batches, w.landed, w.d, u, LastRow(batches, w.r, u).value)
    ensures var s := SampleOf(w, users, latest);
            var r := ReportOf(s, threshold);
            && s.Valid() && r.inconsistentUsers == 0 && r.inconsistencyRate == 0.0 && r.maxDeviation == 0.0
            && r.IsHealthy(threshold) && ClassifySkewSeverity(r) == NoSkew
  {
    forall u | u in users
      ensures SameValues(latest[u], w.online.keys[u].fields)
    {
      HashOfRow(w.online.keys[u].fields, LastRow(batches, w.r, u).value);
      AgreesIff(batches, w, u, LastRow(batches, w.r, u).value);
    }
    EqualValuesReportZero(w, users, latest, threshold);
  }

  /** A report of no inconsistent user at threshold 0 means equal values for every user. */
  lemma ZeroReportMeansEqual(w: World, users: seq<UserId>, latest: map<UserId, Row>, u: UserId)
    requires NoDup(users) && Choice(w, users, latest) && u in users
    requires ReportOf(SampleOf(w, users, latest), 0.0).inconsistentUsers == 0
    ensures SameValues(latest[u], w.online.keys[u].fields)
  {
    var s := SampleOf(w, users, latest);
    NobodyInconsistentIff(s, 0.0);
    SampleValues(w, users, latest, u);
    forall f | f in FEATURES
      ensures Value(OfflineVector(latest[u]), f) == Value(OnlineVector(w.online.keys[u].fields), f)
    {
      var k :| 0 <= k < |FEATURES| && FEATURES[k] == f;
      assert s.DeviationOf(u, FEATURES[k]) <= 0.0;
      DeviationNonNegative(Value(s.OfflineOf(u), f), Value(s.OnlineOf(u), f));
    }
  }

  /** Exactly then: no choice of latest rows gives an inconsistent user, at the strictest threshold, if and only if
      every user of the sample agrees. */
  lemma ValidationZeroIff(batches: seq<seq<Row>>, w: World, users: seq<UserId>, latest: map<UserId, Row>)
    requires Sound(batches, w) && NoDup(users) && Choice(w, users, latest)
    ensures (forall choice :: Choice(w, users, choice) ==>
               ReportOf(SampleOf(w, users, choice), 0.0).inconsistentUsers == 0)
       <==> (forall u :: u in users ==> Agreed(batches, w.landed, w.d, u, LastRow(batches, w.r, u).value))
  {
    if forall u :: u in users ==> Agreed(batches, w.landed, w.d, u, LastRow(batches, w.r, u).value) {
      forall choice | Choice(w, users, choice)
        ensures ReportOf(SampleOf(w, users, choice), 0.0).inconsistentUsers == 0
      {
        ValidationReportsZero(batches, w, users, choice, 0.0);
      }
    } else {
      var u :| u in users && !Agreed(batches, w.landed, w.d, u, LastRow(batches, w.r, u).value);
      var choice := DisagreeingChoice(batches, w, users, latest, u);
      if ReportOf(SampleOf(w, users, choice), 0.0).inconsistentUsers == 0 {
        ZeroReportMeansEqual(w, users, choice, u);
      }
    }
  }

  lemma DisagreeingRow(batches: seq<seq<Row>>, w: World, u: UserId, latest: Row) returns (t: Row)
    requires Sound(batches, w) && u in w.online.keys && IsLatest(Rows(w.offline), u, latest)
    requires !Agreed(batches, w.landed, w.d, u, LastRow(batches, w.r, u).value)
    ensures IsLatest(Rows(w.offline), u, t) && !SameValues(t, w.online.keys[u].fields)
  {
    HashOfRow(w.online.keys[u].fields, LastRow(batches, w.r, u).value);
    AgreesIff(batches, w, u, LastRow(batches, w.r, u).value);
    t :| IsLatest(Rows(w.offline), u, t) && !SameValues(t, w.online.keys[u].fields);
  }

  lemma OtherChoice(w: World, users: seq<UserId>, latest: map<UserId, Row>, u: UserId, t: Row)
    requires Choice(w, users, latest) && IsLatest(Rows(w.offline), u, t)
    ensures Choice(w, users, latest[u := t])
  {
  }

  lemma DisagreeingChoice(batches: seq<seq<Row>>, w: World, users: seq<UserId>, latest: map<UserId, Row>, u: UserId)
    returns (choice: map<UserId, Row>)
    requires Sound(batches, w) && Choice(w, users, latest) && u in users
    requires !Agreed(batches, w.landed, w.d, u, LastRow(batches, w.r, u).value)
    ensures Choice(w, users, choice) && !SameValues(choice[u], w.online.keys[u].fields)
  {
    var t := DisagreeingRow(batches, w, u, latest[u]);
    OtherChoice(w, users, latest, u, t);
    choice := latest[u := t];
  }

  // ----- runs in which the stores disagree -----

  lemma ReachedOneMore(batches: seq<seq<Row>>, steps: seq<Step>, step: Step, ttl: int)
    ensures Reached(batches, steps + [step], ttl) == Do(batches, Reached(batches, steps, ttl), step, ttl)
  {
    assert (steps + [step])[..|steps|] == steps;
  }

  lemma RowForSole(u: UserId, row: Row)
    requires row.user == u
    ensures OneRowPerUser([row]) && RowFor([row], u) == Some(row)
  {
    assert [row][..0] == [];
  }

  /** Delivering a single row makes its user's key live. */
  lemma RowGoesLive(batches: seq<seq<Row>>, steps: seq<Step>, u: UserId, row: Row)
    requires Reached(batches, steps, 300).r < |batches|
    requires batches[Reached(batches, steps, 300).r] == [row] && row.user == u
    ensures u in Reached(batches, steps + [RedisNext], 300).online.keys
  {
    var w := Reached(batches, steps, 300);
    ReachedOneMore(batches, steps, RedisNext, 300);
    EffectOfWrites(w.online, RowWrites([row], w.online.now), 300);
    assert RowWrites([row], w.online.now)[0].user == u;
  }

  lemma FirstOnline(batches: seq<seq<Row>>, ttl: int)
    requires batches != []
    ensures var w := Reached(batches, [RedisNext], ttl);
            w.r == 1 && w.d == 0 && w.landed == [] && w.offline == NO_TABLE
  {
    ReachedOneMore(batches, [], RedisNext, ttl);
    assert [] + [RedisNext] == [RedisNext];
  }

  lemma FaultMisses(batches: seq<seq<Row>>, w: World, ttl: int)
    requires w.d < |batches| && batches[w.d] != []
    ensures var w' := Do(batches, w, DeltaNext(true), ttl);
            && w'.online == w.online && w'.r == w.r && w'.d == w.d + 1
            && w'.landed == w.landed + [false] && Rows(w'.offline) == Rows(w.offline)
  {
  }

  lemma FaultyRun(batches: seq<seq<Row>>, ttl: int)
    requires batches != [] && batches[0] != []
    ensures var w, w' := Reached(batches, [RedisNext], ttl), Reached(batches, [RedisNext, DeltaNext(true)], ttl);
            w'.r == w'.d == 1 && w'.landed == [false] && w'.online == w.online && Rows(w'.offline) == []
  {
    FirstOnline(batches, ttl);
    FaultMisses(batches, Reached(batches, [RedisNext], ttl), ttl);
    ReachedOneMore(batches, [RedisNext], DeltaNext(true), ttl);
    assert [RedisNext] + [DeltaNext(true)] == [RedisNext, DeltaNext(true)];
  }

  /** A fault on first delivery that is never replayed leaves an online value without any offline row. */
  lemma UnrepairedFaultBreaksAgreement(u: UserId, row: Row)
    requires row.user == u
    ensures var w := Reached([[row]], [RedisNext, DeltaNext(true)], 300);
            && w.r == w.d == 1 && w.landed == [false]
            && u in w.online.keys && SameFeatures(w.online.keys[u].fields, row) && Rows(w.offline) == []
            && !OfflineAgrees(w, u)
  {
    var batches := [[row]];
    RowForSole(u, row);
    FaultyRun(batches, 300);
    FirstOnline(batches, 300);
    assert [] + [RedisNext] == [RedisNext];
    RowGoesLive(batches, [], u, row);
    StoresAgree(batches, [RedisNext], 300, u);
    assert LastRow(batches, 1, u) == Some(row);
  }

  lemma PairDelivered(batches: seq<seq<Row>>, ttl: int)
    requires batches != []
    ensures var w0 := Reached(batches, [DeltaNext(false)], ttl);
            var w := Reached(batches, [DeltaNext(false), RedisNext], ttl);
            && w0.r == 0 && w.r == w.d == 1 && w.landed == [true]
            && w.online == Next(w0.online, Sink(batches[0]), ttl)
  {
    assert [] + [DeltaNext(false)] == [DeltaNext(false)];
    assert [DeltaNext(false)] + [RedisNext] == [DeltaNext(false), RedisNext];
    ReachedOneMore(batches, [], DeltaNext(false), ttl);
    ReachedOneMore(batches, [DeltaNext(false)], RedisNext, ttl);
  }

  lemma RowForPair(u: UserId, first: Row, second: Row)
    requires first.user == second.user == u
    ensures RowFor([first, second], u) == Some(second)
  {
  }

  lemma PairGoesLive(st: State, batch: seq<Row>, u: UserId)
    requires batch != [] && batch[0].user == u
    ensures u in Next(st, Sink(batch), 300).keys
  {
    EffectOfWrites(st, RowWrites(batch, st.now), 300);
    assert RowWrites(batch, st.now)[0].user == u;
  }

  /** Two different rows of a user in one batch, for one day: both are latest offline, the online store shows the
      second, and reading the first one gives other values, without any fault or earlier date. */
  lemma RowsOfOneBatchBreakAgreement(u: UserId, first: Row, second: Row)
    requires first.user == second.user == u && EventDate(first).Some? && EventDate(first) == EventDate(second)
    requires !SameSix(first, second)
    ensures var w := Reached([[first, second]], [DeltaNext(false), RedisNext], 300);
            && w.r == w.d == 1 && AllLanded(w) && u in w.online.keys
            && SameFeatures(w.online.keys[u].fields, second)
            && IsLatest(Rows(w.offline), u, first) && IsLatest(Rows(w.offline), u, second) && !OfflineAgrees(w, u)
  {
    var batches, steps := [[first, second]], [DeltaNext(false), RedisNext];
    var w := Reached(batches, steps, 300);
    PairDelivered(batches, 300);
    PairGoesLive(Reached(batches, [DeltaNext(false)], 300).online, batches[0], u);
    RowForPair(u, first, second);
    RunsAreSound(batches, steps, 300);
    StoresAgree(batches, steps, 300, u);
    PairIsLatest(batches, w, first, second);
    assert LastRow(batches, 1, u) == Some(second);
  }

  lemma PairIsLatest(batches: seq<seq<Row>>, w: World, first: Row, second: Row)
    requires Sound(batches, w) && batches == [[first, second]] && w.d == 1 && w.landed == [true]
    requires first.user == second.user && EventDate(first).Some? && EventDate(first) == EventDate(second)
    ensures LatestAt(batches, w.landed, 1, 0, first) && LatestAt(batches, w.landed, 1, 0, second)
    ensures IsLatest(Rows(w.offline), first.user, first) && IsLatest(Rows(w.offline), first.user, second)
  {
    LatestIff(batches, w, first);
    LatestIff(batches, w, second);
    assert Survives(batches, w.landed, 1, 0, first) && Survives(batches, w.landed, 1, 0, second);
    assert LatestAt(batches, w.landed, 1, 0, first) && LatestAt(batches, w.landed, 1, 0, second);
  }

  /** One batch after another to both sinks, nothing going wrong. */
  const PLAIN_RUN := [DeltaNext(false), DeltaNext(false), RedisNext, RedisNext]

  /** If a user's second row is of an earlier day, the online store shows that row and the offline store the first. */
  lemma EarlierDayBreaksAgreement(u: UserId, first: Row, second: Row)
    requires first.user == second.user == u && EventDate(first).Some? && EventDate(second).Some?
    requires EventDate(second).value < EventDate(first).value
    ensures var w := Reached([[first], [second]], PLAIN_RUN, 300);
            && w.r == w.d == 2 && AllLanded(w) && u in w.online.keys
            && SameFeatures(w.online.keys[u].fields, second)
            && IsLatest(Rows(w.offline), u, first) && !IsLatest(Rows(w.offline), u, second)
            && (OfflineAgrees(w, u) <==> SameSix(first, second))
  {
    var batches := [[first], [second]];
    RowForSole(u, first);
    RowForSole(u, second);
    PlainRunDelivers(batches);
    var steps := PLAIN_RUN[..3];
    assert steps + [RedisNext] == PLAIN_RUN;
    RowGoesLive(batches, steps, u, second);
    RunsAreSound(batches, PLAIN_RUN, 300);
    StoresAgree(batches, PLAIN_RUN, 300, u);
    assert LastRow(batches, 2, u) == Some(second);
    FirstIsLatest(batches, Reached(batches, PLAIN_RUN, 300), first, second);
    LatestBatchDecides(batches, Reached(batches, PLAIN_RUN, 300), u, 0, first);
  }

  /** A batch with unique keys lands exactly if there is no fault, or nothing to write. */
  lemma UniqueLandsIff(batches: seq<seq<Row>>, steps: seq<Step>, fault: bool, ttl: int)
    requires Reached(batches, steps, ttl).d < |batches| && UniqueKeys(batches[Reached(batches, steps, ttl).d])
    ensures var w, w' := Reached(batches, steps, ttl), Reached(batches, steps + [DeltaNext(fault)], ttl);
            w'.landed == w.landed + [!fault || batches[w.d] == []]
  {
    var w := Reached(batches, steps, ttl);
    ReachedOneMore(batches, steps, DeltaNext(fault), ttl);
    UniqueMatch(Rows(w.offline), batches[w.d]);
  }

  /** A batch with one row per user lands unless there is a fault. */
  lemma FaultlessLands(batches: seq<seq<Row>>, steps: seq<Step>, ttl: int)
    requires Reached(batches, steps, ttl).d < |batches| && OneRowPerUser(batches[Reached(batches, steps, ttl).d])
    ensures var w, w' := Reached(batches, steps, ttl), Reached(batches, steps + [DeltaNext(false)], ttl);
            w'.d == w.d + 1 && w'.r == w.r && w'.landed == w.landed + [true]
  {
    var w := Reached(batches, steps, ttl);
    var batch := batches[w.d];
    ReachedOneMore(batches, steps, DeltaNext(false), ttl);
    forall i, j | 0 <= i < j < |batch|
      ensures !Matches(batch[i], batch[j])
    {
      assert batch[i].user != batch[j].user;
    }
    UniqueMatch(Rows(w.offline), batch);
  }

  lemma PlainRunDelivers(batches: seq<seq<Row>>)
    requires |batches| == 2 && OneRowPerUser(batches[0]) && OneRowPerUser(batches[1])
    ensures var w, w' := Reached(batches, PLAIN_RUN[..3], 300), Reached(batches, PLAIN_RUN, 300);
            w.r == 1 && w'.r == w'.d == 2 && w'.landed == [true, true]
  {
    var s2, s3 := PLAIN_RUN[..2], PLAIN_RUN[..3];
    assert s2 + [RedisNext] == s3 && s3 + [RedisNext] == PLAIN_RUN;
    TwoLandings(batches);
    ReachedOneMore(batches, s2, RedisNext, 300);
    ReachedOneMore(batches, s3, RedisNext, 300);
  }

  lemma TwoLandings(batches: seq<seq<Row>>)
    requires |batches| == 2 && OneRowPerUser(batches[0]) && OneRowPerUser(batches[1])
    ensures var w := Reached(batches, PLAIN_RUN[..2], 300);
            w.r == 0 && w.d == 2 && w.landed == [true, true]
  {
    var s1, s2 := PLAIN_RUN[..1], PLAIN_RUN[..2];
    assert [] + [DeltaNext(false)] == s1 && s1 + [DeltaNext(false)] == s2;
    FaultlessLands(batches, [], 300);
    FaultlessLands(batches, s1, 300);
  }

  lemma FirstIsLatest(batches: seq<seq<Row>>, w: World, first: Row, second: Row)
    requires batches == [[first], [second]] && first.user == second.user
    requires Sound(batches, w) && w.d == 2 && AllLanded(w)
    requires EventDate(first).Some? && EventDate(second).Some? && EventDate(second).value < EventDate(first).value
    ensures IsLatest(Rows(w.offline), first.user, first) && !IsLatest(Rows(w.offline), first.user, second)
    ensures LatestAt(batches, w.landed, w.d, 0, first)
  {
    assert Survives(batches, w.landed, 2, 0, first);
    assert LatestAt(batches, w.landed, 2, 0, first);
    LatestIff(batches, w, first);
  }
}
