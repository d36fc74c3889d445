/** Runs over batches of one date each in which every user has more than one row: only the first of a day lands. */
module RepeatedUsers {
  import opened Wrappers
  import opened Events
  import opened FeatureSchema
  import opened OfflineStore
  import opened Agreement

  ghost predicate HasUser(batch: seq<Row>, u: UserId) {
    exists r :: r in batch && r.user == u
  }

  ghost predicate Repeated(batch: seq<Row>, day: int) {
    && (forall r :: r in batch ==> EventDate(r) == Some(day))
    && forall u :: HasUser(batch, u) ==> exists i, j :: 0 <= i < j < |batch| && batch[i].user == batch[j].user == u
  }

  ghost predicate AllRepeated(batches: seq<seq<Row>>, days: seq<int>) {
    |batches| == |days| && forall i :: 0 <= i < |batches| ==> Repeated(batches[i], days[i])
  }

  /** The table has a row of u for the day. */
  ghost predicate Knows(st: Delta, u: UserId, day: int) {
    exists known :: known in Rows(st) && known.user == u && EventDate(known) == Some(day)
  }

  lemma RefusedRow(st: Delta, batch: seq<Row>) returns (known: Row, row: Row)
    requires GoesToFallback(st, batch, false)
    ensures known in Rows(st) && row in batch && Matches(known, row)
  {
    var k, i, j :| 0 <= k < |Rows(st)| && 0 <= i < j < |batch|
                   && Matches(Rows(st)[k], batch[i]) && Matches(Rows(st)[k], batch[j]);
    known, row := Rows(st)[k], batch[i];
  }

  lemma KnownForcesFallback(st: Delta, batch: seq<Row>, day: int, u: UserId)
    requires Repeated(batch, day) && HasUser(batch, u) && Knows(st, u, day)
    ensures GoesToFallback(st, batch, false)
  {
    var known :| known in Rows(st) && known.user == u && EventDate(known) == Some(day);
    var i, j :| 0 <= i < j < |batch| && batch[i].user == batch[j].user == u;
    assert batch[i] in batch && batch[j] in batch;
    var k :| 0 <= k < |Rows(st)| && Rows(st)[k] == known;
    assert Matches(Rows(st)[k], batch[i]) && Matches(Rows(st)[k], batch[j]);
  }

  /** Without an outside fault such a batch is refused exactly when the table knows one of its users for the day. */
  lemma RefusedIff(st: Delta, batch: seq<Row>, day: int)
    requires Repeated(batch, day)
    ensures GoesToFallback(st, batch, false) <==> exists u :: HasUser(batch, u) && Knows(st, u, day)
  {
    if GoesToFallback(st, batch, false) {
      var known, row := RefusedRow(st, batch);
      assert HasUser(batch, row.user) && Knows(st, row.user, day);
    }
    if u :| HasUser(batch, u) && Knows(st, u, day) {
      KnownForcesFallback(st, batch, day, u);
    }
  }

  /** Batch i has landed, is of that day, and has a row of u. */
  ghost predicate LandedOn(batches: seq<seq<Row>>, days: seq<int>, landed: seq<bool>, i: nat, u: UserId, day: int)
    requires i < |batches| == |days| && i < |landed|
  {
    landed[i] && days[i] == day && HasUser(batches[i], u)
  }

  lemma KnowsIffLanded(batches: seq<seq<Row>>, days: seq<int>, w: World, u: UserId, day: int)
    requires AllRepeated(batches, days) && Sound(batches, w)
    ensures Knows(w.offline, u, day) <==> exists i :: 0 <= i < w.d && LandedOn(batches, days, w.landed, i, u, day)
  {
    if known :| known in Rows(w.offline) && known.user == u && EventDate(known) == Some(day) {
      assert Layered(batches, w.landed, w.d, known);
      var i :| 0 <= i < w.d && Survives(batches, w.landed, w.d, i, known);
      assert Repeated(batches[i], days[i]);
      assert LandedOn(batches, days, w.landed, i, u, day);
    }
    if i :| 0 <= i < w.d && LandedOn(batches, days, w.landed, i, u, day) {
      var row :| row in batches[i] && row.user == u;
      assert Repeated(batches[i], days[i]);
      var t := LandedLeavesRow(batches, w.landed, w.d, i, row);
      assert t in Rows(w.offline);
    }
  }

  /** No user of batch j has already landed on its day among the first n batches. */
  ghost predicate NewThatDay(batches: seq<seq<Row>>, days: seq<int>, landed: seq<bool>, n: nat, j: nat)
    requires j < |batches| == |days| && n <= |batches| && n <= |landed|
  {
    forall i, u :: 0 <= i < n && HasUser(batches[j], u) ==> !LandedOn(batches, days, landed, i, u, days[j])
  }

  lemma GoesThroughIff(batches: seq<seq<Row>>, days: seq<int>, w: World, j: nat)
    requires AllRepeated(batches, days) && Sound(batches, w) && j < |batches|
    ensures !GoesToFallback(w.offline, batches[j], false) <==> NewThatDay(batches, days, w.landed, w.d, j)
  {
    RefusedIff(w.offline, batches[j], days[j]);
    forall u
      ensures Knows(w.offline, u, days[j]) <==>
              exists i :: 0 <= i < w.d && LandedOn(batches, days, w.landed, i, u, days[j])
    {
      KnowsIffLanded(batches, days, w, u, days[j]);
    }
  }

  /** In any run the next batch lands exactly if none of its users has landed on its day before. */
  lemma NextLandsIff(batches: seq<seq<Row>>, days: seq<int>, steps: seq<Step>, ttl: int)
    requires AllRepeated(batches, days) && Reached(batches, steps, ttl).d < |batches|
    ensures var w, w' := Reached(batches, steps, ttl), Reached(batches, steps + [DeltaNext(false)], ttl);
            w.d == |w.landed| && w'.landed == w.landed + [NewThatDay(batches, days, w.landed, w.d, w.d)]
  {
    RunsAreSound(batches, steps, ttl);
    ReachedOneMore(batches, steps, DeltaNext(false), ttl);
    GoesThroughIff(batches, days, Reached(batches, steps, ttl), Reached(batches, steps, ttl).d);
  }

  /** No two landed batches of one day share a user. */
  ghost predicate DaysDisjoint(batches: seq<seq<Row>>, days: seq<int>, landed: seq<bool>)
    requires |landed| <= |batches| == |days|
  {
    forall j :: 0 <= j < |landed| && landed[j] ==> NewThatDay(batches, days, landed, j, j)
  }

  lemma LandingKeepsDisjoint(batches: seq<seq<Row>>, days: seq<int>, landed: seq<bool>, j: nat, landed': seq<bool>)
    requires j + 1 == |landed'| <= |batches| == |days| && (|landed| == j || |landed| == j + 1)
    requires DaysDisjoint(batches, days, landed) && forall i :: 0 <= i < j ==> landed'[i] == landed[i]
    requires landed'[j] ==> NewThatDay(batches, days, landed, j, j)
    ensures DaysDisjoint(batches, days, landed')
  {
    forall m | 0 <= m < |landed'| && landed'[m]
      ensures NewThatDay(batches, days, landed', m, m)
    {
      assert NewThatDay(batches, days, landed, m, m);
      forall i, u | 0 <= i < m && HasUser(batches[m], u)
        ensures !LandedOn(batches, days, landed', i, u, days[m])
      {
        assert !LandedOn(batches, days, landed, i, u, days[m]);
      }
    }
  }

  lemma FirstKeepsDisjoint(batches: seq<seq<Row>>, days: seq<int>, w: World, fault: bool)
    requires AllRepeated(batches, days) && Sound(batches, w) && DaysDisjoint(batches, days, w.landed) && w.d < |batches|
    ensures DaysDisjoint(batches, days, w.landed + [!GoesToFallback(w.offline, batches[w.d], fault)])
  {
    var landed' := w.landed + [!GoesToFallback(w.offline, batches[w.d], fault)];
    GoesThroughIff(batches, days, w, w.d);
    LandingKeepsDisjoint(batches, days, w.landed, w.d, landed');
  }

  lemma ReplayKeepsDisjoint(batches: seq<seq<Row>>, days: seq<int>, w: World, fault: bool)
    requires AllRepeated(batches, days) && Sound(batches, w) && DaysDisjoint(batches, days, w.landed) && 0 < w.d
    ensures var j := w.d - 1;
            DaysDisjoint(batches, days, w.landed[j := w.landed[j] || !GoesToFallback(w.offline, batches[j], fault)])
  {
    var j := w.d - 1;
    if GoesToFallback(w.offline, batches[j], fault) {
      assert w.landed[j := w.landed[j]] == w.landed;
    } else {
      GoesThroughIff(batches, days, w, j);
      LandingKeepsDisjoint(batches, days, w.landed, j, w.landed[j := true]);
    }
  }

  /** So for each day a user is stored by one batch only, the first that lands, in every run. */
  lemma {:induction false} FirstBatchOfDayWins(batches: seq<seq<Row>>, days: seq<int>, steps: seq<Step>, ttl: int)
    requires AllRepeated(batches, days)
    ensures Sound(batches, Reached(batches, steps, ttl))
            && DaysDisjoint(batches, days, Reached(batches, steps, ttl).landed)
  {
    RunsAreSound(batches, steps, ttl);
    if steps == [] {
    } else {
      var w := Reached(batches, steps[..|steps| - 1], ttl);
      FirstBatchOfDayWins(batches, days, steps[..|steps| - 1], ttl);
      match steps[|steps| - 1]
      case RedisNext =>
      case RedisReplay =>
      case DeltaNext(fault) =>
        if w.d < |batches| {
          FirstKeepsDisjoint(batches, days, w, fault);
        }
      case DeltaReplay(fault) =>
        if 0 < w.d {
          ReplayKeepsDisjoint(batches, days, w, fault);
        }
      case Wait(seconds) =>
      case ExtendKey(u) =>
    }
  }

  /** A row that has landed is never replaced. */
  lemma LandedRowStays(batches: seq<seq<Row>>, days: seq<int>, landed: seq<bool>, k: nat, row: Row)
    requires AllRepeated(batches, days) && k < |landed| <= |batches| && DaysDisjoint(batches, days, landed)
    requires landed[k] && row in batches[k]
    ensures Survives(batches, landed, |landed|, k, row)
  {
    assert Repeated(batches[k], days[k]);
    forall j | k < j < |landed| && landed[j]
      ensures !MatchedBy(batches[j], row)
    {
      assert NewThatDay(batches, days, landed, j, j) && Repeated(batches[j], days[j]);
      assert HasUser(batches[k], row.user);
      assert HasUser(batches[j], row.user) ==> !LandedOn(batches, days, landed, k, row.user, days[j]);
      assert forall i :: 0 <= i < |batches[j]| ==> batches[j][i] in batches[j];
    }
  }

  /** Batch k has landed with a row of u, and none of u has landed for a later day. */
  ghost predicate LastOn(batches: seq<seq<Row>>, days: seq<int>, landed: seq<bool>, k: nat, u: UserId)
    requires k < |landed| <= |batches| == |days|
  {
    && landed[k] && HasUser(batches[k], u)
    && forall i :: 0 <= i < |landed| && landed[i] && HasUser(batches[i], u) ==> days[i] <= days[k]
  }

  /** The latest rows of a user are all its rows in the landed batch of its last day. */
  lemma LatestAtIff(batches: seq<seq<Row>>, days: seq<int>, landed: seq<bool>, k: nat, s: Row)
    requires AllRepeated(batches, days) && k < |landed| <= |batches| && DaysDisjoint(batches, days, landed)
    ensures LatestAt(batches, landed, |landed|, k, s) <==>
            LastOn(batches, days, landed, k, s.user) && s in batches[k]
  {
    if s in batches[k] && landed[k] {
      assert Repeated(batches[k], days[k]) && HasUser(batches[k], s.user);
      LandedRowStays(batches, days, landed, k, s);
      NoneLaterIff(batches, days, landed, k, s);
    }
  }

  lemma NoneLaterIff(batches: seq<seq<Row>>, days: seq<int>, landed: seq<bool>, k: nat, s: Row)
    requires AllRepeated(batches, days) && k < |landed| <= |batches| && EventDate(s) == Some(days[k])
    ensures NoneLater(batches, landed, |landed|, s) <==>
            forall i :: 0 <= i < |landed| && landed[i] && HasUser(batches[i], s.user) ==> days[i] <= days[k]
  {
    if NoneLater(batches, landed, |landed|, s) {
      forall i | 0 <= i < |landed| && landed[i] && HasUser(batches[i], s.user)
        ensures days[i] <= days[k]
      {
        var r :| r in batches[i] && r.user == s.user;
        assert Repeated(batches[i], days[i]);
      }
    } else {
      var i, r :| 0 <= i < |landed| && landed[i] && r in batches[i] && r.user == s.user && EventDate(r).Some?
                  && EventDate(r).value > EventDate(s).value;
      assert Repeated(batches[i], days[i]) && HasUser(batches[i], s.user);
    }
  }

  /** Agreement of the values: all rows of the user in the landed batch of its last day have to carry the same six
      features as the row the online store holds. */
  lemma ValuesAgreeIff(batches: seq<seq<Row>>, days: seq<int>, w: World, u: UserId, row: Row)
    requires AllRepeated(batches, days) && w.d == |w.landed| <= |batches| && DaysDisjoint(batches, days, w.landed)
    ensures Agreed(batches, w.landed, w.d, u, row) <==>
            && (exists k :: 0 <= k < w.d && LastOn(batches, days, w.landed, k, u))
            && forall k, s ::
                 0 <= k < w.d && LastOn(batches, days, w.landed, k, u) && s in batches[k] && s.user == u ==>
                   SameSix(s, row)
  {
    forall k, s | 0 <= k < w.d && s in batches[k]
      ensures LatestAt(batches, w.landed, w.d, k, s) <==> LastOn(batches, days, w.landed, k, s.user)
    {
      LatestAtIff(batches, days, w.landed, k, s);
    }
    if k :| 0 <= k < w.d && LastOn(batches, days, w.landed, k, u) {
      var s :| s in batches[k] && s.user == u;
      assert LatestAt(batches, w.landed, w.d, k, s);
    }
    forall k, s | 0 <= k < w.d && LatestAt(batches, w.landed, w.d, k, s)
      ensures s in batches[k] && LastOn(batches, days, w.landed, k, s.user)
    {
      LatestAtIff(batches, days, w.landed, k, s);
    }
  }

  /** Which rows such batches leave in the table, and when the row a live hash holds is among them and a latest one. */
  lemma RepeatedAgreement(batches: seq<seq<Row>>, days: seq<int>, steps: seq<Step>, ttl: int, u: UserId)
    requires AllRepeated(batches, days) && u in Reached(batches, steps, ttl).online.keys
    ensures var w := Reached(batches, steps, ttl);
            && w.r <= |batches| && w.d == |w.landed| <= |batches| && LastRow(batches, w.r, u).Some?
            && var row := LastRow(batches, w.r, u).value;
            && SameFeatures(w.online.keys[u].fields, row) && SameTime(w.online.keys[u].fields, row)
            && EventDate(row).Some?
            && (OfflineAgrees(w, u) <==>
                && (exists k :: 0 <= k < w.d && LastOn(batches, days, w.landed, k, u))
                && forall k, s ::
                     0 <= k < w.d && LastOn(batches, days, w.landed, k, u) && s in batches[k] && s.user == u ==>
                       SameSix(s, row))
            && (row in Rows(w.offline) <==> exists k :: 0 <= k < w.d && w.landed[k] && row in batches[k])
            && (IsLatest(Rows(w.offline), u, row) <==> row in Rows(w.offline) && NoneLater(batches, w.landed, w.d, row))
  {
    var w := Reached(batches, steps, ttl);
    StoresAgree(batches, steps, ttl, u);
    FirstBatchOfDayWins(batches, days, steps, ttl);
    var j := LastRowAt(batches, w.r, u);
    assert Repeated(batches[j], days[j]);
    StoredIff(batches, days, w, LastRow(batches, w.r, u).value);
    ValuesAgreeIff(batches, days, w, u, LastRow(batches, w.r, u).value);
  }

  lemma StoredIff(batches: seq<seq<Row>>, days: seq<int>, w: World, row: Row)
    requires AllRepeated(batches, days) && Sound(batches, w) && DaysDisjoint(batches, days, w.landed)
            && EventDate(row).Some?
    ensures row in Rows(w.offline) <==> exists k :: 0 <= k < w.d && w.landed[k] && row in batches[k]
    ensures IsLatest(Rows(w.offline), row.user, row) <==>
            row in Rows(w.offline) && NoneLater(batches, w.landed, w.d, row)
  {
    LatestIff(batches, w, row);
    if k :| 0 <= k < w.d && w.landed[k] && row in batches[k] {
      LandedRowStays(batches, days, w.landed, k, row);
      assert Layered(batches, w.landed, w.d, row);
      assert NoneLater(batches, w.landed, w.d, row) ==> LatestAt(batches, w.landed, w.d, k, row);
    }
    if row in Rows(w.offline) {
      assert Layered(batches, w.landed, w.d, row);
    }
  }
}
