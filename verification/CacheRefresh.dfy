/** Proactive lifetime extension: which users a sweep picks, what it does to them, and when it keeps keys alive. */
module CacheRefresh {
  import opened Wrappers
  import opened Seqs
  import opened Events
  import opened FeatureSchema
  import opened OnlineStore
  import opened OnlineRuns

  function Stale(st: State, threshold: int): UserId -> bool {
    (u: UserId) => 0 < TtlOf(st, u) < threshold
  }

  lemma FilterAppend<T(!new)>(s: seq<T>, i: nat, p: T -> bool)
    requires i < |s|
    ensures Filter(s[..i + 1], p) == Filter(s[..i], p) + (if p(s[i]) then [s[i]] else [])
  {
    assert s[..i + 1] == s[..i] + [s[i]];
    FilterConcat(s[..i], [s[i]], p);
    assert [s[i]][1..] == [];
  }

  /** `users` is whatever sample of the index the server returns. */
  method FindStaleUsers(client: SyncRedisClient, users: seq<UserId>, threshold: int) returns (stale: seq<UserId>)
    ensures stale == Filter(users, Stale(client.server.View(), threshold))
    ensures forall u :: u in stale <==>
              && u in users && u in client.server.keys && client.server.keys[u].deadline.Some?
              && 0 < client.server.keys[u].deadline.value - client.server.now < threshold
  {
    stale := [];
    ghost var p := Stale(client.server.View(), threshold);
    for i := 0 to |users|
      invariant stale == Filter(users[..i], p)
    {
      var ttl := client.Ttl(users[i]);
      FilterAppend(users, i, p);
      if 0 < ttl < threshold {
        stale := stale + [users[i]];
      }
    }
    assert users[..|users|] == users;
    FilterMembers(users, p);
  }

  /** Recomputation of one user's features; None is an exception. */
  type FeatureFn = UserId -> Option<map<Field, real>>

  predicate Succeeds(fn: Option<FeatureFn>, u: UserId) {
    fn.Some? ==> fn.value(u).Some?
  }

  function SucceedsFor(fn: Option<FeatureFn>): UserId -> bool {
    (u: UserId) => Succeeds(fn, u)
  }

  function RefreshOne(st: State, u: UserId, fn: Option<FeatureFn>, ttl: int): State {
    if fn.None? then Apply(st, Expire(u, ttl))
    else if fn.value(u).None? then st
    else Applied(st, [FeatureWrite(u, fn.value(u).value, None, st.now)], ttl)
  }

  function Refreshed(st: State, users: seq<UserId>, fn: Option<FeatureFn>, ttl: int): State {
    if users == [] then st else RefreshOne(Refreshed(st, users[..|users| - 1], fn, ttl), users[|users| - 1], fn, ttl)
  }

  /** Every user counts as refreshed without a function, and with one those for whom it returns. */
  lemma {:induction false} SuccessesAre(users: seq<UserId>, fn: Option<FeatureFn>)
    ensures fn.None? ==> Count(users, SucceedsFor(fn)) == |users|
    ensures fn.Some? ==> Count(users, SucceedsFor(fn)) == Count(users, u => fn.value(u) != None)
  {
    if users == [] {
    } else {
      SuccessesAre(users[1..], fn);
    }
  }

  method RefreshFeaturesForUsers(client: SyncRedisClient, users: seq<UserId>, fn: Option<FeatureFn>)
    returns (refreshed: nat)
    modifies client.server
    ensures client.server.View() == Refreshed(old(client.server.View()), users, fn, client.ttlSeconds)
    ensures refreshed == Count(users, SucceedsFor(fn))
  {
    refreshed := 0;
    for i := 0 to |users|
      invariant client.server.View() == Refreshed(old(client.server.View()), users[..i], fn, client.ttlSeconds)
      invariant refreshed == Count(users[..i], SucceedsFor(fn))
    {
      var u := users[i];
      CountConcat(users[..i], [u], SucceedsFor(fn));
      assert users[..i + 1] == users[..i] + [u] && users[..i + 1][..i] == users[..i] && [u][1..] == [];
      if fn.Some? {
        var features := fn.value(u);
        if features.Some? {
          client.WriteFeatures(u, features.value, None);
          refreshed := refreshed + 1;
        }
      } else {
        client.server.Do(Expire(u, client.ttlSeconds));
        refreshed := refreshed + 1;
      }
    }
    assert users[..|users|] == users;
  }

  /** Extending a list of users gives the live ones among them a full lifetime and changes nothing else. */
  lemma {:induction false} PlaceholderRefresh(st: State, users: seq<UserId>, ttl: int)
    requires ttl > 0
    ensures var after := Refreshed(st, users, None, ttl);
            && after.now == st.now && after.active == st.active && after.keys.Keys == st.keys.Keys
            && (forall u :: u in st.keys ==>
                  after.keys[u] == if u in users then Entry(st.keys[u].fields, Some(st.now + ttl)) else st.keys[u])
  {
    if users == [] {
    } else {
      var front, u := users[..|users| - 1], users[|users| - 1];
      PlaceholderRefresh(st, front, ttl);
      assert users == front + [u];
    }
  }

  /** Recomputing a list of users: those for whom it succeeds get the new features, stamped with the clock, a full
      lifetime and their place in the index; nobody else is touched. */
  lemma {:induction false} RecomputedRefresh(st: State, users: seq<UserId>, fn: FeatureFn, ttl: int, u: UserId)
    requires ttl > 0
    ensures var after := Refreshed(st, users, Some(fn), ttl);
            && after.now == st.now
            && if u in users && fn(u).Some?
               then && u in after.keys && u in after.active && after.keys[u].deadline == Some(st.now + ttl)
                    && ComputedAt in after.keys[u].fields && after.keys[u].fields[ComputedAt] == Num(st.now as real)
                    && forall f :: f in fn(u).value && f != ComputedAt ==>
                         f in after.keys[u].fields && after.keys[u].fields[f] == Num(fn(u).value[f])
               else && (u in after.keys <==> u in st.keys) && (u in after.active <==> u in st.active)
                    && (u in st.keys ==> after.keys[u] == st.keys[u])
  {
    if users == [] {
    } else {
      var front, v := users[..|users| - 1], users[|users| - 1];
      RecomputedRefresh(st, front, fn, ttl, u);
      assert users == front + [v];
      if fn(v).Some? {
        var w := FeatureWrite(v, fn(v).value, None, st.now);
        SoleWrite(Refreshed(st, front, Some(fn), ttl), w, ttl);
        StampedWrite(v, fn(v).value, None, st.now);
      }
    }
  }

  /** find_stale_users followed by a refresh of what it found. */
  function Swept(st: State, sample: seq<UserId>, threshold: int, ttl: int): State {
    Refreshed(st, Filter(sample, Stale(st, threshold)), None, ttl)
  }

  lemma SweepLifts(st: State, sample: seq<UserId>, threshold: int, ttl: int)
    requires 0 < threshold <= ttl && Consistent(st, ttl)
    ensures var after := Swept(st, sample, threshold, ttl);
            && Consistent(after, ttl) && after.now == st.now
            && (forall u :: u in st.keys ==> u in after.keys && TtlOf(after, u) >= TtlOf(st, u))
            && (forall u :: u in st.keys && u in sample ==> TtlOf(after, u) >= threshold)
            && (forall u :: u in st.keys && TtlOf(st, u) >= threshold ==> TtlOf(after, u) == TtlOf(st, u))
  {
    FilterMembers(sample, Stale(st, threshold));
    PlaceholderRefresh(st, Filter(sample, Stale(st, threshold)), ttl);
  }

  function TotalPass(ops: seq<Op>): nat {
    if ops == [] then 0
    else TotalPass(ops[..|ops| - 1]) + (if ops[|ops| - 1].Pass? then ops[|ops| - 1].seconds else 0)
  }

  /** Nothing but time shortens a lifetime. */
  lemma {:induction false} LifetimeShrinksByTimeOnly(st: State, ops: seq<Op>, u: UserId, ttl: int)
    requires ttl > 0 && Consistent(st, ttl) && u in st.keys && TotalPass(ops) < TtlOf(st, u)
    ensures Consistent(After(st, ops, ttl), ttl)
    ensures u in After(st, ops, ttl).keys && TtlOf(After(st, ops, ttl), u) >= TtlOf(st, u) - TotalPass(ops)
  {
    if ops == [] {
    } else {
      var front, op := ops[..|ops| - 1], ops[|ops| - 1];
      LifetimeShrinksByTimeOnly(st, front, u, ttl);
      NextIsConsistent(After(st, front, ttl), op, ttl);
      if !op.Extend? && !op.Pass? {
        EffectOfWrites(After(st, front, ttl), WritesOf(op, After(st, front, ttl).now), ttl);
      }
    }
  }

  /** Any operations, then one sweep over a sample. */
  datatype Segment = Segment(ops: seq<Op>, sample: seq<UserId>)

  function AfterSegments(st: State, segs: seq<Segment>, threshold: int, ttl: int): State {
    if segs == [] then st
    else
      var seg := segs[|segs| - 1];
      Swept(After(AfterSegments(st, segs[..|segs| - 1], threshold, ttl), seg.ops, ttl), seg.sample, threshold, ttl)
  }

  /** Sweeps that include a user less than `threshold` seconds apart keep that user's key alive through anything
      else. */
  lemma {:induction false} FrequentSweepsKeepAlive(st: State, segs: seq<Segment>, tail: seq<Op>, u: UserId,
                                                   threshold: int, ttl: int)
    requires 0 < threshold <= ttl && Consistent(st, ttl)
    requires u in st.keys && TtlOf(st, u) >= threshold
    requires forall i :: 0 <= i < |segs| ==> TotalPass(segs[i].ops) < threshold && u in segs[i].sample
    requires TotalPass(tail) < threshold
    ensures Consistent(AfterSegments(st, segs, threshold, ttl), ttl)
    ensures u in After(AfterSegments(st, segs, threshold, ttl), tail, ttl).keys
    decreases |segs|, 1
  {
    SweptAgain(st, segs, u, threshold, ttl);
    LifetimeShrinksByTimeOnly(AfterSegments(st, segs, threshold, ttl), tail, u, ttl);
  }

  lemma {:induction false} SweptAgain(st: State, segs: seq<Segment>, u: UserId, threshold: int, ttl: int)
    requires 0 < threshold <= ttl && Consistent(st, ttl)
    requires u in st.keys && TtlOf(st, u) >= threshold
    requires forall i :: 0 <= i < |segs| ==> TotalPass(segs[i].ops) < threshold && u in segs[i].sample
    ensures var after := AfterSegments(st, segs, threshold, ttl);
            Consistent(after, ttl) && u in after.keys && TtlOf(after, u) >= threshold
    decreases |segs|, 0
  {
    if segs == [] {
    } else {
      var front, seg := segs[..|segs| - 1], segs[|segs| - 1];
      SweptAgain(st, front, u, threshold, ttl);
      LifetimeShrinksByTimeOnly(AfterSegments(st, front, threshold, ttl), seg.ops, u, ttl);
      SweepLifts(After(AfterSegments(st, front, threshold, ttl), seg.ops, ttl), seg.sample, threshold, ttl);
    }
  }

  // ----- how tight the spacing is -----

  /** A key written once and then only swept: u waits gaps[i] seconds before sweep i. */
  function Waiting(gaps: seq<nat>, u: UserId): seq<Segment> {
    seq(|gaps|, i requires 0 <= i < |gaps| => Segment([Pass(gaps[i])], [u]))
  }

  function Written(u: UserId, ttl: int): State {
    Next(EMPTY, Feature(u, map[], None), ttl)
  }

  ghost predicate Survives(u: UserId, gaps: seq<nat>, threshold: int, ttl: int) {
    u in AfterSegments(Written(u, ttl), Waiting(gaps, u), threshold, ttl).keys
  }

  /** The remaining lifetime of that key, 0 once it is gone. */
  function Remaining(gaps: seq<nat>, threshold: int, ttl: int): int {
    if gaps == [] then ttl
    else
      var left := Remaining(gaps[..|gaps| - 1], threshold, ttl) - gaps[|gaps| - 1];
      if left <= 0 then 0 else if left < threshold then ttl else left
  }

  lemma WrittenLives(u: UserId, ttl: int)
    requires ttl > 0
    ensures Consistent(Written(u, ttl), ttl) && u in Written(u, ttl).keys && TtlOf(Written(u, ttl), u) == ttl
  {
    NextIsConsistent(EMPTY, Feature(u, map[], None), ttl);
    var ws := WritesOf(Feature(u, map[], None), 0);
    EffectOfWrites(EMPTY, ws, ttl);
    assert ws[0].user == u;
  }

  lemma {:induction false} RemainingIsTtl(u: UserId, gaps: seq<nat>, threshold: int, ttl: int)
    requires 0 < threshold <= ttl
    ensures var after := AfterSegments(Written(u, ttl), Waiting(gaps, u), threshold, ttl);
            && Consistent(after, ttl)
            && (u in after.keys <==> Remaining(gaps, threshold, ttl) > 0)
            && (u in after.keys ==> TtlOf(after, u) == Remaining(gaps, threshold, ttl))
  {
    if gaps == [] {
      WrittenLives(u, ttl);
    } else {
      var front, gap := gaps[..|gaps| - 1], gaps[|gaps| - 1];
      RemainingIsTtl(u, front, threshold, ttl);
      var before := AfterSegments(Written(u, ttl), Waiting(front, u), threshold, ttl);
      LastGap(u, gaps, threshold, ttl, before);
      SweepPicks(Tick(before, gap), u, threshold, ttl);
    }
  }

  lemma LastGap(u: UserId, gaps: seq<nat>, threshold: int, ttl: int, before: State)
    requires gaps != [] && before == AfterSegments(Written(u, ttl), Waiting(gaps[..|gaps| - 1], u), threshold, ttl)
    ensures AfterSegments(Written(u, ttl), Waiting(gaps, u), threshold, ttl)
         == Swept(Tick(before, gaps[|gaps| - 1]), [u], threshold, ttl)
  {
    var segs, gap := Waiting(gaps, u), gaps[|gaps| - 1];
    assert segs[..|segs| - 1] == Waiting(gaps[..|gaps| - 1], u);
    assert [Pass(gap)][..0] == [];
    assert After(before, [Pass(gap)], ttl) == Tick(before, gap);
  }

  lemma SweepPicks(st: State, u: UserId, threshold: int, ttl: int)
    requires 0 < threshold <= ttl && Consistent(st, ttl)
    ensures var after := Swept(st, [u], threshold, ttl);
            && Consistent(after, ttl) && (u in after.keys <==> u in st.keys)
            && (u in st.keys ==> TtlOf(after, u) == if TtlOf(st, u) < threshold then ttl else TtlOf(st, u))
  {
    SweepLifts(st, [u], threshold, ttl);
    FilterMembers([u], Stale(st, threshold));
    PlaceholderRefresh(st, Filter([u], Stale(st, threshold)), ttl);
  }

  lemma {:induction false} WaitInSeconds(n: nat, threshold: int, ttl: int)
    requires 0 < threshold <= ttl && n <= ttl - threshold
    ensures Remaining(seq(n, _ => 1), threshold, ttl) == ttl - n
  {
    if n == 0 {
    } else {
      WaitInSeconds(n - 1, threshold, ttl);
      assert seq(n, _ => 1)[..n - 1] == seq(n - 1, _ => 1);
    }
  }

  lemma {:induction false} ShortGapsRemain(gaps: seq<nat>, threshold: int, ttl: int)
    requires 0 < threshold <= ttl && forall i :: 0 <= i < |gaps| ==> gaps[i] < threshold
    ensures Remaining(gaps, threshold, ttl) >= threshold
  {
    if gaps == [] {
    } else {
      ShortGapsRemain(gaps[..|gaps| - 1], threshold, ttl);
    }
  }

  /** Sweeping at most `gap` seconds apart is safe exactly when gap is below the staleness threshold. */
  lemma SafeSpacingIffBelowThreshold(u: UserId, gap: nat, threshold: int, ttl: int)
    requires 0 < threshold <= ttl
    ensures (forall gaps: seq<nat> :: (forall i :: 0 <= i < |gaps| ==> gaps[i] <= gap) ==>
            Survives(u, gaps, threshold, ttl))
       <==> gap < threshold
  {
    if gap < threshold {
      forall gaps: seq<nat> | forall i :: 0 <= i < |gaps| ==> gaps[i] <= gap
        ensures Survives(u, gaps, threshold, ttl)
      {
        RemainingIsTtl(u, gaps, threshold, ttl);
        ShortGapsRemain(gaps, threshold, ttl);
      }
    } else {
      var gaps := FatalGaps(u, threshold, ttl);
    }
  }

  /** Sweeping every second down to the threshold, and then once that long afterwards, loses the key. */
  lemma FatalGaps(u: UserId, threshold: int, ttl: int) returns (gaps: seq<nat>)
    requires 0 < threshold <= ttl
    ensures (forall i :: 0 <= i < |gaps| ==> gaps[i] <= threshold) && !Survives(u, gaps, threshold, ttl)
  {
    var ones: seq<nat> := seq(ttl - threshold, _ => 1);
    gaps := ones + [threshold];
    WaitInSeconds(ttl - threshold, threshold, ttl);
    assert gaps[..|gaps| - 1] == ones;
    RemainingIsTtl(u, gaps, threshold, ttl);
  }

  /** The scheduled refresh job sweeps every 300 seconds with threshold 60 and lifetime 300: no unwritten key survives
      it. */
  lemma ScheduledRefreshIsTooRare(u: UserId, phase: nat)
    ensures !Survives(u, [phase, 300], 60, 300)
  {
    RemainingIsTtl(u, [phase, 300], 60, 300);
    assert [phase, 300][..1] == [phase] && [phase][..0] == [];
    assert Remaining([phase], 60, 300) <= 300;
  }
}
