/** The synthetic event stream: which events belong to which session, over any number of batches. */
module EventGenerator {
  import opened Wrappers
  import opened Seqs
  import opened Analysis
  import opened Events
  import Features
  import FeatureJoin

  /** The random choices behind one event; `freshId` is looked at only if a session starts. */
  datatype Draw = Draw(user: UserId, kind: EventType, restart: bool, freshId: SessionId, fraud: bool, sample: real,
      now: int)

  function RandomAmount(kind: EventType, isFraud: bool, sample: real): real {
    if kind != Purchase then 0.0
    else
      var amount := Round(Max(1.0, Min(sample, 2000.0)), 100.0);
      if isFraud then Round(amount * 10.0, 100.0) else amount
  }

  type SessionMap = map<UserId, SessionId>

  predicate Starts(sessions: SessionMap, d: Draw) {
    d.user !in sessions || d.restart
  }

  function Step(sessions: SessionMap, d: Draw): (r: SessionMap)
    ensures d.user in r
  {
    if Starts(sessions, d) then sessions[d.user := d.freshId] else sessions
  }

  function SessionsAfter(sessions: SessionMap, draws: seq<Draw>): SessionMap {
    if draws == [] then sessions
    else Step(SessionsAfter(sessions, draws[..|draws| - 1]), draws[|draws| - 1])
  }

  function MakeEvent(sessions: SessionMap, d: Draw): Event
    requires d.user in sessions
  {
    Event(d.user, Some(sessions[d.user]), d.kind, d.now,
          Some(RandomAmount(d.kind, d.kind == Purchase && d.fraud, d.sample)))
  }

  function EventAfter(sessions: SessionMap, earlier: seq<Draw>, d: Draw): Event {
    MakeEvent(Step(SessionsAfter(sessions, earlier), d), d)
  }

  /** Each event carries the session its user is in right after the draw. */
  function Generated(sessions: SessionMap, draws: seq<Draw>): (events: seq<Event>)
    ensures |events| == |draws|
  {
    seq(|draws|, i requires 0 <= i < |draws| => EventAfter(sessions, draws[..i], draws[i]))
  }

  class EventStream {
    var sessionMap: SessionMap

    constructor ()
      ensures sessionMap == map[]
    {
      sessionMap := map[];
    }

    method NextBatch(draws: seq<Draw>) returns (events: seq<Event>)
      modifies this
      ensures events == Generated(old(sessionMap), draws)
      ensures sessionMap == SessionsAfter(old(sessionMap), draws)
    {
      events := [];
      for i := 0 to |draws|
        invariant sessionMap == SessionsAfter(old(sessionMap), draws[..i])
        invariant events == Generated(old(sessionMap), draws)[..i]
      {
        var d := draws[i];
        OneDraw(old(sessionMap), draws, i);
        if d.user !in sessionMap || d.restart {
          sessionMap := sessionMap[d.user := d.freshId];
        }
        var isFraud := d.kind == Purchase && d.fraud;
        var event := Event(d.user, Some(sessionMap[d.user]), d.kind, d.now,
                           Some(RandomAmount(d.kind, isFraud, d.sample)));
        events := events + [event];
      }
      assert draws[..|draws|] == draws;
    }
  }

  lemma OneDraw(sessions: SessionMap, draws: seq<Draw>, i: nat)
    requires i < |draws|
    ensures var after := Step(SessionsAfter(sessions, draws[..i]), draws[i]);
            && SessionsAfter(sessions, draws[..i + 1]) == after
            && Generated(sessions, draws)[..i + 1] == Generated(sessions, draws)[..i] + [MakeEvent(after, draws[i])]
  {
    assert draws[..i + 1][..i] == draws[..i];
  }

  // ----- batches are a matter of timing only -----

  lemma {:induction false} SessionsAfterConcat(sessions: SessionMap, a: seq<Draw>, b: seq<Draw>)
    ensures SessionsAfter(sessions, a + b) == SessionsAfter(SessionsAfter(sessions, a), b)
  {
    if b == [] {
      assert a + b == a;
    } else {
      assert (a + b)[..|a + b| - 1] == a + b[..|b| - 1];
      SessionsAfterConcat(sessions, a, b[..|b| - 1]);
    }
  }

  lemma EventAfterBatch(sessions: SessionMap, a: seq<Draw>, b: seq<Draw>, i: nat)
    requires i < |b|
    ensures Generated(sessions, a + b)[|a| + i] == Generated(SessionsAfter(sessions, a), b)[i]
  {
    var ab, k := a + b, |a| + i;
    assert ab[..k] == a + b[..i] && ab[k] == b[i];
    SessionsAfterConcat(sessions, a, b[..i]);
    assert Generated(sessions, ab)[k] == EventAfter(sessions, ab[..k], ab[k]);
  }

  lemma GeneratedConcat(sessions: SessionMap, a: seq<Draw>, b: seq<Draw>)
    ensures Generated(sessions, a + b) == Generated(sessions, a) + Generated(SessionsAfter(sessions, a), b)
  {
    var whole, first, second := Generated(sessions, a + b), Generated(sessions, a),
        Generated(SessionsAfter(sessions, a), b);
    forall i | 0 <= i < |a|
      ensures whole[i] == first[i]
    {
      assert (a + b)[..i] == a[..i];
    }
    forall i | 0 <= i < |b|
      ensures whole[|a| + i] == second[i]
    {
      EventAfterBatch(sessions, a, b, i);
    }
    assert whole[..|a|] == first && whole[|a|..] == second;
    assert whole == whole[..|a|] + whole[|a|..];
  }

  /** What successive calls on one stream yield. */
  function Batches(sessions: SessionMap, batches: seq<seq<Draw>>): seq<seq<Event>>
    decreases |batches|
  {
    if batches == [] then []
    else [Generated(sessions, batches[0])] + Batches(SessionsAfter(sessions, batches[0]), batches[1..])
  }

  lemma {:induction false} BatchesAreOneStream(sessions: SessionMap, batches: seq<seq<Draw>>)
    ensures Flatten(Batches(sessions, batches)) == Generated(sessions, Flatten(batches))
    decreases |batches|
  {
    if batches == [] {
    } else {
      BatchesAreOneStream(SessionsAfter(sessions, batches[0]), batches[1..]);
      GeneratedConcat(sessions, batches[0], Flatten(batches[1..]));
    }
  }

  // ----- sessions -----

  predicate StartsAt(draws: seq<Draw>, i: nat)
    requires i < |draws|
  {
    Starts(SessionsAfter(map[], draws[..i]), draws[i])
  }

  /** uuid4 never repeats an id. */
  ghost predicate FreshIds(draws: seq<Draw>) {
    forall i, j :: 0 <= i < j < |draws| && StartsAt(draws, i) && StartsAt(draws, j) ==>
            draws[i].freshId != draws[j].freshId
  }

  ghost predicate IsStartOf(draws: seq<Draw>, s: nat, i: nat)
    requires i < |draws|
  {
    && s <= i && StartsAt(draws, s) && draws[s].user == draws[i].user
    && forall k :: s < k <= i && draws[k].user == draws[i].user ==> !StartsAt(draws, k)
  }

  lemma {:induction false} KnownUsers(draws: seq<Draw>, u: UserId)
    ensures u in SessionsAfter(map[], draws) <==> exists k :: 0 <= k < |draws| && draws[k].user == u
  {
    if draws == [] {
    } else {
      KnownUsers(draws[..|draws| - 1], u);
      if u in SessionsAfter(map[], draws) && u != draws[|draws| - 1].user {
        var k :| 0 <= k < |draws| - 1 && draws[..|draws| - 1][k].user == u;
        assert draws[k].user == u;
      }
    }
  }

  /** Walking back from an event to the draw that started its session. */
  lemma {:induction false} StartOf(draws: seq<Draw>, i: nat) returns (s: nat)
    requires i < |draws|
    ensures IsStartOf(draws, s, i)
    ensures Generated(map[], draws)[i].session == Some(draws[s].freshId)
    decreases i
  {
    var u := draws[i].user;
    if StartsAt(draws, i) {
      s := i;
    } else {
      KnownUsers(draws[..i], u);
      var k := LastBefore(draws, i);
      s := StartOf(draws, k);
      Unchanged(draws, k, i);
      forall j | s < j <= i && draws[j].user == u
        ensures !StartsAt(draws, j)
      {
        assert j <= k || j == i;
      }
    }
  }

  lemma {:induction false} LastBefore(draws: seq<Draw>, i: nat) returns (k: nat)
    requires i < |draws| && exists k :: 0 <= k < i && draws[k].user == draws[i].user
    ensures k < i && draws[k].user == draws[i].user && forall j :: k < j < i ==> draws[j].user != draws[i].user
  {
    k := i - 1;
    while draws[k].user != draws[i].user
      invariant k < i && forall j :: k < j < i ==> draws[j].user != draws[i].user
      decreases k
    {
      k := k - 1;
    }
  }

  /** Other users' draws leave a session alone. */
  lemma {:induction false} Unchanged(draws: seq<Draw>, k: nat, i: nat)
    requires k < i < |draws| && forall j :: k < j < i ==> draws[j].user != draws[i].user
    requires draws[k].user == draws[i].user
    ensures draws[i].user in SessionsAfter(map[], draws[..i])
    ensures SessionsAfter(map[], draws[..i])[draws[i].user]
         == Step(SessionsAfter(map[], draws[..k]), draws[k])[draws[k].user]
  {
    var u := draws[i].user;
    var j := k + 1;
    assert draws[..j][..k] == draws[..k];
    while j < i
      invariant k < j <= i
      invariant u in SessionsAfter(map[], draws[..j])
      invariant SessionsAfter(map[], draws[..j])[u] == Step(SessionsAfter(map[], draws[..k]), draws[k])[u]
    {
      assert draws[..j + 1][..j] == draws[..j];
      j := j + 1;
    }
  }

  /** Two events share a session exactly when they are the same user's with no restart of that user after the first one:
      a session belongs to one user and is one contiguous block of that user's events. */
  lemma SameSessionIff(draws: seq<Draw>, i: nat, j: nat)
    requires FreshIds(draws) && i < j < |draws|
    ensures var events := Generated(map[], draws);
            events[i].session == events[j].session <==>
              && events[i].user == events[j].user
              && forall k :: i < k <= j && draws[k].user == events[i].user ==> !draws[k].restart
  {
    var s := StartOf(draws, i);
    var t := StartOf(draws, j);
    var u := draws[i].user;
    if draws[j].user == u && forall k :: i < k <= j && draws[k].user == u ==> !draws[k].restart {
      forall k | i < k <= j && draws[k].user == u
        ensures !StartsAt(draws, k)
      {
        KnownUsers(draws[..k], u);
        assert draws[..k][i].user == u;
      }
      assert s == t;
    }
    if draws[s].freshId == draws[t].freshId {
      assert s == t;
      forall k | i < k <= j && draws[k].user == u
        ensures !draws[k].restart
      {
        assert !StartsAt(draws, k);
      }
    }
  }

  // ----- what the pipeline may rely on -----

  lemma RoundWithin(x: real, lo: int, hi: int)
    requires lo as real <= x <= hi as real
    ensures lo as real <= Round(x, 100.0) <= hi as real
  {
    var a, y, b := lo as real * 100.0, x * 100.0, hi as real * 100.0;
    assert a <= y <= b;
    assert a.Floor == lo * 100 && b.Floor == hi * 100;
    assert a.Floor <= y.Floor <= b.Floor;
  }

  lemma AmountRange(kind: EventType, isFraud: bool, sample: real)
    ensures kind != Purchase ==> RandomAmount(kind, isFraud, sample) == 0.0
    ensures kind == Purchase ==> 1.0 <= RandomAmount(kind, isFraud, sample) <= if isFraud then 20000.0 else 2000.0
    ensures kind == Purchase && isFraud ==> RandomAmount(kind, isFraud, sample) >= 10.0
  {
    var clamped := Max(1.0, Min(sample, 2000.0));
    RoundWithin(clamped, 1, 2000);
    RoundWithin(Round(clamped, 100.0) * 10.0, 10, 20000);
  }

  /** A purchase costs its sample, held between 1 and 2000 and rounded to cents, and a fraudulent one ten times that. */
  lemma AmountFollowsSample(isFraud: bool, sample: real)
    ensures var clamped := if sample < 1.0 then 1.0 else if sample > 2000.0 then 2000.0 else sample;
            var amount := RandomAmount(Purchase, isFraud, sample);
            var cents: real := (if isFraud then amount / 10.0 else amount) * 100.0;
            cents == cents.Floor as real && -0.5 <= cents - clamped * 100.0 <= 0.5
  {
    var clamped := Max(1.0, Min(sample, 2000.0));
    RoundNear(clamped, 100.0);
    var k := RoundToInt(clamped * 100.0);
    TenTimesCents(k);
  }

  lemma TenTimesCents(k: int)
    ensures (k as real / 100.0 * 10.0 * 100.0).Floor == 10 * k
    ensures Round(k as real / 100.0 * 10.0, 100.0) / 10.0 == k as real / 100.0
  {
    assert k as real / 100.0 * 10.0 * 100.0 == (10 * k) as real;
  }

  /** Everything else in an event is as drawn. */
  lemma EventIsDrawn(sessions: SessionMap, draws: seq<Draw>, i: nat)
    requires i < |draws|
    ensures var e, d := Generated(sessions, draws)[i], draws[i];
            && e.user == d.user && e.kind == d.kind && e.ts == d.now && e.session.Some?
            && (d.kind != Purchase ==> e.amount == Some(0.0))
            && (d.kind == Purchase ==> e.amount == Some(RandomAmount(Purchase, d.fraud, d.sample)))
  {
    AmountRange(draws[i].kind, draws[i].kind == Purchase && draws[i].fraud, draws[i].sample);
  }

  lemma GeneratedKnown(draws: seq<Draw>, u: UserId)
    ensures FeatureJoin.SessionsKnown(Generated(map[], draws), u)
    ensures FeatureJoin.AmountsWithin(Generated(map[], draws), u, 1.0, 20000.0)
  {
    var events := Generated(map[], draws);
    forall e | e in events
      ensures e.session.Some? && e.amount.Some? && (e.kind == Purchase ==> 1.0 <= e.amount.value <= 20000.0)
    {
      var i :| 0 <= i < |events| && events[i] == e;
      AmountRange(draws[i].kind, draws[i].kind == Purchase && draws[i].fraud, draws[i].sample);
    }
  }

  /** Whatever is drawn, the features computed from generated events are in range: every session and amount is known. */
  lemma GeneratedFeatures(draws: seq<Draw>, events: seq<Event>, o: FeatureJoin.Orders, w: FeatureJoin.Wide)
    requires events == Generated(map[], draws)
    requires FeatureJoin.ListsAll(o, Features.BatchTables(events))
            && w in FeatureJoin.AllFeatures(Features.BatchTables(events), o)
    ensures w.session.Some? && w.session.value >= 1.0
    ensures w.spend.Some? && 1.0 <= w.spend.value <= 20000.0
  {
    GeneratedKnown(draws, w.key.user);
    FeatureJoin.DeliveredRanges(events, o, w, 1.0, 20000.0);
  }
}
