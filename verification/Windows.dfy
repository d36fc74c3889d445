/** Raw events as both jobs read them from the topic. */
module Events {
  import opened Wrappers

  type UserId = string
  type SessionId = string

  datatype EventType = PageView | AddToCart | Purchase | Search | Abandon

  /** Session and amount may be null in the parsed JSON; ts is in seconds. */
  datatype Event = Event(user: UserId, session: Option<SessionId>, kind: EventType, ts: int, amount: Option<real>)

  predicate IsPurchase(e: Event) {
    e.kind == Purchase
  }

  predicate IsPageView(e: Event) {
    e.kind == PageView
  }

  predicate IsAddToCart(e: Event) {
    e.kind == AddToCart
  }

  predicate IsCartOrPurchase(e: Event) {
    e.kind == AddToCart || e.kind == Purchase
  }

  function ByUser(u: UserId): Event -> bool {
    (e: Event) => e.user == u
  }

  /** The non-null amounts, in event order: what avg and stddev look at. */
  function Amounts(s: seq<Event>): seq<real> {
    if s == [] then []
    else (if s[0].amount.Some? then [s[0].amount.value] else []) + Amounts(s[1..])
  }

  lemma {:induction false} AmountsMembers(s: seq<Event>)
    ensures forall x :: x in Amounts(s) <==> exists e :: e in s && e.amount == Some(x)
  {
    if s == [] {
    } else {
      AmountsMembers(s[1..]);
      forall x
        ensures x in Amounts(s) <==> exists e :: e in s && e.amount == Some(x)
      {
        if x in Amounts(s) {
          if s[0].amount == Some(x) {
            assert s[0] in s;
          } else {
            assert x in Amounts(s[1..]);
            var e :| e in s[1..] && e.amount == Some(x);
            assert e in s;
          }
        }
        if e :| e in s && e.amount == Some(x) {
          assert e == s[0] || e in s[1..];
        }
      }
    }
  }
}

/** groupBy(user, window): window assignment, mergeable accumulators, and the two ways of running them. */
module Windows {
  import opened Wrappers
  import opened Seqs
  import opened Analysis
  import opened Events

  datatype Key = Key(user: UserId, start: int)

  /** A window is `panes` consecutive panes of `slide` seconds, and starts at a multiple of `slide`. */
  datatype Spec = Spec(slide: int, panes: nat) {
    predicate Valid() {
      slide > 0 && panes > 0
    }
    function Size(): int {
      slide * panes
    }
  }

  const TUMBLING_5M := Spec(300, 1)
  const SLIDING_1H := Spec(300, 12)
  const SLIDING_24H := Spec(300, 288)
  const TUMBLING_30M := Spec(1800, 1)
  const TUMBLING_1H := Spec(3600, 1)

  predicate Aligned(start: int, slide: int)
    requires slide > 0
  {
    start % slide == 0
  }

  predicate InWindow(e: Event, k: Key, spec: Spec) {
    e.user == k.user && k.start <= e.ts < k.start + spec.Size()
  }

  function Member(k: Key, spec: Spec): Event -> bool {
    (e: Event) => InWindow(e, k, spec)
  }

  function Covers(e: Event, spec: Spec): Key -> bool {
    (k: Key) => InWindow(e, k, spec)
  }

  function Group(events: seq<Event>, k: Key, spec: Spec): seq<Event> {
    Filter(events, Member(k, spec))
  }

  function PaneStart(ts: int, slide: int): int
    requires slide > 0
  {
    ts - ts % slide
  }

  function KeysBack(u: UserId, last: int, slide: int, panes: nat): seq<Key>
    decreases panes
  {
    if panes == 0 then [] else [Key(u, last)] + KeysBack(u, last - slide, slide, panes - 1)
  }

  /** The windows an event is assigned to: the one that opened last, and those opened before it. */
  function EventKeys(e: Event, spec: Spec): seq<Key>
    requires spec.Valid()
  {
    KeysBack(e.user, PaneStart(e.ts, spec.slide), spec.slide, spec.panes)
  }

  lemma TimesAtLeast(slide: int, n: int)
    requires slide > 0
    ensures n >= 1 ==> slide * n >= slide
    ensures n <= -1 ==> slide * n <= -slide
  {
    if n >= 1 {
      assert slide * (n - 1) >= 0;
    } else if n <= -1 {
      assert slide * (-n - 1) >= 0;
    }
  }

  lemma Multiple(slide: int, q: int)
    requires slide > 0
    ensures Aligned(slide * q, slide)
  {
    var d, r := slide * q / slide, slide * q % slide;
    assert slide * (q - d) == r;
    TimesAtLeast(slide, q - d);
  }

  lemma AlignedQuotient(a: int, slide: int) returns (q: int)
    requires slide > 0 && Aligned(a, slide)
    ensures a == slide * q
  {
    q := a / slide;
  }

  lemma DistributeInt(x: int, y: int, z: int)
    ensures x * (y + z) == x * y + x * z
  {
  }

  lemma AlignedStep(a: int, slide: int, n: int)
    requires slide > 0 && Aligned(a, slide)
    ensures Aligned(a + slide * n, slide)
  {
    var q := AlignedQuotient(a, slide);
    DistributeInt(slide, q, n);
    Multiple(slide, q + n);
  }

  lemma AlignedGap(a: int, b: int, slide: int)
    requires slide > 0 && Aligned(a, slide) && Aligned(b, slide) && a < b
    ensures a <= b - slide
  {
    var n := b / slide - a / slide;
    assert b - a == slide * n;
    TimesAtLeast(slide, n);
  }

  lemma {:induction false} KeysBackAre(u: UserId, last: int, slide: int, panes: nat)
    requires slide > 0 && Aligned(last, slide)
    ensures |KeysBack(u, last, slide, panes)| == panes
    ensures NoDup(KeysBack(u, last, slide, panes))
    ensures forall k :: k in KeysBack(u, last, slide, panes) <==>
                        k.user == u && Aligned(k.start, slide) && last - slide * panes < k.start <= last
    decreases panes
  {
    if panes == 0 {
    } else {
      AlignedStep(last, slide, -1);
      KeysBackAre(u, last - slide, slide, panes - 1);
      assert last - slide - slide * (panes - 1) == last - slide * panes;
      forall k: Key | Aligned(k.start, slide) && k.start < last
        ensures k.start <= last - slide
      {
        AlignedGap(k.start, last, slide);
      }
      TimesAtLeast(slide, panes);
    }
  }

  /** Among aligned windows, those reaching back no further than `size` before the last one contain ts. */
  lemma AlignedWindowContains(start: int, ts: int, slide: int, panes: nat)
    requires slide > 0 && Aligned(start, slide)
    ensures Aligned(PaneStart(ts, slide), slide)
    ensures PaneStart(ts, slide) - slide * panes < start <= PaneStart(ts, slide)
       <==> start <= ts < start + slide * panes
  {
    var last := PaneStart(ts, slide);
    Multiple(slide, ts / slide);
    assert last == slide * (ts / slide);
    if last < start {
      AlignedGap(last, start, slide);
    }
    var end := start + slide * panes;
    AlignedStep(start, slide, panes);
    if last < end {
      AlignedGap(last, end, slide);
    }
  }

  /** Which aligned windows contain an event, told by the start of the event's own pane. */
  lemma WindowByPane(e: Event, k: Key, spec: Spec)
    requires spec.Valid() && Aligned(k.start, spec.slide)
    ensures Aligned(PaneStart(e.ts, spec.slide), spec.slide)
    ensures InWindow(e, k, spec) <==>
            && e.user == k.user
            && PaneStart(e.ts, spec.slide) + spec.slide - spec.Size() <= k.start <= PaneStart(e.ts, spec.slide)
  {
    AlignedWindowContains(k.start, e.ts, spec.slide, spec.panes);
    FirstAlignedAfter(PaneStart(e.ts, spec.slide), k.start, spec.slide, spec.panes, spec.Size());
  }

  lemma FirstAlignedAfter(last: int, start: int, slide: int, panes: int, size: int)
    requires slide > 0 && Aligned(last, slide) && Aligned(start, slide) && size == slide * panes
    ensures last - size < start <==> last + slide - size <= start
  {
    AlignedStep(last, slide, -panes);
    assert slide * -panes == -size;
    if last - size < start {
      AlignedGap(last - size, start, slide);
    }
  }

  /** An event lies in exactly `panes` windows: those aligned ones that contain it, each once. */
  lemma EventInExactlyItsWindows(e: Event, spec: Spec)
    requires spec.Valid()
    ensures |EventKeys(e, spec)| == spec.panes
    ensures NoDup(EventKeys(e, spec))
    ensures forall k :: k in EventKeys(e, spec) <==> Aligned(k.start, spec.slide) && InWindow(e, k, spec)
  {
    AlignedWindowContains(0, e.ts, spec.slide, 0);
    KeysBackAre(e.user, PaneStart(e.ts, spec.slide), spec.slide, spec.panes);
    forall k: Key | Aligned(k.start, spec.slide)
      ensures k in EventKeys(e, spec) <==> InWindow(e, k, spec)
    {
      AlignedWindowContains(k.start, e.ts, spec.slide, spec.panes);
    }
  }

  function KeySet(events: seq<Event>, spec: Spec): set<Key>
    requires spec.Valid()
  {
    if events == [] then {} else (set k | k in EventKeys(events[0], spec)) + KeySet(events[1..], spec)
  }

  /** A group exists exactly for the aligned windows that hold an event. */
  lemma {:induction false} KeySetIsNonEmptyGroups(events: seq<Event>, spec: Spec)
    requires spec.Valid()
    ensures forall k :: k in KeySet(events, spec) <==> Aligned(k.start, spec.slide) && Group(events, k, spec) != []
  {
    if events == [] {
    } else {
      EventInExactlyItsWindows(events[0], spec);
      KeySetIsNonEmptyGroups(events[1..], spec);
    }
  }

  lemma {:induction false} KeySetOf(events: seq<Event>, spec: Spec, e: Event, k: Key)
    requires spec.Valid() && e in events && k in EventKeys(e, spec)
    ensures k in KeySet(events, spec)
  {
    if e == events[0] {
    } else {
      KeySetOf(events[1..], spec, e, k);
    }
  }

  // ----- accumulators -----

  /** The additive columns the aggregations need: numbers of events, and count, sum and sum of squares of amounts. */
  datatype Measure = Events | Carts | Purchases | AmountCount | AmountSum | AmountSquares

  function Weight(m: Measure): Event -> real {
    (e: Event) => match m
      case Events => 1.0
      case Carts => if IsAddToCart(e) then 1.0 else 0.0
      case Purchases => if IsPurchase(e) then 1.0 else 0.0
      case AmountCount => if e.amount.Some? then 1.0 else 0.0
      case AmountSum => if e.amount.Some? then e.amount.value else 0.0
      case AmountSquares => if e.amount.Some? then Square(e.amount.value) else 0.0
  }

  datatype Acc = Acc(totals: map<Measure, real>, sessions: set<SessionId>) {
    function Get(m: Measure): real {
      if m in totals then totals[m] else 0.0
    }
  }

  function Sessions(s: seq<Event>): set<SessionId> {
    set e | e in s && e.session.Some? :: e.session.value
  }

  /** Everything the feature definitions ask about one group of events. */
  function AccOf(s: seq<Event>): Acc {
    Acc(map m: Measure :: Sum(s, Weight(m)), Sessions(s))
  }

  function Combine(a: Acc, b: Acc): Acc {
    Acc(map m: Measure :: a.Get(m) + b.Get(m), a.sessions + b.sessions)
  }

  lemma CombineLaws(a: Acc, b: Acc, c: Acc)
    ensures Combine(Combine(a, b), c) == Combine(a, Combine(b, c))
    ensures Combine(a, b) == Combine(b, a)
  {
  }

  lemma SessionsConcat(a: seq<Event>, b: seq<Event>)
    ensures Sessions(a + b) == Sessions(a) + Sessions(b)
  {
    forall x
      ensures x in Sessions(a + b) <==> x in Sessions(a) + Sessions(b)
    {
      if e :| e in a + b && e.session == Some(x) {
        assert e in a || e in b;
      }
      if e :| e in a && e.session == Some(x) {
        assert e in a + b;
      }
      if e :| e in b && e.session == Some(x) {
        assert e in a + b;
      }
    }
  }

  lemma AccConcat(a: seq<Event>, b: seq<Event>)
    ensures AccOf(a + b) == Combine(AccOf(a), AccOf(b))
  {
    SessionsConcat(a, b);
    forall m: Measure
      ensures Sum(a + b, Weight(m)) == Sum(a, Weight(m)) + Sum(b, Weight(m))
    {
      SumConcat(a, b, Weight(m));
    }
  }

  /** What the totals of a group say about its events and about the list of its non-null amounts. */
  lemma {:induction false} TotalsMeaning(s: seq<Event>)
    ensures Sum(s, Weight(Events)) == |s| as real
    ensures Sum(s, Weight(Carts)) == Count(s, IsAddToCart) as real
    ensures Sum(s, Weight(Purchases)) == Count(s, IsPurchase) as real
    ensures Sum(s, Weight(AmountCount)) == |Amounts(s)| as real
    ensures Sum(s, Weight(AmountSum)) == Total(Amounts(s))
    ensures Sum(s, Weight(AmountSquares)) == Spread(Amounts(s), 0.0)
  {
    if s == [] {
    } else {
      TotalsMeaning(s[1..]);
      var first := s[0].amount;
      if first.Some? {
        assert Amounts(s)[1..] == Amounts(s[1..]);
        assert first.value - 0.0 == first.value;
      } else {
        assert Amounts(s) == Amounts(s[1..]);
      }
    }
  }

  /** A batch job: every group of the whole input, aggregated at once. */
  function Aggregate(events: seq<Event>, spec: Spec): map<Key, Acc>
    requires spec.Valid()
  {
    map k | k in KeySet(events, spec) :: AccOf(Group(events, k, spec))
  }

  /** The state store of a streaming aggregation absorbing the partial aggregates of one micro-batch. */
  function MergeStates(a: map<Key, Acc>, b: map<Key, Acc>): map<Key, Acc> {
    map k | k in a.Keys + b.Keys ::
      if k !in b then a[k] else if k !in a then b[k] else Combine(a[k], b[k])
  }

  function StreamState(batches: seq<seq<Event>>, spec: Spec): map<Key, Acc>
    requires spec.Valid()
  {
    if batches == [] then map[]
    else MergeStates(StreamState(batches[..|batches| - 1], spec), Aggregate(batches[|batches| - 1], spec))
  }

  lemma AggregateConcat(a: seq<Event>, b: seq<Event>, spec: Spec)
    requires spec.Valid()
    ensures Aggregate(a + b, spec) == MergeStates(Aggregate(a, spec), Aggregate(b, spec))
  {
    KeySetIsNonEmptyGroups(a, spec);
    KeySetIsNonEmptyGroups(b, spec);
    KeySetIsNonEmptyGroups(a + b, spec);
    forall k: Key
      ensures Group(a + b, k, spec) == Group(a, k, spec) + Group(b, k, spec)
    {
      FilterConcat(a, b, Member(k, spec));
    }
    forall k | k in KeySet(a + b, spec)
      ensures Aggregate(a + b, spec)[k] == MergeStates(Aggregate(a, spec), Aggregate(b, spec))[k]
    {
      MergedGroup(Group(a, k, spec), Group(b, k, spec));
    }
  }

  lemma MergedGroup(a: seq<Event>, b: seq<Event>)
    ensures AccOf(a + b) == if b == [] then AccOf(a) else if a == [] then AccOf(b) else Combine(AccOf(a), AccOf(b))
  {
    AccConcat(a, b);
    if b == [] {
      assert a + b == a;
    } else if a == [] {
      assert a + b == b;
    }
  }

  lemma {:induction false} StreamIsAggregateOfConcatenation(batches: seq<seq<Event>>, spec: Spec)
    requires spec.Valid()
    ensures StreamState(batches, spec) == Aggregate(Flatten(batches), spec)
  {
    if batches == [] {
      assert Aggregate([], spec) == map[];
    } else {
      var before, last := batches[..|batches| - 1], batches[|batches| - 1];
      StreamIsAggregateOfConcatenation(before, spec);
      AggregateConcat(Flatten(before), last, spec);
      FlattenLast(before, last);
      assert batches == before + [last];
    }
  }

  lemma {:induction false} FlattenLast<T>(before: seq<seq<T>>, last: seq<T>)
    ensures Flatten(before + [last]) == Flatten(before) + last
  {
    if before == [] {
      assert [last][1..] == [];
      assert Flatten([last]) == last + Flatten([last][1..]);
      assert before + [last] == [last];
    } else {
      assert (before + [last])[1..] == before[1..] + [last];
      FlattenLast(before[1..], last);
    }
  }

  lemma MergeAssociates(a: map<Key, Acc>, b: map<Key, Acc>, c: map<Key, Acc>)
    ensures MergeStates(MergeStates(a, b), c) == MergeStates(a, MergeStates(b, c))
  {
    var l, r := MergeStates(MergeStates(a, b), c), MergeStates(a, MergeStates(b, c));
    forall k | k in l
      ensures l[k] == r[k]
    {
      if k in a && k in b && k in c {
        CombineLaws(a[k], b[k], c[k]);
      }
    }
  }

  lemma MergeCommutes(a: map<Key, Acc>, b: map<Key, Acc>)
    ensures MergeStates(a, b) == MergeStates(b, a)
  {
    forall k | k in MergeStates(a, b)
      ensures MergeStates(a, b)[k] == MergeStates(b, a)[k]
    {
      if k in a && k in b {
        CombineLaws(a[k], b[k], a[k]);
      }
    }
  }

  lemma MergeReorders(a: map<Key, Acc>, b: map<Key, Acc>, c: map<Key, Acc>)
    ensures MergeStates(MergeStates(a, b), c) == MergeStates(a, MergeStates(b, c))
    ensures MergeStates(a, b) == MergeStates(b, a)
  {
    MergeAssociates(a, b, c);
    MergeCommutes(a, b);
  }

  lemma {:induction false} AggregatePermuted(a: seq<Event>, b: seq<Event>, spec: Spec)
    requires spec.Valid() && multiset(a) == multiset(b)
    ensures Aggregate(a, spec) == Aggregate(b, spec)
  {
    if a == [] {
      assert |multiset(b)| == 0;
      assert b == [];
    } else {
      var e := a[0];
      TailMultiset(a);
      var before, after := RemoveFrom(b, e);
      AggregatePermuted(a[1..], before + after, spec);
      assert a == [e] + a[1..];
      AggregateConcat([e], a[1..], spec);
      MoveToFront(before, e, after, spec);
    }
  }

  lemma MoveToFront(before: seq<Event>, e: Event, after: seq<Event>, spec: Spec)
    requires spec.Valid()
    ensures Aggregate(before + [e] + after, spec)
         == MergeStates(Aggregate([e], spec), Aggregate(before + after, spec))
  {
    AggregateConcat(before, after, spec);
    AggregateConcat([e], after, spec);
    AggregateConcat(before, [e] + after, spec);
    assert before + [e] + after == before + ([e] + after);
    var x, y, z := Aggregate([e], spec), Aggregate(before, spec), Aggregate(after, spec);
    MergeReorders(x, y, z);
    MergeReorders(y, x, z);
  }

  /** However the events are ordered and cut into micro-batches, the stream ends with the batch job's groups. */
  lemma StreamEqualsBatch(events: seq<Event>, batches: seq<seq<Event>>, spec: Spec)
    requires spec.Valid() && multiset(Flatten(batches)) == multiset(events)
    ensures StreamState(batches, spec) == Aggregate(events, spec)
  {
    StreamIsAggregateOfConcatenation(batches, spec);
    AggregatePermuted(Flatten(batches), events, spec);
  }

  // ----- sliding windows and their panes -----

  function NextPane(k: Key, spec: Spec): Key {
    Key(k.user, k.start + spec.slide)
  }

  /** The accumulators of the tumbling windows that `spec` strings together from k on, merged. */
  function MergedPanes(events: seq<Event>, k: Key, spec: Spec): Acc
    decreases spec.panes
  {
    if spec.panes <= 1 then AccOf(Group(events, k, spec))
    else Combine(AccOf(Group(events, k, Spec(spec.slide, 1))),
                 MergedPanes(events, NextPane(k, spec), Spec(spec.slide, spec.panes - 1)))
  }

  lemma {:induction false} DisjointGroups(events: seq<Event>, p: Event -> bool, q: Event -> bool, r: Event -> bool)
    requires forall e :: r(e) <==> p(e) || q(e)
    requires forall e :: !(p(e) && q(e))
    ensures AccOf(Filter(events, r)) == Combine(AccOf(Filter(events, p)), AccOf(Filter(events, q)))
  {
    if events == [] {
      AccConcat(events, events);
      assert events + events == events;
    } else {
      var e, rest := events[0], events[1..];
      DisjointGroups(rest, p, q, r);
      var ap, aq := AccOf(Filter(rest, p)), AccOf(Filter(rest, q));
      FilterStep(events, p);
      FilterStep(events, q);
      FilterStep(events, r);
      CombineLaws(AccOf([e]), ap, aq);
      CombineLaws(ap, AccOf([e]), aq);
    }
  }

  lemma FilterStep(events: seq<Event>, p: Event -> bool)
    requires events != []
    ensures var tail := AccOf(Filter(events[1..], p));
            AccOf(Filter(events, p)) == if p(events[0]) then Combine(AccOf([events[0]]), tail) else tail
  {
    var tail := Filter(events[1..], p);
    if p(events[0]) {
      AccConcat([events[0]], tail);
    } else {
      assert [] + tail == tail;
    }
  }

  lemma SplitWindow(events: seq<Event>, k: Key, next: Key, whole: Spec, front: Spec, back: Spec)
    requires front.Size() >= 0 && back.Size() >= 0 && whole.Size() == front.Size() + back.Size()
    requires next == Key(k.user, k.start + front.Size())
    ensures AccOf(Group(events, k, whole)) == Combine(AccOf(Group(events, k, front)), AccOf(Group(events, next, back)))
  {
    DisjointGroups(events, Member(k, front), Member(next, back), Member(k, whole));
  }

  /** Counts, sums and session sets of a sliding window are those of its panes put together. */
  lemma {:induction false} SlidingWindowRefinesPanes(events: seq<Event>, k: Key, spec: Spec)
    requires spec.Valid()
    ensures AccOf(Group(events, k, spec)) == MergedPanes(events, k, spec)
    decreases spec.panes
  {
    if spec.panes == 1 {
    } else {
      var next, back := NextPane(k, spec), Spec(spec.slide, spec.panes - 1);
      SlidingWindowRefinesPanes(events, next, back);
      PeelPane(events, k, spec, next, back);
    }
  }

  lemma PeelPane(events: seq<Event>, k: Key, spec: Spec, next: Key, back: Spec)
    requires spec.Valid() && next == NextPane(k, spec) && back == Spec(spec.slide, spec.panes - 1)
    ensures AccOf(Group(events, k, spec))
         == Combine(AccOf(Group(events, k, Spec(spec.slide, 1))), AccOf(Group(events, next, back)))
  {
    FirstPane(spec.slide, spec.panes);
    SplitWindow(events, k, next, spec, Spec(spec.slide, 1), back);
  }

  lemma FirstPane(slide: int, panes: nat)
    requires slide > 0 && panes > 0
    ensures Spec(slide, panes).Size() == slide + Spec(slide, panes - 1).Size()
    ensures Spec(slide, panes - 1).Size() >= 0
    ensures Spec(slide, 1).Size() == slide
  {
  }

  // ----- conservation over windows -----

  /** Total group size over the listed windows of one user. */
  function CountOverWindows(events: seq<Event>, u: UserId, order: seq<Key>, spec: Spec): nat {
    if order == [] then 0
    else (if order[0].user == u then |Group(events, order[0], spec)| else 0)
         + CountOverWindows(events, u, order[1..], spec)
  }

  lemma {:induction false} OneMoreEvent(e: Event, rest: seq<Event>, order: seq<Key>, spec: Spec)
    ensures CountOverWindows([e] + rest, e.user, order, spec)
         == CountOverWindows(rest, e.user, order, spec) + Count(order, Covers(e, spec))
    ensures forall u :: u != e.user ==>
              CountOverWindows([e] + rest, u, order, spec) == CountOverWindows(rest, u, order, spec)
  {
    if order == [] {
    } else {
      OneMoreEvent(e, rest, order[1..], spec);
      assert ([e] + rest)[1..] == rest;
    }
  }

  /** Every event is counted once in each of its windows and nowhere else. */
  lemma {:induction false} WindowCountsConserveEvents(events: seq<Event>, u: UserId, order: seq<Key>, spec: Spec)
    requires spec.Valid() && NoDup(order)
    requires forall k :: k in KeySet(events, spec) ==> k in order
    requires forall k :: k in order ==> Aligned(k.start, spec.slide)
    ensures CountOverWindows(events, u, order, spec) == spec.panes * Count(events, ByUser(u))
  {
    if events == [] {
      NothingToCount(u, order, spec);
    } else {
      var e, rest := events[0], events[1..];
      WindowCountsConserveEvents(rest, u, order, spec);
      OneMoreEvent(e, rest, order, spec);
      assert events == [e] + rest;
      EventInExactlyItsWindows(e, spec);
      forall k: Key
        ensures k in EventKeys(e, spec) <==> k in order && Covers(e, spec)(k)
      {
        if k in EventKeys(e, spec) {
          assert k in KeySet(events, spec);
        }
      }
      CountExactly(EventKeys(e, spec), order, Covers(e, spec));
      assert spec.panes * (Count(rest, ByUser(u)) + 1) == spec.panes * Count(rest, ByUser(u)) + spec.panes;
    }
  }

  lemma {:induction false} NothingToCount(u: UserId, order: seq<Key>, spec: Spec)
    ensures CountOverWindows([], u, order, spec) == 0
  {
    if order == [] {
    } else {
      NothingToCount(u, order[1..], spec);
    }
  }
}
