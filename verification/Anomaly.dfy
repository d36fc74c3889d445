/** compute_anomaly_score: five-minute mean against 24-hour mean and sample deviation. */
module Anomaly {
  import opened Wrappers
  import opened Seqs
  import opened Analysis
  import opened Events
  import opened Windows
  import opened Features

  const EPSILON := 0.000001

  /** Sample variance from the running totals; defined from two amounts on. */
  function Variance(a: Acc): real
    requires a.Get(AmountCount) >= 2.0
  {
    (a.Get(AmountSquares) - Times(a.Get(AmountSum), a.Get(AmountSum) / a.Get(AmountCount))) / (a.Get(AmountCount) - 1.0)
  }

  /** stddev: null for fewer than two amounts. */
  function StdDev(a: Acc, sqrt: real -> real): Option<real> {
    if a.Get(AmountCount) < 2.0 then None else Some(sqrt(Variance(a)))
  }

  function Score(avg5m: Option<real>, mean24h: Option<real>, std24h: Option<real>): Option<real> {
    if mean24h.None? then Some(0.0)
    else if avg5m.None? || std24h.GetOr(1.0) + EPSILON == 0.0 then None
    else Some(Abs((avg5m.value - mean24h.value) / (std24h.GetOr(1.0) + EPSILON)))
  }

  /** The score of a pane against a day window, from the accumulators that either job holds for them. */
  function AccScore(pane: Acc, day: Acc, sqrt: real -> real): Option<real> {
    Score(AvgAmount(pane), AvgAmount(day), StdDev(day, sqrt))
  }

  function ScoreOf(pane: seq<Event>, day: seq<Event>, sqrt: real -> real): Option<real> {
    AccScore(AccOf(pane), AccOf(day), sqrt)
  }

  /** The two aggregations of the scorer. */
  datatype Scorer = Scorer(panes: map<Key, Acc>, days: map<Key, Acc>) {

    predicate Has(panes: seq<Key>, days: seq<Key>) {
      (forall k :: k in panes ==> k in this.panes) && forall k :: k in days ==> k in this.days
    }

    ghost predicate ListedBy(panes: seq<Key>, days: seq<Key>)
      ensures ListedBy(panes, days) ==> Has(panes, days)
    {
      && NoDup(panes) && (forall k :: k in panes <==> k in this.panes)
      && NoDup(days) && (forall k :: k in days <==> k in this.days)
    }
  }

  /** As the backfill computes them, over all purchases at once. */
  function BatchScorer(purchases: seq<Event>): Scorer {
    Scorer(Aggregate(purchases, TUMBLING_5M), Aggregate(purchases, SLIDING_24H))
  }

  /** As the stream holds them after absorbing micro-batches of purchases one by one. */
  function StreamScorer(batches: seq<seq<Event>>): Scorer {
    Scorer(StreamState(batches, TUMBLING_5M), StreamState(batches, SLIDING_24H))
  }

  /** One output row; `day` is the 24-hour window it was scored against. */
  datatype Scored = Scored(key: Key, day: Key, score: Option<real>)

  function ScoredAgainst(st: Scorer, k: Key, days: seq<Key>, sqrt: real -> real): seq<Scored>
    requires k in st.panes && forall d :: d in days ==> d in st.days
  {
    if days == [] then []
    else
      (if days[0].user != k.user then [] else [Scored(k, days[0], AccScore(st.panes[k], st.days[days[0]], sqrt))])
      + ScoredAgainst(st, k, days[1..], sqrt)
  }

  /** Current panes joined with all 24-hour windows of the same user; `panes` and `days` list the two tables. */
  function ScoredRows(st: Scorer, panes: seq<Key>, days: seq<Key>, sqrt: real -> real): seq<Scored>
    requires st.Has(panes, days)
  {
    if panes == [] then []
    else ScoredAgainst(st, panes[0], days, sqrt) + ScoredRows(st, panes[1..], days, sqrt)
  }

  lemma {:induction false} ScoredAgainstAre(st: Scorer, k: Key, days: seq<Key>, sqrt: real -> real, r: Scored)
    requires k in st.panes && forall d :: d in days ==> d in st.days
    ensures r in ScoredAgainst(st, k, days, sqrt) <==>
            && r.key == k && r.day in days && r.day.user == k.user
            && r.score == AccScore(st.panes[k], st.days[r.day], sqrt)
  {
    if days == [] {
    } else {
      ScoredAgainstAre(st, k, days[1..], sqrt, r);
      assert days == [days[0]] + days[1..];
    }
  }

  /** The join keeps no relation between the windows: every pane meets every day window of its user. */
  lemma {:induction false} ScoredRowsAre(st: Scorer, panes: seq<Key>, days: seq<Key>, sqrt: real -> real, r: Scored)
    requires st.Has(panes, days)
    ensures r in ScoredRows(st, panes, days, sqrt) <==>
            && r.key in panes && r.day in days && r.day.user == r.key.user
            && r.score == AccScore(st.panes[r.key], st.days[r.day], sqrt)
  {
    if panes == [] {
    } else {
      ScoredRowsAre(st, panes[1..], days, sqrt, r);
      ScoredAgainstAre(st, panes[0], days, sqrt, r);
      assert panes == [panes[0]] + panes[1..];
    }
  }

  /** For the scorer of a list of purchases, in terms of the purchases in the two windows. */
  lemma ScoredGroupsAre(purchases: seq<Event>, panes: seq<Key>, days: seq<Key>, sqrt: real -> real, r: Scored)
    requires BatchScorer(purchases).ListedBy(panes, days)
    ensures r in ScoredRows(BatchScorer(purchases), panes, days, sqrt) <==>
            && r.key in KeySet(purchases, TUMBLING_5M) && r.day in KeySet(purchases, SLIDING_24H)
            && r.day.user == r.key.user
            && r.score == ScoreOf(Group(purchases, r.key, TUMBLING_5M), Group(purchases, r.day, SLIDING_24H), sqrt)
  {
    ScoredRowsAre(BatchScorer(purchases), panes, days, sqrt, r);
  }

  lemma {:induction false} ScoredAgainstOnce(st: Scorer, k: Key, days: seq<Key>, sqrt: real -> real)
    requires k in st.panes && (forall d :: d in days ==> d in st.days) && NoDup(days)
    ensures NoDup(ScoredAgainst(st, k, days, sqrt))
  {
    if days == [] {
    } else {
      var rest := ScoredAgainst(st, k, days[1..], sqrt);
      var here := if days[0].user != k.user then []
                  else [Scored(k, days[0], AccScore(st.panes[k], st.days[days[0]], sqrt))];
      ScoredAgainstOnce(st, k, days[1..], sqrt);
      forall r | r in here
        ensures r !in rest
      {
        ScoredAgainstAre(st, k, days[1..], sqrt, r);
        assert days[0] !in days[1..];
      }
      NoDupConcat(here, rest);
    }
  }

  /** Every pair of windows is scored once. */
  lemma {:induction false} ScoredOnce(st: Scorer, panes: seq<Key>, days: seq<Key>, sqrt: real -> real)
    requires st.Has(panes, days) && NoDup(panes) && NoDup(days)
    ensures NoDup(ScoredRows(st, panes, days, sqrt))
  {
    if panes == [] {
    } else {
      var here, rest := ScoredAgainst(st, panes[0], days, sqrt), ScoredRows(st, panes[1..], days, sqrt);
      ScoredAgainstOnce(st, panes[0], days, sqrt);
      ScoredOnce(st, panes[1..], days, sqrt);
      forall r | r in here
        ensures r !in rest
      {
        ScoredAgainstAre(st, panes[0], days, sqrt, r);
        ScoredRowsAre(st, panes[1..], days, sqrt, r);
        assert panes[0] !in panes[1..];
      }
      NoDupConcat(here, rest);
    }
  }

  lemma ScoredPermuted(st: Scorer, panes: seq<Key>, days: seq<Key>, panes': seq<Key>, days': seq<Key>,
                       sqrt: real -> real)
    requires st.ListedBy(panes, days) && st.ListedBy(panes', days')
    ensures multiset(ScoredRows(st, panes, days, sqrt)) == multiset(ScoredRows(st, panes', days', sqrt))
  {
    forall r
      ensures r in ScoredRows(st, panes, days, sqrt) <==> r in ScoredRows(st, panes', days', sqrt)
    {
      ScoredRowsAre(st, panes, days, sqrt, r);
      ScoredRowsAre(st, panes', days', sqrt, r);
    }
    ScoredOnce(st, panes, days, sqrt);
    ScoredOnce(st, panes', days', sqrt);
    SameElements(ScoredRows(st, panes, days, sqrt), ScoredRows(st, panes', days', sqrt));
  }

  /** Stream and backfill hold the same means and deviations and emit the same scored rows, each as often, in whatever
      order each lists them. */
  lemma ScorerStreamingEqualsBackfill(events: seq<Event>, batches: seq<seq<Event>>, sqrt: real -> real,
                                      panes: seq<Key>, days: seq<Key>, panes': seq<Key>, days': seq<Key>)
    requires multiset(Flatten(batches)) == multiset(events)
    requires StreamScorer(FilterEach(batches, IsPurchase)).ListedBy(panes, days)
    requires BatchScorer(Filter(events, IsPurchase)).ListedBy(panes', days')
    ensures StreamScorer(FilterEach(batches, IsPurchase)) == BatchScorer(Filter(events, IsPurchase))
    ensures multiset(ScoredRows(StreamScorer(FilterEach(batches, IsPurchase)), panes, days, sqrt))
         == multiset(ScoredRows(BatchScorer(Filter(events, IsPurchase)), panes', days', sqrt))
  {
    StreamStateOfKind(events, batches, IsPurchase, TUMBLING_5M);
    StreamStateOfKind(events, batches, IsPurchase, SLIDING_24H);
    ScoredPermuted(BatchScorer(Filter(events, IsPurchase)), panes, days, panes', days', sqrt);
  }

  // ----- the bound when the day window does contain the pane -----

  /** The accumulated variance is the sum of squared distances from the mean over n - 1, hence never negative. */
  lemma VarianceIsSpread(g: seq<Event>)
    requires |Amounts(g)| >= 2
    ensures var m := Mean(Amounts(g));
            && AccOf(g).Get(AmountCount) >= 2.0
            && Variance(AccOf(g)) >= 0.0
            && Times(Variance(AccOf(g)), |Amounts(g)| as real - 1.0) == Spread(Amounts(g), m)
  {
    TotalsMeaning(g);
    var xs := Amounts(g);
    var m, n := Mean(xs), |xs| as real;
    MeanIsMean(xs);
    SpreadAbout(xs, m, 0.0);
    TimesOrder(n, m, m);
    TimesOrder(Total(xs), m, m);
    QuotientSign(Spread(xs, m), n - 1.0, Variance(AccOf(g)));
  }

  lemma {:induction false} AmountsSplit(events: seq<Event>, p: Event -> bool, q: Event -> bool, r: Event -> bool)
    requires forall e :: r(e) <==> p(e) || q(e)
    requires forall e :: !(p(e) && q(e))
    ensures multiset(Amounts(Filter(events, p)) + Amounts(Filter(events, q))) == multiset(Amounts(Filter(events, r)))
  {
    if events == [] {
    } else {
      AmountsSplit(events[1..], p, q, r);
      AmountsStep(events, p);
      AmountsStep(events, q);
      AmountsStep(events, r);
    }
  }

  lemma AmountsStep(events: seq<Event>, p: Event -> bool)
    requires events != []
    ensures multiset(Amounts(Filter(events, p)))
         == (if p(events[0]) && events[0].amount.Some? then multiset{events[0].amount.value} else multiset{})
            + multiset(Amounts(Filter(events[1..], p)))
  {
    var tail := Filter(events[1..], p);
    if p(events[0]) {
      assert ([events[0]] + tail)[1..] == tail;
    } else {
      assert [] + tail == tail;
    }
  }

  function InDayNotPane(k: Key, day: Key): Event -> bool {
    (e: Event) => InWindow(e, day, SLIDING_24H) && !InWindow(e, k, TUMBLING_5M)
  }

  ghost predicate Contains(day: Key, k: Key) {
    day.user == k.user && day.start <= k.start && k.start + TUMBLING_5M.Size() <= day.start + SLIDING_24H.Size()
  }

  /**
   * A pane of k amounts scored against a day window of n amounts that contains it cannot score beyond
   * sqrt((n - 1) (n - k) / (n k)), whatever the amounts. Covers n == 1 and a zero deviation.
   */
  lemma AnomalyScoreBound(purchases: seq<Event>, pane: Key, day: Key, sqrt: real -> real)
    requires IsSqrt(sqrt) && Contains(day, pane)
    requires Amounts(Group(purchases, pane, TUMBLING_5M)) != []
    ensures var k, n := |Amounts(Group(purchases, pane, TUMBLING_5M))|, |Amounts(Group(purchases, day, SLIDING_24H))|;
            var score := ScoreOf(Group(purchases, pane, TUMBLING_5M), Group(purchases, day, SLIDING_24H), sqrt);
            && 1 <= k <= n
            && score.Some?
            && Times(Times(k as real, n as real), Square(score.value)) <= Times((n - k) as real, (n - 1) as real)
  {
    var part, whole := Amounts(Group(purchases, pane, TUMBLING_5M)), Amounts(Group(purchases, day, SLIDING_24H));
    AmountsInDay(purchases, pane, day);
    var sigma, score := ScoreValue(Group(purchases, pane, TUMBLING_5M), Group(purchases, day, SLIDING_24H), sqrt);
    DayScoreBound(purchases, pane, day, part, whole, sigma, score);
  }

  lemma AmountsInDay(purchases: seq<Event>, pane: Key, day: Key)
    requires Contains(day, pane) && Amounts(Group(purchases, pane, TUMBLING_5M)) != []
    ensures 1 <= |Amounts(Group(purchases, pane, TUMBLING_5M))| <= |Amounts(Group(purchases, day, SLIDING_24H))|
  {
    var rest := RestOfDay(purchases, pane, day);
  }

  lemma DayScoreBound(purchases: seq<Event>, pane: Key, day: Key, part: seq<real>, whole: seq<real>, sigma: real,
                      score: real)
    requires Contains(day, pane) && part != [] && whole != []
    requires part == Amounts(Group(purchases, pane, TUMBLING_5M))
            && whole == Amounts(Group(purchases, day, SLIDING_24H))
    requires sigma >= 0.0 && score == Abs((Mean(part) - Mean(whole)) / (sigma + EPSILON))
    requires |whole| > 1 ==> Times(Square(sigma), |whole| as real - 1.0) == Spread(whole, Mean(whole))
    ensures Times(Times(|part| as real, |whole| as real), Square(score))
         <= Times((|whole| - |part|) as real, (|whole| - 1) as real)
  {
    var rest := RestOfDay(purchases, pane, day);
    PartScoreBound(part, rest, whole, sigma, score);
  }

  lemma CountedBound(k: nat, r: nat, n: nat, square: real)
    requires k >= 1 && n == k + r
    requires Times(Times(k as real, n as real), square) <= Times(r as real, n as real - 1.0)
    ensures Times(Times(k as real, n as real), square) <= Times((n - k) as real, (n - 1) as real)
  {
    assert (n - 1) as real == n as real - 1.0;
  }

  lemma RestOfDay(purchases: seq<Event>, pane: Key, day: Key) returns (rest: seq<real>)
    requires Contains(day, pane)
    ensures var part, whole := Amounts(Group(purchases, pane, TUMBLING_5M)),
            Amounts(Group(purchases, day, SLIDING_24H));
            multiset(part + rest) == multiset(whole) && |whole| == |part| + |rest|
  {
    rest := Amounts(Filter(purchases, InDayNotPane(pane, day)));
    AmountsSplit(purchases, Member(pane, TUMBLING_5M), InDayNotPane(pane, day), Member(day, SLIDING_24H));
    SpreadPermuted(Amounts(Group(purchases, pane, TUMBLING_5M)) + rest,
                   Amounts(Group(purchases, day, SLIDING_24H)), 0.0);
  }

  /** The score in terms of the two lists of amounts; sigma is the deviation that the code divides by. */
  lemma ScoreValue(pane: seq<Event>, day: seq<Event>, sqrt: real -> real) returns (sigma: real, score: real)
    requires IsSqrt(sqrt) && Amounts(pane) != [] && Amounts(day) != []
    ensures sigma >= 0.0
    ensures ScoreOf(pane, day, sqrt) == Some(score)
    ensures score == Abs((Mean(Amounts(pane)) - Mean(Amounts(day))) / (sigma + EPSILON))
    ensures |Amounts(day)| > 1 ==>
              Times(Square(sigma), |Amounts(day)| as real - 1.0) == Spread(Amounts(day), Mean(Amounts(day)))
    ensures |Amounts(day)| == 1 ==> sigma == 1.0
  {
    AvgAmountIsMean(pane);
    AvgAmountIsMean(day);
    TotalsMeaning(day);
    if |Amounts(day)| == 1 {
      sigma := 1.0;
    } else {
      VarianceIsSpread(day);
      sigma := sqrt(Variance(AccOf(day)));
      assert Square(sigma) == Variance(AccOf(day));
    }
    score := Abs((Mean(Amounts(pane)) - Mean(Amounts(day))) / (sigma + EPSILON));
  }

  lemma PartScoreBound(part: seq<real>, rest: seq<real>, whole: seq<real>, sigma: real, score: real)
    requires part != [] && multiset(part + rest) == multiset(whole) && |whole| == |part| + |rest|
    requires sigma >= 0.0 && score == Abs((Mean(part) - Mean(whole)) / (sigma + EPSILON))
    requires |whole| > 1 ==> Times(Square(sigma), |whole| as real - 1.0) == Spread(whole, Mean(whole))
    ensures Times(Times(|part| as real, |whole| as real), Square(score))
         <= Times((|whole| - |part|) as real, (|whole| - 1) as real)
  {
    var m, mPart := Mean(whole), Mean(part);
    MeanIsMean(part);
    MeanIsMean(whole);
    PartMeanBound(part, rest, whole, mPart, m);
    if |whole| == 1 {
      SoleAmount(|part| as real, |whole| as real, |rest| as real, mPart - m, Spread(whole, m), sigma, score);
    } else {
      ScoreWithinSpread(|part| as real, |rest| as real, |whole| as real, |whole| as real - 1.0,
                        mPart - m, sigma, EPSILON, Spread(whole, m), score);
    }
    CountedBound(|part|, |rest|, |whole|, Square(score));
  }

  lemma SoleAmount(k: real, n: real, r: real, d: real, spread: real, sigma: real, score: real)
    requires k > 0.0 && n == 1.0 && r == 0.0 && sigma >= 0.0 && score == Abs(d / (sigma + EPSILON))
    requires Times(Times(k, n), Square(d)) <= Times(r, spread)
    ensures Times(Times(k, n), Square(score)) <= Times(r, n - 1.0)
  {
    TimesZero(spread);
    TimesZero(0.0);
    TimesSign(k, n);
    SquareSign(d);
    TimesSign(Times(k, n), Square(d));
    assert d == 0.0;
    assert score == 0.0;
    TimesZero(Times(k, n));
  }

  // ----- what the join on the user alone means for the scores -----

  lemma EqualMeansScoreZero(pane: seq<Event>, day: seq<Event>, sqrt: real -> real)
    requires IsSqrt(sqrt) && Amounts(pane) != [] && Amounts(day) != [] && Mean(Amounts(pane)) == Mean(Amounts(day))
    ensures ScoreOf(pane, day, sqrt) == Some(0.0)
  {
    var sigma, _ := ScoreValue(pane, day, sqrt);
    NoDistance(Mean(Amounts(pane)) - Mean(Amounts(day)), sigma + EPSILON);
  }

  lemma NoDistance(d: real, b: real)
    requires d == 0.0 && b > 0.0
    ensures Abs(d / b) == 0.0
  {
  }

  lemma ConstantMean(g: seq<Event>, c: real)
    requires g != [] && forall e :: e in g ==> e.amount == Some(c)
    ensures Amounts(g) != [] && Mean(Amounts(g)) == c
  {
    AmountsMembers(g);
    assert g[0] in g;
    assert c in Amounts(g);
    forall i | 0 <= i < |Amounts(g)|
      ensures c <= Amounts(g)[i] <= c
    {
      assert Amounts(g)[i] in Amounts(g);
    }
    MeanBounds(Amounts(g), c, c);
  }

  /** A user who always spends the same never scores, whichever windows are paired. */
  lemma ConstantSpenderScoresZero(purchases: seq<Event>, panes: seq<Key>, days: seq<Key>, sqrt: real -> real,
                                  c: real, r: Scored)
    requires IsSqrt(sqrt) && BatchScorer(purchases).ListedBy(panes, days)
    requires r in ScoredRows(BatchScorer(purchases), panes, days, sqrt)
    requires forall e :: e in purchases && e.user == r.key.user ==> e.amount == Some(c)
    ensures r.score == Some(0.0)
  {
    var inPane, inDay := Group(purchases, r.key, TUMBLING_5M), Group(purchases, r.day, SLIDING_24H);
    ScoredGroupsAre(purchases, panes, days, sqrt, r);
    KeySetIsNonEmptyGroups(purchases, TUMBLING_5M);
    KeySetIsNonEmptyGroups(purchases, SLIDING_24H);
    FilterMembers(purchases, Member(r.key, TUMBLING_5M));
    FilterMembers(purchases, Member(r.day, SLIDING_24H));
    ConstantMean(inPane, c);
    ConstantMean(inDay, c);
    EqualMeansScoreZero(inPane, inDay, sqrt);
  }

  ghost predicate InOnePane(purchases: seq<Event>, u: UserId) {
    forall d, e :: d in purchases && e in purchases && d.user == u && e.user == u ==>
      PaneStart(d.ts, 300) == PaneStart(e.ts, 300)
  }

  /** Windows that hold purchases of a user whose purchases all share a pane hold exactly those purchases. */
  lemma OnePaneDay(purchases: seq<Event>, k: Key, day: Key)
    requires InOnePane(purchases, k.user) && day.user == k.user
    requires k in KeySet(purchases, TUMBLING_5M) && day in KeySet(purchases, SLIDING_24H)
    ensures Contains(day, k)
    ensures Group(purchases, k, TUMBLING_5M) == Group(purchases, day, SLIDING_24H)
  {
    KeySetIsNonEmptyGroups(purchases, TUMBLING_5M);
    KeySetIsNonEmptyGroups(purchases, SLIDING_24H);
    var d := FirstOf(purchases, k, TUMBLING_5M);
    var e := FirstOf(purchases, day, SLIDING_24H);
    WindowByPane(d, k, TUMBLING_5M);
    WindowByPane(e, day, SLIDING_24H);
    forall x | x in purchases
      ensures Member(k, TUMBLING_5M)(x) == Member(day, SLIDING_24H)(x)
    {
      WindowByPane(x, k, TUMBLING_5M);
      WindowByPane(x, day, SLIDING_24H);
      assert x.user == k.user ==> PaneStart(x.ts, 300) == PaneStart(d.ts, 300);
    }
    FilterAgrees(purchases, Member(k, TUMBLING_5M), Member(day, SLIDING_24H));
  }

  lemma FirstOf(events: seq<Event>, k: Key, spec: Spec) returns (e: Event)
    requires Group(events, k, spec) != []
    ensures e in events && InWindow(e, k, spec)
  {
    FilterMembers(events, Member(k, spec));
    e := Group(events, k, spec)[0];
    assert e in Group(events, k, spec);
  }

  /** A purchase opens its own pane, and every day window up to the one that closes with that pane. */
  lemma WindowsOf(purchases: seq<Event>, e: Event, day: Key)
    requires e in purchases && day.user == e.user && Aligned(day.start, 300)
    requires PaneStart(e.ts, 300) - 86100 <= day.start <= PaneStart(e.ts, 300)
    ensures Key(e.user, PaneStart(e.ts, 300)) in KeySet(purchases, TUMBLING_5M)
    ensures day in KeySet(purchases, SLIDING_24H)
  {
    var k := Key(e.user, PaneStart(e.ts, 300));
    EventInExactlyItsWindows(e, TUMBLING_5M);
    EventInExactlyItsWindows(e, SLIDING_24H);
    WindowByPane(e, day, TUMBLING_5M);
    WindowByPane(e, k, TUMBLING_5M);
    WindowByPane(e, day, SLIDING_24H);
    KeySetOf(purchases, TUMBLING_5M, e, k);
    KeySetOf(purchases, SLIDING_24H, e, day);
  }

  /** Two panes with purchases: the day window that closes with the earlier pane is still joined with the later one. */
  lemma DayBeforePane(purchases: seq<Event>, d: Event, e: Event) returns (k: Key, day: Key)
    requires d in purchases && e in purchases && d.user == e.user && PaneStart(d.ts, 300) < PaneStart(e.ts, 300)
    ensures k in KeySet(purchases, TUMBLING_5M) && day in KeySet(purchases, SLIDING_24H)
    ensures k.user == day.user == d.user && !Contains(day, k)
  {
    k := Key(e.user, PaneStart(e.ts, 300));
    day := Key(d.user, PaneStart(d.ts, 300) - 86100);
    WindowByPane(d, Key(d.user, 0), TUMBLING_5M);
    WindowByPane(e, Key(e.user, 0), TUMBLING_5M);
    AlignedStep(PaneStart(d.ts, 300), 300, -287);
    WindowsOf(purchases, d, day);
    WindowsOf(purchases, e, k);
  }

  /**
   * "Windows will overlap for the same user" holds exactly for users all of whose purchases share one
   * five-minute pane; and for them every score is 0.
   */
  lemma JoinedWindowsContainIffOnePane(purchases: seq<Event>, panes: seq<Key>, days: seq<Key>, sqrt: real -> real,
                                       u: UserId)
    requires IsSqrt(sqrt)
    requires BatchScorer(purchases).ListedBy(panes, days)
    ensures InOnePane(purchases, u) <==>
            forall r :: r in ScoredRows(BatchScorer(purchases), panes, days, sqrt) && r.key.user == u ==>
                    Contains(r.day, r.key)
    ensures InOnePane(purchases, u) ==>
            forall r :: r in ScoredRows(BatchScorer(purchases), panes, days, sqrt) && r.key.user == u ==>
                    r.score == Some(0.0)
  {
    if InOnePane(purchases, u) {
      forall r | r in ScoredRows(BatchScorer(purchases), panes, days, sqrt) && r.key.user == u
        ensures Contains(r.day, r.key) && r.score == Some(0.0)
      {
        ScoredGroupsAre(purchases, panes, days, sqrt, r);
        OnePaneDay(purchases, r.key, r.day);
        var g := Group(purchases, r.key, TUMBLING_5M);
        if Amounts(g) == [] {
          AvgAmountIsMean(g);
        } else {
          EqualMeansScoreZero(g, g, sqrt);
        }
      }
    } else {
      var d, e :| d in purchases && e in purchases && d.user == u && e.user == u
                  && PaneStart(d.ts, 300) != PaneStart(e.ts, 300);
      var k, day;
      if PaneStart(d.ts, 300) < PaneStart(e.ts, 300) {
        k, day := DayBeforePane(purchases, d, e);
      } else {
        k, day := DayBeforePane(purchases, e, d);
      }
      var r := Scored(k, day, ScoreOf(Group(purchases, k, TUMBLING_5M), Group(purchases, day, SLIDING_24H), sqrt));
      ScoredGroupsAre(purchases, panes, days, sqrt, r);
    }
  }

  lemma SoleGroup(e: Event, x: real)
    requires e.amount == Some(x)
    ensures Amounts([e]) == [x] && Mean([x]) == x
  {
    assert [e][1..] == [] && [x][1..] == [];
    assert Total([x]) == x;
  }

  /** Outside its day window a pane's score has no bound: two purchases ten days apart exceed any given one. */
  lemma ScoreUnboundedOutsideDay(u: UserId, bound: real, sqrt: real -> real)
    returns (purchases: seq<Event>, k: Key, day: Key)
    requires IsSqrt(sqrt) && bound >= 0.0
    ensures forall e :: e in purchases ==> IsPurchase(e) && e.user == u
    ensures k in KeySet(purchases, TUMBLING_5M) && day in KeySet(purchases, SLIDING_24H) && k.user == day.user == u
    ensures var score := ScoreOf(Group(purchases, k, TUMBLING_5M), Group(purchases, day, SLIDING_24H), sqrt);
            score.Some? && score.value > bound
  {
    var x := 2.0 * bound + 2.0;
    var d, e := Event(u, None, Purchase, 0, Some(0.0)), Event(u, None, Purchase, 864000, Some(x));
    purchases := [d, e];
    k, day := Key(u, 864000), Key(u, 0);
    WindowsOf(purchases, e, k);
    WindowsOf(purchases, d, day);
    FarGroups(d, e, k, day);
    FarApart(d, e, x, bound, sqrt);
  }

  lemma FarGroups(d: Event, e: Event, k: Key, day: Key)
    requires d.user == e.user == k.user == day.user && d.ts == 0 && e.ts == k.start == 864000 && day.start == 0
    ensures Group([d, e], k, TUMBLING_5M) == [e] && Group([d, e], day, SLIDING_24H) == [d]
  {
    PairFilter(d, e, Member(k, TUMBLING_5M));
    PairFilter(d, e, Member(day, SLIDING_24H));
  }

  lemma FarApart(d: Event, e: Event, x: real, bound: real, sqrt: real -> real)
    requires IsSqrt(sqrt) && d.amount == Some(0.0) && e.amount == Some(x) && x == 2.0 * bound + 2.0 && bound >= 0.0
    ensures ScoreOf([e], [d], sqrt).Some? && ScoreOf([e], [d], sqrt).value > bound
  {
    SoleGroup(e, x);
    SoleGroup(d, 0.0);
    var sigma, _ := ScoreValue([e], [d], sqrt);
    FarScore(x, bound);
  }

  lemma PairFilter(d: Event, e: Event, p: Event -> bool)
    ensures p(d) && !p(e) ==> Filter([d, e], p) == [d]
    ensures p(e) && !p(d) ==> Filter([d, e], p) == [e]
  {
    assert [d, e][1..] == [e] && [e][1..] == [];
    assert Filter([e], p) == if p(e) then [e] else [];
  }

  lemma FarScore(x: real, bound: real)
    requires x == 2.0 * bound + 2.0 && bound >= 0.0
    ensures Abs((x - 0.0) / (1.0 + EPSILON)) > bound
  {
  }
}
