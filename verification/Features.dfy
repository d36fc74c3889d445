/** The five windowed features, their tables, and what one batch job and one stream make of the same events. */
module Features {
  import opened Wrappers
  import opened Seqs
  import opened Analysis
  import opened Events
  import opened Windows

  // ----- the aggregated columns -----

  function EventCount(a: Acc): Option<real> {
    Some(a.Get(Measure.Events))
  }

  /** avg: null when the group has no non-null amount. */
  function AvgAmount(a: Acc): Option<real> {
    if a.Get(AmountCount) == 0.0 then None else Some(a.Get(AmountSum) / a.Get(AmountCount))
  }

  function SessionRate(a: Acc): Option<real> {
    var sessions := |a.sessions| as real;
    Some(if sessions > 0.0 then a.Get(Measure.Events) / sessions else 0.0)
  }

  function CartRatio(a: Acc): Option<real> {
    var carts, purchases := a.Get(Carts), a.Get(Purchases);
    Some(if carts > 0.0 then Max((carts - purchases) / carts, 0.0) else 0.0)
  }

  /** A nullable column per (user, window). */
  type Table = map<Key, Option<real>>

  datatype Tables = Tables(txn: Table, spend: Table, session: Table, cart: Table, views: Table)

  function Column(state: map<Key, Acc>, f: Acc -> Option<real>): Table {
    map k | k in state :: f(state[k])
  }

  /** The five tables as the backfill computes them, over all events at once. */
  function BatchTables(events: seq<Event>): Tables {
    Tables(Column(Aggregate(Filter(events, IsPurchase), TUMBLING_5M), EventCount),
           Column(Aggregate(Filter(events, IsPurchase), SLIDING_1H), AvgAmount),
           Column(Aggregate(events, TUMBLING_5M), SessionRate),
           Column(Aggregate(Filter(events, IsCartOrPurchase), TUMBLING_30M), CartRatio),
           Column(Aggregate(Filter(events, IsPageView), TUMBLING_1H), EventCount))
  }

  function FilterEach(batches: seq<seq<Event>>, p: Event -> bool): seq<seq<Event>> {
    if batches == [] then [] else [Filter(batches[0], p)] + FilterEach(batches[1..], p)
  }

  /** The five tables as the stream holds them after absorbing the micro-batches one by one. */
  function StreamTables(batches: seq<seq<Event>>): Tables {
    Tables(Column(StreamState(FilterEach(batches, IsPurchase), TUMBLING_5M), EventCount),
           Column(StreamState(FilterEach(batches, IsPurchase), SLIDING_1H), AvgAmount),
           Column(StreamState(batches, TUMBLING_5M), SessionRate),
           Column(StreamState(FilterEach(batches, IsCartOrPurchase), TUMBLING_30M), CartRatio),
           Column(StreamState(FilterEach(batches, IsPageView), TUMBLING_1H), EventCount))
  }

  lemma {:induction false} FlattenFilterEach(batches: seq<seq<Event>>, p: Event -> bool)
    ensures Flatten(FilterEach(batches, p)) == Filter(Flatten(batches), p)
  {
    if batches == [] {
    } else {
      var tail := FilterEach(batches[1..], p);
      FlattenFilterEach(batches[1..], p);
      FilterConcat(batches[0], Flatten(batches[1..]), p);
      assert ([Filter(batches[0], p)] + tail)[1..] == tail;
    }
  }

  lemma StreamStateOfKind(events: seq<Event>, batches: seq<seq<Event>>, p: Event -> bool, spec: Spec)
    requires spec.Valid() && multiset(Flatten(batches)) == multiset(events)
    ensures StreamState(FilterEach(batches, p), spec) == Aggregate(Filter(events, p), spec)
  {
    FlattenFilterEach(batches, p);
    FilterPermuted(Flatten(batches), events, p);
    StreamEqualsBatch(Filter(events, p), FilterEach(batches, p), spec);
  }

  /** The invariant the two jobs share their code for: same events, same values, in any order and any batching. */
  lemma StreamingEqualsBackfill(events: seq<Event>, batches: seq<seq<Event>>)
    requires multiset(Flatten(batches)) == multiset(events)
    ensures StreamTables(batches) == BatchTables(events)
  {
    StreamStateOfKind(events, batches, IsPurchase, TUMBLING_5M);
    StreamStateOfKind(events, batches, IsPurchase, SLIDING_1H);
    StreamEqualsBatch(events, batches, TUMBLING_5M);
    StreamStateOfKind(events, batches, IsCartOrPurchase, TUMBLING_30M);
    StreamStateOfKind(events, batches, IsPageView, TUMBLING_1H);
  }

  // ----- what the columns mean -----

  /** avg of a group is the mean of its non-null amounts, and lies between any bounds on them. */
  lemma AvgAmountIsMean(g: seq<Event>)
    ensures AvgAmount(AccOf(g)) == if Amounts(g) == [] then None else Some(Mean(Amounts(g)))
  {
    TotalsMeaning(g);
  }

  lemma {:induction false} TotalBounds(s: seq<real>, lo: real, hi: real)
    requires forall i :: 0 <= i < |s| ==> lo <= s[i] <= hi
    ensures Times(|s| as real, lo) <= Total(s) <= Times(|s| as real, hi)
  {
    if s == [] {
      TimesZero(lo);
      TimesZero(hi);
    } else {
      TotalBounds(s[1..], lo, hi);
      TimesNext(|s| as real - 1.0, lo);
      TimesNext(|s| as real - 1.0, hi);
    }
  }

  lemma MeanBounds(s: seq<real>, lo: real, hi: real)
    requires s != [] && forall i :: 0 <= i < |s| ==> lo <= s[i] <= hi
    ensures lo <= Mean(s) <= hi
  {
    TotalBounds(s, lo, hi);
    MeanIsMean(s);
    var n, m := |s| as real, Mean(s);
    TimesSum(n, m, lo);
    TimesSum(n, hi, m);
    NonNegativeFactor(n, m - lo);
    NonNegativeFactor(n, hi - m);
  }

  lemma NonNegativeFactor(n: real, x: real)
    requires n > 0.0 && Times(n, x) >= 0.0
    ensures x >= 0.0
  {
    TimesSign(n, -x);
    assert Times(n, -x) == -Times(n, x);
  }

  lemma {:induction false} SessionsFew(g: seq<Event>)
    ensures |Sessions(g)| <= |g|
  {
    if g == [] {
      assert Sessions(g) == {};
    } else {
      SessionsFew(g[1..]);
      SessionsConcat([g[0]], g[1..]);
      assert g == [g[0]] + g[1..];
      var first := Sessions([g[0]]);
      if g[0].session.Some? {
        assert first == {g[0].session.value};
      } else {
        assert first == {};
      }
      assert |first + Sessions(g[1..])| <= |first| + |Sessions(g[1..])|;
    }
  }

  lemma QuotientAtLeastOne(a: real, b: real)
    requires 0.0 < b <= a
    ensures a / b >= 1.0
  {
    var q := a / b;
    assert Times(q, b) == a;
    if q < 1.0 {
      TimesSign(1.0 - q, b);
      TimesSum(b, 1.0, q);
    }
  }

  /** Events per session is 0 when every session is null, and otherwise at least 1. */
  lemma SessionRateRange(g: seq<Event>)
    ensures SessionRate(AccOf(g)).Some?
    ensures Sessions(g) == {} ==> SessionRate(AccOf(g)) == Some(0.0)
    ensures Sessions(g) != {} ==>
              && SessionRate(AccOf(g)).value >= 1.0
              && Times(SessionRate(AccOf(g)).value, |Sessions(g)| as real) == |g| as real
  {
    TotalsMeaning(g);
    SessionsFew(g);
    if Sessions(g) != {} {
      assert |Sessions(g)| > 0;
      QuotientAtLeastOne(|g| as real, |Sessions(g)| as real);
    }
  }

  /** The abandonment ratio is a proportion: 0 exactly when purchases cover the carts, 1 exactly when nothing was
      bought. */
  lemma CartRatioRange(g: seq<Event>)
    ensures CartRatio(AccOf(g)).Some?
    ensures var ratio, carts, bought := CartRatio(AccOf(g)).value, Count(g, IsAddToCart), Count(g, IsPurchase);
            && 0.0 <= ratio <= 1.0
            && (ratio == 0.0 <==> carts <= bought)
            && (ratio == 1.0 <==> carts > 0 && bought == 0)
            && (carts > bought ==> Times(ratio, carts as real) == (carts - bought) as real)
  {
    TotalsMeaning(g);
    var carts, bought := Count(g, IsAddToCart), Count(g, IsPurchase);
    if carts > 0 {
      ProportionRange(carts as real, bought as real, (carts as real - bought as real) / carts as real);
    }
  }

  lemma ProportionRange(c: real, b: real, q: real)
    requires c > 0.0 && b >= 0.0 && q == (c - b) / c
    ensures Times(q, c) == c - b
    ensures q <= 1.0 && (q == 1.0 <==> b == 0.0) && (q > 0.0 <==> c > b)
  {
    assert Times(q, c) == c - b;
    TimesSum(c, 1.0, q);
    assert Times(c, 1.0 - q) == b;
    TimesSign(c, 1.0 - q);
    TimesSign(1.0 - q, c);
    TimesSign(q - 1.0, c);
    TimesSign(q, c);
    assert Times(q - 1.0, c) == -b;
    assert Times(0.0, c) == 0.0;
  }
}
