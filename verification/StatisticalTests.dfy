/** KL divergence, z-score and KS test of a current sample against a baseline. */
module StatisticalTests {
  import opened Seqs
  import opened Analysis
  import opened Histogram

  const SMOOTHING := 0.0000000001
  const TAIL := 0.000000001

  // ----- kl_divergence -----

  function CommonBins(p: seq<real>, q: seq<real>, nBins: nat): (bins: seq<real>)
    requires p != [] && q != []
    ensures |bins| == nBins + 1
  {
    Linspace(Min(Least(p), Least(q)), Max(Greatest(p), Greatest(q)) + TAIL, nBins)
  }

  /** numpy's density: count / width / total count. */
  function Density(count: nat, width: real, total: real): real {
    if width == 0.0 || total == 0.0 then 0.0 else count as real / width / total
  }

  function Smoothed(values: seq<real>, bins: seq<real>): (r: seq<real>)
    requires bins != []
    ensures |r| == |bins| - 1
  {
    var counts := Counts(values, bins);
    var total := Total(Reals(counts));
    seq(|bins| - 1, i requires 0 <= i < |bins| - 1 => Density(counts[i], bins[i + 1] - bins[i], total) + SMOOTHING)
  }

  function Normalised(s: seq<real>): (r: seq<real>)
    ensures |r| == |s|
  {
    var total := Total(s);
    seq(|s|, i requires 0 <= i < |s| => if total == 0.0 then 0.0 else s[i] / total)
  }

  function KlTerm(p: real, q: real, ln: real -> real): real {
    if q == 0.0 then 0.0 else Times(p, ln(p / q))
  }

  function KlTerms(p: seq<real>, q: seq<real>, ln: real -> real): (r: seq<real>)
    requires |p| == |q|
    ensures |r| == |p| && forall i :: 0 <= i < |p| ==> r[i] == KlTerm(p[i], q[i], ln)
  {
    seq(|p|, i requires 0 <= i < |p| => KlTerm(p[i], q[i], ln))
  }

  function Kl(p: seq<real>, q: seq<real>, nBins: nat, ln: real -> real): real {
    if p == [] || q == [] then 0.0
    else
      var bins := CommonBins(p, q, nBins);
      Total(KlTerms(Normalised(Smoothed(p, bins)), Normalised(Smoothed(q, bins)), ln))
  }

  /** In-place division of a histogram by its sum. */
  method Normalise(hist: array<real>)
    modifies hist
    ensures hist[..] == Normalised(old(hist[..]))
  {
    var total := Total(hist[..]);
    forall i | 0 <= i < hist.Length {
      hist[i] := if total == 0.0 then 0.0 else hist[i] / total;
    }
  }

  /** The density histogram of a sample, plus the smoothing. */
  method Smooth(values: seq<real>, bins: seq<real>) returns (hist: array<real>)
    requires bins != []
    ensures fresh(hist) && hist[..] == Smoothed(values, bins)
  {
    var s := Smoothed(values, bins);
    hist := new real[|s|](i requires 0 <= i < |s| => s[i]);
  }

  method KlDivergence(p: seq<real>, q: seq<real>, nBins: nat, ln: real -> real) returns (kl: real)
    ensures kl == Kl(p, q, nBins, ln)
  {
    if p == [] || q == [] {
      return 0.0;
    }
    var combinedMin, combinedMax := Min(Least(p), Least(q)), Max(Greatest(p), Greatest(q)) + TAIL;
    var bins := Linspace(combinedMin, combinedMax, nBins);
    var pHist := Smooth(p, bins);
    var qHist := Smooth(q, bins);
    Normalise(pHist);
    Normalise(qHist);
    kl := Total(KlTerms(pHist[..], qHist[..], ln));
  }

  ghost predicate Distribution(s: seq<real>) {
    (forall i :: 0 <= i < |s| ==> s[i] > 0.0) && Total(s) == 1.0
  }

  lemma TotalPositive(s: seq<real>)
    requires s != [] && forall i :: 0 <= i < |s| ==> s[i] > 0.0
    ensures Total(s) > 0.0
  {
    var zeros := seq(|s|, _ => 0.0);
    TotalConstant(zeros, 0.0);
    assert zeros[0] < s[0];
    TotalMonotone(zeros, s);
  }

  lemma {:induction false} TotalDivided(s: seq<real>, d: real, r: seq<real>)
    requires d > 0.0 && |r| == |s| && forall i :: 0 <= i < |s| ==> r[i] == s[i] / d
    ensures Times(Total(r), d) == Total(s)
  {
    if s == [] {
      TimesZero(d);
    } else {
      TotalDivided(s[1..], d, r[1..]);
      QuotientTimes(s[0], d, r[0]);
      TimesSum(d, r[0], Total(r[1..]));
      TimesOrder(d, r[0], 0.0);
      TimesOrder(d, Total(r[1..]), 0.0);
    }
  }

  lemma NormalisedIsDistribution(s: seq<real>)
    requires s != [] && forall i :: 0 <= i < |s| ==> s[i] > 0.0
    ensures Distribution(Normalised(s))
  {
    TotalPositive(s);
    var d, r := Total(s), Normalised(s);
    TotalDivided(s, d, r);
    OnlyOne(Total(r), d);
    forall i | 0 <= i < |s|
      ensures r[i] > 0.0
    {
      PositiveQuotient(s[i], d);
    }
  }

  lemma OnlyOne(x: real, d: real)
    requires d > 0.0 && Times(x, d) == d
    ensures x == 1.0
  {
    assert Times(1.0, d) == d;
    TimesOrder(d, x, 0.0);
    TimesOrder(d, 1.0, 0.0);
    CancelFactor(d, x, 1.0);
    CancelFactor(d, 1.0, x);
  }

  lemma PositiveQuotient(a: real, b: real)
    requires a > 0.0 && b > 0.0
    ensures a / b > 0.0
  {
  }

  // Gibbs' inequality

  lemma KlTermAbove(p: real, q: real, ln: real -> real)
    requires IsLn(ln) && p > 0.0 && q > 0.0
    ensures KlTerm(p, q, ln) >= p - q
    ensures KlTerm(p, q, ln) == p - q <==> p == q
  {
    LnQuotient(ln, p, q);
    LnQuotient(ln, q, p);
    QuotientTimes(q, p, q / p);
    TimesSum(p, q / p, 1.0);
    assert Times(p, 1.0) == p;
    var gap := q / p - 1.0 - ln(q / p);
    TimesSum(p, q / p - 1.0, ln(q / p));
    TimesSign(p, gap);
    assert Times(p, ln(p / q)) == -Times(p, ln(q / p)) by {
      OppositeTimes(p, ln(p / q), ln(q / p));
    }
    if p == q {
      assert q / p == 1.0;
      LnOne(ln);
      TimesZero(p);
    } else {
      QuotientNotOne(p, q);
      LnStrict(ln, q / p);
    }
  }

  lemma OppositeTimes(p: real, x: real, y: real)
    requires x == -y
    ensures Times(p, x) == -Times(p, y)
  {
  }

  lemma QuotientNotOne(p: real, q: real)
    requires p > 0.0 && q > 0.0 && p != q
    ensures q / p != 1.0
  {
    QuotientTimes(q, p, q / p);
    assert Times(1.0, p) == p;
  }

  lemma Gibbs(p: seq<real>, q: seq<real>, ln: real -> real)
    requires IsLn(ln) && |p| == |q| && Distribution(p) && Distribution(q)
    ensures Total(KlTerms(p, q, ln)) >= 0.0
    ensures Total(KlTerms(p, q, ln)) == 0.0 <==> p == q
  {
    var gaps := seq(|p|, i requires 0 <= i < |p| => p[i] + -1.0 * q[i]);
    TotalLinear(p, q, gaps, -1.0);
    forall i | 0 <= i < |p|
      ensures KlTerms(p, q, ln)[i] >= gaps[i] && (KlTerms(p, q, ln)[i] == gaps[i] <==> p[i] == q[i])
    {
      KlTermAbove(p[i], q[i], ln);
    }
    TotalMonotone(gaps, KlTerms(p, q, ln));
    if p == q {
      TotalMonotone(KlTerms(p, q, ln), gaps);
    } else {
      var i :| 0 <= i < |p| && p[i] != q[i];
      assert gaps[i] < KlTerms(p, q, ln)[i];
    }
  }

  // KL of two samples

  lemma CommonBinsHoldAll(p: seq<real>, q: seq<real>, nBins: nat)
    requires p != [] && q != [] && nBins > 0
    ensures Increasing(CommonBins(p, q, nBins))
    ensures Total(Reals(Counts(p, CommonBins(p, q, nBins)))) == |p| as real
    ensures Total(Reals(Counts(q, CommonBins(p, q, nBins)))) == |q| as real
  {
    var bins := CommonBins(p, q, nBins);
    var lo, hi := Min(Least(p), Least(q)), Max(Greatest(p), Greatest(q)) + TAIL;
    Extremes(p);
    Extremes(q);
    assert Least(p) <= p[0] <= Greatest(p);
    LinspaceIncreasing(lo, hi, nBins);
    CountsConserveValues(p, bins);
    CountsConserveValues(q, bins);
    AllWithin(p, lo, hi);
    AllWithin(q, lo, hi);
  }

  lemma DensityNonNegative(count: nat, width: real, total: real)
    requires width > 0.0 && total > 0.0
    ensures Density(count, width, total) >= 0.0
  {
    QuotientSign(count as real, width, count as real / width);
    QuotientSign(count as real / width, total, Density(count, width, total));
  }

  lemma SmoothedPositive(values: seq<real>, bins: seq<real>)
    requires |bins| > 1 && Increasing(bins) && Total(Reals(Counts(values, bins))) > 0.0
    ensures forall i :: 0 <= i < |bins| - 1 ==> Smoothed(values, bins)[i] > 0.0
    ensures Distribution(Normalised(Smoothed(values, bins)))
  {
    forall i | 0 <= i < |bins| - 1
      ensures Smoothed(values, bins)[i] > 0.0
    {
      DensityNonNegative(Counts(values, bins)[i], bins[i + 1] - bins[i], Total(Reals(Counts(values, bins))));
    }
    NormalisedIsDistribution(Smoothed(values, bins));
  }

  /** Gibbs on samples: both histograms become distributions, their divergence is never negative, and 0 only if they
      coincide. */
  lemma KlNonNegative(p: seq<real>, q: seq<real>, nBins: nat, ln: real -> real)
    requires IsLn(ln) && p != [] && q != [] && nBins > 0
    ensures var bins := CommonBins(p, q, nBins);
            && Distribution(Normalised(Smoothed(p, bins))) && Distribution(Normalised(Smoothed(q, bins)))
            && Kl(p, q, nBins, ln) >= 0.0
            && (Kl(p, q, nBins, ln) == 0.0 <==> Normalised(Smoothed(p, bins)) == Normalised(Smoothed(q, bins)))
  {
    var bins := CommonBins(p, q, nBins);
    CommonBinsHoldAll(p, q, nBins);
    SmoothedPositive(p, bins);
    SmoothedPositive(q, bins);
    Gibbs(Normalised(Smoothed(p, bins)), Normalised(Smoothed(q, bins)), ln);
  }

  /** Sum of p ln q. */
  function LnWeighed(p: seq<real>, q: seq<real>, ln: real -> real): (r: seq<real>)
    requires |p| == |q|
    ensures |r| == |p| && forall i :: 0 <= i < |p| ==> r[i] == Times(p[i], ln(q[i]))
  {
    seq(|p|, i requires 0 <= i < |p| => Times(p[i], ln(q[i])))
  }

  lemma KlTermSplits(p: real, q: real, ln: real -> real)
    requires IsLn(ln) && p > 0.0 && q > 0.0
    ensures KlTerm(p, q, ln) == Times(p, ln(p)) - Times(p, ln(q))
  {
    LnQuotient(ln, p, q);
    TimesSum(p, ln(p), ln(q));
  }

  lemma {:induction false} SplitTotals(p: seq<real>, q: seq<real>, ln: real -> real)
    requires |p| == |q|
    requires forall i :: 0 <= i < |p| ==> KlTerm(p[i], q[i], ln) == Times(p[i], ln(p[i])) - Times(p[i], ln(q[i]))
    ensures Total(KlTerms(p, q, ln)) == Total(LnWeighed(p, p, ln)) - Total(LnWeighed(p, q, ln))
  {
    TotalDifference(LnWeighed(p, p, ln), LnWeighed(p, q, ln), KlTerms(p, q, ln));
  }

  /** D(P||Q) is the cross entropy of Q under P less the entropy of P, so P does the weighing. */
  lemma KlIsCrossEntropy(p: seq<real>, q: seq<real>, ln: real -> real)
    requires IsLn(ln) && |p| == |q| && forall i :: 0 <= i < |p| ==> p[i] > 0.0 && q[i] > 0.0
    ensures Total(KlTerms(p, q, ln)) == Total(LnWeighed(p, p, ln)) - Total(LnWeighed(p, q, ln))
  {
    forall i | 0 <= i < |p|
      ensures KlTerm(p[i], q[i], ln) == Times(p[i], ln(p[i])) - Times(p[i], ln(q[i]))
    {
      KlTermSplits(p[i], q[i], ln);
    }
    SplitTotals(p, q, ln);
  }

  /** r is the histogram of the values: what each bin holds, over its width and the sample size, plus the smoothing `s`
      contains, divided by the sum of all. */
  ghost predicate IsHistogram(r: seq<real>, s: seq<real>, values: seq<real>, bins: seq<real>) {
    && |r| == |s| == |bins| - 1
    && forall i :: 0 <= i < |r| ==>
         && Times(Times(s[i] - 0.0000000001, bins[i + 1] - bins[i]), |values| as real)
            == Count(values, Bin(bins, i)) as real
         && Times(r[i], Total(s)) == s[i]
  }

  lemma DensityTimes(count: nat, width: real, total: real)
    requires width > 0.0 && total > 0.0
    ensures Times(Times(Density(count, width, total), width), total) == count as real
  {
    var x := count as real / width;
    QuotientTimes(count as real, width, x);
    QuotientTimes(x, total, x / total);
    TimesOrder(x / total, width, total);
    TimesOrder(x / total, total, width);
    TimesOrder(width, total, 0.0);
  }

  lemma SmoothedAt(values: seq<real>, bins: seq<real>, i: nat, counts: seq<nat>, density: real)
    requires i + 1 < |bins| && counts == Counts(values, bins)
    requires density == Density(counts[i], bins[i + 1] - bins[i], Total(Reals(counts)))
    ensures Smoothed(values, bins)[i] == density + 0.0000000001
  {
  }

  lemma BinTimes(r: real, count: nat, width: real, n: real)
    requires width > 0.0 && n > 0.0 && r == Density(count, width, n) + 0.0000000001
    ensures Times(Times(r - 0.0000000001, width), n) == count as real
  {
    DensityTimes(count, width, n);
  }

  lemma SmoothedBin(values: seq<real>, bins: seq<real>, i: nat, width: real, n: real)
    requires i + 1 < |bins| && width == bins[i + 1] - bins[i] && width > 0.0 && n > 0.0
    requires Total(Reals(Counts(values, bins))) == n
    ensures Times(Times(Smoothed(values, bins)[i] - 0.0000000001, width), n) == Count(values, Bin(bins, i)) as real
  {
    var counts := Counts(values, bins);
    SmoothedAt(values, bins, i, counts, Density(counts[i], width, n));
    BinTimes(Smoothed(values, bins)[i], counts[i], width, n);
  }

  lemma NormalisedTimes(s: seq<real>)
    requires s != [] && forall i :: 0 <= i < |s| ==> s[i] > 0.0
    ensures forall i :: 0 <= i < |s| ==> Times(Normalised(s)[i], Total(s)) == s[i]
  {
    TotalPositive(s);
    forall i | 0 <= i < |s|
      ensures Times(Normalised(s)[i], Total(s)) == s[i]
    {
      QuotientTimes(s[i], Total(s), Normalised(s)[i]);
    }
  }

  lemma HistogramIs(values: seq<real>, bins: seq<real>)
    requires |bins| > 1 && Increasing(bins) && values != []
    requires Total(Reals(Counts(values, bins))) == |values| as real
    ensures IsHistogram(Normalised(Smoothed(values, bins)), Smoothed(values, bins), values, bins)
  {
    SmoothedPositive(values, bins);
    NormalisedTimes(Smoothed(values, bins));
    forall i | 0 <= i < |bins| - 1
      ensures Times(Times(Smoothed(values, bins)[i] - 0.0000000001, bins[i + 1] - bins[i]), |values| as real)
           == Count(values, Bin(bins, i)) as real
    {
      SmoothedBin(values, bins, i, bins[i + 1] - bins[i], |values| as real);
    }
  }

  /** n equal bins from lo to hi. */
  ghost predicate EqualBins(bins: seq<real>, lo: real, hi: real, n: nat) {
    && |bins| == n + 1 && bins[0] == lo && bins[n] == hi
    && forall i :: 0 <= i < n ==> Times(bins[i + 1] - bins[i], n as real) == hi - lo
  }

  lemma LinspaceIsEqual(lo: real, hi: real, n: nat)
    requires lo < hi && n > 0
    ensures EqualBins(Linspace(lo, hi, n), lo, hi, n)
  {
    LinspaceIncreasing(lo, hi, n);
    var bins := Linspace(lo, hi, n);
    forall i | 0 <= i < n
      ensures Times(bins[i + 1] - bins[i], n as real) == hi - lo
    {
      EdgeStep(lo, hi, n, i);
      OneOf(hi - lo, n as real);
    }
  }

  lemma OneOf(x: real, d: real)
    requires d > 0.0
    ensures Times(Times(x, 1.0 / d), d) == x
  {
    QuotientTimes(1.0, d, 1.0 / d);
    TimesOrder(x, 1.0 / d, d);
    assert Times(x, 1.0) == x;
  }

  lemma KlByWeights(p: seq<real>, q: seq<real>, nBins: nat, ln: real -> real, ps: seq<real>, qs: seq<real>)
    requires IsLn(ln) && p != [] && q != [] && nBins > 0
    requires ps == Normalised(Smoothed(p, CommonBins(p, q, nBins)))
    requires qs == Normalised(Smoothed(q, CommonBins(p, q, nBins)))
    ensures Kl(p, q, nBins, ln) == Total(LnWeighed(ps, ps, ln)) - Total(LnWeighed(ps, qs, ln))
  {
    CommonBinsHoldAll(p, q, nBins);
    SmoothedPositive(p, CommonBins(p, q, nBins));
    SmoothedPositive(q, CommonBins(p, q, nBins));
    NormalisedIsDistribution(Smoothed(p, CommonBins(p, q, nBins)));
    NormalisedIsDistribution(Smoothed(q, CommonBins(p, q, nBins)));
    KlIsCrossEntropy(ps, qs, ln);
  }

  lemma CommonHistograms(p: seq<real>, q: seq<real>, nBins: nat, bins: seq<real>)
    requires p != [] && q != [] && nBins > 0 && bins == CommonBins(p, q, nBins)
    ensures IsHistogram(Normalised(Smoothed(p, bins)), Smoothed(p, bins), p, bins)
    ensures IsHistogram(Normalised(Smoothed(q, bins)), Smoothed(q, bins), q, bins)
  {
    CommonBinsHoldAll(p, q, nBins);
    HistogramIs(p, bins);
    HistogramIs(q, bins);
  }

  /** lo and hi are the extremes of all values of both samples. */
  ghost predicate SpansBoth(lo: real, hi: real, p: seq<real>, q: seq<real>) {
    (forall x :: x in p || x in q ==> lo <= x <= hi) && (lo in p || lo in q) && (hi in p || hi in q)
  }

  lemma CommonRange(p: seq<real>, q: seq<real>, lo: real, hi: real)
    requires p != [] && q != [] && lo == Min(Least(p), Least(q)) && hi == Max(Greatest(p), Greatest(q))
    ensures SpansBoth(lo, hi, p, q) && lo <= hi
  {
    Extremes(p);
    Extremes(q);
    assert p[0] in p;
  }

  /** The common bins: equal ones over all values of both samples and a billionth more. */
  lemma CommonBinsAre(p: seq<real>, q: seq<real>, nBins: nat) returns (lo: real, hi: real)
    requires p != [] && q != [] && nBins > 0
    ensures SpansBoth(lo, hi, p, q) && EqualBins(CommonBins(p, q, nBins), lo, hi + 0.000000001, nBins)
  {
    lo, hi := Min(Least(p), Least(q)), Max(Greatest(p), Greatest(q));
    CommonRange(p, q, lo, hi);
    LinspaceIsEqual(lo, hi + 0.000000001, nBins);
  }

  /** The divergence of two samples, from the values: the smoothed histograms of both over the common bins, and the
      cross entropy under the first sample's. */
  lemma KlOfSamples(p: seq<real>, q: seq<real>, nBins: nat, ln: real -> real)
    returns (ps: seq<real>, qs: seq<real>, sp: seq<real>, sq: seq<real>)
    requires IsLn(ln) && p != [] && q != [] && nBins > 0
    ensures var bins := CommonBins(p, q, nBins); IsHistogram(ps, sp, p, bins) && IsHistogram(qs, sq, q, bins)
    ensures Kl(p, q, nBins, ln) == Total(LnWeighed(ps, ps, ln)) - Total(LnWeighed(ps, qs, ln))
  {
    var bins := CommonBins(p, q, nBins);
    sp, sq := Smoothed(p, bins), Smoothed(q, bins);
    ps, qs := Normalised(sp), Normalised(sq);
    CommonHistograms(p, q, nBins, bins);
    KlByWeights(p, q, nBins, ln, ps, qs);
  }

  lemma EdgeStep(lo: real, hi: real, n: nat, i: nat)
    requires n > 0
    ensures Edge(lo, hi, n, i + 1) - Edge(lo, hi, n, i) == Times(hi - lo, 1.0 / n as real)
  {
    var d := n as real;
    assert (i + 1) as real / d == i as real / d + 1.0 / d;
    TimesSum(hi - lo, i as real / d, 1.0 / d);
  }

  lemma DensityFactor(count: nat, width: real, total: real, unit: real)
    requires width > 0.0 && total > 0.0 && unit == 1.0 / width / total
    ensures Density(count, width, total) == Times(unit, count as real)
    ensures unit > 0.0
  {
    PositiveQuotient(1.0, width);
    PositiveQuotient(1.0 / width, total);
    QuotientOfProduct(count as real, 1.0 / width, total);
    assert count as real / width == count as real * (1.0 / width);
  }

  lemma QuotientOfProduct(c: real, x: real, t: real)
    requires t > 0.0
    ensures c * x / t == x / t * c
  {
  }

  lemma {:induction false} DensitiesTotal(counts: seq<nat>, r: seq<real>, width: real, total: real, unit: real)
    requires width > 0.0 && total > 0.0 && unit == 1.0 / width / total
    requires |r| == |counts| && forall i :: 0 <= i < |r| ==> r[i] == Density(counts[i], width, total) + SMOOTHING
    ensures Total(r) == |counts| as real * SMOOTHING + Times(unit, Total(Reals(counts)))
  {
    if counts == [] {
      TimesZero(unit);
    } else {
      DensitiesTotal(counts[1..], r[1..], width, total, unit);
      DensityFactor(counts[0], width, total, unit);
      assert Reals(counts)[1..] == Reals(counts[1..]);
      TimesSum(unit, counts[0] as real, Total(Reals(counts[1..])));
    }
  }

  /** All smoothed histograms over the same equal bins have the same sum: one over the bin width, plus the smoothing. */
  lemma SmoothedTotal(values: seq<real>, bins: seq<real>, width: real, total: real)
    requires |bins| > 1 && width > 0.0 && forall i :: 0 <= i < |bins| - 1 ==> bins[i + 1] - bins[i] == width
    requires total > 0.0 && Total(Reals(Counts(values, bins))) == total
    ensures Total(Smoothed(values, bins)) == (|bins| - 1) as real * SMOOTHING + 1.0 / width
  {
    var unit := 1.0 / width / total;
    DensitiesTotal(Counts(values, bins), Smoothed(values, bins), width, total, unit);
    QuotientTimes(1.0 / width, total, unit);
  }

  lemma SameDensityIff(a: nat, b: nat, n: nat, m: nat, width: real)
    requires n > 0 && m > 0 && width > 0.0
    ensures Density(a, width, n as real) == Density(b, width, m as real) <==> a * m == b * n
  {
    var x, y, c, d := a as real / width, b as real / width, n as real, m as real;
    var p, q := x / c, y / d;
    QuotientTimes(x, c, p);
    QuotientTimes(y, d, q);
    QuotientTimes(a as real, width, x);
    QuotientTimes(b as real, width, y);
    CrossRatio(a as real, b as real, c, d, width, x, y, p, q);
    assert Times(a as real, d) == (a * m) as real && Times(b as real, c) == (b * n) as real;
  }

  lemma CrossRatio(a: real, b: real, c: real, d: real, w: real, x: real, y: real, p: real, q: real)
    requires c > 0.0 && d > 0.0 && w > 0.0
    requires Times(p, c) == x && Times(q, d) == y && Times(x, w) == a && Times(y, w) == b
    ensures p == q <==> Times(a, d) == Times(b, c)
  {
    // a d = p c w d and b c = q d w c
    var k := Times(Times(c, d), w);
    Rearrange(p, c, d, w, k);
    Rearrange(q, d, c, w, k);
    TimesSign(c, d);
    TimesSign(Times(c, d), w);
    TimesOrder(k, p, 0.0);
    TimesOrder(k, q, 0.0);
    if Times(k, p) == Times(k, q) {
      CancelFactor(k, p, q);
      CancelFactor(k, q, p);
    }
  }

  lemma Rearrange(p: real, c: real, d: real, w: real, k: real)
    requires k == Times(Times(c, d), w) || k == Times(Times(d, c), w)
    ensures Times(Times(Times(p, c), w), d) == Times(p, k)
  {
    TimesOrder(c, d, w);
    TimesOrder(p, c, w);
    TimesOrder(p, Times(c, w), d);
    TimesOrder(c, w, d);
    TimesOrder(w, d, c);
    TimesOrder(d, w, c);
    assert k == Times(Times(c, w), d);
  }

  lemma SameQuotients(s: seq<real>, t: seq<real>)
    requires |s| == |t| && Total(s) == Total(t) > 0.0
    ensures Normalised(s) == Normalised(t) <==> s == t
  {
    var d := Total(s);
    if Normalised(s) == Normalised(t) {
      forall i | 0 <= i < |s|
        ensures s[i] == t[i]
      {
        assert Normalised(s)[i] == s[i] / d && Normalised(t)[i] == t[i] / d;
        QuotientTimes(s[i], d, s[i] / d);
        QuotientTimes(t[i], d, t[i] / d);
      }
    }
  }

  /** The divergence is 0 exactly when every bin holds the same proportion of either sample. */
  lemma KlZeroIffSameProportions(p: seq<real>, q: seq<real>, nBins: nat, ln: real -> real)
    requires IsLn(ln) && p != [] && q != [] && nBins > 0
    ensures var bins := CommonBins(p, q, nBins);
            Kl(p, q, nBins, ln) == 0.0 <==>
            forall i :: 0 <= i < nBins ==> Counts(p, bins)[i] * |q| == Counts(q, bins)[i] * |p|
  {
    var bins := CommonBins(p, q, nBins);
    var lo, hi := Min(Least(p), Least(q)), Max(Greatest(p), Greatest(q)) + TAIL;
    var width := Times(hi - lo, 1.0 / nBins as real);
    KlNonNegative(p, q, nBins, ln);
    CommonBinsHoldAll(p, q, nBins);
    forall i | 0 <= i < nBins
      ensures bins[i + 1] - bins[i] == width
    {
      EdgeStep(lo, hi, nBins, i);
    }
    assert width > 0.0 by {
      assert bins[0] < bins[1];
    }
    SmoothedTotal(p, bins, width, |p| as real);
    SmoothedTotal(q, bins, width, |q| as real);
    SmoothedPositive(p, bins);
    TotalPositive(Smoothed(p, bins));
    SameQuotients(Smoothed(p, bins), Smoothed(q, bins));
    SameSmoothedIff(p, q, bins, width);
  }

  lemma SameSmoothedIff(p: seq<real>, q: seq<real>, bins: seq<real>, width: real)
    requires p != [] && q != [] && |bins| > 1 && width > 0.0
    requires forall i :: 0 <= i < |bins| - 1 ==> bins[i + 1] - bins[i] == width
    requires Total(Reals(Counts(p, bins))) == |p| as real && Total(Reals(Counts(q, bins))) == |q| as real
    ensures Smoothed(p, bins) == Smoothed(q, bins) <==>
            forall i :: 0 <= i < |bins| - 1 ==> Counts(p, bins)[i] * |q| == Counts(q, bins)[i] * |p|
  {
    forall i | 0 <= i < |bins| - 1
      ensures Smoothed(p, bins)[i] == Smoothed(q, bins)[i] <==> Counts(p, bins)[i] * |q| == Counts(q, bins)[i] * |p|
    {
      SameDensityIff(Counts(p, bins)[i], Counts(q, bins)[i], |p|, |q|, width);
    }
  }

  /** In particular it is 0 for a rearrangement of the same values, and for empty samples. */
  lemma KlOfRearrangement(p: seq<real>, q: seq<real>, nBins: nat, ln: real -> real)
    requires IsLn(ln) && multiset(p) == multiset(q)
    ensures Kl(p, q, nBins, ln) == 0.0
  {
    assert |multiset(p)| == |p| && |multiset(q)| == |q|;
    if p != [] && nBins > 0 {
      CountsPermuted(p, q, CommonBins(p, q, nBins));
      KlZeroIffSameProportions(p, q, nBins, ln);
    }
  }

  // ----- z_score_test -----

  const STD_FLOOR := 0.000001

  datatype ZScoreResult = ZScoreResult(currentMean: real, baselineMean: real, baselineStd: real, zScore: real,
      isAnomalous: bool)

  function StdOf(baseline: seq<real>, sqrt: real -> real): real
    requires baseline != []
  {
    sqrt(Spread(baseline, Mean(baseline)) / |baseline| as real) + STD_FLOOR
  }

  /** The z value before rounding; the flag is decided on it. */
  function ZValue(baseline: seq<real>, current: seq<real>, sqrt: real -> real): real
    requires baseline != [] && current != []
  {
    if StdOf(baseline, sqrt) == 0.0 then 0.0 else Abs(Mean(current) - Mean(baseline)) / StdOf(baseline, sqrt)
  }

  function ZScoreTest(baseline: seq<real>, current: seq<real>, threshold: real, sqrt: real -> real): ZScoreResult {
    if baseline == [] || current == [] then ZScoreResult(0.0, 0.0, 1.0, 0.0, false)
    else
      var z := ZValue(baseline, current, sqrt);
      ZScoreResult(Round(Mean(current), 10000.0), Round(Mean(baseline), 10000.0), Round(StdOf(baseline, sqrt), 10000.0),
                   Round(z, 10000.0), z > threshold)
  }

  lemma DeviationOf(baseline: seq<real>, sqrt: real -> real) returns (sigma: real)
    requires IsSqrt(sqrt) && baseline != []
    ensures sigma >= 0.0 && StdOf(baseline, sqrt) == sigma + STD_FLOOR
    ensures Times(Square(sigma), |baseline| as real) == Spread(baseline, Mean(baseline))
  {
    var spread, n := Spread(baseline, Mean(baseline)), |baseline| as real;
    SpreadNonNegative(baseline, Mean(baseline));
    QuotientSign(spread, n, spread / n);
    sigma := sqrt(spread / n);
    assert Square(sigma) == spread / n;
  }

  /** Rounded to four places. */
  ghost predicate IsRounded4(r: real, x: real) {
    -0.5 <= (r - x) * 10000.0 <= 0.5 && r * 10000.0 == (r * 10000.0).Floor as real
  }

  lemma Rounded4(x: real)
    ensures IsRounded4(Round(x, 10000.0), x)
  {
    RoundNear(x, 10000.0);
    assert Round(x, 10000.0) * 10000.0 == RoundToInt(x * 10000.0) as real;
  }

  /** z times the deviation of the baseline (and a millionth) is the distance of the two means; the alarm says that this
      distance exceeds threshold times that deviation. The reported figures are these, rounded to four places. */
  lemma ZScoreIs(baseline: seq<real>, current: seq<real>, threshold: real, sqrt: real -> real)
    returns (sigma: real, z: real)
    requires IsSqrt(sqrt) && baseline != [] && current != []
    ensures sigma >= 0.0 && Times(Square(sigma), |baseline| as real) == Spread(baseline, Mean(baseline))
    ensures z >= 0.0 && Times(z, sigma + 0.000001) == Abs(Mean(current) - Mean(baseline))
    ensures var r := ZScoreTest(baseline, current, threshold, sqrt);
            && IsRounded4(r.zScore, z) && IsRounded4(r.baselineStd, sigma + 0.000001)
            && IsRounded4(r.currentMean, Mean(current)) && IsRounded4(r.baselineMean, Mean(baseline))
            && (r.isAnomalous <==> Abs(Mean(current) - Mean(baseline)) > Times(threshold, sigma + 0.000001))
  {
    sigma := DeviationOf(baseline, sqrt);
    z := ZValue(baseline, current, sqrt);
    QuotientSign(Abs(Mean(current) - Mean(baseline)), sigma + 0.000001, z);
    ExceedsIff(z, threshold, sigma + 0.000001, Abs(Mean(current) - Mean(baseline)));
    Rounded4(z);
    Rounded4(sigma + 0.000001);
    Rounded4(Mean(current));
    Rounded4(Mean(baseline));
  }

  lemma ExceedsIff(q: real, threshold: real, d: real, x: real)
    requires d > 0.0 && Times(q, d) == x
    ensures q > threshold <==> x > Times(threshold, d)
  {
    TimesOrder(d, q, 0.0);
    TimesOrder(d, threshold, 0.0);
    if q <= threshold {
      TimesMonotone(d, q, threshold);
    }
    if Times(d, q) <= Times(d, threshold) {
      CancelFactor(d, q, threshold);
    }
  }

  /** k values taken out of n baseline values have z^2 <= (n - k) / k. */
  lemma ResampleScoreBound(baseline: seq<real>, current: seq<real>, rest: seq<real>, sqrt: real -> real)
    requires IsSqrt(sqrt) && current != [] && multiset(current + rest) == multiset(baseline)
    ensures baseline != [] && |baseline| == |current| + |rest|
    ensures var z := ZValue(baseline, current, sqrt);
            z >= 0.0 && Times(|current| as real, Square(z)) <= |rest| as real
  {
    SpreadPermuted(current + rest, baseline, 0.0);
    MeanIsMean(current);
    MeanIsMean(baseline);
    PartMeanBound(current, rest, baseline, Mean(current), Mean(baseline));
    var sigma := DeviationOf(baseline, sqrt);
    ZFromSpread(|current| as real, |rest| as real, |baseline| as real, Mean(current) - Mean(baseline), sigma,
                Spread(baseline, Mean(baseline)), ZValue(baseline, current, sqrt));
  }

  lemma ZFromSpread(k: real, r: real, n: real, d: real, sigma: real, spread: real, z: real)
    requires k > 0.0 && r >= 0.0 && n > 0.0 && sigma >= 0.0 && z == Abs(d) / (sigma + STD_FLOOR)
    requires Times(Square(sigma), n) == spread && Times(Times(k, n), Square(d)) <= Times(r, spread)
    ensures z >= 0.0 && Times(k, Square(z)) <= r
  {
    AbsQuotient(d, sigma + STD_FLOOR);
    ScoreWithinSpread(k, r, n, n, d, sigma, STD_FLOOR, spread, z);
    QuotientSign(Abs(d), sigma + STD_FLOOR, z);
    TimesOrder(n, k, Square(z));
    TimesOrder(k, n, 0.0);
    TimesOrder(r, n, 0.0);
    CancelFactor(n, Times(k, Square(z)), r);
  }

  lemma AbsQuotient(d: real, b: real)
    requires b > 0.0
    ensures Abs(d) / b == Abs(d / b)
  {
    DividedBy(d, b, Abs(d / b));
    QuotientTimes(Abs(d), b, Abs(d) / b);
    TimesOrder(b, Abs(d) / b, 0.0);
    TimesOrder(b, Abs(d / b), 0.0);
    CancelFactor(b, Abs(d) / b, Abs(d / b));
    CancelFactor(b, Abs(d / b), Abs(d) / b);
  }

  /** A tenth or more of the baseline's own values can never raise the alarm at the configured threshold of 3. */
  lemma ResampleCannotAlarm(baseline: seq<real>, current: seq<real>, rest: seq<real>, sqrt: real -> real)
    requires IsSqrt(sqrt) && current != [] && multiset(current + rest) == multiset(baseline)
    requires |baseline| <= 10 * |current|
    ensures !ZScoreTest(baseline, current, 3.0, sqrt).isAnomalous
  {
    ResampleScoreBound(baseline, current, rest, sqrt);
    var z, k := ZValue(baseline, current, sqrt), |current| as real;
    if z > 3.0 {
      AboveThree(z);
      StrictTimes(k, 9.0, Square(z));
    }
  }

  lemma AboveThree(z: real)
    requires z > 3.0
    ensures Square(z) > 9.0
  {
    TimesSign(z - 3.0, z + 3.0);
    assert Times(z - 3.0, z + 3.0) == Square(z) - 9.0;
  }

  lemma StrictTimes(k: real, x: real, y: real)
    requires k > 0.0 && x < y
    ensures k * x < Times(k, y)
  {
    TimesSign(k, y - x);
    TimesSum(k, y, x);
  }

  lemma ZOfSameSample(values: seq<real>, threshold: real, sqrt: real -> real)
    requires IsSqrt(sqrt) && threshold >= 0.0
    ensures ZScoreTest(values, values, threshold, sqrt).zScore == 0.0
    ensures !ZScoreTest(values, values, threshold, sqrt).isAnomalous
  {
    if values != [] {
      var sigma := DeviationOf(values, sqrt);
      ZeroQuotient(Mean(values) - Mean(values), sigma + STD_FLOOR);
      assert (0.0 * 10000.0).Floor == 0;
    }
  }

  lemma ZeroQuotient(d: real, b: real)
    requires d == 0.0 && b > 0.0
    ensures Abs(d) / b == 0.0
  {
  }

  // ----- ks_test -----

  /** scipy.stats.ks_2samp: statistic and p-value. */
  type TwoSampleTest = (seq<real>, seq<real>) -> (real, real)

  datatype KSTestResult = KSTestResult(statistic: real, pValue: real, significant: bool)

  function KsTest(baseline: seq<real>, current: seq<real>, alpha: real, ks: TwoSampleTest): KSTestResult {
    if baseline == [] || current == [] then KSTestResult(0.0, 1.0, false)
    else
      var (statistic, p) := ks(baseline, current);
      KSTestResult(Round6(statistic), Round6(p), p < alpha)
  }

  /** The flag looks at the p-value before it is rounded; what is reported lies within half a millionth. */
  lemma KsIs(baseline: seq<real>, current: seq<real>, alpha: real, ks: TwoSampleTest)
    requires baseline != [] && current != []
    ensures var r, raw := KsTest(baseline, current, alpha, ks), ks(baseline, current);
            && (r.significant <==> raw.1 < alpha)
            && raw.0 - 0.0000005 <= r.statistic <= raw.0 + 0.0000005
            && raw.1 - 0.0000005 <= r.pValue <= raw.1 + 0.0000005
  {
    Round6Near(ks(baseline, current).0);
    Round6Near(ks(baseline, current).1);
  }
}
