/** Population stability index. */
module Psi {
  import opened Seqs
  import opened Analysis
  import opened Histogram
  import StatisticalTests

  const EPSILON := 0.000001
  const N_BINS: nat := 10

  /** The edges of the expected sample, the last one moved up by EPSILON. */
  function Bins(lo: real, hi: real, nBins: nat): (bins: seq<real>)
    ensures |bins| == nBins + 1
  {
    Linspace(lo, hi, nBins)[nBins := Edge(lo, hi, nBins, nBins) + EPSILON]
  }

  /** counts / (n + EPSILON), with EPSILON in place of zero. */
  function Share(count: nat, n: nat): real {
    var pct := count as real / (n as real + EPSILON);
    if pct == 0.0 then EPSILON else pct
  }

  function Shares(counts: seq<nat>, n: nat): (r: seq<real>)
    ensures |r| == |counts| && forall i :: 0 <= i < |counts| ==> r[i] == Share(counts[i], n)
  {
    seq(|counts|, i requires 0 <= i < |counts| => Share(counts[i], n))
  }

  function Term(e: real, a: real, ln: real -> real): real {
    if e == 0.0 then 0.0 else Times(a - e, ln(a / e))
  }

  function Terms(expected: seq<real>, actual: seq<real>, ln: real -> real): (r: seq<real>)
    requires |expected| == |actual|
    ensures |r| == |expected| && forall i :: 0 <= i < |r| ==> r[i] == Term(expected[i], actual[i], ln)
  {
    seq(|expected|, i requires 0 <= i < |expected| => Term(expected[i], actual[i], ln))
  }

  function SharesOver(values: seq<real>, bins: seq<real>): seq<real>
    requires bins != []
    ensures |SharesOver(values, bins)| == |bins| - 1
  {
    Shares(Counts(values, bins), |values|)
  }

  /** The sum before the clamp and the rounding, for samples whose expected values are not all equal. */
  function RawPsi(expected: seq<real>, actual: seq<real>, nBins: nat, ln: real -> real): real
    requires expected != []
  {
    var bins := Bins(Least(expected), Greatest(expected), nBins);
    Total(Terms(SharesOver(expected, bins), SharesOver(actual, bins), ln))
  }

  function Psi(expected: seq<real>, actual: seq<real>, nBins: nat, ln: real -> real): real {
    if expected == [] || actual == [] then 0.0
    else if Least(expected) == Greatest(expected) then 0.0
    else Round6(Max(0.0, RawPsi(expected, actual, nBins, ln)))
  }

  method ComputePsi(expected: seq<real>, actual: seq<real>, nBins: nat, ln: real -> real) returns (psi: real)
    ensures psi == Psi(expected, actual, nBins, ln)
  {
    if expected == [] || actual == [] {
      return 0.0;
    }
    var minVal, maxVal := Least(expected), Greatest(expected);
    if minVal == maxVal {
      return 0.0;
    }
    var bins := new real[nBins + 1](i requires 0 <= i => Edge(minVal, maxVal, nBins, i));
    bins[nBins] := bins[nBins] + EPSILON;
    assert bins[..] == Bins(minVal, maxVal, nBins);
    var expectedCounts, actualCounts := Counts(expected, bins[..]), Counts(actual, bins[..]);
    var expectedPct := seq(nBins, i requires 0 <= i < nBins =>
                             expectedCounts[i] as real / (|expected| as real + EPSILON));
    var actualPct := seq(nBins, i requires 0 <= i < nBins => actualCounts[i] as real / (|actual| as real + EPSILON));
    expectedPct := seq(nBins, i requires 0 <= i < nBins => if expectedPct[i] == 0.0 then EPSILON else expectedPct[i]);
    actualPct := seq(nBins, i requires 0 <= i < nBins => if actualPct[i] == 0.0 then EPSILON else actualPct[i]);
    assert expectedPct == Shares(expectedCounts, |expected|) && actualPct == Shares(actualCounts, |actual|);
    psi := Round6(Max(0.0, Total(Terms(expectedPct, actualPct, ln))));
  }

  // ----- bounds -----

  lemma SharePositive(count: nat, n: nat)
    requires count <= n
    ensures 0.0 < Share(count, n) < 1.0
    ensures count > 0 ==> Times(Share(count, n), n as real + EPSILON) == count as real
    ensures count == 0 ==> Share(count, n) == EPSILON
  {
    var d, q := n as real + EPSILON, count as real / (n as real + EPSILON);
    QuotientSign(count as real, d, q);
    TimesZero(d);
    TimesSum(d, 1.0, q);
    TimesOrder(d, q, 0.0);
    TimesSign(1.0 - q, d);
    TimesOrder(d, 1.0 - q, 0.0);
    assert Times(d, 1.0) == d;
  }

  lemma TermSign(e: real, a: real, ln: real -> real)
    requires IsLn(ln) && e > 0.0 && a > 0.0
    ensures Term(e, a, ln) >= 0.0
    ensures Term(e, a, ln) == 0.0 <==> a == e
  {
    LnQuotient(ln, a, e);
    if a < e {
      LnIncreasing(ln, a, e);
    } else if e < a {
      LnIncreasing(ln, e, a);
    } else {
      TimesZero(ln(a / e));
    }
    TimesSign(a - e, ln(a) - ln(e));
  }

  /** A term is at most the larger of its shares times ln(1/d), when both shares lie in [d, 1]. */
  lemma TermBound(e: real, a: real, d: real, ln: real -> real)
    requires IsLn(ln) && 0.0 < d && d <= e <= 1.0 && d <= a <= 1.0
    ensures Term(e, a, ln) <= Times(a + e, ln(1.0 / d))
  {
    LnQuotient(ln, a, e);
    LnQuotient(ln, 1.0, d);
    LnOne(ln);
    LnOrder(ln, d, a);
    LnOrder(ln, d, e);
    LnOrder(ln, a, 1.0);
    LnOrder(ln, e, 1.0);
    var l, x := ln(1.0 / d), ln(a) - ln(e);
    ProductWithin(a - e, x, a + e, l);
  }

  lemma LnOrder(ln: real -> real, x: real, y: real)
    requires IsLn(ln) && 0.0 < x <= y
    ensures ln(x) <= ln(y)
  {
    if x < y {
      LnIncreasing(ln, x, y);
    }
  }

  lemma ProductWithin(p: real, x: real, q: real, l: real)
    requires -q <= p <= q && -l <= x <= l
    ensures Times(p, x) <= Times(q, l)
  {
    TimesSign(q - p, l + x);
    TimesSign(q + p, l - x);
    TimesSum(q - p, l, x);
    TimesSum(q + p, l, x);
    assert Times(q - p, l + x) + Times(q + p, l - x) == 2.0 * Times(q, l) - 2.0 * Times(p, x);
  }

  lemma BinsIncreasing(lo: real, hi: real, nBins: nat)
    requires lo < hi && nBins > 0
    ensures Increasing(Bins(lo, hi, nBins)) && Bins(lo, hi, nBins)[0] == lo
            && Bins(lo, hi, nBins)[nBins] == hi + EPSILON
  {
    LinspaceIncreasing(lo, hi, nBins);
  }

  /** Every expected value is counted once; actual values are counted once if they lie within the edges, else
      dropped. */
  lemma CountsOfSamples(expected: seq<real>, actual: seq<real>, nBins: nat)
    requires expected != [] && Least(expected) < Greatest(expected) && nBins > 0
    ensures var lo, hi := Least(expected), Greatest(expected);
            && Total(Reals(Counts(expected, Bins(lo, hi, nBins)))) == |expected| as real
            && Total(Reals(Counts(actual, Bins(lo, hi, nBins)))) == Count(actual, Within(lo, hi + EPSILON)) as real
  {
    var lo, hi := Least(expected), Greatest(expected);
    BinsIncreasing(lo, hi, nBins);
    CountsConserveValues(expected, Bins(lo, hi, nBins));
    CountsConserveValues(actual, Bins(lo, hi, nBins));
    Extremes(expected);
    AllWithin(expected, lo, hi + EPSILON);
  }

  lemma SharesPositive(values: seq<real>, bins: seq<real>)
    requires bins != [] && values != []
    ensures forall i :: 0 <= i < |bins| - 1 ==> 0.0 < Shares(Counts(values, bins), |values|)[i] < 1.0
  {
    forall i | 0 <= i < |bins| - 1
      ensures 0.0 < Shares(Counts(values, bins), |values|)[i] < 1.0
    {
      CountBound(values, Bin(bins, i));
      SharePositive(Counts(values, bins)[i], |values|);
    }
  }

  lemma TermSigns(e: seq<real>, a: seq<real>, ln: real -> real)
    requires IsLn(ln) && |e| == |a| && forall i :: 0 <= i < |e| ==> e[i] > 0.0 && a[i] > 0.0
    ensures forall i :: 0 <= i < |e| ==>
              Terms(e, a, ln)[i] >= 0.0 && (Terms(e, a, ln)[i] == 0.0 <==> a[i] == e[i])
  {
    forall i | 0 <= i < |e|
      ensures Term(e[i], a[i], ln) >= 0.0 && (Term(e[i], a[i], ln) == 0.0 <==> a[i] == e[i])
    {
      TermSign(e[i], a[i], ln);
    }
  }

  lemma TotalSign(s: seq<real>)
    requires forall i :: 0 <= i < |s| ==> s[i] >= 0.0
    ensures Total(s) >= 0.0
    ensures Total(s) == 0.0 <==> forall i :: 0 <= i < |s| ==> s[i] == 0.0
  {
    var zeros := seq(|s|, _ => 0.0);
    TotalConstant(zeros, 0.0);
    TotalMonotone(zeros, s);
    if forall i :: 0 <= i < |s| ==> s[i] == 0.0 {
      TotalConstant(s, 0.0);
    } else {
      var i :| 0 <= i < |s| && s[i] != 0.0;
      assert zeros[i] < s[i];
    }
  }

  lemma TermsSum(e: seq<real>, a: seq<real>, ln: real -> real)
    requires IsLn(ln) && |e| == |a| && forall i :: 0 <= i < |e| ==> e[i] > 0.0 && a[i] > 0.0
    ensures Total(Terms(e, a, ln)) >= 0.0
    ensures Total(Terms(e, a, ln)) == 0.0 <==> e == a
  {
    TermSigns(e, a, ln);
    TotalSign(Terms(e, a, ln));
  }

  /** The raw index is never negative, and 0 exactly when the two samples have the same smoothed share in every bin. */
  lemma RawPsiSign(expected: seq<real>, actual: seq<real>, nBins: nat, ln: real -> real)
    requires IsLn(ln) && expected != [] && actual != []
    ensures var bins := Bins(Least(expected), Greatest(expected), nBins);
            && RawPsi(expected, actual, nBins, ln) >= 0.0
            && (RawPsi(expected, actual, nBins, ln) == 0.0
                <==> Shares(Counts(expected, bins), |expected|) == Shares(Counts(actual, bins), |actual|))
  {
    var bins := Bins(Least(expected), Greatest(expected), nBins);
    SharesPositive(expected, bins);
    SharesPositive(actual, bins);
    TermsSum(Shares(Counts(expected, bins), |expected|), Shares(Counts(actual, bins), |actual|), ln);
  }

  lemma TermIsTwo(e: real, a: real, ln: real -> real)
    requires IsLn(ln) && e > 0.0 && a > 0.0
    ensures Term(e, a, ln) == StatisticalTests.KlTerm(a, e, ln) + StatisticalTests.KlTerm(e, a, ln)
  {
    LnQuotient(ln, a, e);
    LnQuotient(ln, e, a);
    var x := ln(a / e);
    TimesOrder(x, a, 0.0);
    TimesOrder(x, e, 0.0);
    TimesOrder(x, a - e, 0.0);
    TimesSum(x, a, e);
    StatisticalTests.OppositeTimes(e, ln(e / a), x);
  }

  /** The index is the divergence of the actual shares from the expected ones and back. */
  lemma RawPsiIsTwoDivergences(expected: seq<real>, actual: seq<real>, nBins: nat, ln: real -> real)
    requires IsLn(ln) && expected != [] && actual != []
    ensures var bins := Bins(Least(expected), Greatest(expected), nBins);
            var e, a := SharesOver(expected, bins), SharesOver(actual, bins);
            RawPsi(expected, actual, nBins, ln)
            == Total(StatisticalTests.KlTerms(a, e, ln)) + Total(StatisticalTests.KlTerms(e, a, ln))
  {
    var bins := Bins(Least(expected), Greatest(expected), nBins);
    var e, a := SharesOver(expected, bins), SharesOver(actual, bins);
    SharesPositive(expected, bins);
    SharesPositive(actual, bins);
    TwoDivergences(e, a, ln);
  }

  lemma {:induction false} TwoTotals(e: seq<real>, a: seq<real>, ln: real -> real)
    requires |e| == |a|
    requires forall i :: 0 <= i < |e| ==>
            Term(e[i], a[i], ln) == StatisticalTests.KlTerm(a[i], e[i], ln) + StatisticalTests.KlTerm(e[i], a[i], ln)
    ensures Total(Terms(e, a, ln))
         == Total(StatisticalTests.KlTerms(a, e, ln)) + Total(StatisticalTests.KlTerms(e, a, ln))
  {
    TotalLinear(StatisticalTests.KlTerms(a, e, ln), StatisticalTests.KlTerms(e, a, ln), Terms(e, a, ln), 1.0);
  }

  lemma TwoDivergences(e: seq<real>, a: seq<real>, ln: real -> real)
    requires IsLn(ln) && |e| == |a| && forall i :: 0 <= i < |e| ==> e[i] > 0.0 && a[i] > 0.0
    ensures Total(Terms(e, a, ln))
         == Total(StatisticalTests.KlTerms(a, e, ln)) + Total(StatisticalTests.KlTerms(e, a, ln))
  {
    forall i | 0 <= i < |e|
      ensures Term(e[i], a[i], ln) == StatisticalTests.KlTerm(a[i], e[i], ln) + StatisticalTests.KlTerm(e[i], a[i], ln)
    {
      TermIsTwo(e[i], a[i], ln);
    }
    TwoTotals(e, a, ln);
  }

  /** A count over the sample size and a millionth, or a millionth for none. */
  ghost predicate IsShare(share: real, count: nat, n: nat) {
    if count == 0 then share == 0.000001 else Times(share, n as real + 0.000001) == count as real
  }

  lemma ShareIs(count: nat, n: nat)
    requires count <= n
    ensures IsShare(Share(count, n), count, n)
  {
    SharePositive(count, n);
  }

  lemma ShareOfBin(values: seq<real>, bins: seq<real>, i: nat)
    requires i + 1 < |bins|
    ensures IsShare(SharesOver(values, bins)[i], Count(values, Bin(bins, i)), |values|)
  {
    CountBound(values, Bin(bins, i));
    ShareIs(Count(values, Bin(bins, i)), |values|);
  }

  /** The bins: equal parts of the range of the expected sample, but for a millionth more at the end. */
  lemma BinsOfExpected(expected: seq<real>, nBins: nat) returns (equal: seq<real>, lo: real, hi: real)
    requires expected != [] && Least(expected) < Greatest(expected) && nBins > 0
    ensures (forall x :: x in expected ==> lo <= x <= hi) && lo in expected && hi in expected
    ensures StatisticalTests.EqualBins(equal, lo, hi, nBins)
    ensures Bins(Least(expected), Greatest(expected), nBins) == equal[nBins := hi + 0.000001]
  {
    lo, hi := Least(expected), Greatest(expected);
    equal := Linspace(lo, hi, nBins);
    Extremes(expected);
    StatisticalTests.LinspaceIsEqual(lo, hi, nBins);
  }

  /** max(0.0, ...) never changes anything. */
  lemma ClampIsIdle(expected: seq<real>, actual: seq<real>, nBins: nat, ln: real -> real)
    requires IsLn(ln) && expected != [] && actual != [] && Least(expected) != Greatest(expected)
    ensures Psi(expected, actual, nBins, ln) == Round6(RawPsi(expected, actual, nBins, ln)) >= 0.0
  {
    RawPsiSign(expected, actual, nBins, ln);
    Round6Monotone(0.0, RawPsi(expected, actual, nBins, ln));
    Round6OfMicros(0.0, 0);
  }

  /** The smallest share a bin of samples of sizes n and m can have. */
  function Floor(n: nat, m: nat): real {
    Min(EPSILON, Min(1.0 / (n as real + EPSILON), 1.0 / (m as real + EPSILON)))
  }

  lemma ShareAboveFloor(count: nat, n: nat, floor: real)
    requires count <= n && floor <= EPSILON && floor <= 1.0 / (n as real + EPSILON)
    ensures Share(count, n) >= floor
  {
    if count > 0 {
      var d := n as real + EPSILON;
      SharePositive(count, n);
      QuotientTimes(1.0, d, 1.0 / d);
      TimesOrder(Share(count, n), d, 0.0);
      CancelFactor(d, 1.0 / d, Share(count, n));
    }
  }

  lemma {:induction false} SharesTotalBelow(counts: seq<nat>, n: nat, inv: real)
    requires inv == 1.0 / (n as real + EPSILON)
    ensures Total(Shares(counts, n)) <= |counts| as real * EPSILON + Times(inv, Total(Reals(counts)))
  {
    if counts == [] {
      TimesZero(inv);
    } else {
      SharesTotalBelow(counts[1..], n, inv);
      assert Shares(counts, n)[1..] == Shares(counts[1..], n) && Reals(counts)[1..] == Reals(counts[1..]);
      ShareBelow(counts[0], n, inv);
      TimesSum(inv, counts[0] as real, Total(Reals(counts[1..])));
    }
  }

  lemma ShareBelow(count: nat, n: nat, inv: real)
    requires inv == 1.0 / (n as real + EPSILON)
    ensures Share(count, n) <= EPSILON + Times(inv, count as real)
  {
    var d, c := n as real + EPSILON, count as real;
    QuotientSign(c, d, c / d);
    assert c / d == Times(inv, c);
  }

  lemma SharesTotal(values: seq<real>, bins: seq<real>)
    requires |bins| > 1 && Increasing(bins) && values != []
    ensures Total(Shares(Counts(values, bins), |values|)) <= 1.0 + (|bins| - 1) as real * EPSILON
  {
    var counts, inv := Counts(values, bins), 1.0 / (|values| as real + EPSILON);
    SharesTotalBelow(counts, |values|, inv);
    CountsConserveValues(values, bins);
    CountBound(values, Within(bins[0], bins[|bins| - 1]));
    WholeShare(Total(Reals(counts)), |values|, inv);
  }

  lemma WholeShare(counted: real, n: nat, inv: real)
    requires counted <= n as real && inv == 1.0 / (n as real + EPSILON)
    ensures Times(inv, counted) <= 1.0
  {
    var d := n as real + EPSILON;
    QuotientSign(1.0, d, inv);
    TimesMonotone(inv, counted, d);
  }

  lemma {:induction false} TermsBelow(e: seq<real>, a: seq<real>, d: real, ln: real -> real)
    requires IsLn(ln) && |e| == |a| && 0.0 < d
    requires forall i :: 0 <= i < |e| ==> d <= e[i] <= 1.0 && d <= a[i] <= 1.0
    ensures Total(Terms(e, a, ln)) <= Times(Total(e) + Total(a), ln(1.0 / d))
  {
    if e == [] {
      TimesZero(ln(1.0 / d));
    } else {
      TermsBelow(e[1..], a[1..], d, ln);
      assert Terms(e, a, ln)[1..] == Terms(e[1..], a[1..], ln);
      TermBound(e[0], a[0], d, ln);
      TimesSum(ln(1.0 / d), a[0] + e[0], Total(e[1..]) + Total(a[1..]));
      TimesOrder(ln(1.0 / d), a[0] + e[0], 0.0);
      TimesOrder(ln(1.0 / d), Total(e[1..]) + Total(a[1..]), 0.0);
    }
  }

  /** However far the samples are apart, the index stays below a bound fixed by the sample sizes and the bin count. */
  lemma RawPsiBound(expected: seq<real>, actual: seq<real>, nBins: nat, ln: real -> real)
    requires IsLn(ln) && expected != [] && actual != [] && Least(expected) < Greatest(expected) && nBins > 0
    ensures var d := Floor(|expected|, |actual|);
            && 0.0 < d <= EPSILON
            && RawPsi(expected, actual, nBins, ln) <= Times(2.0 + 2.0 * nBins as real * EPSILON, ln(1.0 / d))
  {
    var bins := Bins(Least(expected), Greatest(expected), nBins);
    var d := Floor(|expected|, |actual|);
    BinsIncreasing(Least(expected), Greatest(expected), nBins);
    FloorPositive(|expected|, |actual|);
    SharesPositive(expected, bins);
    SharesPositive(actual, bins);
    SharesAbove(expected, bins, d);
    SharesAbove(actual, bins, d);
    SharesTotal(expected, bins);
    SharesTotal(actual, bins);
    SharesBound(Shares(Counts(expected, bins), |expected|), Shares(Counts(actual, bins), |actual|), d, nBins, ln);
  }

  lemma {:induction false} SharesBound(e: seq<real>, a: seq<real>, d: real, nBins: nat, ln: real -> real)
    requires IsLn(ln) && |e| == |a| == nBins && 0.0 < d <= EPSILON
    requires forall i :: 0 <= i < nBins ==> d <= e[i] < 1.0 && d <= a[i] < 1.0
    requires Total(e) <= 1.0 + nBins as real * EPSILON && Total(a) <= 1.0 + nBins as real * EPSILON
    ensures Total(Terms(e, a, ln)) <= Times(2.0 + 2.0 * nBins as real * EPSILON, ln(1.0 / d))
  {
    var c := 2.0 + 2.0 * nBins as real * EPSILON;
    assert Total(e) + Total(a) <= c;
    TermsBelow(e, a, d, ln);
    LnAboveOne(ln, d);
    ScaleBound(Total(e) + Total(a), c, ln(1.0 / d));
  }

  lemma SharesAbove(values: seq<real>, bins: seq<real>, d: real)
    requires bins != [] && values != [] && d <= EPSILON && d <= 1.0 / (|values| as real + EPSILON)
    ensures forall i :: 0 <= i < |bins| - 1 ==> Shares(Counts(values, bins), |values|)[i] >= d
  {
    forall i | 0 <= i < |bins| - 1
      ensures Shares(Counts(values, bins), |values|)[i] >= d
    {
      CountBound(values, Bin(bins, i));
      ShareAboveFloor(Counts(values, bins)[i], |values|, d);
    }
  }

  lemma FloorPositive(n: nat, m: nat)
    requires n > 0 && m > 0
    ensures 0.0 < Floor(n, m) <= EPSILON
    ensures Floor(n, m) <= 1.0 / (n as real + EPSILON) && Floor(n, m) <= 1.0 / (m as real + EPSILON)
  {
  }

  lemma LnAboveOne(ln: real -> real, d: real)
    requires IsLn(ln) && 0.0 < d <= EPSILON
    ensures ln(1.0 / d) >= 0.0
  {
    LnQuotient(ln, 1.0, d);
    LnOne(ln);
    LnOrder(ln, d, 1.0);
  }

  lemma ScaleBound(x: real, y: real, l: real)
    requires x <= y && l >= 0.0
    ensures Times(x, l) <= Times(y, l)
  {
    TimesMonotone(l, x, y);
    TimesOrder(l, x, 0.0);
    TimesOrder(l, y, 0.0);
  }

  // ----- what the index ignores -----

  /** The order of the values in either sample does not matter. */
  lemma PsiIgnoresOrder(expected: seq<real>, actual: seq<real>, expected': seq<real>, actual': seq<real>,
                        nBins: nat, ln: real -> real)
    requires multiset(expected) == multiset(expected') && multiset(actual) == multiset(actual')
    ensures Psi(expected, actual, nBins, ln) == Psi(expected', actual', nBins, ln)
  {
    assert |multiset(expected)| == |expected| && |multiset(expected')| == |expected'|;
    assert |multiset(actual)| == |actual| && |multiset(actual')| == |actual'|;
    if expected != [] && actual != [] {
      ExtremesPermuted(expected, expected');
      var bins := Bins(Least(expected), Greatest(expected), nBins);
      CountsPermuted(expected, expected', bins);
      CountsPermuted(actual, actual', bins);
    }
  }

  lemma BinsShifted(lo: real, hi: real, t: real, nBins: nat)
    ensures Bins(lo + t, hi + t, nBins) == Shift(Bins(lo, hi, nBins), t)
  {
    forall i: nat | i <= nBins
      ensures Edge(lo + t, hi + t, nBins, i) == Edge(lo, hi, nBins, i) + t
    {
      assert (hi + t) - (lo + t) == hi - lo;
    }
  }

  lemma SharesShifted(values: seq<real>, t: real, bins: seq<real>)
    requires bins != []
    ensures SharesOver(Shift(values, t), Shift(bins, t)) == SharesOver(values, bins)
  {
    CountsShifted(values, t, bins);
  }

  lemma BinsOfShifted(expected: seq<real>, t: real, nBins: nat)
    requires expected != []
    ensures Bins(Least(Shift(expected, t)), Greatest(Shift(expected, t)), nBins)
         == Shift(Bins(Least(expected), Greatest(expected), nBins), t)
  {
    ExtremesShifted(expected, t);
    BinsShifted(Least(expected), Greatest(expected), t, nBins);
  }

  lemma RawPsiShifted(expected: seq<real>, actual: seq<real>, t: real, nBins: nat, ln: real -> real)
    requires expected != []
    ensures RawPsi(Shift(expected, t), Shift(actual, t), nBins, ln) == RawPsi(expected, actual, nBins, ln)
  {
    var bins := Bins(Least(expected), Greatest(expected), nBins);
    BinsOfShifted(expected, t, nBins);
    SharesShifted(expected, t, bins);
    SharesShifted(actual, t, bins);
  }

  /** Neither does a common shift of all values. */
  lemma PsiIgnoresTranslation(expected: seq<real>, actual: seq<real>, t: real, nBins: nat, ln: real -> real)
    ensures Psi(Shift(expected, t), Shift(actual, t), nBins, ln) == Psi(expected, actual, nBins, ln)
  {
    if expected != [] && actual != [] {
      ExtremesShifted(expected, t);
      RawPsiShifted(expected, actual, t, nBins, ln);
    }
  }

  /** A sample compared with itself has index 0. */
  lemma PsiOfSameSample(values: seq<real>, nBins: nat, ln: real -> real)
    requires IsLn(ln)
    ensures Psi(values, values, nBins, ln) == 0.0
  {
    if values != [] && Least(values) != Greatest(values) {
      RawPsiSign(values, values, nBins, ln);
      Round6OfMicros(0.0, 0);
    }
  }
}
