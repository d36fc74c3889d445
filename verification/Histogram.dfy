/** numpy's linspace and histogram, as both divergences use them. */
module Histogram {
  import opened Seqs
  import opened Analysis

  function Least(s: seq<real>): real
    requires s != []
  {
    if |s| == 1 then s[0] else Min(s[0], Least(s[1..]))
  }

  function Greatest(s: seq<real>): real
    requires s != []
  {
    if |s| == 1 then s[0] else Max(s[0], Greatest(s[1..]))
  }

  lemma {:induction false} Extremes(s: seq<real>)
    requires s != []
    ensures forall i :: 0 <= i < |s| ==> Least(s) <= s[i] <= Greatest(s)
    ensures (exists i :: 0 <= i < |s| && s[i] == Least(s)) && (exists i :: 0 <= i < |s| && s[i] == Greatest(s))
  {
    if |s| == 1 {
      assert s[0] == Least(s) == Greatest(s);
    } else {
      Extremes(s[1..]);
      var i :| 0 <= i < |s[1..]| && s[1..][i] == Least(s[1..]);
      var j :| 0 <= j < |s[1..]| && s[1..][j] == Greatest(s[1..]);
      assert s[i + 1] == Least(s[1..]) && s[j + 1] == Greatest(s[1..]);
      var l := if Least(s) == s[0] then 0 else i + 1;
      var g := if Greatest(s) == s[0] then 0 else j + 1;
      assert s[l] == Least(s) && s[g] == Greatest(s);
      forall k | 0 <= k < |s|
        ensures Least(s) <= s[k] <= Greatest(s)
      {
        assert k > 0 ==> s[k] == s[1..][k - 1];
      }
    }
  }

  /** Any bounds that all elements respect and some element attains are the extremes. */
  lemma ExtremesAreUnique(s: seq<real>, lo: real, hi: real)
    requires s != [] && (forall i :: 0 <= i < |s| ==> lo <= s[i] <= hi)
    requires (exists i :: 0 <= i < |s| && s[i] == lo) && (exists i :: 0 <= i < |s| && s[i] == hi)
    ensures Least(s) == lo && Greatest(s) == hi
  {
    Extremes(s);
  }

  /** Edge i of n equal bins over [lo, hi]. */
  function Edge(lo: real, hi: real, n: nat, i: nat): real {
    if n == 0 then lo else lo + Times(hi - lo, i as real / n as real)
  }

  function Linspace(lo: real, hi: real, n: nat): (bins: seq<real>)
    ensures |bins| == n + 1 && forall i :: 0 <= i <= n ==> bins[i] == Edge(lo, hi, n, i)
  {
    seq(n + 1, i requires 0 <= i => Edge(lo, hi, n, i))
  }

  ghost predicate Increasing(bins: seq<real>) {
    forall i, j :: 0 <= i < j < |bins| ==> bins[i] < bins[j]
  }

  lemma FractionOrder(i: nat, j: nat, n: nat)
    requires i < j <= n
    ensures i as real / n as real < j as real / n as real
  {
    var p, q, d := i as real / n as real, j as real / n as real, n as real;
    QuotientTimes(i as real, d, p);
    QuotientTimes(j as real, d, q);
    TimesSum(d, q, p);
    TimesSign(q - p, d);
    TimesOrder(d, q - p, 0.0);
  }

  lemma LinspaceIncreasing(lo: real, hi: real, n: nat)
    requires lo < hi && n > 0
    ensures Increasing(Linspace(lo, hi, n)) && Linspace(lo, hi, n)[0] == lo && Linspace(lo, hi, n)[n] == hi
  {
    forall i, j | 0 <= i < j <= n
      ensures Edge(lo, hi, n, i) < Edge(lo, hi, n, j)
    {
      FractionOrder(i, j, n);
      TimesSum(hi - lo, j as real / n as real, i as real / n as real);
      TimesSign(hi - lo, j as real / n as real - i as real / n as real);
    }
    TimesZero(hi - lo);
    assert n as real / n as real == 1.0;
    assert Times(hi - lo, 1.0) == hi - lo;
  }

  /** Half-open bins, except that the last one is closed. */
  predicate InBin(bins: seq<real>, i: nat, x: real)
    requires i + 1 < |bins|
  {
    bins[i] <= x && (x < bins[i + 1] || (i + 2 == |bins| && x == bins[i + 1]))
  }

  function Bin(bins: seq<real>, i: nat): real -> bool
    requires i + 1 < |bins|
  {
    (x: real) => InBin(bins, i, x)
  }

  function Within(lo: real, hi: real): real -> bool {
    (x: real) => lo <= x <= hi
  }

  function Counts(values: seq<real>, bins: seq<real>): (c: seq<nat>)
    requires bins != []
    ensures |c| == |bins| - 1 && forall i :: 0 <= i < |c| ==> c[i] == Count(values, Bin(bins, i))
  {
    seq(|bins| - 1, i requires 0 <= i < |bins| - 1 => Count(values, Bin(bins, i)))
  }

  function Reals(c: seq<nat>): (r: seq<real>)
    ensures |r| == |c| && forall i :: 0 <= i < |c| ==> r[i] == c[i] as real
  {
    seq(|c|, i requires 0 <= i < |c| => c[i] as real)
  }

  /** A value within the edges lies in exactly one bin, any other value in none. */
  lemma {:induction false} ExactlyOneBin(bins: seq<real>, x: real) returns (k: nat)
    requires |bins| > 1 && Increasing(bins)
    ensures bins[0] <= x <= bins[|bins| - 1] ==> k + 1 < |bins| && InBin(bins, k, x)
    ensures forall i :: 0 <= i < |bins| - 1 && InBin(bins, i, x) ==> bins[0] <= x <= bins[|bins| - 1] && i == k
  {
    k := 0;
    while k + 2 < |bins| && bins[k + 1] <= x
      invariant k + 1 < |bins| && (k > 0 ==> bins[k] <= x)
    {
      k := k + 1;
    }
    forall i | 0 <= i < |bins| - 1 && InBin(bins, i, x)
      ensures bins[0] <= x <= bins[|bins| - 1] && i == k
    {
      assert i > 0 ==> bins[0] < bins[i];
      assert i + 1 < |bins| - 1 ==> bins[i + 1] < bins[|bins| - 1];
    }
  }

  /** An inner edge belongs to the bin it opens, not to the one it closes. */
  lemma EdgeOpensBin(bins: seq<real>, i: nat)
    requires i + 1 < |bins| && Increasing(bins)
    ensures InBin(bins, i, bins[i]) && (i > 0 ==> !InBin(bins, i - 1, bins[i]))
  {
  }

  lemma {:induction false} OneHot(s: seq<real>, k: nat)
    requires k < |s| && forall i :: 0 <= i < |s| ==> s[i] == if i == k then 1.0 else 0.0
    ensures Total(s) == 1.0
  {
    if k == 0 {
      TotalConstant(s[1..], 0.0);
    } else {
      OneHot(s[1..], k - 1);
    }
  }

  /** The counts add up to the number of values inside the edges. */
  lemma {:induction false} CountsConserveValues(values: seq<real>, bins: seq<real>)
    requires |bins| > 1 && Increasing(bins)
    ensures Total(Reals(Counts(values, bins))) == Count(values, Within(bins[0], bins[|bins| - 1])) as real
  {
    var n := |bins| - 1;
    var now := Reals(Counts(values, bins));
    if values == [] {
      TotalConstant(now, 0.0);
    } else {
      var x, rest := values[0], values[1..];
      CountsConserveValues(rest, bins);
      var before := Reals(Counts(rest, bins));
      var here := seq(n, i requires 0 <= i < n => if InBin(bins, i, x) then 1.0 else 0.0);
      TotalLinear(before, here, now, 1.0);
      var k := ExactlyOneBin(bins, x);
      if bins[0] <= x <= bins[n] {
        OneHot(here, k);
      } else {
        TotalConstant(here, 0.0);
      }
    }
  }

  lemma {:induction false} AllWithin(values: seq<real>, lo: real, hi: real)
    requires forall i :: 0 <= i < |values| ==> lo <= values[i] <= hi
    ensures Count(values, Within(lo, hi)) == |values|
  {
    if values == [] {
    } else {
      AllWithin(values[1..], lo, hi);
    }
  }

  lemma CountsPermuted(a: seq<real>, b: seq<real>, bins: seq<real>)
    requires bins != [] && multiset(a) == multiset(b)
    ensures Counts(a, bins) == Counts(b, bins)
  {
    forall i | 0 <= i < |bins| - 1
      ensures Count(a, Bin(bins, i)) == Count(b, Bin(bins, i))
    {
      CountPermuted(a, b, Bin(bins, i));
    }
  }

  lemma ExtremesPermuted(a: seq<real>, b: seq<real>)
    requires a != [] && multiset(a) == multiset(b)
    ensures |a| == |b| && Least(a) == Least(b) && Greatest(a) == Greatest(b)
  {
    assert |multiset(a)| == |a| && |multiset(b)| == |b|;
    Extremes(a);
    Extremes(b);
    assert forall x :: x in a <==> x in multiset(a);
    assert forall x :: x in b <==> x in multiset(b);
    assert Least(a) in b && Greatest(a) in b && Least(b) in a && Greatest(b) in a;
  }

  function Shift(s: seq<real>, t: real): (r: seq<real>)
    ensures |r| == |s| && forall i :: 0 <= i < |s| ==> r[i] == s[i] + t
  {
    seq(|s|, i requires 0 <= i < |s| => s[i] + t)
  }

  lemma ExtremesShifted(s: seq<real>, t: real)
    requires s != []
    ensures Least(Shift(s, t)) == Least(s) + t && Greatest(Shift(s, t)) == Greatest(s) + t
  {
    Extremes(s);
    var i :| 0 <= i < |s| && s[i] == Least(s);
    var j :| 0 <= j < |s| && s[j] == Greatest(s);
    assert Shift(s, t)[i] == Least(s) + t && Shift(s, t)[j] == Greatest(s) + t;
    ExtremesAreUnique(Shift(s, t), Least(s) + t, Greatest(s) + t);
  }

  lemma {:induction false} CountShifted(s: seq<real>, t: real, bins: seq<real>, i: nat)
    requires i + 1 < |bins|
    ensures Count(Shift(s, t), Bin(Shift(bins, t), i)) == Count(s, Bin(bins, i))
  {
    if s == [] {
    } else {
      CountShifted(s[1..], t, bins, i);
      assert Shift(s, t)[1..] == Shift(s[1..], t);
    }
  }

  lemma CountsShifted(s: seq<real>, t: real, bins: seq<real>)
    requires bins != []
    ensures Counts(Shift(s, t), Shift(bins, t)) == Counts(s, bins)
  {
    forall i | 0 <= i < |bins| - 1
      ensures Count(Shift(s, t), Bin(Shift(bins, t), i)) == Count(s, Bin(bins, i))
    {
      CountShifted(s, t, bins, i);
    }
  }
}
