/** Options and the few sequence operations every other module counts and sums with. */
module Wrappers {

  datatype Option<+T> = None | Some(value: T) {

    function GetOr(default: T): T {
      match this
      case Some(v) => v
      case None => default
    }
  }
}

/** Filtering, counting and summing over sequences, and what permuting or splitting them preserves. */
module Seqs {

  function Filter<T>(s: seq<T>, p: T -> bool): seq<T> {
    if s == [] then [] else (if p(s[0]) then [s[0]] else []) + Filter(s[1..], p)
  }

  function Count<T>(s: seq<T>, p: T -> bool): nat {
    if s == [] then 0 else (if p(s[0]) then 1 else 0) + Count(s[1..], p)
  }

  function Sum<T>(s: seq<T>, f: T -> real): real {
    if s == [] then 0.0 else f(s[0]) + Sum(s[1..], f)
  }

  function Map<T, U>(s: seq<T>, f: T -> U): (r: seq<U>)
    ensures |r| == |s|
    ensures forall i :: 0 <= i < |s| ==> r[i] == f(s[i])
  {
    seq(|s|, i requires 0 <= i < |s| => f(s[i]))
  }

  function Flatten<T>(ss: seq<seq<T>>): seq<T> {
    if ss == [] then [] else ss[0] + Flatten(ss[1..])
  }

  function Total(s: seq<real>): real {
    if s == [] then 0.0 else s[0] + Total(s[1..])
  }

  ghost predicate NoDup<T>(s: seq<T>) {
    forall i, j :: 0 <= i < j < |s| ==> s[i] != s[j]
  }

  lemma {:induction false} FilterConcat<T(!new)>(a: seq<T>, b: seq<T>, p: T -> bool)
    ensures Filter(a + b, p) == Filter(a, p) + Filter(b, p)
  {
    if a == [] {
      assert a + b == b;
    } else {
      assert (a + b)[1..] == a[1..] + b;
      FilterConcat(a[1..], b, p);
      var head := if p(a[0]) then [a[0]] else [];
      assert head + (Filter(a[1..], p) + Filter(b, p)) == head + Filter(a[1..], p) + Filter(b, p);
    }
  }

  lemma {:induction false} FilterMembers<T(!new)>(s: seq<T>, p: T -> bool)
    ensures forall x :: x in Filter(s, p) <==> x in s && p(x)
  {
    if s == [] {
    } else {
      FilterMembers(s[1..], p);
      assert s == [s[0]] + s[1..];
    }
  }

  lemma {:induction false} FilterAgrees<T(!new)>(s: seq<T>, p: T -> bool, q: T -> bool)
    requires forall x :: x in s ==> p(x) == q(x)
    ensures Filter(s, p) == Filter(s, q)
  {
    if s == [] {
    } else {
      assert s == [s[0]] + s[1..];
      FilterAgrees(s[1..], p, q);
    }
  }

  lemma {:induction false} FilterMultiplicity<T(!new)>(s: seq<T>, p: T -> bool, x: T)
    ensures multiset(Filter(s, p))[x] == if p(x) then multiset(s)[x] else 0
  {
    if s == [] {
    } else {
      FilterMultiplicity(s[1..], p, x);
      assert s == [s[0]] + s[1..];
    }
  }

  lemma FilterPermuted<T(!new)>(a: seq<T>, b: seq<T>, p: T -> bool)
    requires multiset(a) == multiset(b)
    ensures multiset(Filter(a, p)) == multiset(Filter(b, p))
  {
    forall x: T
      ensures multiset(Filter(a, p))[x] == multiset(Filter(b, p))[x]
    {
      FilterMultiplicity(a, p, x);
      FilterMultiplicity(b, p, x);
    }
  }

  lemma {:induction false} FilterCount<T(!new)>(s: seq<T>, p: T -> bool)
    ensures |Filter(s, p)| == Count(s, p)
  {
    if s == [] {
    } else {
      FilterCount(s[1..], p);
    }
  }

  lemma {:induction false} CountConcat<T(!new)>(a: seq<T>, b: seq<T>, p: T -> bool)
    ensures Count(a + b, p) == Count(a, p) + Count(b, p)
  {
    if a == [] {
      assert a + b == b;
    } else {
      assert (a + b)[1..] == a[1..] + b;
      CountConcat(a[1..], b, p);
    }
  }

  lemma {:induction false} CountAgrees<T(!new)>(s: seq<T>, p: T -> bool, q: T -> bool)
    requires forall x :: x in s ==> p(x) == q(x)
    ensures Count(s, p) == Count(s, q)
  {
    if s == [] {
    } else {
      CountAgrees(s[1..], p, q);
    }
  }

  lemma {:induction false} CountBound<T(!new)>(s: seq<T>, p: T -> bool)
    ensures Count(s, p) <= |s|
    ensures Count(s, p) == 0 <==> forall x :: x in s ==> !p(x)
  {
    if s == [] {
    } else {
      CountBound(s[1..], p);
      assert s == [s[0]] + s[1..];
    }
  }

  lemma {:induction false} SumConcat<T(!new)>(a: seq<T>, b: seq<T>, f: T -> real)
    ensures Sum(a + b, f) == Sum(a, f) + Sum(b, f)
  {
    if a == [] {
      assert a + b == b;
    } else {
      assert (a + b)[1..] == a[1..] + b;
      SumConcat(a[1..], b, f);
    }
  }

  lemma {:induction false} TotalConcat(a: seq<real>, b: seq<real>)
    ensures Total(a + b) == Total(a) + Total(b)
  {
    if a == [] {
      assert a + b == b;
    } else {
      assert (a + b)[1..] == a[1..] + b;
      TotalConcat(a[1..], b);
    }
  }

  /** Elementwise comparison of two equally long lists of numbers carries over to their totals. */
  lemma {:induction false} TotalMonotone(a: seq<real>, b: seq<real>)
    requires |a| == |b|
    requires forall i :: 0 <= i < |a| ==> a[i] <= b[i]
    ensures Total(a) <= Total(b)
    ensures (exists i :: 0 <= i < |a| && a[i] < b[i]) ==> Total(a) < Total(b)
  {
    if a == [] {
    } else {
      TotalMonotone(a[1..], b[1..]);
      if i :| 0 <= i < |a| && a[i] < b[i] {
        if i > 0 {
          assert a[1..][i - 1] < b[1..][i - 1];
        }
      }
    }
  }

  lemma {:induction false} TotalLinear(a: seq<real>, b: seq<real>, c: seq<real>, k: real)
    requires |a| == |b| == |c|
    requires forall i :: 0 <= i < |a| ==> c[i] == a[i] + k * b[i]
    ensures Total(c) == Total(a) + k * Total(b)
  {
    if a == [] {
    } else {
      TotalLinear(a[1..], b[1..], c[1..], k);
      Distribute(k, b[0], Total(b[1..]));
    }
  }

  lemma {:induction false} TotalDifference(a: seq<real>, b: seq<real>, c: seq<real>)
    requires |a| == |b| == |c|
    requires forall i :: 0 <= i < |a| ==> c[i] == a[i] - b[i]
    ensures Total(c) == Total(a) - Total(b)
  {
    if a == [] {
    } else {
      TotalDifference(a[1..], b[1..], c[1..]);
    }
  }

  lemma Distribute(k: real, x: real, y: real)
    ensures k * (x + y) == k * x + k * y
  {
  }

  lemma {:induction false} TotalConstant(s: seq<real>, c: real)
    requires forall i :: 0 <= i < |s| ==> s[i] == c
    ensures Total(s) == |s| as real * c
  {
    if s == [] {
    } else {
      TotalConstant(s[1..], c);
    }
  }

  /** A list split at one of its elements, as every induction over permutations needs. */
  lemma RemoveFrom<T(!new)>(b: seq<T>, x: T) returns (before: seq<T>, after: seq<T>)
    requires x in b
    ensures b == before + [x] + after
    ensures multiset(before + after) == multiset(b) - multiset{x}
  {
    var i :| 0 <= i < |b| && b[i] == x;
    before, after := b[..i], b[i + 1..];
    assert b == before + [x] + after;
    assert multiset(b) == multiset(before) + multiset{x} + multiset(after);
  }

  lemma TailMultiset<T(!new)>(a: seq<T>)
    requires a != []
    ensures multiset(a[1..]) == multiset(a) - multiset{a[0]}
    ensures a[0] in multiset(a)
  {
    assert a == [a[0]] + a[1..];
  }

  lemma SumInside<T(!new)>(before: seq<T>, x: T, after: seq<T>, f: T -> real)
    ensures Sum(before + [x] + after, f) == f(x) + Sum(before + after, f)
  {
    SumConcat(before, after, f);
    SumConcat(before + [x], after, f);
    SumConcat(before, [x], f);
    assert [x][1..] == [];
  }

  lemma {:induction false} SumPermuted<T(!new)>(a: seq<T>, b: seq<T>, f: T -> real)
    requires multiset(a) == multiset(b)
    ensures Sum(a, f) == Sum(b, f)
    ensures |a| == |b|
  {
    assert |multiset(a)| == |a| && |multiset(b)| == |b|;
    if a == [] {
      assert b == [];
    } else {
      TailMultiset(a);
      var before, after := RemoveFrom(b, a[0]);
      SumPermuted(a[1..], before + after, f);
      SumInside(before, a[0], after, f);
    }
  }

  lemma CountInside<T(!new)>(before: seq<T>, x: T, after: seq<T>, p: T -> bool)
    ensures Count(before + [x] + after, p) == (if p(x) then 1 else 0) + Count(before + after, p)
  {
    CountConcat(before, after, p);
    CountConcat(before + [x], after, p);
    CountConcat(before, [x], p);
    assert [x][1..] == [];
  }

  lemma {:induction false} CountPermuted<T(!new)>(a: seq<T>, b: seq<T>, p: T -> bool)
    requires multiset(a) == multiset(b)
    ensures Count(a, p) == Count(b, p)
  {
    if a == [] {
      assert |multiset(b)| == 0;
    } else {
      TailMultiset(a);
      var before, after := RemoveFrom(b, a[0]);
      CountPermuted(a[1..], before + after, p);
      CountInside(before, a[0], after, p);
    }
  }

  /** Distinct elements of a list that satisfy p are counted at least once each. */
  lemma {:induction false} CountAtLeast<T(!new)>(few: seq<T>, s: seq<T>, p: T -> bool)
    requires NoDup(few)
    requires forall x :: x in few ==> x in s && p(x)
    ensures Count(s, p) >= |few|
  {
    if few == [] {
    } else {
      var x := few[0];
      var before, after := RemoveFrom(s, x);
      forall y | y in few[1..]
        ensures y in before + after && p(y)
      {
        assert y in few && y != x;
      }
      CountAtLeast(few[1..], before + after, p);
      CountConcat(before, after, p);
      CountConcat(before, [x] + after, p);
      CountConcat([x], after, p);
      assert s == before + ([x] + after);
    }
  }

  /** Counting a duplicate-free list counts exactly the listed elements that satisfy p. */
  lemma {:induction false} CountExactly<T(!new)>(few: seq<T>, s: seq<T>, p: T -> bool)
    requires NoDup(few) && NoDup(s)
    requires forall x :: x in few <==> x in s && p(x)
    ensures Count(s, p) == |few|
  {
    CountAtLeast(few, s, p);
    FilterMembers(s, p);
    FilterCount(s, p);
    FilterNoDup(s, p);
    var kept := Filter(s, p);
    forall x | x in kept
      ensures x in few && p(x)
    {
      assert x in s && p(x);
    }
    CountAtLeast(kept, few, p);
    CountBound(few, p);
  }

  lemma {:induction false} FilterNoDup<T(!new)>(s: seq<T>, p: T -> bool)
    requires NoDup(s)
    ensures NoDup(Filter(s, p))
  {
    if s == [] {
    } else {
      FilterNoDup(s[1..], p);
      FilterMembers(s[1..], p);
      assert s[0] !in s[1..];
    }
  }

  lemma NoDupConcat<T(!new)>(a: seq<T>, b: seq<T>)
    requires NoDup(a) && NoDup(b) && forall x :: x in a ==> x !in b
    ensures NoDup(a + b)
  {
    var s, n := a + b, |a|;
    forall i, j | 0 <= i < j < |s|
      ensures s[i] != s[j]
    {
      if j < n {
        assert a[i] != a[j];
      } else if i < n {
        assert a[i] in a && b[j - n] in b;
      } else {
        assert b[i - n] != b[j - n];
      }
    }
  }

  /** Two duplicate-free lists of the same elements are permutations of each other. */
  lemma SameElements<T(!new)>(a: seq<T>, b: seq<T>)
    requires NoDup(a) && NoDup(b) && forall x :: x in a <==> x in b
    ensures multiset(a) == multiset(b)
  {
    forall x: T
      ensures multiset(a)[x] == multiset(b)[x]
    {
      OnceEach(a, x);
      OnceEach(b, x);
    }
  }

  lemma {:induction false} OnceEach<T(!new)>(s: seq<T>, x: T)
    requires NoDup(s)
    ensures multiset(s)[x] == if x in s then 1 else 0
  {
    if s == [] {
    } else {
      assert s == [s[0]] + s[1..];
      assert s[0] !in s[1..];
      OnceEach(s[1..], x);
    }
  }

  lemma MapConcat<T(!new), U(!new)>(a: seq<T>, b: seq<T>, f: T -> U)
    ensures Map(a + b, f) == Map(a, f) + Map(b, f)
  {
  }

  lemma SelectAppend<T(!new), U(!new)>(s: seq<T>, x: T, p: T -> bool, f: T -> U)
    ensures Map(Filter(s + [x], p), f) == Map(Filter(s, p), f) + if p(x) then [f(x)] else []
  {
    FilterConcat(s, [x], p);
    assert [x][1..] == [];
  }

  lemma {:induction false} MapPermuted<T(!new), U(!new)>(a: seq<T>, b: seq<T>, f: T -> U)
    requires multiset(a) == multiset(b)
    ensures multiset(Map(a, f)) == multiset(Map(b, f))
  {
    if a == [] {
      assert |multiset(b)| == 0;
      assert b == [];
    } else {
      TailMultiset(a);
      var before, after := RemoveFrom(b, a[0]);
      MapPermuted(a[1..], before + after, f);
      assert a == [a[0]] + a[1..];
      MapConcat([a[0]], a[1..], f);
      MapConcat(before, after, f);
      MapConcat(before + [a[0]], after, f);
      MapConcat(before, [a[0]], f);
    }
  }
}
