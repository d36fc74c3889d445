/** The arithmetic the feature store borrows from Python and NumPy: rounding, logarithm, square root, spread. */
module Analysis {
  import opened Seqs

  function Abs(x: real): real {
    if x < 0.0 then -x else x
  }

  function Max(x: real, y: real): real {
    if x < y then y else x
  }

  function Min(x: real, y: real): real {
    if y < x then y else x
  }

  // Products get a name, so that a proof sees the ones it talks about and no others.

  function Times(x: real, y: real): real {
    x * y
  }

  function Square(x: real): real {
    Times(x, x)
  }

  lemma TimesSign(a: real, b: real)
    ensures a > 0.0 && b > 0.0 ==> Times(a, b) > 0.0
    ensures a >= 0.0 && b >= 0.0 ==> Times(a, b) >= 0.0
    ensures a <= 0.0 && b >= 0.0 ==> Times(a, b) <= 0.0
    ensures a < 0.0 && b < 0.0 ==> Times(a, b) > 0.0
  {
  }

  lemma TimesSum(a: real, b: real, c: real)
    ensures Times(a, b + c) == Times(a, b) + Times(a, c)
    ensures Times(b + c, a) == Times(a, b) + Times(a, c)
    ensures Times(a, b - c) == Times(a, b) - Times(a, c)
  {
  }

  lemma TimesNext(n: real, a: real)
    ensures Times(n + 1.0, a) == Times(n, a) + a
  {
  }

  lemma TimesZero(a: real)
    ensures Times(0.0, a) == 0.0 && Times(a, 0.0) == 0.0
  {
  }

  lemma TimesOrder(a: real, b: real, c: real)
    ensures Times(a, b) == Times(b, a)
    ensures Times(a, Times(b, c)) == Times(Times(a, b), c)
  {
  }

  lemma TimesMonotone(a: real, x: real, y: real)
    requires a >= 0.0 && x <= y
    ensures Times(a, x) <= Times(a, y)
  {
    TimesSign(a, y - x);
    TimesSum(a, y, x);
  }

  lemma CancelFactor(a: real, x: real, y: real)
    requires a > 0.0 && Times(a, x) <= Times(a, y)
    ensures x <= y
  {
    TimesSum(a, y, x);
    TimesSum(a, x, y);
    TimesSign(a, x - y);
  }

  lemma QuotientTimes(a: real, b: real, q: real)
    requires b != 0.0 && q == a / b
    ensures Times(q, b) == a && Times(b, q) == a
  {
  }

  lemma QuotientSign(a: real, b: real, q: real)
    requires a >= 0.0 && b > 0.0 && q == a / b
    ensures q >= 0.0 && Times(q, b) == a
  {
    QuotientTimes(a, b, q);
    TimesZero(b);
    CancelFactor(b, 0.0, q);
  }

  lemma SquareSign(x: real)
    ensures Square(x) >= 0.0
    ensures x != 0.0 ==> Square(x) > 0.0
  {
    TimesSign(x, x);
    if x < 0.0 {
      assert Times(x, x) > 0.0;
    }
  }

  lemma SquareTimes(x: real, y: real)
    ensures Square(Times(x, y)) == Times(Square(x), Square(y))
  {
    var xy := Times(x, y);
    TimesOrder(xy, x, y);
    TimesOrder(y, x, xy);
    TimesOrder(x, x, Times(y, y));
    assert Times(xy, xy) == Times(Times(x, x), Times(y, y)) by {
      assert Times(xy, xy) == x * y * (x * y);
    }
  }

  lemma SquareMonotone(x: real, y: real)
    requires 0.0 <= x <= y
    ensures Square(x) <= Square(y)
  {
    TimesMonotone(x, x, y);
    TimesMonotone(y, x, y);
    TimesOrder(x, y, x);
  }

  lemma SquareAbs(x: real)
    ensures Square(Abs(x)) == Square(x)
  {
    if x < 0.0 {
      assert (-x) * (-x) == x * x;
    }
  }

  lemma SquareSum(x: real, y: real)
    ensures Square(x + y) == Square(x) + 2.0 * Times(x, y) + Square(y)
  {
  }

  // ----- Python's round(x, d), with scale = 10^d: nearest multiple of 1/scale, ties to the even one -----

  function RoundToInt(x: real): int {
    var below := x.Floor;
    var frac := x - below as real;
    if frac < 0.5 || (frac == 0.5 && below % 2 == 0) then below else below + 1
  }

  function Round(x: real, scale: real): real
    requires scale > 0.0
  {
    RoundToInt(x * scale) as real / scale
  }

  const MICRO := 1000000.0

  function Round6(x: real): real {
    Round(x, MICRO)
  }

  lemma RoundToIntNear(x: real)
    ensures -0.5 <= RoundToInt(x) as real - x <= 0.5
  {
  }

  lemma RoundNear(x: real, scale: real)
    requires scale > 0.0
    ensures -0.5 <= (Round(x, scale) - x) * scale <= 0.5
  {
    RoundToIntNear(x * scale);
    var k := RoundToInt(x * scale) as real;
    assert Round(x, scale) * scale == k;
    assert (Round(x, scale) - x) * scale == k - x * scale;
  }

  lemma Round6Near(x: real)
    ensures x - 0.0000005 <= Round6(x) <= x + 0.0000005
  {
    RoundNear(x, MICRO);
  }

  lemma Round6Monotone(x: real, y: real)
    requires x <= y
    ensures Round6(x) <= Round6(y)
  {
    var a, b := x * MICRO, y * MICRO;
    assert a.Floor <= b.Floor;
  }

  lemma Round6OfMicros(x: real, k: int)
    requires x * MICRO == k as real
    ensures Round6(x) == x
  {
    assert (x * MICRO).Floor == k;
  }

  // ----- natural logarithm -----

  /** All that is assumed of numpy's log: it turns products into sums and lies below its tangent at 1. */
  ghost predicate IsLn(ln: real -> real) {
    && (forall x, y :: x > 0.0 && y > 0.0 ==> ln(Times(x, y)) == ln(x) + ln(y))
    && (forall x :: x > 0.0 ==> ln(x) <= x - 1.0)
  }

  lemma LnProduct(ln: real -> real, x: real, y: real)
    requires IsLn(ln) && x > 0.0 && y > 0.0
    ensures ln(Times(x, y)) == ln(x) + ln(y)
  {
  }

  lemma LnOne(ln: real -> real)
    requires IsLn(ln)
    ensures ln(1.0) == 0.0
  {
    LnProduct(ln, 1.0, 1.0);
    assert Times(1.0, 1.0) == 1.0;
  }

  lemma LnQuotient(ln: real -> real, x: real, y: real)
    requires IsLn(ln) && x > 0.0 && y > 0.0
    ensures x / y > 0.0 && ln(x / y) == ln(x) - ln(y)
  {
    assert x / y > 0.0;
    LnProduct(ln, x / y, y);
    assert Times(x / y, y) == x;
  }

  lemma BetweenOneAnd(x: real, z: real, q: real)
    requires x > 0.0 && x != 1.0 && z == (1.0 + x) / 2.0 && Times(q, z) == x
    ensures q + z < x + 1.0
  {
    var h := z - 1.0;
    assert Times(z - q, z) == Square(h);
    SquareSign(h);
    TimesSign(z - q, z);
  }

  /** Splitting x at the midpoint between 1 and x makes the tangent bound strict everywhere but at 1. */
  lemma LnStrict(ln: real -> real, x: real)
    requires IsLn(ln) && x > 0.0 && x != 1.0
    ensures ln(x) < x - 1.0
  {
    var z := (1.0 + x) / 2.0;
    LnQuotient(ln, x, z);
    assert ln(z) <= z - 1.0;
    assert ln(x / z) <= x / z - 1.0;
    assert Times(x / z, z) == x;
    BetweenOneAnd(x, z, x / z);
  }

  lemma LnIncreasing(ln: real -> real, x: real, y: real)
    requires IsLn(ln) && 0.0 < x < y
    ensures ln(x) < ln(y)
  {
    LnQuotient(ln, x, y);
    var q := x / y;
    assert Times(q - 1.0, y) == x - y;
    TimesSign(q - 1.0, y);
    LnStrict(ln, q);
  }

  // ----- square root -----

  ghost predicate IsSqrt(sqrt: real -> real) {
    forall x :: x >= 0.0 ==> sqrt(x) >= 0.0 && sqrt(x) * sqrt(x) == x
  }

  // ----- mean and spread -----

  function Mean(s: seq<real>): real
    requires s != []
  {
    Total(s) / |s| as real
  }

  ghost predicate IsMean(s: seq<real>, m: real) {
    Total(s) == Times(|s| as real, m)
  }

  lemma SomeMean(s: seq<real>) returns (m: real)
    ensures IsMean(s, m)
  {
    if s == [] {
      m := 0.0;
      assert Times(0.0, m) == 0.0;
    } else {
      MeanIsMean(s);
      m := Mean(s);
    }
  }

  lemma MeanIsMean(s: seq<real>)
    requires s != []
    ensures IsMean(s, Mean(s))
  {
  }

  /** Sum of squared distances from c. */
  function Spread(s: seq<real>, c: real): real {
    if s == [] then 0.0 else Square(s[0] - c) + Spread(s[1..], c)
  }

  lemma {:induction false} SpreadNonNegative(s: seq<real>, c: real)
    ensures Spread(s, c) >= 0.0
  {
    if s == [] {
    } else {
      SquareSign(s[0] - c);
      SpreadNonNegative(s[1..], c);
    }
  }

  lemma {:induction false} SpreadConcat(a: seq<real>, b: seq<real>, c: real)
    ensures Spread(a + b, c) == Spread(a, c) + Spread(b, c)
  {
    if a == [] {
      assert a + b == b;
    } else {
      assert (a + b)[1..] == a[1..] + b;
      SpreadConcat(a[1..], b, c);
    }
  }

  lemma SpreadInside(before: seq<real>, x: real, after: seq<real>, c: real)
    ensures Spread(before + [x] + after, c) == Square(x - c) + Spread(before + after, c)
    ensures Total(before + [x] + after) == x + Total(before + after)
  {
    SpreadConcat(before, after, c);
    SpreadConcat(before + [x], after, c);
    SpreadConcat(before, [x], c);
    TotalConcat(before, after);
    TotalConcat(before + [x], after);
    TotalConcat(before, [x]);
    assert [x][1..] == [];
  }

  lemma {:induction false} SpreadPermuted(a: seq<real>, b: seq<real>, c: real)
    requires multiset(a) == multiset(b)
    ensures Spread(a, c) == Spread(b, c) && Total(a) == Total(b) && |a| == |b|
  {
    assert |multiset(a)| == |a| && |multiset(b)| == |b|;
    if a == [] {
      assert b == [];
    } else {
      TailMultiset(a);
      var before, after := RemoveFrom(b, a[0]);
      SpreadPermuted(a[1..], before + after, c);
      SpreadInside(before, a[0], after, c);
    }
  }

  /** Moving the centre from m down by d, with `excess` the total distance of the elements above m. */
  lemma {:induction false} SpreadShift(s: seq<real>, m: real, d: real, excess: real)
    requires excess == Total(s) - Times(|s| as real, m)
    ensures Spread(s, m - d) == Spread(s, m) + 2.0 * Times(d, excess) + Times(|s| as real, Square(d))
  {
    if s == [] {
      TimesZero(m);
      TimesZero(Square(d));
      TimesZero(d);
    } else {
      var x, tail := s[0] - m, s[1..];
      var n := |tail| as real;
      var before := Total(tail) - Times(n, m);
      SpreadShift(tail, m, d, before);
      TimesNext(n, m);
      TimesNext(n, Square(d));
      SquareSum(d, x);
      TimesSum(d, before, x);
      assert s[0] - (m - d) == d + x;
    }
  }

  /** The mean is the point of least spread, with equality only at a distance of zero. */
  lemma SpreadAbout(s: seq<real>, m: real, c: real)
    requires IsMean(s, m)
    ensures Spread(s, c) == Spread(s, m) + Times(|s| as real, Square(m - c))
    ensures Spread(s, m) >= 0.0
  {
    SpreadNonNegative(s, m);
    SpreadShift(s, m, m - c, 0.0);
    TimesZero(m - c);
  }

  /** The mean of a part strays from the mean of the whole by no more than the spread of the whole allows. */
  lemma PartMeanBound(part: seq<real>, rest: seq<real>, whole: seq<real>, mPart: real, m: real)
    requires multiset(part + rest) == multiset(whole)
    requires part != [] && IsMean(part, mPart) && IsMean(whole, m)
    ensures |whole| == |part| + |rest|
    ensures Times(Times(|part| as real, |whole| as real), Square(mPart - m)) <= Times(|rest| as real, Spread(whole, m))
  {
    SpreadPermuted(part + rest, whole, m);
    SpreadConcat(part, rest, m);
    TotalConcat(part, rest);
    var mRest := SomeMean(rest);
    SpreadAbout(part, mPart, m);
    SpreadAbout(rest, mRest, m);
    WeighParts(|part| as real, |rest| as real, |whole| as real, mPart, mRest, m,
               Spread(part, m), Spread(rest, m), Spread(whole, m));
  }

  lemma WeighParts(k: real, r: real, n: real, a: real, b: real, m: real, sp: real, sr: real, all: real)
    requires k > 0.0 && r >= 0.0 && n == k + r && all == sp + sr
    requires Times(n, m) == Times(k, a) + Times(r, b)
    requires sp >= Times(k, Square(a - m)) && sr >= Times(r, Square(b - m))
    ensures Times(Times(k, n), Square(a - m)) <= Times(r, all)
  {
    var d, e := a - m, b - m;
    var dd, ee := Square(d), Square(e);
    TimesSum(m, k, r);
    TimesOrder(m, k, 0.0);
    TimesOrder(m, r, 0.0);
    TimesSum(k, a, m);
    TimesSum(r, b, m);
    OppositeSquares(Times(r, e), Times(k, d));
    SquareTimes(r, e);
    SquareTimes(k, d);
    TimesOrder(r, r, ee);
    TimesOrder(k, k, dd);
    TimesMonotone(r, Times(k, dd), sp);
    TimesMonotone(r, Times(r, ee), sr);
    TimesSum(r, sp, sr);
    TimesOrder(k, n, dd);
    TimesSum(dd, k, r);
    TimesSum(k, Times(k, dd), Times(r, dd));
    TimesOrder(dd, k, 0.0);
    TimesOrder(dd, r, 0.0);
    TimesOrder(k, r, dd);
    TimesOrder(r, k, dd);
  }

  lemma OppositeSquares(x: real, y: real)
    requires x == -y
    ensures Square(x) == Square(y)
  {
  }

  lemma DividedBy(d: real, b: real, q: real)
    requires b > 0.0 && q == Abs(d / b)
    ensures q >= 0.0 && Times(q, b) == Abs(d)
  {
    var p := d / b;
    QuotientTimes(d, b, p);
    TimesSign(p, b);
    TimesSign(-p, b);
    TimesNegated(p, b);
  }

  lemma TimesNegated(p: real, b: real)
    ensures Times(-p, b) == -Times(p, b)
  {
  }

  /** A distance d divided by sigma + e, when sigma^2 m is a spread that bounds d. */
  lemma ScoreWithinSpread(k: real, r: real, n: real, m: real, d: real, sigma: real, e: real, spread: real, score: real)
    requires k > 0.0 && r >= 0.0 && n > 0.0 && m > 0.0 && sigma >= 0.0 && e > 0.0
    requires Times(Square(sigma), m) == spread
    requires Times(Times(k, n), Square(d)) <= Times(r, spread)
    requires score == Abs(d / (sigma + e))
    ensures Times(Times(k, n), Square(score)) <= Times(r, m)
  {
    var kn, v, ss := Times(k, n), Square(sigma), Square(score);
    TimesSign(k, n);
    DividedBy(d, sigma + e, score);
    SquareOfQuotient(score, sigma, e, d);
    // kn ss v <= kn d^2 <= r m v
    TimesMonotone(kn, Times(ss, v), Square(d));
    FactorOut(v, r, m, kn, ss);
    if sigma == 0.0 {
      NoSpread(kn, d, r, spread, m, sigma, e, score);
    } else {
      SquareSign(sigma);
      CancelFactor(v, Times(kn, ss), Times(r, m));
    }
  }

  lemma FactorOut(v: real, r: real, m: real, a: real, s: real)
    ensures Times(r, Times(v, m)) == Times(v, Times(r, m))
    ensures Times(a, Times(s, v)) == Times(v, Times(a, s))
  {
    TimesOrder(r, v, m);
    TimesOrder(v, r, m);
    TimesOrder(a, s, v);
    TimesOrder(Times(a, s), v, v);
  }

  lemma NoSpread(kn: real, d: real, r: real, spread: real, m: real, sigma: real, e: real, score: real)
    requires kn > 0.0 && r >= 0.0 && m > 0.0 && sigma == 0.0 && e > 0.0 && spread == Times(Square(sigma), m)
    requires Times(kn, Square(d)) <= Times(r, spread) && score == Abs(d / (sigma + e))
    ensures Times(kn, Square(score)) <= Times(r, m)
  {
    TimesZero(0.0);
    TimesZero(m);
    TimesZero(r);
    SquareSign(d);
    TimesSign(kn, Square(d));
    assert d == 0.0;
    assert score == 0.0;
    TimesZero(kn);
    TimesSign(r, m);
  }

  lemma SquareOfQuotient(score: real, sigma: real, e: real, d: real)
    requires score >= 0.0 && sigma >= 0.0 && e > 0.0 && Times(score, sigma + e) == Abs(d)
    ensures Times(Square(score), Square(sigma)) <= Square(d)
  {
    TimesSign(score, sigma);
    TimesMonotone(score, sigma, sigma + e);
    SquareMonotone(Times(score, sigma), Abs(d));
    SquareTimes(score, sigma);
    SquareAbs(d);
  }
}
