/** Drift of each feature's recent values against its stored baseline. */
module Drift {
  import opened Seqs
  import opened Analysis
  import opened Histogram
  import opened FeatureSchema
  import opened StatisticalTests
  import Psi

  datatype Severity = Ok | Warn | Alert

  datatype Config = Config(psiWarn: real, psiAlert: real, ksAlpha: real, zThreshold: real)

  const CONFIG := Config(0.1, 0.2, 0.05, 3.0)

  /** The numerical library. */
  datatype Numerics = Numerics(ln: real -> real, sqrt: real -> real, ks: TwoSampleTest) {

    ghost predicate Lawful() {
      IsLn(ln) && IsSqrt(sqrt)
    }
  }

  datatype FeatureDriftResult = FeatureDriftResult(
    feature: Field, psi: real, ks: KSTestResult, zScore: real, kl: real, severity: Severity,
    baselineSize: nat, currentSize: nat) {

    predicate IsDrifting() {
      severity == Warn || severity == Alert
    }
  }

  datatype DriftReport = DriftReport(results: seq<FeatureDriftResult>, drifting: seq<Field>) {

    predicate HasCriticalDrift() {
      exists r :: r in results && r.severity == Alert
    }
  }

  function PsiSeverity(psi: real, warn: real, alert: real): Severity {
    if psi < warn then Ok else if psi < alert then Warn else Alert
  }

  /** data.get(f, []) */
  function Values(data: map<Field, seq<real>>, f: Field): seq<real> {
    if f in data then data[f] else []
  }

  /** The stored baseline; a missing or empty one is replaced by the current values. */
  function Baseline(baselines: map<Field, seq<real>>, f: Field, current: seq<real>): seq<real> {
    if Values(baselines, f) == [] then current else Values(baselines, f)
  }

  function Assess(f: Field, baseline: seq<real>, current: seq<real>, cfg: Config, num: Numerics): FeatureDriftResult {
    var psi := Psi.Psi(baseline, current, Psi.N_BINS, num.ln);
    var ks := KsTest(baseline, current, cfg.ksAlpha, num.ks);
    var severity := PsiSeverity(psi, cfg.psiWarn, cfg.psiAlert);
    FeatureDriftResult(
      f, psi, ks, ZScoreTest(baseline, current, cfg.zThreshold, num.sqrt).zScore,
      Round6(Kl(baseline, current, Psi.N_BINS, num.ln)),
      if severity == Ok && ks.significant then Warn else severity,
      |baseline|, |current|)
  }

  function Result(f: Field, data: map<Field, seq<real>>, baselines: map<Field, seq<real>>, cfg: Config, num: Numerics)
    : FeatureDriftResult
  {
    Assess(f, Baseline(baselines, f, Values(data, f)), Values(data, f), cfg, num)
  }

  function ResultFor(data: map<Field, seq<real>>, baselines: map<Field, seq<real>>, cfg: Config, num: Numerics)
    : Field -> FeatureDriftResult
  {
    f => Result(f, data, baselines, cfg, num)
  }

  function HasValues(data: map<Field, seq<real>>): Field -> bool {
    f => Values(data, f) != []
  }

  function Results(names: seq<Field>, data: map<Field, seq<real>>, baselines: map<Field, seq<real>>, cfg: Config,
                   num: Numerics)
    : (r: seq<FeatureDriftResult>)
    ensures |r| == |Filter(names, HasValues(data))|
  {
    Map(Filter(names, HasValues(data)), ResultFor(data, baselines, cfg, num))
  }

  function DriftingNames(results: seq<FeatureDriftResult>): seq<Field> {
    Map(Filter(results, (r: FeatureDriftResult) => r.IsDrifting()), (r: FeatureDriftResult) => r.feature)
  }

  /** One turn of the loop, for a feature that has values. */
  method CompareFeature(f: Field, baseline: seq<real>, current: seq<real>, cfg: Config, num: Numerics)
    returns (result: FeatureDriftResult)
    ensures result == Assess(f, baseline, current, cfg, num)
  {
    var psi := Psi.Psi(baseline, current, Psi.N_BINS, num.ln);
    var severity := PsiSeverity(psi, cfg.psiWarn, cfg.psiAlert);
    var ks := KsTest(baseline, current, cfg.ksAlpha, num.ks);
    var zs := ZScoreTest(baseline, current, cfg.zThreshold, num.sqrt);
    var kl := Kl(baseline, current, Psi.N_BINS, num.ln);
    if severity == Ok && ks.significant {
      severity := Warn;
    }
    result := FeatureDriftResult(f, psi, ks, zs.zScore, Round6(kl), severity, |baseline|, |current|);
  }

  method DetectDrift(data: map<Field, seq<real>>, baselines: map<Field, seq<real>>, cfg: Config, num: Numerics)
    returns (report: DriftReport)
    ensures report == DriftReport(Results(FEATURES, data, baselines, cfg, num),
                                  DriftingNames(Results(FEATURES, data, baselines, cfg, num)))
  {
    var results: seq<FeatureDriftResult>, drifting: seq<Field> := [], [];
    for i := 0 to |FEATURES|
      invariant results == Results(FEATURES[..i], data, baselines, cfg, num)
      invariant drifting == DriftingNames(results)
    {
      var f := FEATURES[i];
      ResultsExtend(FEATURES[..i], f, data, baselines, cfg, num);
      assert FEATURES[..i + 1] == FEATURES[..i] + [f];
      var current := Values(data, f);
      if current == [] {
        continue;
      }
      var baseline := Values(baselines, f);
      if baseline == [] {
        baseline := current;
      }
      var result := CompareFeature(f, baseline, current, cfg, num);
      NamesExtend(results, result);
      results := results + [result];
      if result.IsDrifting() {
        drifting := drifting + [f];
      }
    }
    assert FEATURES[..|FEATURES|] == FEATURES;
    report := DriftReport(results, drifting);
  }

  lemma ResultsExtend(names: seq<Field>, f: Field, data: map<Field, seq<real>>, baselines: map<Field, seq<real>>,
                      cfg: Config, num: Numerics)
    ensures Results(names + [f], data, baselines, cfg, num)
         == Results(names, data, baselines, cfg, num)
            + if Values(data, f) == [] then [] else [Result(f, data, baselines, cfg, num)]
  {
    SelectAppend(names, f, HasValues(data), ResultFor(data, baselines, cfg, num));
  }

  lemma NamesExtend(results: seq<FeatureDriftResult>, r: FeatureDriftResult)
    ensures DriftingNames(results + [r]) == DriftingNames(results) + if r.IsDrifting() then [r.feature] else []
  {
    SelectAppend(results, r, (r: FeatureDriftResult) => r.IsDrifting(), (r: FeatureDriftResult) => r.feature);
  }

  // ----- what a report says -----

  lemma NameListed(results: seq<FeatureDriftResult>, f: Field)
    ensures f in DriftingNames(results) <==> exists r :: r in results && r.IsDrifting() && r.feature == f
  {
    var p := (r: FeatureDriftResult) => r.IsDrifting();
    FilterMembers(results, p);
    if f in DriftingNames(results) {
      var i :| 0 <= i < |DriftingNames(results)| && DriftingNames(results)[i] == f;
      assert Filter(results, p)[i] in results;
    }
    if r :| r in results && r.IsDrifting() && r.feature == f {
      assert r in Filter(results, p);
      var i :| 0 <= i < |Filter(results, p)| && Filter(results, p)[i] == r;
      assert DriftingNames(results)[i] == f;
    }
  }

  lemma ResultPresent(names: seq<Field>, f: Field, data: map<Field, seq<real>>, baselines: map<Field, seq<real>>,
                      cfg: Config, num: Numerics)
    requires f in names && Values(data, f) != []
    ensures Result(f, data, baselines, cfg, num) in Results(names, data, baselines, cfg, num)
  {
    var kept := Filter(names, HasValues(data));
    FilterMembers(names, HasValues(data));
    assert f in kept;
    var i :| 0 <= i < |kept| && kept[i] == f;
    assert Results(names, data, baselines, cfg, num)[i] == Result(kept[i], data, baselines, cfg, num);
  }

  lemma ResultOrigin(names: seq<Field>, r: FeatureDriftResult, data: map<Field, seq<real>>,
                     baselines: map<Field, seq<real>>, cfg: Config, num: Numerics)
    requires r in Results(names, data, baselines, cfg, num)
    ensures r.feature in names && Values(data, r.feature) != [] && r == Result(r.feature, data, baselines, cfg, num)
  {
    var kept, all := Filter(names, HasValues(data)), Results(names, data, baselines, cfg, num);
    FilterMembers(names, HasValues(data));
    var i :| 0 <= i < |all| && all[i] == r;
    assert all[i] == Result(kept[i], data, baselines, cfg, num);
    assert kept[i] in kept;
  }

  lemma SeverityOfResult(f: Field, baseline: seq<real>, current: seq<real>, cfg: Config, num: Numerics)
    requires baseline != [] && current != []
    ensures var r, psi := Assess(f, baseline, current, cfg, num), Psi.Psi(baseline, current, Psi.N_BINS, num.ln);
            && r.feature == f
            && (r.IsDrifting() <==> psi >= cfg.psiWarn || num.ks(baseline, current).1 < cfg.ksAlpha)
            && (cfg.psiWarn <= cfg.psiAlert ==> (r.severity == Alert <==> psi >= cfg.psiAlert))
  {
  }

  /** The index of the feature's values against the stored list, or against themselves if none is stored. */
  function IndexOf(f: Field, data: map<Field, seq<real>>, baselines: map<Field, seq<real>>, num: Numerics): real
    requires f in data
  {
    if f in baselines && baselines[f] != [] then Psi.Psi(baselines[f], data[f], 10, num.ln)
    else Psi.Psi(data[f], data[f], 10, num.ln)
  }

  function RawPValue(f: Field, data: map<Field, seq<real>>, baselines: map<Field, seq<real>>, num: Numerics): real
    requires f in data
  {
    if f in baselines && baselines[f] != [] then num.ks(baselines[f], data[f]).1 else num.ks(data[f], data[f]).1
  }

  lemma LevelOfResult(f: Field, data: map<Field, seq<real>>, baselines: map<Field, seq<real>>, cfg: Config,
                      num: Numerics)
    requires f in data && data[f] != []
    ensures var r, psi := Result(f, data, baselines, cfg, num), IndexOf(f, data, baselines, num);
            && r.feature == f
            && (r.IsDrifting() <==> psi >= cfg.psiWarn || RawPValue(f, data, baselines, num) < cfg.ksAlpha)
            && (cfg.psiWarn <= cfg.psiAlert ==> (r.severity == Alert <==> psi >= cfg.psiAlert))
  {
    SeverityOfResult(f, Baseline(baselines, f, data[f]), data[f], cfg, num);
  }

  /** A feature is listed exactly when it has values and either its index reaches the warning level or the raw p-value
      lies below alpha; the z-score and the divergence never decide. */
  lemma DriftingIff(names: seq<Field>, f: Field, data: map<Field, seq<real>>, baselines: map<Field, seq<real>>,
                    cfg: Config, num: Numerics)
    ensures f in DriftingNames(Results(names, data, baselines, cfg, num)) <==>
              && f in names && f in data && data[f] != []
              && (IndexOf(f, data, baselines, num) >= cfg.psiWarn || RawPValue(f, data, baselines, num) < cfg.ksAlpha)
  {
    var results := Results(names, data, baselines, cfg, num);
    NameListed(results, f);
    if f in names && Values(data, f) != [] {
      LevelOfResult(f, data, baselines, cfg, num);
      ResultPresent(names, f, data, baselines, cfg, num);
    }
    if r :| r in results && r.IsDrifting() && r.feature == f {
      ResultOrigin(names, r, data, baselines, cfg, num);
    }
  }

  /** The distribution test alone never makes a report critical. */
  lemma CriticalIff(names: seq<Field>, data: map<Field, seq<real>>, baselines: map<Field, seq<real>>, cfg: Config,
                    num: Numerics, report: DriftReport)
    requires cfg.psiWarn <= cfg.psiAlert && report.results == Results(names, data, baselines, cfg, num)
    ensures report.HasCriticalDrift() <==>
            exists f :: f in names && f in data && data[f] != [] && IndexOf(f, data, baselines, num) >= cfg.psiAlert
  {
    if r :| r in report.results && r.severity == Alert {
      ResultOrigin(names, r, data, baselines, cfg, num);
      LevelOfResult(r.feature, data, baselines, cfg, num);
    }
    if f :| f in names && f in data && data[f] != [] && IndexOf(f, data, baselines, num) >= cfg.psiAlert {
      ResultPresent(names, f, data, baselines, cfg, num);
      LevelOfResult(f, data, baselines, cfg, num);
    }
  }

  /** What the report says of a feature with values: every score is taken against the stored list if there is one. */
  ghost predicate ComparedWith(r: FeatureDriftResult, stored: seq<real>, current: seq<real>, cfg: Config,
                               num: Numerics)
  {
    && r.baselineSize == |stored| && r.currentSize == |current|
    && r.psi == Psi.Psi(stored, current, 10, num.ln) && r.ks == KsTest(stored, current, cfg.ksAlpha, num.ks)
    && r.zScore == ZScoreTest(stored, current, cfg.zThreshold, num.sqrt).zScore
    && r.kl == Round6(Kl(stored, current, 10, num.ln))
  }

  /** A report has one result for each feature with values, in order, compared with the stored list if there is one
      and it is not empty. */
  lemma ReportCompares(names: seq<Field>, data: map<Field, seq<real>>, baselines: map<Field, seq<real>>, cfg: Config,
                       num: Numerics)
    ensures var results := Results(names, data, baselines, cfg, num);
            && Map(results, (r: FeatureDriftResult) => r.feature) == Filter(names, f => f in data && data[f] != [])
            && forall r :: r in results ==>
                 && r.feature in data
                 && if r.feature in baselines && baselines[r.feature] != []
                    then ComparedWith(r, baselines[r.feature], data[r.feature], cfg, num)
                    else ComparedWith(r, data[r.feature], data[r.feature], cfg, num)
  {
    var results := Results(names, data, baselines, cfg, num);
    FilterAgrees(names, HasValues(data), f => f in data && data[f] != []);
    forall r | r in results
      ensures r.feature in data
      ensures if r.feature in baselines && baselines[r.feature] != []
              then ComparedWith(r, baselines[r.feature], data[r.feature], cfg, num)
              else ComparedWith(r, data[r.feature], data[r.feature], cfg, num)
    {
      ResultOrigin(names, r, data, baselines, cfg, num);
    }
    forall i | 0 <= i < |results|
      ensures results[i].feature == Filter(names, HasValues(data))[i]
    {
    }
  }

  /** The levels at the configured thresholds. */
  lemma SeverityAtDefaults(f: Field, baseline: seq<real>, current: seq<real>, num: Numerics)
    requires baseline != [] && current != []
    ensures var psi, p := Psi.Psi(baseline, current, 10, num.ln), num.ks(baseline, current).1;
            Assess(f, baseline, current, CONFIG, num).severity
            == if psi >= 0.2 then Alert else if psi >= 0.1 || p < 0.05 then Warn else Ok
  {
  }

  /** Without values on either side there is nothing to compare: no score, and no significance. */
  lemma NothingToCompare(baseline: seq<real>, current: seq<real>, cfg: Config, num: Numerics)
    requires baseline == [] || current == []
    ensures Psi.Psi(baseline, current, 10, num.ln) == 0.0 && Kl(baseline, current, 10, num.ln) == 0.0
    ensures ZScoreTest(baseline, current, cfg.zThreshold, num.sqrt) == ZScoreResult(0.0, 0.0, 1.0, 0.0, false)
    ensures KsTest(baseline, current, cfg.ksAlpha, num.ks) == KSTestResult(0.0, 1.0, false)
  {
  }

  /** Comparing rounded values moves an even threshold of k millionths down by half a millionth, and no further. */
  lemma RoundedThreshold(x: real, k: int)
    requires k % 2 == 0
    ensures Round6(x) >= k as real / MICRO <==> x >= (k as real - 0.5) / MICRO
  {
    var y := x * MICRO;
    assert Round6(x) >= k as real / MICRO <==> RoundToInt(y) >= k;
    assert x >= (k as real - 0.5) / MICRO <==> y >= k as real - 0.5;
  }

  // ----- features without a baseline -----

  /** A feature without a baseline is compared with itself: all scores are 0 and it is not drifting. */
  lemma NoBaselineNeverDrifts(f: Field, data: map<Field, seq<real>>, baselines: map<Field, seq<real>>, cfg: Config,
                              num: Numerics)
    requires num.Lawful() && cfg.psiWarn > 0.0 && cfg.zThreshold >= 0.0 && cfg.ksAlpha <= 1.0
    requires Values(baselines, f) == [] && num.ks(Values(data, f), Values(data, f)).1 == 1.0
    ensures var r := Result(f, data, baselines, cfg, num);
            r.psi == 0.0 && r.zScore == 0.0 && r.kl == 0.0 && r.severity == Ok && r.baselineSize == r.currentSize
    ensures f !in DriftingNames(Results(FEATURES, data, baselines, cfg, num))
  {
    var current := Values(data, f);
    Psi.PsiOfSameSample(current, Psi.N_BINS, num.ln);
    KlOfRearrangement(current, current, Psi.N_BINS, num.ln);
    ZOfSameSample(current, cfg.zThreshold, num.sqrt);
    Round6OfMicros(0.0, 0);
    DriftingIff(FEATURES, f, data, baselines, cfg, num);
  }

  // ----- the order of the values -----

  /** What is asked of the distribution test: like the other scores, it looks at the values and not at their order. */
  ghost predicate IgnoresOrder(ks: TwoSampleTest) {
    forall a, b, a', b' :: multiset(a) == multiset(a') && multiset(b) == multiset(b') ==> ks(a, b) == ks(a', b')
  }

  lemma ZIgnoresOrder(a: seq<real>, b: seq<real>, a': seq<real>, b': seq<real>, threshold: real, sqrt: real -> real)
    requires multiset(a) == multiset(a') && multiset(b) == multiset(b')
    ensures ZScoreTest(a, b, threshold, sqrt) == ZScoreTest(a', b', threshold, sqrt)
  {
    SpreadPermuted(a, a', 0.0);
    SpreadPermuted(b, b', 0.0);
    if a != [] {
      SpreadPermuted(a, a', Mean(a));
    }
  }

  lemma KlIgnoresOrder(a: seq<real>, b: seq<real>, a': seq<real>, b': seq<real>, nBins: nat, ln: real -> real)
    requires multiset(a) == multiset(a') && multiset(b) == multiset(b')
    ensures Kl(a, b, nBins, ln) == Kl(a', b', nBins, ln)
  {
    assert |multiset(a)| == |a| && |multiset(a')| == |a'|;
    assert |multiset(b)| == |b| && |multiset(b')| == |b'|;
    if a != [] && b != [] {
      ExtremesPermuted(a, a');
      ExtremesPermuted(b, b');
      CountsPermuted(a, a', CommonBins(a, b, nBins));
      CountsPermuted(b, b', CommonBins(a, b, nBins));
    }
  }

  /** No result depends on the order in which current or baseline values arrived. */
  lemma ReportIgnoresOrder(f: Field, a: seq<real>, b: seq<real>, a': seq<real>, b': seq<real>, cfg: Config,
                           num: Numerics)
    requires multiset(a) == multiset(a') && multiset(b) == multiset(b') && IgnoresOrder(num.ks)
    ensures Assess(f, a, b, cfg, num) == Assess(f, a', b', cfg, num)
  {
    assert |multiset(a)| == |a| && |multiset(a')| == |a'|;
    assert |multiset(b)| == |b| && |multiset(b')| == |b'|;
    Psi.PsiIgnoresOrder(a, b, a', b', Psi.N_BINS, num.ln);
    KlIgnoresOrder(a, b, a', b', Psi.N_BINS, num.ln);
    ZIgnoresOrder(a, b, a', b', cfg.zThreshold, num.sqrt);
  }

  // ----- values that left the baseline's range -----

  lemma {:induction false} AllBelowAverage(counts: seq<nat>, b: nat, n: nat)
    requires counts != [] && forall i :: 0 <= i < |counts| ==> counts[i] * b < n
    ensures Times(b as real, Total(Reals(counts))) < Times(|counts| as real, n as real)
  {
    var c, rest := counts[0], counts[1..];
    assert Reals(counts)[1..] == Reals(rest);
    TimesSum(b as real, c as real, Total(Reals(rest)));
    assert Times(b as real, c as real) == (c * b) as real;
    TimesNext(|rest| as real, n as real);
    if rest == [] {
      TimesZero(b as real);
      TimesZero(n as real);
    } else {
      AllBelowAverage(rest, b, n);
    }
  }

  /** Some bin holds at least its equal part of the sample. */
  lemma FullestBin(counts: seq<nat>, n: nat) returns (k: nat)
    requires counts != [] && Total(Reals(counts)) == n as real
    ensures k < |counts| && counts[k] * |counts| >= n
  {
    if forall i :: 0 <= i < |counts| ==> counts[i] * |counts| < n {
      AllBelowAverage(counts, |counts|, n);
      assert false;
    }
    k :| k < |counts| && counts[k] * |counts| >= n;
  }

  lemma LnDouble(ln: real -> real, x: real, half: real)
    requires IsLn(ln) && half > 0.0 && x == half * half
    ensures ln(x) == 2.0 * ln(half)
  {
    LnProduct(ln, half, half);
  }

  lemma LnLarge(ln: real -> real, x: real)
    requires IsLn(ln) && x >= 65536.0
    ensures ln(x) >= 8.0
  {
    LnQuotient(ln, 1.0, 2.0);
    LnOne(ln);
    assert ln(1.0 / 2.0) <= 1.0 / 2.0 - 1.0;
    LnDouble(ln, 4.0, 2.0);
    LnDouble(ln, 16.0, 4.0);
    LnDouble(ln, 256.0, 16.0);
    LnDouble(ln, 65536.0, 256.0);
    Psi.LnOrder(ln, 65536.0, x);
  }

  lemma FullShare(c: nat, n: nat)
    requires n > 0 && c * 10 >= n
    ensures Psi.Share(c, n) >= 0.0999
  {
    var d := n as real + Psi.EPSILON;
    var q := c as real / d;
    QuotientTimes(c as real, d, q);
    assert Times(d, 0.0999) <= c as real;
    CancelFactor(d, 0.0999, q);
  }

  lemma {:induction false} TotalAtLeast(s: seq<real>, k: nat)
    requires k < |s| && forall i :: 0 <= i < |s| ==> s[i] >= 0.0
    ensures Total(s) >= s[k]
  {
    if k == 0 {
      var zeros := seq(|s| - 1, _ => 0.0);
      TotalConstant(zeros, 0.0);
      TotalMonotone(zeros, s[1..]);
    } else {
      TotalAtLeast(s[1..], k - 1);
    }
  }

  lemma DisplacedTerm(e: real, ln: real -> real)
    requires IsLn(ln) && 0.0999 <= e
    ensures Psi.Term(e, Psi.EPSILON, ln) >= 0.2
  {
    var gap := e - Psi.EPSILON;
    LnQuotient(ln, Psi.EPSILON, e);
    LnQuotient(ln, e, Psi.EPSILON);
    LnLarge(ln, e / Psi.EPSILON);
    assert Psi.Term(e, Psi.EPSILON, ln) == Times(gap, ln(e / Psi.EPSILON)) by {
      BothNegated(gap, ln(e / Psi.EPSILON), -gap, ln(Psi.EPSILON / e));
    }
    TimesMonotone(gap, 8.0, ln(e / Psi.EPSILON));
  }

  lemma BothNegated(a: real, b: real, a': real, b': real)
    requires a' == -a && b' == -b
    ensures Times(a', b') == Times(a, b)
  {
  }

  /** Current values that all lie outside the range of a baseline that has one are always reported as critical. */
  lemma DisplacedSampleIsCritical(f: Field, baseline: seq<real>, current: seq<real>, num: Numerics)
    requires num.Lawful() && current != [] && baseline != [] && Least(baseline) < Greatest(baseline)
    requires forall i :: 0 <= i < |current| ==>
            current[i] < Least(baseline) || current[i] > Greatest(baseline) + Psi.EPSILON
    ensures Assess(f, baseline, current, CONFIG, num).severity == Alert
  {
    var lo, hi := Least(baseline), Greatest(baseline);
    var bins := Psi.Bins(lo, hi, Psi.N_BINS);
    var expected, actual := Counts(baseline, bins), Counts(current, bins);
    Psi.CountsOfSamples(baseline, current, Psi.N_BINS);
    Psi.BinsIncreasing(lo, hi, Psi.N_BINS);
    var k := FullestBin(expected, |baseline|);
    FullShare(expected[k], |baseline|);
    assert actual[k] == 0 by {
      CountBound(current, Bin(bins, k));
      forall x | x in current
        ensures !InBin(bins, k, x)
      {
        var _ := ExactlyOneBin(bins, x);
      }
    }
    Psi.SharePositive(0, |current|);
    DisplacedTerm(Psi.Share(expected[k], |baseline|), num.ln);
    LargeTermAlerts(baseline, current, bins, k, num.ln);
  }

  lemma LargeTermAlerts(baseline: seq<real>, current: seq<real>, bins: seq<real>, k: nat, ln: real -> real)
    requires IsLn(ln) && current != [] && baseline != [] && Least(baseline) < Greatest(baseline) && k < Psi.N_BINS
    requires bins == Psi.Bins(Least(baseline), Greatest(baseline), Psi.N_BINS)
    requires Psi.Term(Psi.Share(Counts(baseline, bins)[k], |baseline|),
            Psi.Share(Counts(current, bins)[k], |current|), ln) >= 0.2
    ensures Psi.Psi(baseline, current, Psi.N_BINS, ln) >= 0.2
  {
    var e, a := Psi.Shares(Counts(baseline, bins), |baseline|), Psi.Shares(Counts(current, bins), |current|);
    Psi.SharesPositive(baseline, bins);
    Psi.SharesPositive(current, bins);
    forall i | 0 <= i < |e|
      ensures Psi.Terms(e, a, ln)[i] >= 0.0
    {
      Psi.TermSign(e[i], a[i], ln);
    }
    TotalAtLeast(Psi.Terms(e, a, ln), k);
    Psi.ClampIsIdle(baseline, current, Psi.N_BINS, ln);
    Round6Monotone(0.2, Psi.RawPsi(baseline, current, Psi.N_BINS, ln));
    Round6OfMicros(0.2, 200000);
  }

  lemma AlertIsReported(names: seq<Field>, f: Field, data: map<Field, seq<real>>, baselines: map<Field, seq<real>>,
                        cfg: Config, num: Numerics, report: DriftReport)
    requires f in names && Values(data, f) != []
    requires Result(f, data, baselines, cfg, num).severity == Alert
    requires report.results == Results(names, data, baselines, cfg, num)
    requires report.drifting == DriftingNames(report.results)
    ensures report.HasCriticalDrift() && f in report.drifting
  {
    ResultPresent(names, f, data, baselines, cfg, num);
    NameListed(report.results, f);
  }

  /** So in a report: values outside the stored range list their feature and make the report critical. */
  lemma DisplacedIsReported(names: seq<Field>, f: Field, data: map<Field, seq<real>>, baselines: map<Field, seq<real>>,
                            num: Numerics, report: DriftReport)
    requires num.Lawful() && f in names && f in data && data[f] != [] && f in baselines && baselines[f] != []
    requires Least(baselines[f]) < Greatest(baselines[f])
    requires forall x :: x in data[f] ==> x < Least(baselines[f]) || x > Greatest(baselines[f]) + 0.000001
    requires report.results == Results(names, data, baselines, CONFIG, num)
    requires report.drifting == DriftingNames(report.results)
    ensures report.HasCriticalDrift() && f in report.drifting
  {
    var current := data[f];
    forall i | 0 <= i < |current|
      ensures current[i] < Least(baselines[f]) || current[i] > Greatest(baselines[f]) + Psi.EPSILON
    {
      assert current[i] in data[f];
    }
    DisplacedSampleIsCritical(f, baselines[f], current, num);
    AlertIsReported(names, f, data, baselines, CONFIG, num, report);
  }

  /** The same baselines are the only ones against which anything can be critical: one of equal values never alerts. */
  lemma AlertReachableIff(f: Field, baseline: seq<real>, num: Numerics)
    requires num.Lawful() && baseline != []
    ensures (exists current :: current != [] && Assess(f, baseline, current, CONFIG, num).severity == Alert)
       <==> Least(baseline) < Greatest(baseline)
  {
    Extremes(baseline);
    assert Least(baseline) <= baseline[0] <= Greatest(baseline);
    if Least(baseline) < Greatest(baseline) {
      var current := [Greatest(baseline) + 1.0];
      DisplacedSampleIsCritical(f, baseline, current, num);
      assert Assess(f, baseline, current, CONFIG, num).severity == Alert;
    }
  }
}
