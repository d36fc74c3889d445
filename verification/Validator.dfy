/** Online against offline feature values of a sample of users, and the report on it. */
module Validator {
  import opened Seqs
  import opened Analysis
  import opened Events
  import opened FeatureSchema

  const CONSISTENCY_THRESHOLD := 0.01
  const TINY := 0.000001

  type Vector = map<Field, real>

  function Value(v: Vector, f: Field): real {
    if f in v then v[f] else 0.0
  }

  function Deviation(offline: real, online: real): real {
    Abs(offline - online) / (Abs(offline) + TINY)
  }

  /** The two dictionaries, and the order in which the offline one iterates. */
  datatype Sample = Sample(order: seq<UserId>, offline: map<UserId, Vector>, online: map<UserId, Vector>) {
    ghost predicate Valid() {
      NoDup(order) && forall u :: u in order <==> u in offline
    }
    function OnlineOf(u: UserId): Vector {
      if u in online then online[u] else map[]
    }
    function OfflineOf(u: UserId): Vector {
      if u in offline then offline[u] else map[]
    }
    function DeviationOf(u: UserId, f: Field): real {
      Deviation(Value(OfflineOf(u), f), Value(OnlineOf(u), f))
    }
  }

  predicate Deviates(s: Sample, fields: seq<Field>, threshold: real, u: UserId) {
    exists k :: 0 <= k < |fields| && s.DeviationOf(u, fields[k]) > threshold
  }

  function DeviatesOn(s: Sample, fields: seq<Field>, threshold: real): UserId -> bool {
    (u: UserId) => Deviates(s, fields, threshold, u)
  }

  /** A user is inconsistent when any of the six features deviates beyond the threshold. */
  function IsInconsistent(s: Sample, threshold: real): UserId -> bool {
    DeviatesOn(s, FEATURES, threshold)
  }

  function Deviations(s: Sample, users: seq<UserId>, f: Field): (ds: seq<real>)
    ensures |ds| == |users| && forall i :: 0 <= i < |users| ==> ds[i] == s.DeviationOf(users[i], f)
  {
    seq(|users|, i requires 0 <= i < |users| => s.DeviationOf(users[i], f))
  }

  /** Division by max(n, 1), as the report does it throughout. */
  function PerUser(x: real, n: nat): real {
    x / (if n == 0 then 1 else n) as real
  }

  function MeanDeviation(s: Sample, f: Field): real {
    PerUser(Total(Deviations(s, s.order, f)), |s.order|)
  }

  /** max(d, key=d.get): the first field with the greatest value. */
  function FirstGreatest(fields: seq<Field>, d: map<Field, real>): (best: Field)
    requires fields != [] && forall k :: 0 <= k < |fields| ==> fields[k] in d
    ensures best in fields && best in d
  {
    var n := |fields| - 1;
    if n == 0 then fields[0]
    else
      var best := FirstGreatest(fields[..n], d);
      if d[fields[n]] > d[best] then fields[n] else best
  }

  datatype Report = Report(sampleSize: nat, consistentUsers: int, inconsistentUsers: nat, inconsistencyRate: real,
                           perFeature: map<Field, real>, worstFeature: Field, maxDeviation: real) {
    predicate IsHealthy(threshold: real) {
      inconsistencyRate <= threshold
    }
  }

  function MeansOf(s: Sample): map<Field, real> {
    map f | f in FEATURES :: Round6(MeanDeviation(s, f))
  }

  function ReportOf(s: Sample, threshold: real): Report {
    var bad := Count(s.order, IsInconsistent(s, threshold));
    var worst := FirstGreatest(FEATURES, MeansOf(s));
    Report(|s.order|, |s.order| - bad, bad, Round6(PerUser(bad as real, |s.order|)), MeansOf(s), worst,
        MeansOf(s)[worst])
  }

  function DeviationLists(s: Sample, users: seq<UserId>, fields: seq<Field>): map<Field, seq<real>> {
    map f | f in fields :: Deviations(s, users, f)
  }

  lemma OuterStep(s: Sample, i: nat, p: UserId -> bool)
    requires i < |s.order|
    ensures s.order[..i + 1] == s.order[..i] + [s.order[i]]
    ensures Count(s.order[..i + 1], p) == Count(s.order[..i], p) + if p(s.order[i]) then 1 else 0
  {
    var u := s.order[i];
    CountConcat(s.order[..i], [u], p);
    assert s.order[..i + 1] == s.order[..i] + [u] && [u][1..] == [];
  }

  /** The outer loop of validate_consistency. */
  method CompareUsers(s: Sample, fields: seq<Field>, threshold: real)
    returns (inconsistent: nat, featureDeviations: map<Field, seq<real>>)
    requires s.Valid() && NoDup(fields)
    ensures inconsistent == Count(s.order, DeviatesOn(s, fields, threshold))
    ensures featureDeviations == DeviationLists(s, s.order, fields)
  {
    inconsistent := 0;
    featureDeviations := map f | f in fields :: [];
    assert featureDeviations == DeviationLists(s, s.order[..0], fields);
    for i := 0 to |s.order|
      invariant inconsistent == Count(s.order[..i], DeviatesOn(s, fields, threshold))
      invariant featureDeviations == DeviationLists(s, s.order[..i], fields)
    {
      var u := s.order[i];
      var userInconsistent;
      userInconsistent, featureDeviations := CompareUser(s, s.order[..i], u, fields, threshold, featureDeviations);
      OuterStep(s, i, DeviatesOn(s, fields, threshold));
      if userInconsistent {
        inconsistent := inconsistent + 1;
      }
    }
    assert s.order[..|s.order|] == s.order;
  }

  /** The loop over the first j features, on values: every list longer by one deviation, and the flag. */
  function Appended(s: Sample, lists: map<Field, seq<real>>, u: UserId, fields: seq<Field>, j: nat)
    : (r: map<Field, seq<real>>)
    requires j <= |fields| && forall k :: 0 <= k < |fields| ==> fields[k] in lists
    ensures r.Keys == lists.Keys
  {
    if j == 0 then lists
    else
      var before, f := Appended(s, lists, u, fields, j - 1), fields[j - 1];
      before[f := before[f] + [s.DeviationOf(u, f)]]
  }

  predicate Flagged(s: Sample, threshold: real, u: UserId, fields: seq<Field>, j: nat)
    requires j <= |fields|
  {
    j > 0 && (Flagged(s, threshold, u, fields, j - 1) || s.DeviationOf(u, fields[j - 1]) > threshold)
  }

  lemma {:induction false} AppendedAt(s: Sample, lists: map<Field, seq<real>>, u: UserId, fields: seq<Field>, j: nat,
                                      f: Field)
    requires j <= |fields| && NoDup(fields) && f in lists && forall k :: 0 <= k < |fields| ==> fields[k] in lists
    ensures Appended(s, lists, u, fields, j)[f] == lists[f] + if f in fields[..j] then [s.DeviationOf(u, f)] else []
  {
    if j == 0 {
    } else {
      AppendedAt(s, lists, u, fields, j - 1, f);
      assert fields[..j] == fields[..j - 1] + [fields[j - 1]];
    }
  }

  lemma {:induction false} FlaggedIs(s: Sample, threshold: real, u: UserId, fields: seq<Field>, j: nat)
    requires j <= |fields|
    ensures Flagged(s, threshold, u, fields, j) == Deviates(s, fields[..j], threshold, u)
  {
    if j == 0 {
    } else {
      FlaggedIs(s, threshold, u, fields, j - 1);
      DeviatesStep(s, fields, j - 1, threshold, u);
    }
  }

  lemma InnerLoopIs(s: Sample, users: seq<UserId>, u: UserId, fields: seq<Field>, threshold: real)
    requires NoDup(fields)
    ensures Appended(s, DeviationLists(s, users, fields), u, fields, |fields|) == DeviationLists(s, users + [u], fields)
    ensures Flagged(s, threshold, u, fields, |fields|) == Deviates(s, fields, threshold, u)
  {
    assert fields[..|fields|] == fields;
    forall f | f in fields
      ensures Appended(s, DeviationLists(s, users, fields), u, fields, |fields|)[f] == Deviations(s, users + [u], f)
    {
      AppendedAt(s, DeviationLists(s, users, fields), u, fields, |fields|, f);
    }
    FlaggedIs(s, threshold, u, fields, |fields|);
  }

  /** The inner loop, step by step. */
  method CompareFeatures(s: Sample, u: UserId, fields: seq<Field>, threshold: real, lists: map<Field, seq<real>>)
    returns (userInconsistent: bool, featureDeviations: map<Field, seq<real>>)
    requires u in s.offline && forall k :: 0 <= k < |fields| ==> fields[k] in lists
    ensures userInconsistent == Flagged(s, threshold, u, fields, |fields|)
    ensures featureDeviations == Appended(s, lists, u, fields, |fields|)
  {
    featureDeviations := lists;
    var onlineVals := s.OnlineOf(u);
    userInconsistent := false;
    for j := 0 to |fields|
      invariant featureDeviations == Appended(s, lists, u, fields, j)
      invariant userInconsistent == Flagged(s, threshold, u, fields, j)
    {
      var feature := fields[j];
      var deviation := Deviation(Value(s.offline[u], feature), Value(onlineVals, feature));
      featureDeviations := featureDeviations[feature := featureDeviations[feature] + [deviation]];
      if deviation > threshold {
        userInconsistent := true;
      }
    }
  }

  /** One user, all features. */
  method CompareUser(s: Sample, ghost before: seq<UserId>, u: UserId, fields: seq<Field>, threshold: real,
                     lists: map<Field, seq<real>>)
    returns (userInconsistent: bool, featureDeviations: map<Field, seq<real>>)
    requires u in s.offline && NoDup(fields) && lists == DeviationLists(s, before, fields)
    ensures userInconsistent == Deviates(s, fields, threshold, u)
    ensures featureDeviations == DeviationLists(s, before + [u], fields)
  {
    userInconsistent, featureDeviations := CompareFeatures(s, u, fields, threshold, lists);
    InnerLoopIs(s, before, u, fields, threshold);
  }

  lemma DeviatesStep(s: Sample, fields: seq<Field>, j: nat, threshold: real, u: UserId)
    requires j < |fields|
    ensures Deviates(s, fields[..j + 1], threshold, u) <==>
            Deviates(s, fields[..j], threshold, u) || s.DeviationOf(u, fields[j]) > threshold
  {
    var front, longer := fields[..j], fields[..j + 1];
    assert forall k :: 0 <= k < j ==> front[k] == longer[k];
    assert longer[j] == fields[j];
    if Deviates(s, front, threshold, u) {
      var k :| 0 <= k < |front| && s.DeviationOf(u, front[k]) > threshold;
      assert longer[k] == front[k];
    }
    if Deviates(s, longer, threshold, u) {
      var k :| 0 <= k < |longer| && s.DeviationOf(u, longer[k]) > threshold;
      assert k < j ==> front[k] == longer[k];
    }
  }

  function RoundedMeans(lists: map<Field, seq<real>>): map<Field, real> {
    map f | f in lists :: Round6(PerUser(Total(lists[f]), |lists[f]|))
  }

  lemma RoundedMeansAre(s: Sample)
    ensures RoundedMeans(DeviationLists(s, s.order, FEATURES)) == MeansOf(s)
  {
  }

  method ValidateConsistency(s: Sample, threshold: real) returns (report: Report)
    requires s.Valid()
    ensures report == ReportOf(s, threshold)
  {
    DistinctFeatures();
    var inconsistent, featureDeviations := CompareUsers(s, FEATURES, threshold);
    var perFeature := RoundedMeans(featureDeviations);
    RoundedMeansAre(s);
    var worst := FirstGreatest(FEATURES, perFeature);
    report := Report(|s.order|, |s.order| - inconsistent, inconsistent,
                     Round6(PerUser(inconsistent as real, |s.order|)), perFeature, worst, perFeature[worst]);
  }

  lemma DistinctFeatures()
    ensures NoDup(FEATURES)
  {
  }

  // ----- what the report says -----

  /** The worst feature has the greatest mean, and is the first in order to have it. */
  lemma {:induction false} FirstGreatestIs(fields: seq<Field>, d: map<Field, real>) returns (k: nat)
    requires fields != [] && forall i :: 0 <= i < |fields| ==> fields[i] in d
    ensures k < |fields| && fields[k] == FirstGreatest(fields, d)
    ensures forall i :: 0 <= i < |fields| ==> d[fields[i]] <= d[FirstGreatest(fields, d)]
    ensures forall i :: 0 <= i < k ==> d[fields[i]] < d[FirstGreatest(fields, d)]
  {
    var n := |fields| - 1;
    k := 0;
    if n == 0 {
    } else {
      k := FirstGreatestIs(fields[..n], d);
      assert forall i :: 0 <= i < n ==> fields[..n][i] == fields[i];
      if d[fields[n]] > d[fields[k]] {
        k := n;
      }
    }
  }

  lemma WorstIsGreatest(s: Sample, threshold: real, k: nat)
    requires k < |FEATURES|
    ensures ReportOf(s, threshold).maxDeviation >= Round6(MeanDeviation(s, FEATURES[k]))
    ensures exists i ::
              0 <= i < |FEATURES| && ReportOf(s, threshold).maxDeviation == Round6(MeanDeviation(s, FEATURES[i]))
  {
    var i := FirstGreatestIs(FEATURES, MeansOf(s));
    assert FEATURES[k] in FEATURES && FEATURES[i] in FEATURES;
    assert MeansOf(s)[FEATURES[k]] == Round6(MeanDeviation(s, FEATURES[k]));
    assert MeansOf(s)[FEATURES[i]] == Round6(MeanDeviation(s, FEATURES[i]));
  }

  lemma DeviationNonNegative(x: real, y: real)
    ensures Deviation(x, y) >= 0.0
    ensures Deviation(x, y) == 0.0 <==> x == y
  {
    QuotientSign(Abs(x - y), Abs(x) + TINY, Deviation(x, y));
    TimesZero(Abs(x) + TINY);
    TimesSign(Deviation(x, y), Abs(x) + TINY);
  }

  // ----- the report in plain terms -----

  /** vectors.get(u, {}).get(f, 0.0) */
  function Read(vectors: map<UserId, Vector>, u: UserId, f: Field): real {
    if u in vectors && f in vectors[u] then vectors[u][f] else 0.0
  }

  /** The deviation is the distance of the two values relative to the offline one, and a millionth. */
  lemma DeviationIs(x: real, y: real)
    ensures Times(Deviation(x, y), Abs(x) + 0.000001) == Abs(x - y)
  {
    QuotientTimes(Abs(x - y), Abs(x) + 0.000001, Deviation(x, y));
  }

  lemma DeviatesBeyond(x: real, y: real, threshold: real)
    ensures Deviation(x, y) > threshold <==> Abs(x - y) > Times(threshold, Abs(x) + 0.000001)
  {
    var d := Abs(x) + 0.000001;
    DeviationIs(x, y);
    TimesOrder(d, Deviation(x, y), 0.0);
    TimesOrder(d, threshold, 0.0);
    if Deviation(x, y) <= threshold {
      TimesMonotone(d, Deviation(x, y), threshold);
    }
    if Times(d, Deviation(x, y)) <= Times(d, threshold) {
      CancelFactor(d, Deviation(x, y), threshold);
    }
  }

  /** What is missing online counts as zero: the deviation is nearly 1 for large values, and always less. */
  lemma MissingOnlineDeviates(x: real)
    ensures Times(Deviation(x, 0.0), Abs(x) + 0.000001) == Abs(x) && 0.0 <= Deviation(x, 0.0) < 1.0
  {
    DeviationIs(x, 0.0);
    DeviationNonNegative(x, 0.0);
    BelowOne(Deviation(x, 0.0), Abs(x), 0.000001);
  }

  lemma BelowOne(q: real, a: real, e: real)
    requires a >= 0.0 && e > 0.0 && Times(q, a + e) == a
    ensures q < 1.0
  {
    assert Times(1.0, a + e) == a + e;
    TimesOrder(a + e, q, 0.0);
    TimesOrder(a + e, 1.0, 0.0);
    if q >= 1.0 {
      TimesMonotone(a + e, 1.0, q);
    }
  }

  /** Feature f is off by more than the threshold times the offline value, and a millionth. */
  predicate OffBy(s: Sample, threshold: real, u: UserId, f: Field) {
    var offline, online := Read(s.offline, u, f), Read(s.online, u, f);
    Abs(offline - online) > Times(threshold, Abs(offline) + 0.000001)
  }

  ghost predicate FarOff(s: Sample, threshold: real, u: UserId) {
    exists f :: f in FEATURES && OffBy(s, threshold, u, f)
  }

  lemma DeviatesIffOff(s: Sample, threshold: real, u: UserId, f: Field)
    ensures s.DeviationOf(u, f) > threshold <==> OffBy(s, threshold, u, f)
  {
    DeviatesBeyond(Read(s.offline, u, f), Read(s.online, u, f), threshold);
  }

  lemma InconsistentIffFarOff(s: Sample, threshold: real, u: UserId)
    ensures IsInconsistent(s, threshold)(u) <==> FarOff(s, threshold, u)
  {
    if f :| f in FEATURES && OffBy(s, threshold, u, f) {
      var k :| 0 <= k < |FEATURES| && FEATURES[k] == f;
      DeviatesIffOff(s, threshold, u, f);
    }
    if k :| 0 <= k < |FEATURES| && s.DeviationOf(u, FEATURES[k]) > threshold {
      DeviatesIffOff(s, threshold, u, FEATURES[k]);
      assert FEATURES[k] in FEATURES;
    }
  }

  /** x is d relative to base, the way deviations are taken. */
  ghost predicate IsRelative(x: real, base: real, d: real) {
    Times(x, Abs(base) + 0.000001) == Abs(d)
  }

  /** The users counted are those far off; the mean of a feature is the mean of its relative distances, up to rounding
      in the sixth place. */
  lemma ReportIs(s: Sample, threshold: real, f: Field) returns (far: seq<UserId>, devs: seq<real>, mean: real)
    requires s.Valid() && f in FEATURES
    ensures var r := ReportOf(s, threshold);
            && r.sampleSize == |s.order| && r.consistentUsers + r.inconsistentUsers == r.sampleSize
            && r.inconsistentUsers == |far|
            && f in r.perFeature && mean - 0.0000005 <= r.perFeature[f] <= mean + 0.0000005
    ensures NoDup(far) && forall u :: u in far <==> u in s.order && FarOff(s, threshold, u)
    ensures |devs| == |s.order| && forall i :: 0 <= i < |devs| ==>
              IsRelative(devs[i], Read(s.offline, s.order[i], f),
                         Read(s.offline, s.order[i], f) - Read(s.online, s.order[i], f))
    ensures if devs == [] then mean == 0.0 else Times(mean, |devs| as real) == Total(devs)
  {
    far := Filter(s.order, IsInconsistent(s, threshold));
    devs := Deviations(s, s.order, f);
    mean := MeanDeviation(s, f);
    FarUsers(s, threshold, far);
    RelativeDeviations(s, f);
    Round6Near(mean);
    if devs != [] {
      QuotientTimes(Total(devs), |devs| as real, mean);
    }
  }

  lemma FarUsers(s: Sample, threshold: real, far: seq<UserId>)
    requires s.Valid() && far == Filter(s.order, IsInconsistent(s, threshold))
    ensures NoDup(far) && |far| == Count(s.order, IsInconsistent(s, threshold))
    ensures forall u :: u in far <==> u in s.order && FarOff(s, threshold, u)
  {
    FilterNoDup(s.order, IsInconsistent(s, threshold));
    FilterCount(s.order, IsInconsistent(s, threshold));
    FilterMembers(s.order, IsInconsistent(s, threshold));
    forall u
      ensures IsInconsistent(s, threshold)(u) <==> FarOff(s, threshold, u)
    {
      InconsistentIffFarOff(s, threshold, u);
    }
  }

  lemma RelativeDeviations(s: Sample, f: Field)
    ensures forall i :: 0 <= i < |s.order| ==>
              IsRelative(Deviations(s, s.order, f)[i], Read(s.offline, s.order[i], f),
                         Read(s.offline, s.order[i], f) - Read(s.online, s.order[i], f))
  {
    forall i | 0 <= i < |s.order|
      ensures IsRelative(s.DeviationOf(s.order[i], f), Read(s.offline, s.order[i], f),
                         Read(s.offline, s.order[i], f) - Read(s.online, s.order[i], f))
    {
      DeviationIs(Read(s.offline, s.order[i], f), Read(s.online, s.order[i], f));
    }
  }

  function SumOver(s: Sample, users: seq<UserId>, fields: seq<Field>): real {
    if fields == [] then 0.0 else Total(Deviations(s, users, fields[0])) + SumOver(s, users, fields[1..])
  }

  function UserSum(s: Sample, u: UserId, fields: seq<Field>): real {
    if fields == [] then 0.0 else s.DeviationOf(u, fields[0]) + UserSum(s, u, fields[1..])
  }

  lemma {:induction false} UserSumBound(s: Sample, threshold: real, u: UserId, fields: seq<Field>)
    requires threshold >= 0.0
    ensures UserSum(s, u, fields) >= if Deviates(s, fields, threshold, u) then threshold else 0.0
  {
    if fields == [] {
    } else {
      UserSumBound(s, threshold, u, fields[1..]);
      DeviationNonNegative(Value(s.OfflineOf(u), fields[0]), Value(s.OnlineOf(u), fields[0]));
      if Deviates(s, fields, threshold, u) && s.DeviationOf(u, fields[0]) <= threshold {
        var k :| 0 <= k < |fields| && s.DeviationOf(u, fields[k]) > threshold;
        assert fields[1..][k - 1] == fields[k];
      }
    }
  }

  lemma FirstOut(s: Sample, users: seq<UserId>, f: Field)
    requires users != []
    ensures Total(Deviations(s, users, f)) == s.DeviationOf(users[0], f) + Total(Deviations(s, users[1..], f))
  {
    assert Deviations(s, users, f)[1..] == Deviations(s, users[1..], f);
  }

  lemma {:induction false} NoUsersNoSum(s: Sample, fields: seq<Field>)
    ensures SumOver(s, [], fields) == 0.0
  {
    if fields == [] {
    } else {
      NoUsersNoSum(s, fields[1..]);
      assert Deviations(s, [], fields[0]) == [];
    }
  }

  lemma {:induction false} FirstUserOut(s: Sample, users: seq<UserId>, fields: seq<Field>)
    requires users != []
    ensures SumOver(s, users, fields) == UserSum(s, users[0], fields) + SumOver(s, users[1..], fields)
  {
    if fields == [] {
    } else {
      FirstUserOut(s, users, fields[1..]);
      FirstOut(s, users, fields[0]);
    }
  }

  lemma {:induction false} InconsistentUsersDeviate(s: Sample, threshold: real, users: seq<UserId>)
    requires threshold >= 0.0
    ensures SumOver(s, users, FEATURES) >= Times(Count(users, IsInconsistent(s, threshold)) as real, threshold)
  {
    if users == [] {
      NoUsersNoSum(s, FEATURES);
      TimesZero(threshold);
    } else {
      InconsistentUsersDeviate(s, threshold, users[1..]);
      UserSumBound(s, threshold, users[0], FEATURES);
      FirstUserOut(s, users, FEATURES);
      TimesNext(Count(users[1..], IsInconsistent(s, threshold)) as real, threshold);
    }
  }

  lemma MeanBelowMax(s: Sample, threshold: real, k: nat)
    requires s.order != [] && k < |FEATURES|
    ensures Total(Deviations(s, s.order, FEATURES[k]))
         <= Times(|s.order| as real, ReportOf(s, threshold).maxDeviation + 0.0000005)
  {
    var mean, cap := MeanDeviation(s, FEATURES[k]), ReportOf(s, threshold).maxDeviation + 0.0000005;
    WorstIsGreatest(s, threshold, k);
    Round6Near(mean);
    MeanTimes(Total(Deviations(s, s.order, FEATURES[k])), |s.order|, mean, cap);
  }

  lemma MeanTimes(total: real, n: nat, mean: real, cap: real)
    requires n > 0 && mean == PerUser(total, n) && mean <= cap
    ensures total <= Times(n as real, cap)
  {
    QuotientTimes(total, n as real, mean);
    TimesMonotone(n as real, mean, cap);
  }

  lemma {:induction false} SumBelow(s: Sample, users: seq<UserId>, fields: seq<Field>, cap: real)
    requires forall k :: 0 <= k < |fields| ==> Total(Deviations(s, users, fields[k])) <= cap
    ensures SumOver(s, users, fields) <= Times(|fields| as real, cap)
  {
    if fields == [] {
      TimesZero(cap);
    } else {
      SumBelow(s, users, fields[1..], cap);
      TimesNext(|fields[1..]| as real, cap);
    }
  }

  lemma SumBelowMax(s: Sample, threshold: real)
    requires s.order != []
    ensures var cap := Times(|s.order| as real, ReportOf(s, threshold).maxDeviation + 0.0000005);
            SumOver(s, s.order, FEATURES) <= Times(|FEATURES| as real, cap)
  {
    var cap := Times(|s.order| as real, ReportOf(s, threshold).maxDeviation + 0.0000005);
    forall k | 0 <= k < |FEATURES|
      ensures Total(Deviations(s, s.order, FEATURES[k])) <= cap
    {
      MeanBelowMax(s, threshold, k);
    }
    SumBelow(s, s.order, FEATURES, cap);
  }

  /** Markov over the users, pigeonhole over the features: many inconsistent users need one badly deviating feature. */
  lemma InconsistencyNeedsDeviation(s: Sample, threshold: real)
    requires s.Valid() && s.order != [] && threshold >= 0.0
    ensures var r := ReportOf(s, threshold);
            Times(threshold, r.inconsistentUsers as real / r.sampleSize as real)
            <= Times(|FEATURES| as real, r.maxDeviation + 0.0000005)
  {
    var r := ReportOf(s, threshold);
    InconsistentUsersDeviate(s, threshold, s.order);
    SumBelowMax(s, threshold);
    Budget(|s.order| as real, r.inconsistentUsers as real, |FEATURES| as real, threshold,
           r.maxDeviation + 0.0000005);
  }

  lemma Budget(n: real, bad: real, m: real, threshold: real, cap: real)
    requires n > 0.0 && Times(bad, threshold) <= Times(m, Times(n, cap))
    ensures Times(threshold, bad / n) <= Times(m, cap)
  {
    var q := bad / n;
    QuotientTimes(bad, n, q);
    TimesOrder(n, q, threshold);
    TimesOrder(threshold, q, 0.0);
    assert Times(n, Times(threshold, q)) == Times(bad, threshold);
    TimesOrder(m, n, cap);
    TimesOrder(n, m, cap);
    CancelFactor(n, Times(threshold, q), Times(m, cap));
  }

  /** No user is inconsistent exactly when every deviation is within the threshold; then so is every mean. */
  lemma NobodyInconsistentIff(s: Sample, threshold: real)
    requires s.Valid()
    ensures ReportOf(s, threshold).inconsistentUsers == 0 <==>
            forall u, k :: u in s.order && 0 <= k < |FEATURES| ==> s.DeviationOf(u, FEATURES[k]) <= threshold
    ensures ReportOf(s, threshold).inconsistentUsers == 0 && threshold >= 0.0 ==>
            forall k :: 0 <= k < |FEATURES| ==> MeanDeviation(s, FEATURES[k]) <= threshold
  {
    CountBound(s.order, IsInconsistent(s, threshold));
    if ReportOf(s, threshold).inconsistentUsers == 0 && threshold >= 0.0 {
      forall k | 0 <= k < |FEATURES|
        ensures MeanDeviation(s, FEATURES[k]) <= threshold
      {
        forall i | 0 <= i < |s.order|
          ensures s.DeviationOf(s.order[i], FEATURES[k]) <= threshold
        {
          assert !IsInconsistent(s, threshold)(s.order[i]);
        }
        MeanWithin(Deviations(s, s.order, FEATURES[k]), threshold);
      }
    }
  }

  lemma {:induction false} TotalAtMost(ds: seq<real>, cap: real)
    requires forall i :: 0 <= i < |ds| ==> ds[i] <= cap
    ensures Total(ds) <= Times(|ds| as real, cap)
  {
    if ds == [] {
      TimesZero(cap);
    } else {
      TotalAtMost(ds[1..], cap);
      TimesNext(|ds[1..]| as real, cap);
    }
  }

  lemma MeanWithin(ds: seq<real>, threshold: real)
    requires threshold >= 0.0 && forall i :: 0 <= i < |ds| ==> ds[i] <= threshold
    ensures PerUser(Total(ds), |ds|) <= threshold
  {
    TotalAtMost(ds, threshold);
    if ds != [] {
      QuotientBelow(Total(ds), |ds| as real, PerUser(Total(ds), |ds|), threshold);
    }
  }

  lemma QuotientBelow(x: real, n: real, q: real, cap: real)
    requires n > 0.0 && q == x / n && x <= Times(n, cap)
    ensures q <= cap
  {
    QuotientTimes(x, n, q);
    CancelFactor(n, q, cap);
  }

  lemma MeanOfZeros(ds: seq<real>)
    requires forall i :: 0 <= i < |ds| ==> ds[i] == 0.0
    ensures PerUser(Total(ds), |ds|) == 0.0 && Round6(0.0) == 0.0
  {
    TotalConstant(ds, 0.0);
    Round6OfMicros(0.0, 0);
  }

  /** Equal values on both sides: nothing deviates, the rate is 0 and the report is healthy. */
  lemma EqualSidesReportZero(s: Sample, threshold: real)
    requires s.Valid() && threshold >= 0.0
    requires forall u, k :: u in s.order && 0 <= k < |FEATURES| ==>
               Value(s.OfflineOf(u), FEATURES[k]) == Value(s.OnlineOf(u), FEATURES[k])
    ensures var r := ReportOf(s, threshold);
            && r.inconsistentUsers == 0 && r.inconsistencyRate == 0.0 && r.IsHealthy(threshold) && r.maxDeviation == 0.0
  {
    forall u, k | u in s.order && 0 <= k < |FEATURES|
      ensures s.DeviationOf(u, FEATURES[k]) == 0.0
    {
      DeviationNonNegative(Value(s.OfflineOf(u), FEATURES[k]), Value(s.OnlineOf(u), FEATURES[k]));
    }
    NobodyInconsistentIff(s, threshold);
    forall k | 0 <= k < |FEATURES|
      ensures Round6(MeanDeviation(s, FEATURES[k])) == 0.0
    {
      MeanOfZeros(Deviations(s, s.order, FEATURES[k]));
    }
    WorstIsGreatest(s, threshold, 0);
    ZeroRate(s, threshold);
  }

  lemma ZeroRate(s: Sample, threshold: real)
    requires threshold >= 0.0 && ReportOf(s, threshold).inconsistentUsers == 0
    ensures ReportOf(s, threshold).inconsistencyRate == 0.0 && ReportOf(s, threshold).IsHealthy(threshold)
  {
    Round6OfMicros(0.0, 0);
    assert PerUser(0.0, |s.order|) == 0.0;
  }

  // ----- the effect of rounding on the verdicts -----

  lemma RoundAtMostEven(y: real, k: int)
    requires k % 2 == 0
    ensures RoundToInt(y) <= k <==> y <= k as real + 0.5
  {
  }

  lemma MicrosBelow(q: real, d: real, bad: real, limit: real)
    requires d > 0.0 && Times(q, d) == bad
    ensures q * MICRO <= limit <==> bad * MICRO <= Times(d, limit)
  {
    TimesOrder(d, q, 0.0);
    assert Times(d, q * MICRO) == Times(d, q) * MICRO;
    if q * MICRO <= limit {
      TimesMonotone(d, q * MICRO, limit);
    }
    if Times(d, q * MICRO) <= Times(d, limit) {
      CancelFactor(d, q * MICRO, limit);
    }
  }

  lemma RateInMicros(bad: nat, n: nat)
    requires n > 0
    ensures forall c: int :: PerUser(bad as real, n) * MICRO <= c as real + 0.5 <==> 2000000 * bad <= (2 * c + 1) * n
  {
    var q, d := PerUser(bad as real, n), n as real;
    QuotientTimes(bad as real, d, q);
    forall c: int
      ensures q * MICRO <= c as real + 0.5 <==> 2000000 * bad <= (2 * c + 1) * n
    {
      MicrosBelow(q, d, bad as real, c as real + 0.5);
      WholeMicros(bad, n, c);
    }
  }

  lemma WholeMicros(bad: nat, n: nat, c: int)
    ensures bad as real * MICRO <= Times(n as real, c as real + 0.5) <==> 2000000 * bad <= (2 * c + 1) * n
  {
    assert 2.0 * Times(n as real, c as real + 0.5) == ((2 * c + 1) * n) as real;
    assert 2.0 * (bad as real * MICRO) == (2000000 * bad) as real;
  }

  /** The report is healthy exactly up to a rate of 1.00005%, because the rate is rounded before the comparison. */
  lemma HealthyIff(s: Sample)
    requires s.Valid() && s.order != []
    ensures var r := ReportOf(s, CONSISTENCY_THRESHOLD);
            r.IsHealthy(CONSISTENCY_THRESHOLD) <==> 2000000 * r.inconsistentUsers <= 20001 * r.sampleSize
  {
    var r := ReportOf(s, CONSISTENCY_THRESHOLD);
    var rate := PerUser(r.inconsistentUsers as real, r.sampleSize);
    RateInMicros(r.inconsistentUsers, r.sampleSize);
    assert rate * MICRO <= 10000 as real + 0.5 <==> 2000000 * r.inconsistentUsers <= (2 * 10000 + 1) * r.sampleSize;
    RoundAtMostEven(rate * MICRO, 10000);
  }

  // ----- validation/skew_detector.py -----

  datatype Severity = Critical | High | Medium | Low | NoSkew

  /** First level in declaration order whose threshold the rounded rate exceeds. */
  function ClassifySkewSeverity(r: Report): Severity {
    if r.inconsistencyRate > 0.10 then Critical
    else if r.inconsistencyRate > 0.05 then High
    else if r.inconsistencyRate > 0.02 then Medium
    else if r.inconsistencyRate > 0.0 then Low
    else NoSkew
  }

  /** No skew is reported exactly for at most one inconsistent user in two million: the rest rounds away. */
  lemma NoSkewIff(s: Sample, threshold: real)
    requires s.Valid() && s.order != []
    ensures var r := ReportOf(s, threshold);
            ClassifySkewSeverity(r) == NoSkew <==> 2000000 * r.inconsistentUsers <= r.sampleSize
  {
    var r := ReportOf(s, threshold);
    var rate := PerUser(r.inconsistentUsers as real, r.sampleSize);
    RateInMicros(r.inconsistentUsers, r.sampleSize);
    assert rate * MICRO <= 0 as real + 0.5 <==> 2000000 * r.inconsistentUsers <= (2 * 0 + 1) * r.sampleSize;
    RoundAtMostEven(rate * MICRO, 0);
  }

  lemma MicrosAbove(m: int, k: int)
    ensures m as real / MICRO > k as real / 1000000.0 <==> m > k
  {
  }

  lemma RateAboveIff(bad: nat, n: nat, k: nat)
    requires n > 0 && k % 2 == 0
    ensures Round6(PerUser(bad as real, n)) > k as real / 1000000.0 <==> 2000000 * bad > (2 * k + 1) * n
  {
    var rate := PerUser(bad as real, n);
    RateInMicros(bad, n);
    RoundAtMostEven(rate * MICRO, k);
    MicrosAbove(RoundToInt(rate * MICRO), k);
    assert rate * MICRO <= k as real + 0.5 <==> 2000000 * bad <= (2 * k + 1) * n;
  }

  /** Every level in terms of the counts: more than 10%, 5%, 2% and 0% of the users, each but for half a millionth. */
  lemma SkewLevels(s: Sample, threshold: real)
    requires s.Valid() && s.order != []
    ensures var r := ReportOf(s, threshold);
            var bad, n := 2000000 * r.inconsistentUsers, r.sampleSize;
            ClassifySkewSeverity(r) ==
              if bad > 200001 * n then Critical else if bad > 100001 * n then High
              else if bad > 40001 * n then Medium else if bad > n then Low else NoSkew
  {
    var r := ReportOf(s, threshold);
    RateAboveIff(r.inconsistentUsers, r.sampleSize, 100000);
    RateAboveIff(r.inconsistentUsers, r.sampleSize, 50000);
    RateAboveIff(r.inconsistentUsers, r.sampleSize, 20000);
    RateAboveIff(r.inconsistentUsers, r.sampleSize, 0);
  }
}
