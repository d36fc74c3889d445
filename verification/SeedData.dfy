/** Seeding the feature registry: the loop that takes each seed's lineage out and puts it back. */
module SeedData {
  import opened Wrappers
  import opened Seqs

  type Name = string

  datatype LineageStep = LineageStep(upstreamSource: string, transformStep: string)

  /** The columns a seed fills besides its name and lineage. */
  datatype Details = Details(displayName: string, description: string, transformLogic: string, windowType: string,
                             freshnessSlaSeconds: int, owner: string, version: string)

  datatype LineageRow = LineageRow(feature: Name, step: LineageStep)

  datatype Registry = Registry(features: map<Name, Details>, lineage: seq<LineageRow>)

  /** A seed dictionary as a value; `lineage` is None while the key is absent. */
  datatype SeedValue = SeedValue(name: Name, details: Details, lineage: Option<seq<LineageStep>>) {

    function Steps(): seq<LineageStep> {
      lineage.GetOr([])
    }
  }

  class Seed {
    const name: Name
    const details: Details
    var lineage: Option<seq<LineageStep>>

    constructor (name: Name, details: Details, lineage: Option<seq<LineageStep>>)
      ensures Value() == SeedValue(name, details, lineage)
    {
      this.name, this.details, this.lineage := name, details, lineage;
    }

    function Value(): SeedValue
      reads this
    {
      SeedValue(name, details, lineage)
    }
  }

  /** A database session: what its transaction sees, and what is committed. */
  class Session {
    var view: Registry
    var committed: Registry

    constructor (stored: Registry)
      ensures view == committed == stored
    {
      view, committed := stored, stored;
    }
  }

  function Values(seeds: seq<Seed>): (r: seq<SeedValue>)
    reads set s | s in seeds
    ensures |r| == |seeds| && forall i :: 0 <= i < |seeds| ==> r[i] == seeds[i].Value()
  {
    seq(|seeds|, i requires 0 <= i < |seeds| reads set s | s in seeds => seeds[i].Value())
  }

  function Rows(name: Name, steps: seq<LineageStep>): (r: seq<LineageRow>)
    ensures |r| == |steps| && forall i :: 0 <= i < |steps| ==> r[i] == LineageRow(name, steps[i])
  {
    Map(steps, step => LineageRow(name, step))
  }

  function AddFeature(reg: Registry, s: SeedValue): Registry {
    Registry(reg.features[s.name := s.details], reg.lineage + Rows(s.name, s.Steps()))
  }

  datatype Outcome = Outcome(registry: Registry, seeds: seq<SeedValue>, ok: bool)

  /** One pass over the seeds. A flush that raises ends the pass and leaves that seed without its lineage. */
  function Seeded(seeds: seq<SeedValue>, reg: Registry, flushes: Name -> bool): (r: Outcome)
    ensures |r.seeds| == |seeds|
    decreases |seeds|
  {
    if seeds == [] then Outcome(reg, [], true)
    else
      var s, rest := seeds[0], seeds[1..];
      if s.name in reg.features then Before(s, Seeded(rest, reg, flushes))
      else if !flushes(s.name) then Outcome(reg, [s.(lineage := None)] + rest, false)
      else Before(s.(lineage := Some(s.Steps())), Seeded(rest, AddFeature(reg, s), flushes))
  }

  function Before(s: SeedValue, o: Outcome): Outcome {
    o.(seeds := [s] + o.seeds)
  }

  /** The part of the loop behind the `continue`: one missing feature. */
  method SeedOne(seed: Seed, db: Session, flushes: Name -> bool) returns (ok: bool)
    requires seed.name !in db.view.features
    modifies db`view, seed
    ensures ok == flushes(seed.name)
    ensures ok ==>
              db.view == AddFeature(old(db.view), old(seed.Value())) && seed.lineage == Some(old(seed.Value()).Steps())
    ensures !ok ==> db.view == old(db.view) && seed.lineage == None
  {
    var lineageData := seed.lineage.GetOr([]);
    seed.lineage := None;
    if !flushes(seed.name) {
      return false;
    }
    db.view := db.view.(features := db.view.features[seed.name := seed.details]);
    var all := Rows(seed.name, lineageData);
    for k := 0 to |lineageData|
      invariant db.view == Registry(old(db.view).features[seed.name := seed.details], old(db.view).lineage + all[..k])
    {
      db.view := db.view.(lineage := db.view.lineage + [LineageRow(seed.name, lineageData[k])]);
      assert all[..k + 1] == all[..k] + [all[k]];
    }
    assert all[..|lineageData|] == all;
    seed.lineage := Some(lineageData);
    ok := true;
  }

  /** The outcome of the pass on all of `values` when the first i of them are done. */
  ghost function From(values: seq<SeedValue>, i: nat, reg: Registry, flushes: Name -> bool): Outcome
    requires i <= |values|
  {
    var o := Seeded(values[i..], reg, flushes);
    o.(seeds := values[..i] + o.seeds)
  }

  lemma FromStep(values: seq<SeedValue>, i: nat, reg: Registry, flushes: Name -> bool)
    requires i < |values|
    ensures var s, o := values[i], From(values, i, reg, flushes);
            if s.name in reg.features then o == From(values, i + 1, reg, flushes)
            else if !flushes(s.name) then o == Outcome(reg, values[i := s.(lineage := None)], false)
            else o == From(values[i := s.(lineage := Some(s.Steps()))], i + 1, AddFeature(reg, s), flushes)
  {
    var s, rest := values[i], values[i + 1..];
    assert values[i..][0] == s && values[i..][1..] == rest;
    StepOver(values, i, s, Seeded(rest, reg, flushes));
    StepOver(values, i, s.(lineage := Some(s.Steps())), Seeded(rest, AddFeature(reg, s), flushes));
    assert values[i := s] == values;
    assert values[..i] + ([s.(lineage := None)] + rest) == values[i := s.(lineage := None)];
  }

  lemma FromStart(values: seq<SeedValue>, reg: Registry, flushes: Name -> bool)
    ensures From(values, 0, reg, flushes) == Seeded(values, reg, flushes)
  {
    assert values[0..] == values;
  }

  lemma FromEnd(values: seq<SeedValue>, reg: Registry, flushes: Name -> bool)
    ensures From(values, |values|, reg, flushes) == Outcome(reg, values, true)
  {
  }

  lemma StepOver(values: seq<SeedValue>, i: nat, s: SeedValue, o: Outcome)
    requires i < |values|
    ensures values[..i] + Before(s, o).seeds == values[i := s][..i + 1] + o.seeds
    ensures values[i := s][i + 1..] == values[i + 1..]
  {
  }

  /** The loop body for seed i, on all seed objects. */
  method SeedAt(seeds: seq<Seed>, i: nat, db: Session, flushes: Name -> bool) returns (ok: bool)
    requires i < |seeds| && NoDup(seeds)
    modifies db`view, seeds[i]
    ensures var s, was, before := old(seeds[i].Value()), old(db.view), old(Values(seeds));
            if s.name in was.features then ok && db.view == was && Values(seeds) == before
            else if !flushes(s.name) then !ok && db.view == was && Values(seeds) == before[i := s.(lineage := None)]
            else ok && db.view == AddFeature(was, s) && Values(seeds) == before[i := s.(lineage := Some(s.Steps()))]
  {
    var seed := seeds[i];
    ghost var before := Values(seeds);
    if seed.name in db.view.features {
      return true;
    }
    ok := SeedOne(seed, db, flushes);
    assert Values(seeds) == before[i := seed.Value()];
  }

  /** `flushes` says for which names the insert goes through; a raised exception rolls the transaction back. */
  method SeedFeatures(seeds: seq<Seed>, db: Session, flushes: Name -> bool) returns (ok: bool)
    requires NoDup(seeds) && db.view == db.committed
    modifies db, set s | s in seeds
    ensures var o := old(Seeded(Values(seeds), db.committed, flushes));
            && ok == o.ok && Values(seeds) == o.seeds
            && db.committed == db.view == if ok then o.registry else old(db.committed)
  {
    ghost var values := Values(seeds);
    ghost var goal := Seeded(values, db.committed, flushes);
    FromStart(values, db.committed, flushes);
    for i := 0 to |seeds|
      invariant db.committed == old(db.committed)
      invariant Values(seeds) == values
      invariant goal == From(values, i, db.view, flushes)
    {
      FromStep(values, i, db.view, flushes);
      var seeded := SeedAt(seeds, i, db, flushes);
      values := Values(seeds);
      if !seeded {
        db.view := db.committed;
        return false;
      }
    }
    FromEnd(values, db.view, flushes);
    db.committed := db.view;
    ok := true;
  }

  // ----- what a pass that is not interrupted does -----

  function Names(seeds: seq<SeedValue>): set<Name> {
    set s | s in seeds :: s.name
  }

  function First(seeds: seq<SeedValue>, f: Name): SeedValue
    requires f in Names(seeds)
    decreases |seeds|
  {
    if seeds[0].name == f then seeds[0]
    else
      assert seeds == [seeds[0]] + seeds[1..];
      First(seeds[1..], f)
  }

  function LineageOf(rows: seq<LineageRow>, f: Name): seq<LineageStep> {
    if rows == [] then []
    else (if rows[0].feature == f then [rows[0].step] else []) + LineageOf(rows[1..], f)
  }

  lemma {:induction false} LineageConcat(a: seq<LineageRow>, b: seq<LineageRow>, f: Name)
    ensures LineageOf(a + b, f) == LineageOf(a, f) + LineageOf(b, f)
  {
    if a == [] {
      assert a + b == b;
    } else {
      assert (a + b)[1..] == a[1..] + b;
      LineageConcat(a[1..], b, f);
      var head := if a[0].feature == f then [a[0].step] else [];
      assert head + (LineageOf(a[1..], f) + LineageOf(b, f)) == head + LineageOf(a[1..], f) + LineageOf(b, f);
    }
  }

  lemma {:induction false} LineageOfRows(name: Name, steps: seq<LineageStep>, f: Name)
    ensures LineageOf(Rows(name, steps), f) == if f == name then steps else []
  {
    if steps == [] {
    } else {
      LineageOfRows(name, steps[1..], f);
      assert Rows(name, steps)[1..] == Rows(name, steps[1..]);
      assert steps == [steps[0]] + steps[1..];
    }
  }

  lemma NamesHead(seeds: seq<SeedValue>)
    requires seeds != []
    ensures Names(seeds) == {seeds[0].name} + Names(seeds[1..])
  {
    assert seeds == [seeds[0]] + seeds[1..];
  }

  /** Which features a successful pass leaves: missing ones from their first seed, existing ones as they were. */
  lemma {:induction false} SeededFeatures(seeds: seq<SeedValue>, reg: Registry, flushes: Name -> bool, f: Name)
    requires Seeded(seeds, reg, flushes).ok
    ensures var r := Seeded(seeds, reg, flushes).registry.features;
            && (f in r <==> f in reg.features || f in Names(seeds))
            && (f in r ==> r[f] == if f in reg.features then reg.features[f] else First(seeds, f).details)
    decreases |seeds|
  {
    if seeds == [] {
    } else {
      NamesHead(seeds);
      SeededFeatures(seeds[1..], if seeds[0].name in reg.features then reg else AddFeature(reg, seeds[0]), flushes, f);
    }
  }

  /** The lineage of a feature that a pass adds. */
  function AddedSteps(seeds: seq<SeedValue>, reg: Registry, f: Name): seq<LineageStep> {
    if f in reg.features || f !in Names(seeds) then [] else First(seeds, f).Steps()
  }

  lemma LineageAdded(reg: Registry, s: SeedValue, f: Name)
    ensures LineageOf(AddFeature(reg, s).lineage, f)
         == LineageOf(reg.lineage, f) + if f == s.name then s.Steps() else []
  {
    LineageConcat(reg.lineage, Rows(s.name, s.Steps()), f);
    LineageOfRows(s.name, s.Steps(), f);
  }

  lemma AddedHead(seeds: seq<SeedValue>, reg: Registry, f: Name)
    requires seeds != []
    ensures var s, rest := seeds[0], seeds[1..];
            AddedSteps(seeds, reg, f) ==
            if s.name in reg.features then AddedSteps(rest, reg, f)
            else if f == s.name then s.Steps() else AddedSteps(rest, AddFeature(reg, s), f)
  {
    NamesHead(seeds);
  }

  /** It gets the steps of its first seed, in order and once; existing features get none. */
  lemma {:induction false} SeededLineage(seeds: seq<SeedValue>, reg: Registry, flushes: Name -> bool, f: Name)
    requires Seeded(seeds, reg, flushes).ok
    ensures LineageOf(Seeded(seeds, reg, flushes).registry.lineage, f)
            == LineageOf(reg.lineage, f) + AddedSteps(seeds, reg, f)
    decreases |seeds|
  {
    if seeds == [] {
    } else {
      var s, rest := seeds[0], seeds[1..];
      AddedHead(seeds, reg, f);
      if s.name in reg.features {
        SeededLineage(rest, reg, flushes, f);
      } else {
        SeededLineage(rest, AddFeature(reg, s), flushes, f);
        LineageAdded(reg, s, f);
        assert f == s.name ==> AddedSteps(rest, AddFeature(reg, s), f) == [];
      }
    }
  }

  /** The seed list comes back as it was, whenever every seed has its lineage. */
  lemma {:induction false} SeedsRestored(seeds: seq<SeedValue>, reg: Registry, flushes: Name -> bool)
    requires forall s :: s in seeds ==> s.lineage.Some?
    ensures var o := Seeded(seeds, reg, flushes);
            o.seeds == seeds <==> o.ok
    decreases |seeds|
  {
    if seeds == [] {
    } else {
      var s, rest := seeds[0], seeds[1..];
      assert seeds == [s] + rest;
      assert s in seeds && s.(lineage := Some(s.Steps())) == s;
      if s.name in reg.features {
        SeedsRestored(rest, reg, flushes);
      } else if flushes(s.name) {
        SeedsRestored(rest, AddFeature(reg, s), flushes);
      }
    }
  }

  /** A pass goes through exactly when the insert of every missing feature does. */
  lemma {:induction false} SucceedsIff(seeds: seq<SeedValue>, reg: Registry, flushes: Name -> bool)
    ensures Seeded(seeds, reg, flushes).ok <==> forall f :: f in Names(seeds) && f !in reg.features ==> flushes(f)
    decreases |seeds|
  {
    if seeds == [] {
    } else {
      var s, rest := seeds[0], seeds[1..];
      assert seeds == [s] + rest;
      assert Names(seeds) == {s.name} + Names(rest);
      if s.name in reg.features {
        SucceedsIff(rest, reg, flushes);
      } else {
        SucceedsIff(rest, AddFeature(reg, s), flushes);
      }
    }
  }

  /** Seeds whose features are all registered are passed over, whatever the database would do. */
  lemma {:induction false} NothingMissing(seeds: seq<SeedValue>, reg: Registry, flushes: Name -> bool)
    requires Names(seeds) <= reg.features.Keys
    ensures Seeded(seeds, reg, flushes) == Outcome(reg, seeds, true)
    decreases |seeds|
  {
    if seeds == [] {
    } else {
      assert seeds == [seeds[0]] + seeds[1..];
      assert seeds[0].name in Names(seeds);
      NothingMissing(seeds[1..], reg, flushes);
    }
  }

  lemma {:induction false} NamesKept(seeds: seq<SeedValue>, reg: Registry, flushes: Name -> bool)
    ensures Names(Seeded(seeds, reg, flushes).seeds) == Names(seeds)
    decreases |seeds|
  {
    if seeds == [] {
    } else {
      var s, rest := seeds[0], seeds[1..];
      assert seeds == [s] + rest;
      assert Names(seeds) == {s.name} + Names(rest);
      if s.name in reg.features {
        NamesKept(rest, reg, flushes);
      } else {
        NamesKept(rest, AddFeature(reg, s), flushes);
      }
      var after := Seeded(seeds, reg, flushes).seeds;
      assert after == [after[0]] + after[1..];
      assert Names(after) == {after[0].name} + Names(after[1..]);
    }
  }

  /** A second pass changes neither the registry nor the seeds. */
  lemma SecondPassAddsNothing(seeds: seq<SeedValue>, reg: Registry, flushes: Name -> bool, flushes': Name -> bool)
    requires Seeded(seeds, reg, flushes).ok
    ensures var o := Seeded(seeds, reg, flushes);
            Seeded(o.seeds, o.registry, flushes') == o
  {
    var o := Seeded(seeds, reg, flushes);
    NamesKept(seeds, reg, flushes);
    forall f | f in Names(o.seeds)
      ensures f in o.registry.features
    {
      SeededFeatures(seeds, reg, flushes, f);
    }
    NothingMissing(o.seeds, o.registry, flushes');
  }

  // ----- an interrupted pass -----

  /** The seed whose insert failed. */
  function FailedAt(seeds: seq<SeedValue>, reg: Registry, flushes: Name -> bool): (k: nat)
    requires !Seeded(seeds, reg, flushes).ok
    ensures k < |seeds|
    decreases |seeds|
  {
    var s, rest := seeds[0], seeds[1..];
    if s.name in reg.features then 1 + FailedAt(rest, reg, flushes)
    else if !flushes(s.name) then 0
    else 1 + FailedAt(rest, AddFeature(reg, s), flushes)
  }

  /** Exactly that seed has lost its lineage. */
  lemma {:induction false} LostLineage(seeds: seq<SeedValue>, reg: Registry, flushes: Name -> bool)
    requires !Seeded(seeds, reg, flushes).ok && forall s :: s in seeds ==> s.lineage.Some?
    ensures var k := FailedAt(seeds, reg, flushes);
            && Seeded(seeds, reg, flushes).seeds == seeds[k := seeds[k].(lineage := None)]
            && seeds[k].name !in reg.features && !flushes(seeds[k].name)
            && forall j :: 0 <= j < k ==> seeds[j].name != seeds[k].name
    decreases |seeds|
  {
    var s, rest := seeds[0], seeds[1..];
    assert seeds == [s] + rest;
    assert s in seeds && s.(lineage := Some(s.Steps())) == s;
    if s.name in reg.features {
      LostLineage(rest, reg, flushes);
    } else if flushes(s.name) {
      LostLineage(rest, AddFeature(reg, s), flushes);
    }
  }

  lemma {:induction false} FirstWithout(seeds: seq<SeedValue>, k: nat, f: Name)
    requires k < |seeds| && f in Names(seeds) && forall j :: 0 <= j < k ==> seeds[j].name != seeds[k].name
    ensures var lost := seeds[k := seeds[k].(lineage := None)];
            && Names(lost) == Names(seeds)
            && First(lost, f) == if f == seeds[k].name then seeds[k].(lineage := None) else First(seeds, f)
    decreases |seeds|
  {
    var gone := seeds[k].(lineage := None);
    var lost := seeds[k := gone];
    SameNames(seeds, lost);
    NamesHead(seeds);
    if k == 0 {
      assert lost[1..] == seeds[1..];
    } else {
      assert lost[1..] == seeds[1..][k - 1 := gone] && seeds[1..][k - 1] == seeds[k];
      if seeds[0].name != f {
        FirstWithout(seeds[1..], k - 1, f);
      }
    }
  }

  lemma SameNames(a: seq<SeedValue>, b: seq<SeedValue>)
    requires |a| == |b| && forall i :: 0 <= i < |a| ==> a[i].name == b[i].name
    ensures Names(a) == Names(b)
  {
    forall f
      ensures f in Names(a) <==> f in Names(b)
    {
      if s :| s in a && s.name == f {
        var i :| 0 <= i < |a| && a[i] == s;
        assert b[i] in b;
      }
      if s :| s in b && s.name == f {
        var i :| 0 <= i < |b| && b[i] == s;
        assert a[i] in a;
      }
    }
  }

  lemma {:induction false} FirstAt(seeds: seq<SeedValue>, k: nat)
    requires k < |seeds| && forall j :: 0 <= j < k ==> seeds[j].name != seeds[k].name
    ensures seeds[k].name in Names(seeds) && First(seeds, seeds[k].name) == seeds[k]
    decreases |seeds|
  {
    assert seeds[k] in seeds;
    if k == 0 {
    } else {
      assert seeds[1..][k - 1] == seeds[k];
      FirstAt(seeds[1..], k - 1);
    }
  }

  lemma RetriedFeatures(a: seq<SeedValue>, b: seq<SeedValue>, reg: Registry, works: Name -> bool)
    requires Seeded(a, reg, works).ok && Seeded(b, reg, works).ok && Names(a) == Names(b)
    requires forall n :: n in Names(a) ==> First(b, n).details == First(a, n).details
    ensures Seeded(a, reg, works).registry.features == Seeded(b, reg, works).registry.features
  {
    forall f
      ensures f in Seeded(a, reg, works).registry.features <==> f in Seeded(b, reg, works).registry.features
      ensures f in Seeded(a, reg, works).registry.features ==>
                Seeded(a, reg, works).registry.features[f] == Seeded(b, reg, works).registry.features[f]
    {
      SeededFeatures(a, reg, works, f);
      SeededFeatures(b, reg, works, f);
    }
  }

  /** The first seed of each name, before and after a failed pass. */
  lemma LostFirst(seeds: seq<SeedValue>, reg: Registry, flushes: Name -> bool, f: Name)
    requires !Seeded(seeds, reg, flushes).ok && forall s :: s in seeds ==> s.lineage.Some?
    ensures var failed, lost := seeds[FailedAt(seeds, reg, flushes)], Seeded(seeds, reg, flushes).seeds;
            && Names(lost) == Names(seeds) && failed.name in Names(seeds) && failed.name !in reg.features
            && First(seeds, failed.name) == failed
            && (f in Names(seeds) ==>
                First(lost, f) == if f == failed.name then failed.(lineage := None) else First(seeds, f))
  {
    var k := FailedAt(seeds, reg, flushes);
    LostLineage(seeds, reg, flushes);
    FirstAt(seeds, k);
    NamesKept(seeds, reg, flushes);
    if f in Names(seeds) {
      FirstWithout(seeds, k, f);
    }
  }

  lemma LostKeepsDetails(seeds: seq<SeedValue>, reg: Registry, flushes: Name -> bool)
    requires !Seeded(seeds, reg, flushes).ok && forall s :: s in seeds ==> s.lineage.Some?
    ensures Names(Seeded(seeds, reg, flushes).seeds) == Names(seeds)
    ensures forall n :: n in Names(seeds) ==>
            First(Seeded(seeds, reg, flushes).seeds, n).details == First(seeds, n).details
  {
    NamesKept(seeds, reg, flushes);
    forall n | n in Names(seeds)
      ensures First(Seeded(seeds, reg, flushes).seeds, n).details == First(seeds, n).details
    {
      LostFirst(seeds, reg, flushes, n);
    }
  }

  /** What a caller that survives a failed pass achieves with a retry that goes through: the features of a pass that
      never failed ... */
  lemma RetryRegistersAll(seeds: seq<SeedValue>, reg: Registry, flushes: Name -> bool, works: Name -> bool)
    requires !Seeded(seeds, reg, flushes).ok && forall s :: s in seeds ==> s.lineage.Some?
    requires Seeded(Seeded(seeds, reg, flushes).seeds, reg, works).ok
    ensures var retried, clean := Seeded(Seeded(seeds, reg, flushes).seeds, reg, works), Seeded(seeds, reg, works);
            clean.ok && retried.registry.features == clean.registry.features
  {
    LostKeepsDetails(seeds, reg, flushes);
    SucceedsIff(seeds, reg, works);
    SucceedsIff(Seeded(seeds, reg, flushes).seeds, reg, works);
    RetriedFeatures(seeds, Seeded(seeds, reg, flushes).seeds, reg, works);
  }

  /** ... and the same lineage for all of them but the one that failed, which is registered without any of its steps. */
  lemma RetryLosesLineage(seeds: seq<SeedValue>, reg: Registry, flushes: Name -> bool, works: Name -> bool, f: Name)
    requires !Seeded(seeds, reg, flushes).ok && forall s :: s in seeds ==> s.lineage.Some?
    requires Seeded(Seeded(seeds, reg, flushes).seeds, reg, works).ok
    ensures var failed := seeds[FailedAt(seeds, reg, flushes)];
            var retried, clean := Seeded(Seeded(seeds, reg, flushes).seeds, reg, works), Seeded(seeds, reg, works);
            LineageOf(clean.registry.lineage, f) ==
            LineageOf(retried.registry.lineage, f) + if f == failed.name then failed.Steps() else []
  {
    RetryRegistersAll(seeds, reg, flushes, works);
    LostFirst(seeds, reg, flushes, f);
    SeededLineage(seeds, reg, works, f);
    SeededLineage(Seeded(seeds, reg, flushes).seeds, reg, works, f);
  }
}
