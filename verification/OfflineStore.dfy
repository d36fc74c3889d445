/** The Delta table keyed by (user, event date), its merge, and the fallback files. */
module OfflineStore {
  import opened Wrappers
  import opened FeatureSchema

  const SECONDS_PER_DAY := 86400

  /** cast(double as bigint): towards zero. */
  function Truncate(x: real): int {
    if x >= 0.0 then x.Floor else -((-x).Floor)
  }

  /** to_date(from_unixtime(computed_at)) in UTC; null when computed_at is null or missing. */
  function EventDate(r: Row): Option<int> {
    if r.Present(ComputedAt) then Some(Truncate(r.values[ComputedAt].value) / SECONDS_PER_DAY) else None
  }

  /** The date counts whole days of 86400 seconds; before 1970 the cast drops the fraction towards it. */
  lemma EventDateIs(r: Row, d: int)
    ensures (ComputedAt !in r.values || r.values[ComputedAt] == None) ==> EventDate(r) == None
    ensures ComputedAt in r.values && r.values[ComputedAt] != None ==>
              var x := r.values[ComputedAt].value;
              EventDate(r) == Some(d) <==>
                if x >= 0.0 then (d * 86400) as real <= x < ((d + 1) * 86400) as real
                else (d * 86400) as real - 1.0 < x <= ((d + 1) * 86400) as real - 1.0
  {
  }

  /** The merge condition; SQL equality, so null dates match nothing. */
  predicate Matches(t: Row, s: Row) {
    t.user == s.user && EventDate(t).Some? && EventDate(t) == EventDate(s)
  }

  predicate MatchedBy(source: seq<Row>, t: Row) {
    exists i :: 0 <= i < |source| && Matches(t, source[i])
  }

  /** Delta refuses a merge in which two source rows match one target row. */
  predicate Ambiguous(table: seq<Row>, source: seq<Row>) {
    exists k, i, j :: 0 <= k < |table| && 0 <= i < j < |source| && Matches(table[k], source[i])
            && Matches(table[k], source[j])
  }

  /** whenMatchedUpdateAll for one target row: the matching source row, or the row as it is. */
  function Updated(t: Row, source: seq<Row>): Row {
    if source == [] then t else if Matches(t, source[0]) then source[0] else Updated(t, source[1..])
  }

  function UpdatedAll(table: seq<Row>, source: seq<Row>): (r: seq<Row>)
    ensures |r| == |table| && forall i :: 0 <= i < |table| ==> r[i] == Updated(table[i], source)
  {
    seq(|table|, i requires 0 <= i < |table| => Updated(table[i], source))
  }

  predicate Matched(table: seq<Row>, s: Row) {
    exists k :: 0 <= k < |table| && Matches(table[k], s)
  }

  /** whenNotMatchedInsertAll: the source rows that match no target row. */
  function Inserted(table: seq<Row>, source: seq<Row>): seq<Row> {
    if source == [] then []
    else (if Matched(table, source[0]) then [] else [source[0]]) + Inserted(table, source[1..])
  }

  function Merge(table: seq<Row>, source: seq<Row>): seq<Row> {
    UpdatedAll(table, source) + Inserted(table, source)
  }

  /** The main table, if it exists, and everything ever appended to the fallback files. */
  datatype Delta = Delta(table: Option<seq<Row>>, fallback: seq<Row>)

  const NO_TABLE := Delta(None, [])

  /** `fault` is any exception other than an ambiguous merge: storage, conflict, schema. */
  predicate GoesToFallback(st: Delta, batch: seq<Row>, fault: bool) {
    batch != [] && (fault || (st.table.Some? && Ambiguous(st.table.value, batch)))
  }

  function Sunk(st: Delta, batch: seq<Row>, fault: bool): Delta {
    if batch == [] then st
    else if GoesToFallback(st, batch, fault) then st.(fallback := st.fallback + batch)
    else if st.table.Some? then st.(table := Some(Merge(st.table.value, batch)))
    else st.(table := Some(batch))
  }

  class DeltaSink {
    var table: Option<seq<Row>>
    var fallback: seq<Row>

    constructor ()
      ensures View() == NO_TABLE
    {
      table, fallback := None, [];
    }

    function View(): Delta
      reads this
    {
      Delta(table, fallback)
    }

    /** A committed merge replaces the table; a refused one raises and leaves it alone. */
    method TryMerge(source: seq<Row>, fault: bool) returns (raised: bool)
      requires table.Some?
      modifies this
      ensures raised == (fault || Ambiguous(old(table).value, source))
      ensures fallback == old(fallback)
      ensures table == if raised then old(table) else Some(Merge(old(table).value, source))
    {
      raised := fault || Ambiguous(table.value, source);
      if !raised {
        table := Some(Merge(table.value, source));
      }
    }

    method TryOverwrite(source: seq<Row>, fault: bool) returns (raised: bool)
      modifies this
      ensures raised == fault && fallback == old(fallback)
      ensures table == if raised then old(table) else Some(source)
    {
      raised := fault;
      if !raised {
        table := Some(source);
      }
    }

    method WriteFeatures(batch: seq<Row>, fault: bool)
      modifies this
      ensures View() == Sunk(old(View()), batch, fault)
    {
      if batch == [] {
        return;
      }
      var raised;
      if table.Some? {
        raised := TryMerge(batch, fault);
      } else {
        raised := TryOverwrite(batch, fault);
      }
      if raised {
        fallback := fallback + batch;
      }
    }
  }

  // ----- one merge -----

  ghost predicate UniqueKeys(rows: seq<Row>) {
    forall i, j :: 0 <= i < j < |rows| ==> !Matches(rows[i], rows[j])
  }

  ghost predicate Dated(rows: seq<Row>) {
    forall i :: 0 <= i < |rows| ==> EventDate(rows[i]).Some?
  }

  lemma {:induction false} UpdatedIs(t: Row, source: seq<Row>)
    ensures !MatchedBy(source, t) ==> Updated(t, source) == t
    ensures MatchedBy(source, t) ==>
              exists i :: 0 <= i < |source| && Matches(t, source[i]) && Updated(t, source) == source[i]
    ensures Updated(t, source).user == t.user && EventDate(Updated(t, source)) == EventDate(t)
  {
    if source == [] {
    } else {
      UpdatedIs(t, source[1..]);
      if Matches(t, source[0]) {
        assert MatchedBy(source, t);
      } else {
        if MatchedBy(source, t) {
          var i :| 0 <= i < |source| && Matches(t, source[i]);
          assert Matches(t, source[1..][i - 1]);
        }
        if MatchedBy(source[1..], t) {
          var i :| 0 <= i < |source[1..]| && Matches(t, source[1..][i]) && Updated(t, source[1..]) == source[1..][i];
          assert Matches(t, source[i + 1]) && Updated(t, source) == source[i + 1];
        }
      }
    }
  }

  lemma {:induction false} InsertedAre(table: seq<Row>, source: seq<Row>)
    ensures forall r :: r in Inserted(table, source) <==> r in source && !Matched(table, r)
    ensures UniqueKeys(source) ==> UniqueKeys(Inserted(table, source))
  {
    if source == [] {
    } else {
      var rest := Inserted(table, source[1..]);
      InsertedAre(table, source[1..]);
      assert source == [source[0]] + source[1..];
      if UniqueKeys(source) {
        assert UniqueKeys(source[1..]) by {
          forall i, j | 0 <= i < j < |source[1..]|
            ensures !Matches(source[1..][i], source[1..][j])
          {
            assert !Matches(source[i + 1], source[j + 1]);
          }
        }
        forall j | 0 <= j < |rest|
          ensures !Matches(source[0], rest[j])
        {
          assert rest[j] in rest;
          var k :| 0 <= k < |source[1..]| && source[1..][k] == rest[j];
          assert !Matches(source[0], source[k + 1]);
        }
      }
    }
  }

  lemma TwoMatches(table: seq<Row>, source: seq<Row>, k: nat)
    requires k < |table|
    ensures forall i, j ::
              0 <= i < j < |source| && Matches(table[k], source[i]) && Matches(table[k], source[j]) ==>
                Ambiguous(table, source)
  {
  }

  /** After a merge that Delta accepts, a row is in the table iff it came with the batch or was there and unmatched. */
  lemma MergedRows(table: seq<Row>, source: seq<Row>, r: Row)
    requires !Ambiguous(table, source)
    ensures r in Merge(table, source) <==> r in source || (r in table && !MatchedBy(source, r))
  {
    InsertedAre(table, source);
    var updated := UpdatedAll(table, source);
    if r in updated {
      var k :| 0 <= k < |table| && updated[k] == r;
      UpdatedIs(table[k], source);
      assert table[k] in table;
    }
    if r in source && Matched(table, r) {
      var k :| 0 <= k < |table| && Matches(table[k], r);
      var i :| 0 <= i < |source| && source[i] == r;
      UpdatedIs(table[k], source);
      var j :| 0 <= j < |source| && Matches(table[k], source[j]) && Updated(table[k], source) == source[j];
      TwoMatches(table, source, k);
      assert i == j && updated[k] == r;
    }
    if r in table && !MatchedBy(source, r) {
      var k :| 0 <= k < |table| && table[k] == r;
      UpdatedIs(table[k], source);
      assert updated[k] == r;
    }
  }

  /** A table with unique keys accepts a batch with unique keys, and keeps them unique. */
  lemma MergeKeepsKeysUnique(table: seq<Row>, source: seq<Row>)
    requires UniqueKeys(table) && UniqueKeys(source)
    ensures !Ambiguous(table, source) && UniqueKeys(Merge(table, source))
  {
    var merged, n := Merge(table, source), |table|;
    InsertedAre(table, source);
    forall i, j | 0 <= i < j < |merged|
      ensures !Matches(merged[i], merged[j])
    {
      if i < n {
        UpdatedIs(table[i], source);
      }
      if j < n {
        UpdatedIs(table[j], source);
        assert !Matches(table[i], table[j]);
      } else if i < n {
        assert merged[j] in Inserted(table, source);
        assert !Matches(table[i], merged[j]);
      } else {
        assert !Matches(Inserted(table, source)[i - n], Inserted(table, source)[j - n]);
      }
    }
  }

  function Rows(st: Delta): seq<Row> {
    if st.table.Some? then st.table.value else []
  }

  /** What one write does to any row: a refused batch goes to the fallback whole and the table keeps its rows, otherwise
      the table has the batch's rows and those of its own that the batch does not match. */
  lemma RowsAfterWrite(st: Delta, batch: seq<Row>, fault: bool, r: Row)
    ensures var after, refused := Sunk(st, batch, fault), GoesToFallback(st, batch, fault);
            && (r in Rows(after) <==>
                if refused then r in Rows(st) else r in batch || (r in Rows(st) && !MatchedBy(batch, r)))
            && (r in after.fallback <==> r in st.fallback || (refused && r in batch))
  {
    if batch != [] && st.table.Some? && !GoesToFallback(st, batch, fault) {
      MergedRows(Rows(st), batch, r);
    }
  }

  // ----- replaying a batch -----

  lemma FreshKeysStay(batch: seq<Row>, i: nat)
    requires UniqueKeys(batch) && i < |batch| && EventDate(batch[i]).Some?
    ensures Updated(batch[i], batch) == batch[i]
  {
    assert Matches(batch[i], batch[i]);
    forall j | 0 <= j < |batch| && j != i
      ensures !Matches(batch[i], batch[j])
    {
      assert if i < j then !Matches(batch[i], batch[j]) else !Matches(batch[j], batch[i]);
    }
    UpdatedIs(batch[i], batch);
  }

  lemma {:induction false} NothingInserted(table: seq<Row>, source: seq<Row>)
    requires forall i :: 0 <= i < |source| ==> Matched(table, source[i])
    ensures Inserted(table, source) == []
  {
    if source == [] {
    } else {
      NothingInserted(table, source[1..]);
    }
  }

  /** A table made of the batch's rows and rows the batch does not match absorbs the batch without change. */
  lemma AbsorbedAgain(table: seq<Row>, batch: seq<Row>)
    requires UniqueKeys(batch) && Dated(batch)
    requires forall k :: 0 <= k < |table| ==> table[k] in batch || !MatchedBy(batch, table[k])
    requires forall i :: 0 <= i < |batch| ==> batch[i] in table
    ensures !Ambiguous(table, batch) && Merge(table, batch) == table
  {
    forall k | 0 <= k < |table|
      ensures Updated(table[k], batch) == table[k]
    {
      UpdatedIs(table[k], batch);
      if table[k] in batch {
        var i :| 0 <= i < |batch| && batch[i] == table[k];
        FreshKeysStay(batch, i);
      }
    }
    forall i | 0 <= i < |batch|
      ensures Matched(table, batch[i])
    {
      var k :| 0 <= k < |table| && table[k] == batch[i];
      assert Matches(table[k], batch[i]);
    }
    NothingInserted(table, batch);
    assert UpdatedAll(table, batch) == table;
    UniqueMatch(table, batch);
  }

  lemma UniqueMatch(table: seq<Row>, batch: seq<Row>)
    requires UniqueKeys(batch)
    ensures !Ambiguous(table, batch)
  {
    forall k, i, j | 0 <= k < |table| && 0 <= i < j < |batch|
      ensures !(Matches(table[k], batch[i]) && Matches(table[k], batch[j]))
    {
      assert !Matches(batch[i], batch[j]);
    }
  }

  lemma DeliveredRows(st: Delta, batch: seq<Row>)
    requires batch != [] && !GoesToFallback(st, batch, false)
    ensures Sunk(st, batch, false).table.Some?
    ensures var table := Sunk(st, batch, false).table.value;
            && (forall k :: 0 <= k < |table| && table[k] !in batch ==> st.table.Some? && !MatchedBy(batch, table[k]))
            && (forall i :: 0 <= i < |batch| ==> batch[i] in table)
  {
    var table := Sunk(st, batch, false).table.value;
    if st.table.Some? {
      forall r
        ensures r in table <==> r in batch || (r in st.table.value && !MatchedBy(batch, r))
      {
        MergedRows(st.table.value, batch, r);
      }
      assert forall k :: 0 <= k < |table| ==> table[k] in table;
    }
  }

  lemma UndatedGrows(table: seq<Row>, batch: seq<Row>, i: nat)
    requires i < |batch| && EventDate(batch[i]).None?
    ensures |Merge(table, batch)| > |table|
  {
    InsertedAre(table, batch);
    assert batch[i] in Inserted(table, batch);
  }

  lemma DuplicateRefused(table: seq<Row>, batch: seq<Row>, i: nat, j: nat)
    requires i < j < |batch| && Matches(batch[i], batch[j]) && batch[i] in table
    ensures Ambiguous(table, batch)
  {
    var k :| 0 <= k < |table| && table[k] == batch[i];
    assert Matches(table[k], batch[i]) && Matches(table[k], batch[j]);
  }

  /** Replaying a batch that was delivered without fallback changes nothing exactly when its keys are unique and
      dated. */
  lemma ReplayHarmlessIffUniqueAndDated(st: Delta, batch: seq<Row>)
    requires batch != [] && !GoesToFallback(st, batch, false)
    ensures Sunk(Sunk(st, batch, false), batch, false) == Sunk(st, batch, false) <==> UniqueKeys(batch) && Dated(batch)
  {
    var once := Sunk(st, batch, false);
    var table := once.table.value;
    DeliveredRows(st, batch);
    if UniqueKeys(batch) && Dated(batch) {
      AbsorbedAgain(table, batch);
    } else if i :| 0 <= i < |batch| && EventDate(batch[i]).None? {
      UndatedGrows(table, batch, i);
    } else {
      var i, j :| 0 <= i < j < |batch| && Matches(batch[i], batch[j]);
      DuplicateRefused(table, batch, i, j);
    }
    assert |once.fallback + batch| > |once.fallback|;
  }

  // ----- runs -----

  datatype Delivery = Delivery(batch: seq<Row>, fault: bool)

  function AfterDeliveries(ds: seq<Delivery>): Delta {
    if ds == [] then NO_TABLE
    else Sunk(AfterDeliveries(ds[..|ds| - 1]), ds[|ds| - 1].batch, ds[|ds| - 1].fault)
  }

  predicate InTable(st: Delta, r: Row) {
    st.table.Some? && r in st.table.value
  }

  /** Row s came with a delivery after the i-th, for the same user and day as r, and is in the table. */
  ghost predicate ReplacedBy(st: Delta, ds: seq<Delivery>, i: nat, r: Row, j: nat, s: Row) {
    i < j < |ds| && s in ds[j].batch && Matches(r, s) && InTable(st, s)
  }

  /** Row r of delivery i is in the fallback or the table, or a later delivery replaced it. */
  ghost predicate Accounted(st: Delta, ds: seq<Delivery>, i: nat, r: Row) {
    r in st.fallback || InTable(st, r) || exists j, s :: ReplacedBy(st, ds, i, r, j, s)
  }

  lemma SunkKeeps(st: Delta, batch: seq<Row>, fault: bool, r: Row)
    requires InTable(st, r)
    ensures InTable(Sunk(st, batch, fault), r)
            || exists s :: s in batch && Matches(r, s) && InTable(Sunk(st, batch, fault), s)
  {
    if batch != [] && !GoesToFallback(st, batch, fault) {
      MergedRows(st.table.value, batch, r);
      if MatchedBy(batch, r) {
        var i :| 0 <= i < |batch| && Matches(r, batch[i]);
        MergedRows(st.table.value, batch, batch[i]);
        assert batch[i] in batch;
      }
    }
  }

  lemma SunkHolds(st: Delta, batch: seq<Row>, fault: bool, r: Row)
    requires r in batch
    ensures r in Sunk(st, batch, fault).fallback || InTable(Sunk(st, batch, fault), r)
  {
    if !GoesToFallback(st, batch, fault) && st.table.Some? {
      MergedRows(st.table.value, batch, r);
    }
  }

  /** Whatever faults occur, no delivered row ever disappears other than by a later row for the same user and day. */
  lemma {:induction false} NothingIsLost(ds: seq<Delivery>, i: nat, r: Row)
    requires i < |ds| && r in ds[i].batch
    ensures Accounted(AfterDeliveries(ds), ds, i, r)
    ensures i == |ds| - 1 ==> r in AfterDeliveries(ds).fallback || InTable(AfterDeliveries(ds), r)
  {
    var n := |ds| - 1;
    var front, before, after := ds[..n], AfterDeliveries(ds[..n]), AfterDeliveries(ds);
    if i == n {
      SunkHolds(before, ds[n].batch, ds[n].fault, r);
    } else {
      NothingIsLost(front, i, r);
      if InTable(before, r) {
        StandInKept(before, ds[n].batch, ds[n].fault, r, r);
        StillAccounted(after, ds, i, r, r);
      } else if j, s :| ReplacedBy(before, front, i, r, j, s) {
        StandInKept(before, ds[n].batch, ds[n].fault, r, s);
        StillAccounted(after, ds, i, r, s);
        assert InTable(after, s) ==> ReplacedBy(after, ds, i, r, j, s);
      }
    }
  }

  lemma StandInKept(st: Delta, batch: seq<Row>, fault: bool, r: Row, s: Row)
    requires InTable(st, s) && (s == r || Matches(r, s))
    ensures InTable(Sunk(st, batch, fault), s)
            || exists t :: t in batch && Matches(r, t) && InTable(Sunk(st, batch, fault), t)
  {
    SunkKeeps(st, batch, fault, s);
    if t :| t in batch && Matches(s, t) && InTable(Sunk(st, batch, fault), t) {
      assert Matches(r, t);
    }
  }

  /** If s stands for r, or a row of the last delivery does, r is accounted for. */
  lemma StillAccounted(after: Delta, ds: seq<Delivery>, i: nat, r: Row, s: Row)
    requires i < |ds| - 1
    requires InTable(after, s) || exists t :: t in ds[|ds| - 1].batch && Matches(r, t) && InTable(after, t)
    ensures InTable(after, s) || exists j, t :: ReplacedBy(after, ds, i, r, j, t)
  {
    if t :| t in ds[|ds| - 1].batch && Matches(r, t) && InTable(after, t) {
      assert ReplacedBy(after, ds, i, r, |ds| - 1, t);
    }
  }

  /** Batches with unique keys keep the table's keys unique, and then only outside faults ever reach the fallback. */
  lemma {:induction false} KeysStayUnique(ds: seq<Delivery>)
    requires forall i :: 0 <= i < |ds| ==> UniqueKeys(ds[i].batch)
    ensures AfterDeliveries(ds).table.Some? ==> UniqueKeys(AfterDeliveries(ds).table.value)
    ensures (forall i :: 0 <= i < |ds| ==> !ds[i].fault) ==> AfterDeliveries(ds).fallback == []
  {
    if ds == [] {
    } else {
      var before, last := AfterDeliveries(ds[..|ds| - 1]), ds[|ds| - 1];
      KeysStayUnique(ds[..|ds| - 1]);
      if before.table.Some? {
        MergeKeepsKeysUnique(before.table.value, last.batch);
      }
    }
  }
}
