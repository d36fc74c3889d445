/** Runs of the online store: agreement of the writers, the reachable states, and the history behind each field. */
module OnlineRuns {
  import opened Wrappers
  import opened Events
  import opened FeatureSchema
  import opened OnlineStore

  // ----- the three writers -----

  /** Exactly the records for which the batch writer and the sink store the same payload. */
  predicate SameForBothWriters(rec: Row, now: int) {
    && (forall f :: f in FEATURES ==> rec.Present(f))
    && (ComputedAt in rec.values ==> rec.Present(ComputedAt) && (rec.OrZero(ComputedAt) != 0.0 || now == 0))
  }

  lemma RecordAndRowPayloads(rec: Row, now: int)
    ensures RecordWrite(rec, now) == RowWrite(rec, now) <==> SameForBothWriters(rec, now)
  {
    var p, q := RecordWrite(rec, now).payload, RowWrite(rec, now).payload;
    if SameForBothWriters(rec, now) {
      assert p == q;
    } else if f :| f in FEATURES && !rec.Present(f) {
      assert q[f] == Num(rec.OrZero(f));
      assert f in p ==> p[f] == NoneText;
    } else {
      assert p[ComputedAt] != q[ComputedAt];
    }
  }

  /** write_features called for every row in turn. */
  function WrittenOneByOne(st: State, rows: seq<Row>, ttl: int): State {
    if rows == [] then st
    else
      var before, row := WrittenOneByOne(st, rows[..|rows| - 1], ttl), rows[|rows| - 1];
      Applied(before, [FeatureWrite(row.user, map f | f in FEATURES :: row.OrZero(f),
                                    Some(row.OrZero(ComputedAt)), before.now)], ttl)
  }

  lemma FeatureWriteOfRow(row: Row, now: int)
    ensures FeatureWrite(row.user, map f | f in FEATURES :: row.OrZero(f), Some(row.OrZero(ComputedAt)), now)
         == RowWrite(row, now)
  {
    assert FeatureWrite(row.user, map f | f in FEATURES :: row.OrZero(f), Some(row.OrZero(ComputedAt)), now).payload
        == RowWrite(row, now).payload;
  }

  lemma AppliedOne(st: State, ws: seq<Write>, ttl: int)
    requires ws != []
    ensures Applied(st, ws, ttl) == Applied(Applied(st, ws[..|ws| - 1], ttl), [ws[|ws| - 1]], ttl)
  {
    var w := ws[|ws| - 1];
    AppliedLast(st, ws, ttl);
    AppliedLast(Applied(st, ws[..|ws| - 1], ttl), [w], ttl);
    assert [w][..0] == [];
  }

  lemma {:induction false} OneByOneIsSink(st: State, rows: seq<Row>, ttl: int)
    ensures WrittenOneByOne(st, rows, ttl) == Applied(st, RowWrites(rows, st.now), ttl)
  {
    if rows == [] {
    } else {
      var front, ws := rows[..|rows| - 1], RowWrites(rows, st.now);
      OneByOneIsSink(st, front, ttl);
      assert ws[..|ws| - 1] == RowWrites(front, st.now);
      AppliedOne(st, ws, ttl);
      EffectOfWrites(st, RowWrites(front, st.now), ttl);
      FeatureWriteOfRow(rows[|rows| - 1], st.now);
    }
  }

  /** At one instant the batch writer, the sink and repeated single writes leave the same hashes, deadlines and
      index. */
  lemma WritersAgree(st: State, rows: seq<Row>, ttl: int)
    requires forall i :: 0 <= i < |rows| ==> SameForBothWriters(rows[i], st.now)
    ensures Applied(st, RecordWrites(rows, st.now), ttl) == Applied(st, RowWrites(rows, st.now), ttl)
         == WrittenOneByOne(st, rows, ttl)
  {
    forall i | 0 <= i < |rows|
      ensures RecordWrite(rows[i], st.now) == RowWrite(rows[i], st.now)
    {
      RecordAndRowPayloads(rows[i], st.now);
    }
    assert RecordWrites(rows, st.now) == RowWrites(rows, st.now);
    OneByOneIsSink(st, rows, ttl);
  }

  lemma {:induction false} OverlayOnTop(base: Hash, ws: seq<Write>, u: UserId)
    ensures Overlay(base, ws, u) == base + Overlay(map[], ws, u)
  {
    if ws == [] {
    } else {
      OverlayOnTop(base, ws[..|ws| - 1], u);
    }
  }

  /** Writing the same list again at the same instant changes nothing. */
  lemma RepeatedWritesChangeNothing(st: State, ws: seq<Write>, ttl: int)
    ensures Applied(Applied(st, ws, ttl), ws, ttl) == Applied(st, ws, ttl)
  {
    var once := Applied(st, ws, ttl);
    var twice := Applied(once, ws, ttl);
    EffectOfWrites(st, ws, ttl);
    EffectOfWrites(once, ws, ttl);
    forall u | u in once.keys || u in twice.keys
      ensures u in once.keys && u in twice.keys && once.keys[u] == twice.keys[u]
    {
      if Touched(ws, u) {
        OverlayOnTop(FieldsOf(st, u), ws, u);
        OverlayOnTop(FieldsOf(once, u), ws, u);
        var top := Overlay(map[], ws, u);
        assert FieldsOf(st, u) + top + top == FieldsOf(st, u) + top;
      }
    }
    assert once.keys == twice.keys;
    assert once.active == twice.active;
  }

  /** Among duplicate rows of a user the last one decides all seven fields. */
  lemma {:induction false} LastRowWins(base: Hash, rows: seq<Row>, now: int, u: UserId, i: nat)
    requires i < |rows| && rows[i].user == u
    requires forall j :: i < j < |rows| ==> rows[j].user != u
    ensures Overlay(base, RowWrites(rows, now), u) == base + RowWrite(rows[i], now).payload
  {
    var ws := RowWrites(rows, now);
    var front := rows[..|rows| - 1];
    assert ws[..|ws| - 1] == RowWrites(front, now);
    if i < |rows| - 1 {
      LastRowWins(base, front, now, u, i);
    } else {
      RowKeysOnly(base, front, now, u);
    }
  }

  lemma {:induction false} RowKeysOnly(base: Hash, rows: seq<Row>, now: int, u: UserId)
    ensures forall p: Row ::
              Overlay(base, RowWrites(rows, now), u) + RowWrite(p, now).payload == base + RowWrite(p, now).payload
  {
    if rows == [] {
    } else {
      var ws, front := RowWrites(rows, now), rows[..|rows| - 1];
      assert ws[..|ws| - 1] == RowWrites(front, now);
      RowKeysOnly(base, front, now, u);
      forall p: Row
        ensures Overlay(base, ws, u) + RowWrite(p, now).payload == base + RowWrite(p, now).payload
      {
        var before := Overlay(base, RowWrites(front, now), u);
        assert before + RowWrite(p, now).payload == base + RowWrite(p, now).payload;
        assert before + RowWrite(rows[|rows| - 1], now).payload + RowWrite(p, now).payload
                == before + RowWrite(p, now).payload;
      }
    }
  }

  // ----- runs -----

  datatype Op =
    | Feature(user: UserId, features: map<Field, real>, computedAt: Option<real>)
    | Batch(records: seq<Row>)
    | Sink(rows: seq<Row>)
    | Extend(user: UserId)
    | Pass(seconds: nat)

  function WritesOf(op: Op, now: int): seq<Write> {
    match op
    case Feature(u, features, computedAt) => [FeatureWrite(u, features, computedAt, now)]
    case Batch(records) => RecordWrites(records, now)
    case Sink(rows) => RowWrites(rows, now)
    case Extend(_) => []
    case Pass(_) => []
  }

  function Next(st: State, op: Op, ttl: int): State {
    match op
    case Extend(u) => Apply(st, Expire(u, ttl))
    case Pass(seconds) => Tick(st, seconds)
    case _ => Applied(st, WritesOf(op, st.now), ttl)
  }

  const EMPTY := State(0, map[], {})

  function After(st: State, ops: seq<Op>, ttl: int): State {
    if ops == [] then st else Next(After(st, ops[..|ops| - 1], ttl), ops[|ops| - 1], ttl)
  }

  /** What every reachable state guarantees about its live keys. */
  ghost predicate Consistent(st: State, ttl: int) {
    forall u :: u in st.keys ==>
      && u in st.active
      && 0 < TtlOf(st, u) <= ttl
      && ComputedAt in st.keys[u].fields
  }

  lemma WritesHaveTime(op: Op, now: int)
    ensures forall i :: 0 <= i < |WritesOf(op, now)| ==> ComputedAt in WritesOf(op, now)[i].payload
  {
  }

  lemma {:induction false} OverlayHasTime(base: Hash, ws: seq<Write>, u: UserId)
    requires forall i :: 0 <= i < |ws| ==> ComputedAt in ws[i].payload
    ensures Touched(ws, u) ==> ComputedAt in Overlay(base, ws, u)
  {
    if ws == [] {
    } else {
      TouchedLast(ws, u);
      OverlayHasTime(base, ws[..|ws| - 1], u);
    }
  }

  lemma NextIsConsistent(st: State, op: Op, ttl: int)
    requires Consistent(st, ttl)
    ensures Consistent(Next(st, op, ttl), ttl)
  {
    if !op.Extend? && !op.Pass? {
      var ws := WritesOf(op, st.now);
      EffectOfWrites(st, ws, ttl);
      WritesHaveTime(op, st.now);
      forall u | u in Next(st, op, ttl).keys && Touched(ws, u)
        ensures ComputedAt in Next(st, op, ttl).keys[u].fields
      {
        OverlayHasTime(FieldsOf(st, u), ws, u);
      }
    }
  }

  /** In every run from an empty store each live key is indexed, carries its time stamp and expires within one
      lifetime. */
  lemma {:induction false} RunsAreConsistent(ops: seq<Op>, ttl: int)
    ensures Consistent(After(EMPTY, ops, ttl), ttl)
  {
    if ops == [] {
    } else {
      RunsAreConsistent(ops[..|ops| - 1], ttl);
      NextIsConsistent(After(EMPTY, ops[..|ops| - 1], ttl), ops[|ops| - 1], ttl);
    }
  }

  // ----- the history behind a field -----

  function StateAt(ops: seq<Op>, i: nat, ttl: int): State
    requires i <= |ops|
  {
    After(EMPTY, ops[..i], ttl)
  }

  /** What the i-th operation of the run writes for u, all its duplicates merged. */
  function WrittenAt(ops: seq<Op>, i: nat, u: UserId, ttl: int): Hash
    requires i < |ops|
  {
    Overlay(map[], WritesOf(ops[i], StateAt(ops, i, ttl).now), u)
  }

  predicate LiveAt(ops: seq<Op>, i: nat, u: UserId, ttl: int)
    requires i <= |ops|
  {
    u in StateAt(ops, i, ttl).keys
  }

  /** The run as user u sees it: what each operation wrote, and whether the key was live before and after it. */
  datatype History = History(written: seq<Hash>, live: seq<bool>) {
    predicate Valid() {
      |live| == |written| + 1
    }
  }

  function HistoryOf(ops: seq<Op>, u: UserId, ttl: int): (h: History)
    ensures h.Valid() && |h.written| == |ops|
  {
    History(seq(|ops|, i requires 0 <= i < |ops| => WrittenAt(ops, i, u, ttl)),
            seq(|ops| + 1, i requires 0 <= i < |ops| + 1 => LiveAt(ops, i, u, ttl)))
  }

  /** After n operations, operation j is the last that wrote f, and the key has been live ever since. */
  ghost predicate LastWritten(h: History, n: nat, j: nat, f: Field, x: Text)
    requires h.Valid() && j < n <= |h.written|
  {
    && f in h.written[j] && h.written[j][f] == x
    && (forall i :: j < i < n ==> f !in h.written[i])
    && (forall i :: j < i <= n ==> h.live[i])
  }

  /** One operation either overlays what it wrote or leaves the fields alone; without a write no key appears. */
  lemma FieldsAfter(st: State, op: Op, ttl: int, u: UserId)
    ensures var top := Overlay(map[], WritesOf(op, st.now), u);
            && (u in Next(st, op, ttl).keys ==> Next(st, op, ttl).keys[u].fields == FieldsOf(st, u) + top)
            && (!Touched(WritesOf(op, st.now), u) ==> top == map[] && (u in Next(st, op, ttl).keys ==> u in st.keys))
  {
    var ws := WritesOf(op, st.now);
    EffectOfWrites(st, ws, ttl);
    OverlayOnTop(FieldsOf(st, u), ws, u);
    OverlayUntouched(map[], ws, u);
    assert FieldsOf(st, u) + map[] == FieldsOf(st, u);
  }

  /** The text a read of field f of u finds after the first n operations. */
  function Held(ops: seq<Op>, n: nat, u: UserId, f: Field, ttl: int): Option<Text>
    requires n <= |ops|
  {
    var fields := FieldsOf(StateAt(ops, n, ttl), u);
    if f in fields then Some(fields[f]) else None
  }

  lemma HeldStep(ops: seq<Op>, m: nat, n: nat, u: UserId, f: Field, ttl: int)
    requires n == m + 1 <= |ops|
    ensures Held(ops, n, u, f, ttl) ==
            if !LiveAt(ops, n, u, ttl) then None
            else if f in WrittenAt(ops, m, u, ttl) then Some(WrittenAt(ops, m, u, ttl)[f])
            else Held(ops, m, u, f, ttl)
  {
    assert ops[..n][..m] == ops[..m];
    FieldsAfter(StateAt(ops, m, ttl), ops[m], ttl, u);
  }

  /** A live hash maps each field to the last value written for it since the key was last absent, and holds nothing
      else. */
  lemma FieldHoldsLastWrite(ops: seq<Op>, u: UserId, f: Field, x: Text, ttl: int)
    ensures Held(ops, |ops|, u, f, ttl) == Some(x) <==>
            exists j :: 0 <= j < |ops| && LastWritten(HistoryOf(ops, u, ttl), |ops|, j, f, x)
  {
    var held := seq(|ops| + 1, i requires 0 <= i < |ops| + 1 => Held(ops, i, u, f, ttl));
    var h := HistoryOf(ops, u, ttl);
    forall i | 0 <= i < |ops|
      ensures Follows(h, held, i, f)
    {
      HeldStep(ops, i, i + 1, u, f, ttl);
    }
    assert held[0] == None by {
      assert ops[..0] == [];
    }
    LastWriteDecides(h, held, |ops|, f, x);
  }

  ghost predicate Follows(h: History, held: seq<Option<Text>>, i: nat, f: Field)
    requires h.Valid() && |held| == |h.live| && i < |h.written|
  {
    held[i + 1] == if !h.live[i + 1] then None else if f in h.written[i] then Some(h.written[i][f]) else held[i]
  }

  lemma {:induction false} LastWriteDecides(h: History, held: seq<Option<Text>>, n: nat, f: Field, x: Text)
    requires h.Valid() && |held| == |h.live| && n <= |h.written| && held[0] == None
    requires forall i :: 0 <= i < |h.written| ==> Follows(h, held, i, f)
    ensures held[n] == Some(x) <==> exists j :: 0 <= j < n && LastWritten(h, n, j, f, x)
  {
    if n == 0 {
    } else {
      var m := n - 1;
      LastWriteDecides(h, held, m, f, x);
      LastWrittenStep(h, m, n, f, x);
      assert Follows(h, held, m, f);
    }
  }

  lemma LastWrittenStep(h: History, m: nat, n: nat, f: Field, x: Text)
    requires h.Valid() && n == m + 1 <= |h.written|
    ensures (exists j :: 0 <= j < n && LastWritten(h, n, j, f, x)) <==>
            && h.live[n]
            && if f in h.written[m] then h.written[m][f] == x else exists j :: 0 <= j < m && LastWritten(h, m, j, f, x)
  {
    if f in h.written[m] {
      if h.live[n] && h.written[m][f] == x {
        assert LastWritten(h, n, m, f, x);
      }
    } else {
      if j :| 0 <= j < n && LastWritten(h, n, j, f, x) {
        assert j < m && LastWritten(h, m, j, f, x);
      }
      if j :| 0 <= j < m && LastWritten(h, m, j, f, x) {
        assert h.live[n] ==> LastWritten(h, n, j, f, x);
      }
    }
  }
}
