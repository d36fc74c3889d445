/** Field names, and rows as the jobs hand them to the sinks. */
module FeatureSchema {
  import opened Wrappers
  import opened Events

  datatype Field =
    | TxnCount5m | AvgSpend1h | SessionActivityRate | CartAbandonRatio | ProductInteractionFreq | AnomalyScore
    | ComputedAt
    | Other(name: string)

  const FEATURES: seq<Field> :=
    [TxnCount5m, AvgSpend1h, SessionActivityRate, CartAbandonRatio, ProductInteractionFreq, AnomalyScore]

  /** The features are the six numbers: neither the time stamp nor anything else. */
  lemma SixFeatures()
    ensures |FEATURES| == 6 && forall f :: f in FEATURES <==> f != ComputedAt && !f.Other?
  {
    forall f: Field
      ensures f in FEATURES <==> f != ComputedAt && !f.Other?
    {
      assert FEATURES[0] == TxnCount5m && FEATURES[1] == AvgSpend1h && FEATURES[2] == SessionActivityRate;
      assert FEATURES[3] == CartAbandonRatio && FEATURES[4] == ProductInteractionFreq && FEATURES[5] == AnomalyScore;
    }
  }

  /** A record: some of the fields, each possibly null. */
  datatype Row = Row(user: UserId, values: map<Field, Option<real>>) {

    /** row.get(f, 0.0) or 0.0 */
    function OrZero(f: Field): real {
      if f in values then values[f].GetOr(0.0) else 0.0
    }

    function TimeOr(now: int): real {
      if OrZero(ComputedAt) == 0.0 then now as real else OrZero(ComputedAt)
    }

    predicate Present(f: Field) {
      f in values && values[f].Some?
    }
  }
}

/** The Redis hash store with key expiry, its three writers, and what runs of them leave behind. */
module OnlineStore {
  import opened Wrappers
  import opened Events
  import opened FeatureSchema

  /** A stored string: the text of a number, or Python's "None". */
  datatype Text = Num(value: real) | NoneText

  type Hash = map<Field, Text>

  datatype Entry = Entry(fields: Hash, deadline: Option<int>)

  /** Live feature keys by user, the active-user index, and the clock in seconds. */
  datatype State = State(now: int, keys: map<UserId, Entry>, active: set<UserId>)

  datatype Command = HSet(user: UserId, mapping: Hash) | Expire(user: UserId, ttl: int) | SAdd(user: UserId)

  function Apply(st: State, c: Command): State {
    match c
    case HSet(u, m) =>
      st.(keys := st.keys[u := if u in st.keys then st.keys[u].(fields := st.keys[u].fields + m) else Entry(m, None)])
    case Expire(u, ttl) =>
      if u !in st.keys then st
      else if ttl <= 0 then st.(keys := st.keys - {u})
      else st.(keys := st.keys[u := st.keys[u].(deadline := Some(st.now + ttl))])
    case SAdd(u) =>
      st.(active := st.active + {u})
  }

  function Run(st: State, cs: seq<Command>): State {
    if cs == [] then st else Apply(Run(st, cs[..|cs| - 1]), cs[|cs| - 1])
  }

  predicate Expired(e: Entry, now: int) {
    e.deadline.Some? && e.deadline.value <= now
  }

  function Tick(st: State, seconds: nat): State {
    st.(now := st.now + seconds, keys := map u | u in st.keys && !Expired(st.keys[u], st.now + seconds) :: st.keys[u])
  }

  /** TTL of a key: -2 without the key, -1 without a deadline. */
  function TtlOf(st: State, u: UserId): int {
    if u !in st.keys then -2
    else if st.keys[u].deadline.None? then -1
    else st.keys[u].deadline.value - st.now
  }

  /** hgetall, with an empty result read as nothing. */
  function Read(st: State, u: UserId): Option<Hash> {
    if u in st.keys && st.keys[u].fields != map[] then Some(st.keys[u].fields) else None
  }

  class Redis {
    // Server time: no command moves it, and keys go with it as Tick says.
    var now: int
    var keys: map<UserId, Entry>
    var active: set<UserId>

    constructor ()
      ensures keys == map[] && active == {} && now == 0
    {
      now, keys, active := 0, map[], {};
    }

    function View(): State
      reads this
    {
      State(now, keys, active)
    }

    method Do(c: Command)
      modifies this
      ensures View() == Apply(old(View()), c)
    {
      match c
      case HSet(u, m) =>
        var e := if u in keys then keys[u].(fields := keys[u].fields + m) else Entry(m, None);
        keys := keys[u := e];
      case Expire(u, ttl) =>
        if u in keys {
          if ttl <= 0 {
            keys := keys - {u};
          } else {
            keys := keys[u := keys[u].(deadline := Some(now + ttl))];
          }
        }
      case SAdd(u) =>
        active := active + {u};
    }

    method Execute(pipe: seq<Command>)
      modifies this
      ensures View() == Run(old(View()), pipe)
    {
      for i := 0 to |pipe|
        invariant View() == Run(old(View()), pipe[..i])
      {
        Do(pipe[i]);
        assert pipe[..i + 1][..i] == pipe[..i];
      }
      assert pipe[..|pipe|] == pipe;
    }
  }

  // ----- what each writer stores -----

  datatype Write = Write(user: UserId, payload: Hash)

  function Commands(w: Write, ttl: int): seq<Command> {
    [HSet(w.user, w.payload), Expire(w.user, ttl), SAdd(w.user)]
  }

  function Pipeline(ws: seq<Write>, ttl: int): seq<Command> {
    if ws == [] then [] else Pipeline(ws[..|ws| - 1], ttl) + Commands(ws[|ws| - 1], ttl)
  }

  /** write_features: the given numbers, and computed_at or the current time. */
  function FeatureWrite(u: UserId, features: map<Field, real>, computedAt: Option<real>, now: int): Write {
    var ts := if computedAt.GetOr(0.0) == 0.0 then now as real else computedAt.value;
    Write(u, (map f | f in features :: Num(features[f]))[ComputedAt := Num(ts)])
  }

  function AsText(v: Option<real>): Text {
    if v.Some? then Num(v.value) else NoneText
  }

  /** rec.get("computed_at", now) */
  function RecordTime(rec: Row, now: int): Text {
    if ComputedAt in rec.values then AsText(rec.values[ComputedAt]) else Num(now as real)
  }

  /** batch_write_features: the feature fields the record has, null or not. */
  function RecordWrite(rec: Row, now: int): Write {
    Write(rec.user, (map f | f in FEATURES && f in rec.values :: AsText(rec.values[f]))
                    [ComputedAt := RecordTime(rec, now)])
  }

  /** The streaming sink: all six features, zero for anything missing or null. */
  function RowWrite(row: Row, now: int): Write {
    Write(row.user, (map f | f in FEATURES :: Num(row.OrZero(f)))[ComputedAt := Num(row.TimeOr(now))])
  }

  function RecordWrites(recs: seq<Row>, now: int): (ws: seq<Write>)
    ensures |ws| == |recs| && forall i :: 0 <= i < |recs| ==> ws[i] == RecordWrite(recs[i], now)
  {
    seq(|recs|, i requires 0 <= i < |recs| => RecordWrite(recs[i], now))
  }

  function RowWrites(rows: seq<Row>, now: int): (ws: seq<Write>)
    ensures |ws| == |rows| && forall i :: 0 <= i < |rows| ==> ws[i] == RowWrite(rows[i], now)
  {
    seq(|rows|, i requires 0 <= i < |rows| => RowWrite(rows[i], now))
  }

  function Applied(st: State, ws: seq<Write>, ttl: int): State {
    Run(st, Pipeline(ws, ttl))
  }

  class SyncRedisClient {
    const server: Redis
    const ttlSeconds: int

    constructor (server: Redis, ttlSeconds: int)
      ensures this.server == server && this.ttlSeconds == ttlSeconds
    {
      this.server, this.ttlSeconds := server, ttlSeconds;
    }

    method WriteFeatures(u: UserId, features: map<Field, real>, computedAt: Option<real>)
      modifies server
      ensures server.View() == Applied(old(server.View()), [FeatureWrite(u, features, computedAt, old(server.now))],
              ttlSeconds)
    {
      var w := FeatureWrite(u, features, computedAt, server.now);
      var pipe := [HSet(u, w.payload)];
      pipe := pipe + [Expire(u, ttlSeconds)];
      pipe := pipe + [SAdd(u)];
      assert [w][..0] == [] && pipe == Pipeline([w], ttlSeconds);
      server.Execute(pipe);
    }

    method ReadFeatures(u: UserId) returns (data: Option<Hash>)
      ensures data == Read(server.View(), u)
    {
      if u in server.keys && server.keys[u].fields != map[] {
        data := Some(server.keys[u].fields);
      } else {
        data := None;
      }
    }

    method BatchWriteFeatures(records: seq<Row>)
      modifies server
      ensures server.View() == Applied(old(server.View()), RecordWrites(records, old(server.now)), ttlSeconds)
    {
      var pipe: seq<Command> := [];
      ghost var ws := RecordWrites(records, server.now);
      for i := 0 to |records|
        invariant pipe == Pipeline(ws[..i], ttlSeconds)
      {
        var rec := records[i];
        var payload: Hash := map f | f in FEATURES && f in rec.values :: AsText(rec.values[f]);
        var ts := if ComputedAt in rec.values then AsText(rec.values[ComputedAt]) else Num(server.now as real);
        payload := payload[ComputedAt := ts];
        pipe := pipe + [HSet(rec.user, payload), Expire(rec.user, ttlSeconds), SAdd(rec.user)];
        assert ws[..i + 1][..i] == ws[..i];
      }
      assert ws[..|ws|] == ws;
      server.Execute(pipe);
    }

    method Ttl(u: UserId) returns (ttl: int)
      ensures ttl == TtlOf(server.View(), u)
    {
      if u !in server.keys {
        ttl := -2;
      } else if server.keys[u].deadline.None? {
        ttl := -1;
      } else {
        ttl := server.keys[u].deadline.value - server.now;
      }
    }
  }

  /** streaming/redis_sink.py: one pipeline for all rows of the micro-batch. */
  method WriteFeaturesToRedis(rows: seq<Row>, server: Redis, ttl: int)
    modifies server
    ensures server.View() == Applied(old(server.View()), RowWrites(rows, old(server.now)), ttl)
  {
    if rows == [] {
      return;
    }
    var pipe: seq<Command> := [];
    ghost var ws := RowWrites(rows, server.now);
    for i := 0 to |rows|
      invariant pipe == Pipeline(ws[..i], ttl)
    {
      var row := rows[i];
      var payload: Hash := map f | f in FEATURES :: Num(row.OrZero(f));
      payload := payload[ComputedAt := Num(row.TimeOr(server.now))];
      pipe := pipe + [HSet(row.user, payload)];
      pipe := pipe + [Expire(row.user, ttl)];
      pipe := pipe + [SAdd(row.user)];
      assert ws[..i + 1][..i] == ws[..i];
    }
    assert ws[..|ws|] == ws;
    server.Execute(pipe);
  }

  // ----- the effect of a list of writes, per user -----

  ghost predicate Touched(ws: seq<Write>, u: UserId) {
    exists i :: 0 <= i < |ws| && ws[i].user == u
  }

  /** The fields of u after the writes, starting from `base`: later payloads on top. */
  function Overlay(base: Hash, ws: seq<Write>, u: UserId): Hash {
    if ws == [] then base
    else
      var before := Overlay(base, ws[..|ws| - 1], u);
      if ws[|ws| - 1].user == u then before + ws[|ws| - 1].payload else before
  }

  function FieldsOf(st: State, u: UserId): Hash {
    if u in st.keys then st.keys[u].fields else map[]
  }

  lemma {:induction false} RunConcat(st: State, a: seq<Command>, b: seq<Command>)
    ensures Run(st, a + b) == Run(Run(st, a), b)
  {
    if b == [] {
      assert a + b == a;
    } else {
      assert (a + b)[..|a + b| - 1] == a + b[..|b| - 1];
      RunConcat(st, a, b[..|b| - 1]);
    }
  }

  lemma OneWrite(st: State, w: Write, ttl: int)
    ensures var after := Run(st, Commands(w, ttl));
            && after.now == st.now && after.active == st.active + {w.user}
            && after.keys == if ttl <= 0 then st.keys - {w.user}
                             else st.keys[w.user := Entry(FieldsOf(st, w.user) + w.payload, Some(st.now + ttl))]
  {
    var cs := Commands(w, ttl);
    var s1 := Apply(st, cs[0]);
    var s2 := Apply(s1, cs[1]);
    assert cs[..2] == [cs[0], cs[1]] && cs[..2][..1] == [cs[0]] && [cs[0]][..0] == [];
    assert Run(st, [cs[0]]) == s1;
    assert Run(st, cs[..2]) == s2;
    assert Run(st, cs) == Apply(s2, cs[2]);
    assert map[] + w.payload == w.payload;
  }

  lemma AppliedLast(st: State, ws: seq<Write>, ttl: int)
    requires ws != []
    ensures Applied(st, ws, ttl) == Run(Applied(st, ws[..|ws| - 1], ttl), Commands(ws[|ws| - 1], ttl))
  {
    RunConcat(st, Pipeline(ws[..|ws| - 1], ttl), Commands(ws[|ws| - 1], ttl));
  }

  /** A pipeline of writes touches only its users: each ends with its payloads overlaid and one full lifetime. */
  lemma {:induction false} EffectOfWrites(st: State, ws: seq<Write>, ttl: int)
    ensures var after := Applied(st, ws, ttl);
            && after.now == st.now
            && (forall u :: u in after.active <==> u in st.active || Touched(ws, u))
            && (forall u :: !Touched(ws, u) ==>
                (u in after.keys <==> u in st.keys) && (u in st.keys ==> after.keys[u] == st.keys[u]))
            && (forall u :: Touched(ws, u) ==> (u in after.keys <==> ttl > 0))
            && (forall u :: Touched(ws, u) && ttl > 0 ==>
                  after.keys[u] == Entry(Overlay(FieldsOf(st, u), ws, u), Some(st.now + ttl)))
  {
    if ws == [] {
    } else {
      var front, w := ws[..|ws| - 1], ws[|ws| - 1];
      EffectOfWrites(st, front, ttl);
      AppliedLast(st, ws, ttl);
      OneWrite(Applied(st, front, ttl), w, ttl);
      forall u
        ensures Touched(ws, u) <==> Touched(front, u) || u == w.user
      {
        TouchedLast(ws, u);
      }
      OverlayUntouched(FieldsOf(st, w.user), front, w.user);
    }
  }

  lemma TouchedLast(ws: seq<Write>, u: UserId)
    requires ws != []
    ensures Touched(ws, u) <==> Touched(ws[..|ws| - 1], u) || u == ws[|ws| - 1].user
  {
    if i :| 0 <= i < |ws| - 1 && ws[i].user == u {
      assert ws[..|ws| - 1][i].user == u;
    }
  }

  lemma {:induction false} OverlayUntouched(base: Hash, ws: seq<Write>, u: UserId)
    ensures !Touched(ws, u) ==> Overlay(base, ws, u) == base
  {
    if ws == [] {
    } else {
      TouchedLast(ws, u);
      OverlayUntouched(base, ws[..|ws| - 1], u);
    }
  }

  lemma SoleWrite(st: State, w: Write, ttl: int)
    ensures var after := Applied(st, [w], ttl);
            && after.now == st.now && after.active == st.active + {w.user}
            && after.keys == if ttl <= 0 then st.keys - {w.user}
                             else st.keys[w.user := Entry(FieldsOf(st, w.user) + w.payload, Some(st.now + ttl))]
  {
    assert [w][..0] == [];
    AppliedLast(st, [w], ttl);
    OneWrite(st, w, ttl);
  }

  /** Zero and absent time stamps stand for the time of the write. */
  function StampOf(given: Option<real>, now: int): real {
    if given == None || given == Some(0.0) then now as real else given.value
  }

  /** A write is read back until the lifetime is over: the given features, its time stamp, and what else the key held.
      The ttl counts down meanwhile. Other users read what they would have read without it. */
  lemma WriteThenRead(st: State, u: UserId, features: map<Field, real>, computedAt: Option<real>, ttl: int,
                      seconds: nat, v: UserId)
    ensures var after := Tick(Applied(st, [FeatureWrite(u, features, computedAt, st.now)], ttl), seconds);
            var other := Tick(st, seconds);
            && (Read(after, u).Some? <==> seconds < ttl)
            && TtlOf(after, u) == (if seconds < ttl then ttl - seconds else -2)
            && (seconds < ttl ==>
                var data := Read(after, u).value;
                && (forall f :: f in data <==> f in FieldsOf(st, u) || f in features || f == ComputedAt)
                && ComputedAt in data && data[ComputedAt] == Num(StampOf(computedAt, st.now))
                && (forall f :: f in features && f != ComputedAt ==> data[f] == Num(features[f]))
                && (forall f :: f in FieldsOf(st, u) && f !in features && f != ComputedAt ==>
                      data[f] == FieldsOf(st, u)[f]))
            && (v != u ==> Read(after, v) == Read(other, v) && TtlOf(after, v) == TtlOf(other, v))
            && (v in after.active <==> v == u || v in st.active)
  {
    var w := FeatureWrite(u, features, computedAt, st.now);
    SoleWrite(st, w, ttl);
    StampedWrite(u, features, computedAt, st.now);
  }

  lemma StampedWrite(u: UserId, features: map<Field, real>, computedAt: Option<real>, now: int)
    ensures var w := FeatureWrite(u, features, computedAt, now);
            && w.user == u && (forall f :: f in w.payload <==> f in features || f == ComputedAt)
            && w.payload[ComputedAt] == Num(StampOf(computedAt, now))
            && (forall f :: f in features && f != ComputedAt ==> w.payload[f] == Num(features[f]))
  {
  }

  /** What a row says about a field: its number, else zero. */
  function NumberOrZero(row: Row, f: Field): real {
    if f in row.values && row.values[f] != None then row.values[f].value else 0.0
  }

  /** The sink stores the user's last row whole: six numbers, zero for what is null or missing, and the time stamp. */
  lemma SinkThenRead(st: State, rows: seq<Row>, ttl: int, i: nat, seconds: nat)
    requires i < |rows| && seconds < ttl && forall j :: i < j < |rows| ==> rows[j].user != rows[i].user
    ensures var row, data := rows[i], Read(Tick(Applied(st, RowWrites(rows, st.now), ttl), seconds), rows[i].user);
            && data.Some?
            && (forall f :: f in FEATURES ==> f in data.value && data.value[f] == Num(NumberOrZero(row, f)))
            && ComputedAt in data.value
            && data.value[ComputedAt] == Num(StampOf(Some(NumberOrZero(row, ComputedAt)), st.now))
  {
    var ws, u := RowWrites(rows, st.now), rows[i].user;
    var after := Applied(st, ws, ttl);
    EffectOfWrites(st, ws, ttl);
    assert ws[i].user == u && Touched(ws, u);
    LastOverlay(FieldsOf(st, u), ws, i);
    RowPayload(rows[i], st.now);
    StillRead(after, u, seconds);
  }

  lemma RowPayload(row: Row, now: int)
    ensures var payload := RowWrite(row, now).payload;
            && (forall f :: f in FEATURES ==> f in payload && payload[f] == Num(NumberOrZero(row, f)))
            && ComputedAt in payload && payload[ComputedAt] == Num(StampOf(Some(NumberOrZero(row, ComputedAt)), now))
  {
  }

  lemma StillRead(st: State, u: UserId, seconds: nat)
    requires u in st.keys && st.keys[u].deadline.Some? && st.now + seconds < st.keys[u].deadline.value
    requires ComputedAt in st.keys[u].fields
    ensures Read(Tick(st, seconds), u) == Some(st.keys[u].fields)
  {
  }

  lemma {:induction false} LastOverlay(base: Hash, ws: seq<Write>, i: nat)
    requires i < |ws| && forall j :: i < j < |ws| ==> ws[j].user != ws[i].user
    ensures forall f :: f in ws[i].payload ==>
              f in Overlay(base, ws, ws[i].user) && Overlay(base, ws, ws[i].user)[f] == ws[i].payload[f]
  {
    if i == |ws| - 1 {
    } else {
      LastOverlay(base, ws[..|ws| - 1], i);
    }
  }

  /** The batch writer stores what the record has: numbers, the text "None" for nulls, and leaves other features
      alone. */
  lemma BatchThenRead(st: State, rec: Row, ttl: int, seconds: nat)
    requires seconds < ttl
    ensures var data := Read(Tick(Applied(st, RecordWrites([rec], st.now), ttl), seconds), rec.user);
            && data.Some?
            && (forall f :: f in FEATURES && f in rec.values ==>
                  f in data.value
                  && data.value[f] == if rec.values[f] == None then NoneText else Num(rec.values[f].value))
            && (forall f :: f in FieldsOf(st, rec.user) && f != ComputedAt && !(f in FEATURES && f in rec.values) ==>
                  f in data.value && data.value[f] == FieldsOf(st, rec.user)[f])
            && ComputedAt in data.value
            && data.value[ComputedAt] == if ComputedAt !in rec.values then Num(st.now as real)
                                         else if rec.values[ComputedAt] == None then NoneText
                                         else Num(rec.values[ComputedAt].value)
  {
    var w := RecordWrite(rec, st.now);
    assert RecordWrites([rec], st.now) == [w];
    SoleWrite(st, w, ttl);
    assert ComputedAt in w.payload;
  }
}
