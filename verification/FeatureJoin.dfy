/** compute_all_features: five tables joined on the user alone, and what that does to the rows. */
module FeatureJoin {
  import opened Wrappers
  import opened Seqs
  import opened Events
  import opened Windows
  import opened Features

  /** One row of the joined frame; every column but the key can be null until fillna. */
  datatype Wide = Wide(key: Key, txn: Option<real>, spend: Option<real>, session: Option<real>,
                       cart: Option<real>, views: Option<real>, score: Option<real>)

  /** A joined table once its window column is dropped. */
  datatype Cell = Cell(user: UserId, value: Option<real>)

  /** The order in which Spark happens to hold the rows of each table. */
  datatype Orders = Orders(txn: seq<Key>, spend: seq<Key>, session: seq<Key>, cart: seq<Key>, views: seq<Key>)

  ghost predicate Lists(order: seq<Key>, t: Table) {
    NoDup(order) && forall k :: k in order <==> k in t
  }

  ghost predicate ListsAll(o: Orders, t: Tables) {
    && Lists(o.txn, t.txn) && Lists(o.spend, t.spend) && Lists(o.session, t.session)
    && Lists(o.cart, t.cart) && Lists(o.views, t.views)
  }

  function Cells(t: Table, order: seq<Key>): (r: seq<Cell>)
    requires forall k :: k in order ==> k in t
    ensures |r| == |order|
    ensures forall i :: 0 <= i < |order| ==> r[i] == Cell(order[i].user, t[order[i]])
  {
    seq(|order|, i requires 0 <= i < |order| => Cell(order[i].user, t[order[i]]))
  }

  function BaseRows(t: Table, order: seq<Key>): (r: seq<Wide>)
    requires forall k :: k in order ==> k in t
    ensures |r| == |order|
    ensures forall i :: 0 <= i < |order| ==> r[i] == Wide(order[i], t[order[i]], None, None, None, None, None)
  {
    seq(|order|, i requires 0 <= i < |order| => Wide(order[i], t[order[i]], None, None, None, None, None))
  }

  // ----- left join on user_id -----

  function OfUser(u: UserId): Cell -> bool {
    (c: Cell) => c.user == u
  }

  function KeyOfUser(u: UserId): Key -> bool {
    (k: Key) => k.user == u
  }

  function Hits(right: seq<Cell>, u: UserId): seq<Cell> {
    Filter(right, OfUser(u))
  }

  function Paired(l: Wide, hits: seq<Cell>, put: (Wide, Option<real>) -> Wide): seq<Wide> {
    if hits == [] then [] else [put(l, hits[0].value)] + Paired(l, hits[1..], put)
  }

  /** The output rows of one left row. */
  function BlockOf(l: Wide, hits: seq<Cell>, put: (Wide, Option<real>) -> Wide): seq<Wide> {
    if hits == [] then [put(l, None)] else Paired(l, hits, put)
  }

  function LeftJoin(left: seq<Wide>, right: seq<Cell>, put: (Wide, Option<real>) -> Wide): seq<Wide> {
    if left == [] then []
    else BlockOf(left[0], Hits(right, left[0].key.user), put) + LeftJoin(left[1..], right, put)
  }

  function PutSpend(w: Wide, v: Option<real>): Wide { w.(spend := v) }
  function PutSession(w: Wide, v: Option<real>): Wide { w.(session := v) }
  function PutCart(w: Wide, v: Option<real>): Wide { w.(cart := v) }
  function PutViews(w: Wide, v: Option<real>): Wide { w.(views := v) }
  function PutScore(w: Wide, v: Option<real>): Wide { w.(score := v) }

  function JoinChain(base: seq<Wide>, spend: seq<Cell>, session: seq<Cell>, cart: seq<Cell>,
                     views: seq<Cell>): seq<Wide> {
    LeftJoin(LeftJoin(LeftJoin(LeftJoin(base, spend, PutSpend), session, PutSession), cart, PutCart), views, PutViews)
  }

  function Fill(v: Option<real>): Option<real> {
    Some(v.GetOr(0.0))
  }

  function FillFeatures(w: Wide): Wide {
    w.(txn := Fill(w.txn), spend := Fill(w.spend), session := Fill(w.session), cart := Fill(w.cart),
        views := Fill(w.views))
  }

  function FillScore(w: Wide): Wide {
    w.(score := Fill(w.score))
  }

  function AllFeatures(t: Tables, o: Orders): seq<Wide>
    requires ListsAll(o, t)
  {
    Map(Joined(t, o), FillFeatures)
  }

  function Joined(t: Tables, o: Orders): seq<Wide>
    requires ListsAll(o, t)
  {
    JoinChain(BaseRows(t.txn, o.txn), Cells(t.spend, o.spend), Cells(t.session, o.session),
              Cells(t.cart, o.cart), Cells(t.views, o.views))
  }

  // ----- the order of the tables -----

  lemma {:induction false} PairedIsMap(l: Wide, hits: seq<Cell>, put: (Wide, Option<real>) -> Wide)
    ensures Paired(l, hits, put) == Map(hits, (c: Cell) => put(l, c.value))
  {
    if hits == [] {
    } else {
      PairedIsMap(l, hits[1..], put);
    }
  }

  lemma BlockPermuted(l: Wide, hits: seq<Cell>, hits': seq<Cell>, put: (Wide, Option<real>) -> Wide)
    requires multiset(hits) == multiset(hits')
    ensures multiset(BlockOf(l, hits, put)) == multiset(BlockOf(l, hits', put))
  {
    assert |multiset(hits)| == |hits| && |multiset(hits')| == |hits'|;
    PairedIsMap(l, hits, put);
    PairedIsMap(l, hits', put);
    MapPermuted(hits, hits', (c: Cell) => put(l, c.value));
  }

  lemma {:induction false} JoinConcat(a: seq<Wide>, b: seq<Wide>, right: seq<Cell>, put: (Wide, Option<real>) -> Wide)
    ensures LeftJoin(a + b, right, put) == LeftJoin(a, right, put) + LeftJoin(b, right, put)
  {
    if a == [] {
      assert a + b == b;
    } else {
      assert (a + b)[1..] == a[1..] + b;
      JoinConcat(a[1..], b, right, put);
    }
  }

  lemma {:induction false} JoinOtherRight(left: seq<Wide>, right: seq<Cell>, right': seq<Cell>,
                                          put: (Wide, Option<real>) -> Wide)
    requires multiset(right) == multiset(right')
    ensures multiset(LeftJoin(left, right, put)) == multiset(LeftJoin(left, right', put))
  {
    if left == [] {
    } else {
      var u := left[0].key.user;
      JoinOtherRight(left[1..], right, right', put);
      FilterPermuted(right, right', OfUser(u));
      BlockPermuted(left[0], Hits(right, u), Hits(right', u), put);
    }
  }

  lemma JoinInside(before: seq<Wide>, l: Wide, after: seq<Wide>, right: seq<Cell>, put: (Wide, Option<real>) -> Wide)
    ensures multiset(LeftJoin(before + [l] + after, right, put))
         == multiset(LeftJoin([l], right, put)) + multiset(LeftJoin(before + after, right, put))
  {
    JoinConcat(before, after, right, put);
    JoinConcat(before + [l], after, right, put);
    JoinConcat(before, [l], right, put);
  }

  lemma {:induction false} JoinOtherLeft(a: seq<Wide>, b: seq<Wide>, right: seq<Cell>,
                                         put: (Wide, Option<real>) -> Wide)
    requires multiset(a) == multiset(b)
    ensures multiset(LeftJoin(a, right, put)) == multiset(LeftJoin(b, right, put))
  {
    if a == [] {
      assert |multiset(b)| == 0;
      assert b == [];
    } else {
      TailMultiset(a);
      var before, after := RemoveFrom(b, a[0]);
      JoinOtherLeft(a[1..], before + after, right, put);
      assert a == [a[0]] + a[1..];
      JoinConcat([a[0]], a[1..], right, put);
      JoinInside(before, a[0], after, right, put);
    }
  }

  /** A left join of permuted tables is the same join permuted. */
  lemma JoinPermuted(left: seq<Wide>, left': seq<Wide>, right: seq<Cell>, right': seq<Cell>,
                     put: (Wide, Option<real>) -> Wide)
    requires multiset(left) == multiset(left') && multiset(right) == multiset(right')
    ensures multiset(LeftJoin(left, right, put)) == multiset(LeftJoin(left', right', put))
  {
    JoinOtherRight(left, right, right', put);
    JoinOtherLeft(left, left', right', put);
  }

  lemma CellsPermuted(t: Table, order: seq<Key>, order': seq<Key>)
    requires Lists(order, t) && Lists(order', t)
    ensures multiset(Cells(t, order)) == multiset(Cells(t, order'))
  {
    var cell := (k: Key) => Cell(k.user, if k in t then t[k] else None);
    SameElements(order, order');
    MapPermuted(order, order', cell);
    assert Cells(t, order) == Map(order, cell) && Cells(t, order') == Map(order', cell);
  }

  lemma BasePermuted(t: Table, order: seq<Key>, order': seq<Key>)
    requires Lists(order, t) && Lists(order', t)
    ensures multiset(BaseRows(t, order)) == multiset(BaseRows(t, order'))
  {
    var base := (k: Key) => Wide(k, if k in t then t[k] else None, None, None, None, None, None);
    SameElements(order, order');
    MapPermuted(order, order', base);
    assert BaseRows(t, order) == Map(order, base) && BaseRows(t, order') == Map(order', base);
  }

  lemma JoinedPermuted(t: Tables, o: Orders, o': Orders)
    requires ListsAll(o, t) && ListsAll(o', t)
    ensures multiset(Joined(t, o)) == multiset(Joined(t, o'))
  {
    BasePermuted(t.txn, o.txn, o'.txn);
    CellsPermuted(t.spend, o.spend, o'.spend);
    CellsPermuted(t.session, o.session, o'.session);
    CellsPermuted(t.cart, o.cart, o'.cart);
    CellsPermuted(t.views, o.views, o'.views);
    ChainPermuted(BaseRows(t.txn, o.txn), BaseRows(t.txn, o'.txn), Cells(t.spend, o.spend), Cells(t.spend, o'.spend),
                  Cells(t.session, o.session), Cells(t.session, o'.session),
                  Cells(t.cart, o.cart), Cells(t.cart, o'.cart),
                  Cells(t.views, o.views), Cells(t.views, o'.views));
  }

  lemma ChainPermuted(base: seq<Wide>, base': seq<Wide>, spend: seq<Cell>, spend': seq<Cell>,
                      session: seq<Cell>, session': seq<Cell>, cart: seq<Cell>, cart': seq<Cell>,
                      views: seq<Cell>, views': seq<Cell>)
    requires multiset(base) == multiset(base') && multiset(spend) == multiset(spend')
    requires multiset(session) == multiset(session') && multiset(cart) == multiset(cart')
    requires multiset(views) == multiset(views')
    ensures multiset(JoinChain(base, spend, session, cart, views))
            == multiset(JoinChain(base', spend', session', cart', views'))
  {
    var j1, j1' := LeftJoin(base, spend, PutSpend), LeftJoin(base', spend', PutSpend);
    var j2, j2' := LeftJoin(j1, session, PutSession), LeftJoin(j1', session', PutSession);
    JoinPermuted(base, base', spend, spend', PutSpend);
    JoinPermuted(j1, j1', session, session', PutSession);
    JoinPermuted(j2, j2', cart, cart', PutCart);
    JoinPermuted(LeftJoin(j2, cart, PutCart), LeftJoin(j2', cart', PutCart), views, views', PutViews);
  }

  /** The order in which the tables are held decides only the order of the delivered rows. */
  lemma RowsIgnoreOrder(t: Tables, o: Orders, o': Orders)
    requires ListsAll(o, t) && ListsAll(o', t)
    ensures multiset(AllFeatures(t, o)) == multiset(AllFeatures(t, o'))
  {
    JoinedPermuted(t, o, o');
    MapPermuted(Joined(t, o), Joined(t, o'), FillFeatures);
  }

  // ----- how often a row is repeated -----

  /** Number of output rows per input row of a left join. */
  function Fanout(right: seq<Cell>, u: UserId): nat {
    if Count(right, OfUser(u)) == 0 then 1 else Count(right, OfUser(u))
  }

  function IsBase(k: Key, txn: Option<real>): Wide -> bool {
    (w: Wide) => w.key == k && w.txn == txn
  }

  lemma {:induction false} PairedCount(l: Wide, hits: seq<Cell>, put: (Wide, Option<real>) -> Wide, k: Key,
                                       txn: Option<real>)
    requires forall v :: put(l, v).key == l.key && put(l, v).txn == l.txn
    ensures Count(Paired(l, hits, put), IsBase(k, txn)) == if IsBase(k, txn)(l) then |hits| else 0
  {
    if hits == [] {
    } else {
      PairedCount(l, hits[1..], put, k, txn);
      assert Paired(l, hits, put)[1..] == Paired(l, hits[1..], put);
    }
  }

  lemma {:induction false} JoinCount(left: seq<Wide>, right: seq<Cell>, put: (Wide, Option<real>) -> Wide, k: Key,
                                     txn: Option<real>)
    requires forall w, v :: put(w, v).key == w.key && put(w, v).txn == w.txn
    ensures Count(LeftJoin(left, right, put), IsBase(k, txn)) == Count(left, IsBase(k, txn)) * Fanout(right, k.user)
  {
    if left == [] {
    } else {
      var l, hits, p := left[0], Hits(right, left[0].key.user), IsBase(k, txn);
      JoinCount(left[1..], right, put, k, txn);
      PairedCount(l, hits, put, k, txn);
      FilterCount(right, OfUser(l.key.user));
      var here := if hits == [] then [put(l, None)] else Paired(l, hits, put);
      CountConcat(here, LeftJoin(left[1..], right, put), p);
      if hits == [] {
        assert here[1..] == [];
      }
      assert Count(here, p) == if p(l) then Fanout(right, k.user) else 0;
      MulNext(Count(left[1..], p), Fanout(right, k.user));
    }
  }

  lemma MulNext(n: nat, f: nat)
    ensures (n + 1) * f == n * f + f
  {
  }

  /** Product of the four fanouts of a user: what compute_all_features multiplies each of the user's rows by. */
  function Multiplicity(o: Orders, u: UserId): nat {
    FanoutOf(o.spend, u) * FanoutOf(o.session, u) * FanoutOf(o.cart, u) * FanoutOf(o.views, u)
  }

  function FanoutOf(order: seq<Key>, u: UserId): nat {
    if Count(order, KeyOfUser(u)) == 0 then 1 else Count(order, KeyOfUser(u))
  }

  lemma {:induction false} CellsPerUser(t: Table, order: seq<Key>, u: UserId)
    requires forall k :: k in order ==> k in t
    ensures Count(Cells(t, order), OfUser(u)) == Count(order, KeyOfUser(u))
  {
    if order == [] {
    } else {
      forall k | k in order[1..]
        ensures k in t
      {
        assert k in order;
      }
      CellsPerUser(t, order[1..], u);
      assert Cells(t, order)[1..] == Cells(t, order[1..]);
    }
  }

  lemma {:induction false} BaseRowsCount(t: Table, order: seq<Key>, k: Key, txn: Option<real>)
    requires NoDup(order) && forall j :: j in order ==> j in t
    ensures Count(BaseRows(t, order), IsBase(k, txn)) == if k in order && t[k] == txn then 1 else 0
  {
    if order == [] {
    } else {
      forall j | j in order[1..]
        ensures j in t
      {
        assert j in order;
      }
      BaseRowsCount(t, order[1..], k, txn);
      assert BaseRows(t, order)[1..] == BaseRows(t, order[1..]);
      assert order == [order[0]] + order[1..];
    }
  }

  lemma {:induction false} FillKeepsCount(s: seq<Wide>, k: Key, x: real)
    requires forall w :: w in s ==> w.txn.Some?
    ensures Count(Map(s, FillFeatures), IsBase(k, Some(x))) == Count(s, IsBase(k, Some(x)))
  {
    if s == [] {
    } else {
      forall w | w in s[1..]
        ensures w.txn.Some?
      {
        assert w in s;
      }
      FillKeepsCount(s[1..], k, x);
      assert Map(s, FillFeatures)[1..] == Map(s[1..], FillFeatures);
      assert s[0] in s;
    }
  }

  // ----- which rows come out -----

  /** A joined value comes from one of the user's cells, and is null when there is none. */
  ghost predicate Offered(right: seq<Cell>, u: UserId, v: Option<real>) {
    Cell(u, v) in right || (v == None && forall c :: c in right ==> c.user != u)
  }

  lemma {:induction false} PairedRows(l: Wide, hits: seq<Cell>, put: (Wide, Option<real>) -> Wide, w: Wide)
    ensures w in Paired(l, hits, put) <==> exists c :: c in hits && w == put(l, c.value)
  {
    if hits == [] {
    } else {
      PairedRows(l, hits[1..], put, w);
      if c :| c in hits && w == put(l, c.value) {
        assert c == hits[0] || c in hits[1..];
      }
    }
  }

  lemma JoinedHere(l: Wide, right: seq<Cell>, put: (Wide, Option<real>) -> Wide, w: Wide)
    ensures w in LeftJoin([l], right, put) <==> exists v :: Offered(right, l.key.user, v) && w == put(l, v)
  {
    var u := l.key.user;
    var hits := Hits(right, u);
    PairedRows(l, hits, put, w);
    FilterMembers(right, OfUser(u));
    assert LeftJoin([l], right, put) == if hits == [] then [put(l, None)] else Paired(l, hits, put) by {
      assert [l][1..] == [] && LeftJoin([], right, put) == [];
    }
    if hits == [] {
      assert forall c :: c in right ==> c.user != u by {
        forall c | c in right
          ensures c.user != u
        {
          assert c in hits <==> c.user == u;
        }
      }
      assert Offered(right, u, None);
      if v :| Offered(right, u, v) && w == put(l, v) {
        assert v == None;
      }
    } else {
      assert hits[0] in hits;
      if v :| Offered(right, u, v) && w == put(l, v) {
        assert Cell(u, v) in hits;
      }
      if c :| c in hits && w == put(l, c.value) {
        assert Offered(right, u, c.value);
      }
    }
  }

  lemma LeftJoinHead(left: seq<Wide>, right: seq<Cell>, put: (Wide, Option<real>) -> Wide)
    requires left != []
    ensures LeftJoin(left, right, put) == LeftJoin([left[0]], right, put) + LeftJoin(left[1..], right, put)
  {
    assert [left[0]][1..] == [] && LeftJoin([], right, put) == [];
  }

  lemma {:induction false} JoinRows(left: seq<Wide>, right: seq<Cell>, put: (Wide, Option<real>) -> Wide, w: Wide)
    ensures w in LeftJoin(left, right, put)
       <==> exists l, v :: l in left && Offered(right, l.key.user, v) && w == put(l, v)
  {
    if left == [] {
    } else {
      JoinRows(left[1..], right, put, w);
      JoinedHere(left[0], right, put, w);
      LeftJoinHead(left, right, put);
      if l, v :| l in left && Offered(right, l.key.user, v) && w == put(l, v) {
        assert l == left[0] || l in left[1..];
      }
    }
  }

  /** The chain pairs every base row with every combination of the user's cells, whatever their windows. */
  lemma ChainRows(base: seq<Wide>, spend: seq<Cell>, session: seq<Cell>, cart: seq<Cell>, views: seq<Cell>, w: Wide)
    requires forall b :: b in base ==> b == Wide(b.key, b.txn, None, None, None, None, None)
    ensures w in JoinChain(base, spend, session, cart, views) <==>
            && Wide(w.key, w.txn, None, None, None, None, None) in base
            && w.score == None
            && Offered(spend, w.key.user, w.spend) && Offered(session, w.key.user, w.session)
            && Offered(cart, w.key.user, w.cart) && Offered(views, w.key.user, w.views)
  {
    var j1 := LeftJoin(base, spend, PutSpend);
    var j2 := LeftJoin(j1, session, PutSession);
    var j3 := LeftJoin(j2, cart, PutCart);
    var w3, w2, w1 := w.(views := None), w.(views := None, cart := None),
        w.(views := None, cart := None, session := None);
    var w0 := w1.(spend := None);
    LastPut(base, spend, PutSpend, (x: Wide) => x.spend, w1, w0);
    assert forall x :: x in j1 ==> x.session == None && x.cart == None && x.views == None by {
      forall x | x in j1
        ensures x.session == None && x.cart == None && x.views == None
      {
        JoinRows(base, spend, PutSpend, x);
      }
    }
    LastPut(j1, session, PutSession, (x: Wide) => x.session, w2, w1);
    assert forall x :: x in j2 ==> x.cart == None && x.views == None by {
      forall x | x in j2
        ensures x.cart == None && x.views == None
      {
        JoinRows(j1, session, PutSession, x);
      }
    }
    LastPut(j2, cart, PutCart, (x: Wide) => x.cart, w3, w2);
    assert forall x :: x in j3 ==> x.views == None by {
      forall x | x in j3
        ensures x.views == None
      {
        JoinRows(j2, cart, PutCart, x);
      }
    }
    LastPut(j3, views, PutViews, (x: Wide) => x.views, w, w3);
  }

  /** A join step seen from its output row: the row before the put, and a value offered to its user. */
  lemma LastPut(left: seq<Wide>, right: seq<Cell>, put: (Wide, Option<real>) -> Wide, get: Wide -> Option<real>,
                w: Wide, before: Wide)
    requires forall l, v :: put(l, v).key == l.key && get(put(l, v)) == v
    requires forall l, v :: l in left && put(l, v) == w ==> l == before
    requires put(before, get(w)) == w
    ensures w in LeftJoin(left, right, put) <==> before in left && Offered(right, w.key.user, get(w))
  {
    JoinRows(left, right, put, w);
    assert put(before, get(w)).key == before.key;
    if l, v :| l in left && Offered(right, l.key.user, v) && w == put(l, v) {
      assert l == before && get(put(l, v)) == v;
    }
  }

  // ----- what compute_all_features promises and what it delivers -----

  lemma ChainCount(base: seq<Wide>, spend: seq<Cell>, session: seq<Cell>, cart: seq<Cell>, views: seq<Cell>,
                   k: Key, txn: Option<real>)
    ensures Count(JoinChain(base, spend, session, cart, views), IsBase(k, txn))
         == Count(base, IsBase(k, txn)) * Fanout(spend, k.user) * Fanout(session, k.user)
            * Fanout(cart, k.user) * Fanout(views, k.user)
  {
    var j1 := LeftJoin(base, spend, PutSpend);
    var j2 := LeftJoin(j1, session, PutSession);
    var j3 := LeftJoin(j2, cart, PutCart);
    JoinCount(base, spend, PutSpend, k, txn);
    JoinCount(j1, session, PutSession, k, txn);
    JoinCount(j2, cart, PutCart, k, txn);
    JoinCount(j3, views, PutViews, k, txn);
  }

  /** Base rows are conserved, but each comes out once per combination of the user's rows in the joined tables. */
  lemma BaseRowsRepeated(t: Tables, o: Orders, k: Key, x: real)
    requires ListsAll(o, t) && forall j :: j in t.txn ==> t.txn[j].Some?
    ensures Count(AllFeatures(t, o), IsBase(k, Some(x)))
         == if k in t.txn && t.txn[k] == Some(x) then Multiplicity(o, k.user) else 0
  {
    JoinedCount(t, o, k, Some(x));
    forall w | w in Joined(t, o)
      ensures w.txn.Some?
    {
      JoinedRow(t, o, w);
    }
    FillKeepsCount(Joined(t, o), k, x);
  }

  lemma JoinedCount(t: Tables, o: Orders, k: Key, txn: Option<real>)
    requires ListsAll(o, t)
    ensures Count(Joined(t, o), IsBase(k, txn)) == if k in t.txn && t.txn[k] == txn then Multiplicity(o, k.user) else 0
  {
    var u := k.user;
    ChainCount(BaseRows(t.txn, o.txn), Cells(t.spend, o.spend), Cells(t.session, o.session),
               Cells(t.cart, o.cart), Cells(t.views, o.views), k, txn);
    BaseRowsCount(t.txn, o.txn, k, txn);
    CellsPerUser(t.spend, o.spend, u);
    CellsPerUser(t.session, o.session, u);
    CellsPerUser(t.cart, o.cart, u);
    CellsPerUser(t.views, o.views, u);
    UnitTimes(if k in t.txn && t.txn[k] == txn then 1 else 0,
              FanoutOf(o.spend, u), FanoutOf(o.session, u), FanoutOf(o.cart, u), FanoutOf(o.views, u));
  }

  lemma UnitTimes(b: nat, s: nat, r: nat, c: nat, p: nat)
    requires b <= 1
    ensures b * s * r * c * p == if b == 1 then s * r * c * p else 0
  {
  }

  lemma JoinedRow(t: Tables, o: Orders, w: Wide)
    requires ListsAll(o, t) && w in Joined(t, o)
    ensures w.key in t.txn && w.txn == t.txn[w.key]
    ensures Offered(Cells(t.spend, o.spend), w.key.user, w.spend)
    ensures Offered(Cells(t.session, o.session), w.key.user, w.session)
    ensures Offered(Cells(t.cart, o.cart), w.key.user, w.cart) && Offered(Cells(t.views, o.views), w.key.user, w.views)
  {
    var base := BaseRows(t.txn, o.txn);
    ChainRows(base, Cells(t.spend, o.spend), Cells(t.session, o.session), Cells(t.cart, o.cart),
        Cells(t.views, o.views), w);
    var i :| 0 <= i < |base| && base[i] == Wide(w.key, w.txn, None, None, None, None, None);
    assert o.txn[i] in o.txn;
  }

  lemma DeliveredKey(t: Tables, o: Orders, w: Wide)
    requires ListsAll(o, t) && w in AllFeatures(t, o)
    ensures w.key in t.txn
  {
    var i :| 0 <= i < |AllFeatures(t, o)| && AllFeatures(t, o)[i] == w;
    JoinedRow(t, o, Joined(t, o)[i]);
  }

  /** A purchase alone puts twelve rows of its user into the sliding table. */
  lemma SlidingTableFanout(events: seq<Event>, o: Orders, e: Event)
    requires ListsAll(o, BatchTables(events)) && e in events && IsPurchase(e)
    ensures FanoutOf(o.spend, e.user) >= 12
  {
    var purchases := Filter(events, IsPurchase);
    FilterMembers(events, IsPurchase);
    EventInExactlyItsWindows(e, SLIDING_1H);
    forall k | k in EventKeys(e, SLIDING_1H)
      ensures k in o.spend && KeyOfUser(e.user)(k)
    {
      KeySetOf(purchases, SLIDING_1H, e, k);
    }
    CountAtLeast(EventKeys(e, SLIDING_1H), o.spend, KeyOfUser(e.user));
  }

  lemma MultiplicityAtLeast(o: Orders, u: UserId, n: nat)
    requires FanoutOf(o.spend, u) >= n
    ensures Multiplicity(o, u) >= n
  {
    var s, r, c, p := FanoutOf(o.spend, u), FanoutOf(o.session, u), FanoutOf(o.cart, u), FanoutOf(o.views, u);
    AtLeastFactor(s, r);
    AtLeastFactor(s * r, c);
    AtLeastFactor(s * r * c, p);
  }

  lemma AtLeastFactor(a: nat, b: nat)
    requires b >= 1
    ensures a * b >= a
  {
    assert a * (b - 1) >= 0;
  }

  /** The purchase behind a row of the base table. */
  lemma PurchaseBehind(events: seq<Event>, k: Key) returns (e: Event)
    requires k in BatchTables(events).txn
    ensures e in events && IsPurchase(e) && e.user == k.user && InWindow(e, k, TUMBLING_5M)
    ensures BatchTables(events).txn[k] == Some(|Group(Filter(events, IsPurchase), k, TUMBLING_5M)| as real)
    ensures |Group(Filter(events, IsPurchase), k, TUMBLING_5M)| >= 1
  {
    var purchases := Filter(events, IsPurchase);
    var g := Group(purchases, k, TUMBLING_5M);
    KeySetIsNonEmptyGroups(purchases, TUMBLING_5M);
    FilterMembers(purchases, Member(k, TUMBLING_5M));
    FilterMembers(events, IsPurchase);
    TotalsMeaning(g);
    e := g[0];
    assert e in g;
  }

  /** "A single row per user per window" holds exactly when there is nothing to report: no purchase at all. */
  lemma OneRowPerWindowIffNoPurchase(events: seq<Event>, o: Orders)
    requires ListsAll(o, BatchTables(events))
    ensures (forall k, x :: Count(AllFeatures(BatchTables(events), o), IsBase(k, Some(x))) <= 1)
       <==> (forall e :: e in events ==> !IsPurchase(e))
  {
    var t := BatchTables(events);
    forall k | k in t.txn
      ensures t.txn[k].Some?
    {
      var _ := PurchaseBehind(events, k);
    }
    if e :| e in events && IsPurchase(e) {
      var k := EventKeys(e, TUMBLING_5M)[0];
      EventInExactlyItsWindows(e, TUMBLING_5M);
      FilterMembers(events, IsPurchase);
      KeySetOf(Filter(events, IsPurchase), TUMBLING_5M, e, k);
      SlidingTableFanout(events, o, e);
      MultiplicityAtLeast(o, e.user, 12);
      BaseRowsRepeated(t, o, k, t.txn[k].value);
      assert k.user == e.user;
    } else {
      forall k, x
        ensures Count(AllFeatures(t, o), IsBase(k, Some(x))) <= 1
      {
        if k in t.txn {
          var e := PurchaseBehind(events, k);
        }
        BaseRowsRepeated(t, o, k, x);
      }
    }
  }

  // ----- ranges of the delivered values -----

  /** A value joined from a table is one of the user's entries there. */
  lemma OfferedByTable(t: Table, order: seq<Key>, u: UserId, v: Option<real>)
    requires Lists(order, t) && Offered(Cells(t, order), u, v)
    ensures (exists k :: k in t && k.user == u && t[k] == v) || (v == None && forall k :: k in t ==> k.user != u)
  {
    var cells := Cells(t, order);
    if Cell(u, v) in cells {
      var i :| 0 <= i < |cells| && cells[i] == Cell(u, v);
      assert order[i] in t && order[i].user == u && t[order[i]] == v;
    } else {
      forall k | k in t
        ensures k.user != u
      {
        assert k in order;
        var i :| 0 <= i < |order| && order[i] == k;
        assert cells[i] in cells;
      }
    }
  }

  /** The group behind a value of a table, and the value as a column of that group. */
  lemma GroupBehind(events: seq<Event>, spec: Spec, f: Acc -> Option<real>, order: seq<Key>, e: Event, v: Option<real>)
    returns (g: seq<Event>)
    requires spec.Valid() && e in events
    requires Lists(order, Column(Aggregate(events, spec), f))
    requires Offered(Cells(Column(Aggregate(events, spec), f), order), e.user, v)
    ensures g != [] && v == f(AccOf(g)) && forall d :: d in g ==> d in events && d.user == e.user
  {
    var t := Column(Aggregate(events, spec), f);
    EventInExactlyItsWindows(e, spec);
    KeySetOf(events, spec, e, EventKeys(e, spec)[0]);
    OfferedByTable(t, order, e.user, v);
    assert EventKeys(e, spec)[0] in t;
    var k :| k in t && k.user == e.user && t[k] == v;
    g := Group(events, k, spec);
    KeySetIsNonEmptyGroups(events, spec);
    FilterMembers(events, Member(k, spec));
  }

  ghost predicate AmountsWithin(events: seq<Event>, u: UserId, lo: real, hi: real) {
    forall e :: e in events && e.user == u && IsPurchase(e) ==> e.amount.Some? && lo <= e.amount.value <= hi
  }

  ghost predicate SessionsKnown(events: seq<Event>, u: UserId) {
    forall e :: e in events && e.user == u ==> e.session.Some?
  }

  /** Every delivered row is in range, whichever windows the joins happened to pair. */
  lemma DeliveredRanges(events: seq<Event>, o: Orders, w: Wide, lo: real, hi: real)
    requires ListsAll(o, BatchTables(events)) && w in AllFeatures(BatchTables(events), o)
    ensures w.key in BatchTables(events).txn && w.txn == BatchTables(events).txn[w.key] && w.txn.value >= 1.0
    ensures w.cart.Some? && 0.0 <= w.cart.value <= 1.0
    ensures w.session.Some? && (w.session.value == 0.0 || w.session.value >= 1.0)
    ensures SessionsKnown(events, w.key.user) ==> w.session.value >= 1.0
    ensures AmountsWithin(events, w.key.user, lo, hi) ==> w.spend.Some? && lo <= w.spend.value <= hi
  {
    var t := BatchTables(events);
    var i :| 0 <= i < |AllFeatures(t, o)| && AllFeatures(t, o)[i] == w;
    var c := Joined(t, o)[i];
    assert w == FillFeatures(c);
    JoinedRow(t, o, c);
    var e := PurchaseBehind(events, c.key);
    CartInRange(events, o, e, c.cart);
    SessionInRange(events, o, e, c.session);
    SpendInRange(events, o, e, c.spend, lo, hi);
  }

  lemma CartInRange(events: seq<Event>, o: Orders, e: Event, v: Option<real>)
    requires ListsAll(o, BatchTables(events)) && e in events && IsPurchase(e)
    requires Offered(Cells(BatchTables(events).cart, o.cart), e.user, v)
    ensures v.Some? && 0.0 <= v.value <= 1.0
  {
    var kept := Filter(events, IsCartOrPurchase);
    FilterMembers(events, IsCartOrPurchase);
    var g := GroupBehind(kept, TUMBLING_30M, CartRatio, o.cart, e, v);
    CartRatioRange(g);
  }

  lemma SessionInRange(events: seq<Event>, o: Orders, e: Event, v: Option<real>)
    requires ListsAll(o, BatchTables(events)) && e in events && IsPurchase(e)
    requires Offered(Cells(BatchTables(events).session, o.session), e.user, v)
    ensures v.Some? && (v.value == 0.0 || v.value >= 1.0)
    ensures SessionsKnown(events, e.user) ==> v.value >= 1.0
  {
    var g := GroupBehind(events, TUMBLING_5M, SessionRate, o.session, e, v);
    SessionRateRange(g);
    if SessionsKnown(events, e.user) {
      assert g[0] in g;
      assert g[0].session.value in Sessions(g);
    }
  }

  lemma SpendInRange(events: seq<Event>, o: Orders, e: Event, v: Option<real>, lo: real, hi: real)
    requires ListsAll(o, BatchTables(events)) && e in events && IsPurchase(e)
    requires Offered(Cells(BatchTables(events).spend, o.spend), e.user, v)
    ensures AmountsWithin(events, e.user, lo, hi) ==> v.Some? && lo <= v.value <= hi
  {
    if AmountsWithin(events, e.user, lo, hi) {
      var purchases := Filter(events, IsPurchase);
      FilterMembers(events, IsPurchase);
      var g := GroupBehind(purchases, SLIDING_1H, AvgAmount, o.spend, e, v);
      AvgAmountIsMean(g);
      AmountsMembers(g);
      assert g[0] in g && g[0].amount.Some?;
      assert g[0].amount.value in Amounts(g);
      forall i | 0 <= i < |Amounts(g)|
        ensures lo <= Amounts(g)[i] <= hi
      {
        assert Amounts(g)[i] in Amounts(g);
      }
      MeanBounds(Amounts(g), lo, hi);
    }
  }

  lemma ViewsOffered(events: seq<Event>, o: Orders, u: UserId, v: Option<real>)
    requires ListsAll(o, BatchTables(events)) && Offered(Cells(BatchTables(events).views, o.views), u, v)
    ensures v == None <==> forall e :: e in events && e.user == u ==> !IsPageView(e)
  {
    var views, t := Filter(events, IsPageView), BatchTables(events).views;
    FilterMembers(events, IsPageView);
    if e :| e in events && e.user == u && IsPageView(e) {
      var _ := GroupBehind(views, TUMBLING_1H, EventCount, o.views, e, v);
    } else {
      OfferedByTable(t, o.views, u, v);
      forall k | k in t
        ensures k.user != u
      {
        KeySetIsNonEmptyGroups(views, TUMBLING_1H);
        FilterMembers(views, Member(k, TUMBLING_1H));
        assert Group(views, k, TUMBLING_1H)[0] in views;
      }
    }
  }

  /** Before fillna, a row of a user whose amounts are known lacks at most its page views, and that exactly when there
      are none. */
  lemma OnlyViewsAreFilled(events: seq<Event>, o: Orders, w: Wide, lo: real, hi: real)
    requires ListsAll(o, BatchTables(events)) && w in Joined(BatchTables(events), o)
    ensures w.txn.Some? && w.session.Some? && w.cart.Some?
    ensures AmountsWithin(events, w.key.user, lo, hi) ==> w.spend.Some?
    ensures w.views == None <==> forall e :: e in events && e.user == w.key.user ==> !IsPageView(e)
  {
    JoinedRow(BatchTables(events), o, w);
    var e := PurchaseBehind(events, w.key);
    CartInRange(events, o, e, w.cart);
    SessionInRange(events, o, e, w.session);
    SpendInRange(events, o, e, w.spend, lo, hi);
    ViewsOffered(events, o, w.key.user, w.views);
  }

  // ----- conservation -----

  /** A user's txn_count_5m values over all windows add up to the user's purchases. */
  lemma TxnCountsAddUp(events: seq<Event>, order: seq<Key>, u: UserId)
    requires Lists(order, BatchTables(events).txn)
    ensures CountOverWindows(Filter(events, IsPurchase), u, order, TUMBLING_5M)
         == Count(Filter(events, IsPurchase), ByUser(u))
    ensures forall k :: k in order ==>
              BatchTables(events).txn[k] == Some(|Group(Filter(events, IsPurchase), k, TUMBLING_5M)| as real)
  {
    var purchases := Filter(events, IsPurchase);
    KeySetIsNonEmptyGroups(purchases, TUMBLING_5M);
    WindowCountsConserveEvents(purchases, u, order, TUMBLING_5M);
    forall k | k in order
      ensures BatchTables(events).txn[k] == Some(|Group(purchases, k, TUMBLING_5M)| as real)
    {
      TotalsMeaning(Group(purchases, k, TUMBLING_5M));
    }
  }
}
