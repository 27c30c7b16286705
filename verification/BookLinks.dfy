// How the ladders and the id index hang together, and what their changes do to the priority lists.

module BookLinks {
  import opened Orders
  import opened Lists
  import opened Books
  import opened Ladder
  import opened Levels

  predicate NoDup(orders: seq<Order>) {
    forall i, j :: 0 <= i < j < |orders| ==> orders[i] != orders[j]
  }

  /** `o` is where the index, its side and its price say it is. */
  ghost predicate Registered(buy: bool, p: int, o: Order, index: map<int, Order>)
    reads index.Values`price
  {
    o.id in index && index[o.id] == o && o.buy == buy && o.price == p
  }

  /** No level is empty, nothing stands twice in a level, and everything in a level is registered there. */
  ghost predicate Indexed(buy: bool, refs: map<int, seq<Order>>, index: map<int, Order>)
    reads index.Values`price
  {
    forall p :: p in refs ==>
      refs[p] != [] && NoDup(refs[p]) && forall o :: o in refs[p] ==> Registered(buy, p, o, index)
  }

  /** The queues of a ladder. */
  function Refs(levels: map<int, Level>): map<int, seq<Order>> {
    map p | p in levels :: levels[p].orders
  }

  /** The cached best price: 0 stands for an empty ladder. */
  function BestOrZero(buy: bool, keys: set<int>): int {
    if keys == {} then 0 else Best(buy, keys)
  }

  /** The queues after an order has joined its level. */
  ghost function Joined(refs: map<int, seq<Order>>, o: Order): map<int, seq<Order>>
    reads o`price
  {
    refs[o.price := At(refs, o.price) + [o]]
  }

  /** The queues after the order with this id has left level `p`: an emptied level goes away. */
  ghost function Left(refs: map<int, seq<Order>>, p: int, id: int): map<int, seq<Order>> {
    var rest := Dropped(At(refs, p), id);
    if rest == [] then refs - {p} else refs[p := rest]
  }

  lemma SlotUnique(buy: bool, l: seq<Entry>, price: int, s: nat)
    requires s <= |l|
    requires forall j :: 0 <= j < s ==> Ahead(buy, l[j].price, price)
    requires s < |l| ==> !Ahead(buy, l[s].price, price)
    ensures Slot(buy, l, price) == s
  {
  }

  /** Everything in front of a price is ahead of it, everything behind is not. */
  lemma CutPrices(buy: bool, refs: map<int, seq<Order>>, index: map<int, Order>, p: int)
    requires Indexed(buy, refs, index)
    ensures forall o :: o in Flat(buy, Better(buy, refs, p)) ==>
              Registered(buy, o.price, o, index) && o.price != p && Ahead(buy, o.price, p)
    ensures forall o :: o in Flat(buy, Worse(buy, refs, p)) ==>
              Registered(buy, o.price, o, index) && !Ahead(buy, o.price, p)
  {
    forall o | o in Flat(buy, Better(buy, refs, p))
      ensures Registered(buy, o.price, o, index) && o.price != p && Ahead(buy, o.price, p)
    {
      FlatHolds(buy, Better(buy, refs, p), o);
    }
    forall o | o in Flat(buy, Worse(buy, refs, p))
      ensures Registered(buy, o.price, o, index) && !Ahead(buy, o.price, p)
    {
      FlatHolds(buy, Worse(buy, refs, p), o);
    }
  }

  lemma InsertMiddle(b: seq<Entry>, q: seq<Entry>, w: seq<Entry>, e: Entry)
    requires forall i :: 0 <= i < |b| ==> Ahead(e.buy, b[i].price, e.price)
    requires forall i :: 0 <= i < |q| ==> q[i].price == e.price
    requires w != [] ==> !Ahead(e.buy, w[0].price, e.price)
    ensures Insert(b + q + w, e) == b + (q + [e]) + w
  {
    var s, l := |b| + |q|, b + q + w;
    forall j | 0 <= j < s
      ensures Ahead(e.buy, l[j].price, e.price)
    {
      assert l[j] == if j < |b| then b[j] else q[j - |b|];
    }
    assert s < |l| ==> l[s] == w[0];
    SlotUnique(e.buy, l, e.price, s);
    assert l[..s] == b + q && l[s..] == w;
    assert (b + q) + [e] == b + (q + [e]);
  }

  /** Joining a level is an insertion into the priority list. */
  lemma JoinIsInsert(buy: bool, refs: map<int, seq<Order>>, index: map<int, Order>, o: Order)
    requires Indexed(buy, refs, index) && o.buy == buy
    ensures Views(Flat(buy, Joined(refs, o))) == Insert(Views(Flat(buy, refs)), o.View())
  {
    hide Views;
    var p := o.price;
    var b, q, w := Flat(buy, Better(buy, refs, p)), At(refs, p), Flat(buy, Worse(buy, refs, p));
    FlatAt(buy, refs, p);
    FlatUpdate(buy, refs, p, q + [o]);
    CutPrices(buy, refs, index, p);
    assert forall x :: x in q ==> Registered(buy, p, x, index);
    InsertBetween(b, q, w, o);
  }

  lemma InsertBetween(b: seq<Order>, q: seq<Order>, w: seq<Order>, o: Order)
    requires forall x :: x in b ==> Ahead(o.buy, x.price, o.price)
    requires forall x :: x in q ==> x.price == o.price
    requires forall x :: x in w ==> !Ahead(o.buy, x.price, o.price)
    ensures Views(b + (q + [o]) + w) == Insert(Views(b + q + w), o.View())
  {
    hide Views;
    assert forall i :: 0 <= i < |b| ==> b[i] in b;
    assert forall i :: 0 <= i < |q| ==> q[i] in q;
    assert w != [] ==> w[0] in w;
    InsertMiddle(Views(b), Views(q), Views(w), o.View());
    ViewsJoin(b, q);
    ViewsJoin(b + q, w);
    ViewsJoin(q, [o]);
    ViewsJoin(b, q + [o]);
    ViewsJoin(b + (q + [o]), w);
  }

  /** Leaving a level is a removal from the priority list. */
  lemma LeaveIsRemove(buy: bool, refs: map<int, seq<Order>>, index: map<int, Order>, o: Order)
    requires Indexed(buy, refs, index)
    requires o.price in refs && o in refs[o.price]
    ensures Views(Flat(buy, Left(refs, o.price, o.id))) == Remove(Views(Flat(buy, refs)), o.id)
  {
    hide Views;
    var p := o.price;
    var b, q, w := Flat(buy, Better(buy, refs, p)), refs[p], Flat(buy, Worse(buy, refs, p));
    FlatAt(buy, refs, p);
    CutPrices(buy, refs, index, p);
    assert Registered(buy, p, o, index);
    forall x | x in b
      ensures x.id != o.id
    {
      assert Registered(buy, x.price, x, index);
    }
    RemoveBetween(b, q, w, o);
    FlatLeft(buy, refs, p, o.id);
  }

  lemma FlatLeft(buy: bool, refs: map<int, seq<Order>>, p: int, id: int)
    ensures Flat(buy, Left(refs, p, id))
            == Flat(buy, Better(buy, refs, p)) + Dropped(At(refs, p), id) + Flat(buy, Worse(buy, refs, p))
  {
    var b, rest := Flat(buy, Better(buy, refs, p)), Dropped(At(refs, p), id);
    if rest == [] {
      FlatDrop(buy, refs, p);
      assert b + rest == b;
    } else {
      FlatUpdate(buy, refs, p, rest);
    }
  }

  lemma ViewsJoin(l: seq<Order>, r: seq<Order>)
    ensures Views(l + r) == Views(l) + Views(r)
  {
    hide Views;
  }

  lemma DroppedView(q: seq<Order>, id: int)
    ensures Views(Dropped(q, id)) == Remove(Views(q), id)
  {
    hide Views;
    var i, v := Position(q, id), Views(q);
    if i < |q| {
      IndexUnique(v, id, i);
      ViewsJoin(q[..i], q[i + 1..]);
      assert Views(q[..i]) == v[..i] && Views(q[i + 1..]) == v[i + 1..];
    } else {
      assert !HasId(v, id);
    }
  }

  lemma RemoveMiddle(b: seq<Entry>, q: seq<Entry>, w: seq<Entry>, id: int)
    requires !HasId(b, id) && HasId(q, id)
    ensures Remove(b + q + w, id) == b + Remove(q, id) + w
  {
    var i := IndexOf(q, id);
    var l, n := b + q + w, |b| + i;
    assert l[n] == q[i];
    forall j | 0 <= j < n
      ensures l[j].id != id
    {
      assert l[j] == if j < |b| then b[j] else q[j - |b|];
    }
    IndexUnique(l, id, n);
    assert l[..n] == b + q[..i];
    assert l[n + 1..] == q[i + 1..] + w;
    Regroup(b, q[..i], q[i + 1..], w);
  }

  lemma Regroup(b: seq<Entry>, x: seq<Entry>, y: seq<Entry>, w: seq<Entry>)
    ensures (b + x) + (y + w) == b + (x + y) + w
  {
  }

  lemma RemoveBetween(b: seq<Order>, q: seq<Order>, w: seq<Order>, o: Order)
    requires o in q
    requires forall x :: x in b ==> x.id != o.id
    ensures Views(b + Dropped(q, o.id) + w) == Remove(Views(b + q + w), o.id)
  {
    hide Views;
    var i :| 0 <= i < |q| && q[i] == o;
    assert Views(q)[i].id == o.id;
    assert !HasId(Views(b), o.id);
    RemoveMiddle(Views(b), Views(q), Views(w), o.id);
    DroppedView(q, o.id);
    ViewsJoin(b, q);
    ViewsJoin(b + q, w);
    ViewsJoin(b, Dropped(q, o.id));
    ViewsJoin(b + Dropped(q, o.id), w);
  }

  /** Joining keeps the links when the index learns of the order and the id was not in use. */
  lemma JoinKeepsIndexed(buy: bool, refs: map<int, seq<Order>>, index: map<int, Order>, o: Order)
    requires Indexed(buy, refs, index) && o.id !in index && o.buy == buy
    ensures Indexed(buy, Joined(refs, o), index[o.id := o])
  {
    var refs', index' := Joined(refs, o), index[o.id := o];
    forall p | p in refs'
      ensures refs'[p] != [] && NoDup(refs'[p]) && forall x :: x in refs'[p] ==> Registered(buy, p, x, index')
    {
      var q := At(refs, p);
      forall x | x in q
        ensures Registered(buy, p, x, index') && x != o
      {
        assert Registered(buy, p, x, index);
      }
      assert forall i :: 0 <= i < |q| ==> q[i] in q;
    }
  }

  lemma OtherSideKeepsIndexed(buy: bool, refs: map<int, seq<Order>>, index: map<int, Order>, o: Order)
    requires Indexed(buy, refs, index) && o.id !in index
    ensures Indexed(buy, refs, index[o.id := o])
  {
    forall p | p in refs
      ensures forall x :: x in refs[p] ==> Registered(buy, p, x, index[o.id := o])
    {
      assert forall x :: x in refs[p] ==> Registered(buy, p, x, index);
    }
  }

  lemma DroppedHolds(orders: seq<Order>, id: int, x: Order)
    ensures x in Dropped(orders, id) ==> x in orders
    ensures x in orders && x.id != id ==> x in Dropped(orders, id)
    ensures NoDup(orders) ==> NoDup(Dropped(orders, id))
  {
    var i, d := Position(orders, id), Dropped(orders, id);
    if i < |orders| {
      assert forall j :: 0 <= j < |d| ==> d[j] == orders[if j < i then j else j + 1];
      if x in orders && x.id != id {
        var j :| 0 <= j < |orders| && orders[j] == x;
        assert d[if j < i then j else j - 1] == x;
      }
    }
  }

  /** Leaving keeps the links when the index forgets the order. */
  lemma LeaveKeepsIndexed(buy: bool, refs: map<int, seq<Order>>, index: map<int, Order>, o: Order)
    requires Indexed(buy, refs, index)
    requires o.price in refs && o in refs[o.price]
    ensures Indexed(buy, Left(refs, o.price, o.id), index - {o.id})
  {
    var refs', index' := Left(refs, o.price, o.id), index - {o.id};
    assert Registered(buy, o.price, o, index);
    forall p | p in refs'
      ensures refs'[p] != [] && NoDup(refs'[p]) && forall x :: x in refs'[p] ==> Registered(buy, p, x, index')
    {
      DroppedHolds(refs[p], o.id, o);
      forall x | x in refs'[p]
        ensures Registered(buy, p, x, index')
      {
        DroppedHolds(refs[p], o.id, x);
        assert Registered(buy, p, x, index);
        if x.id == o.id {
          assert x == o && p == o.price;
          GoneAfterDrop(refs[p], o);
        }
      }
    }
  }

  lemma GoneAfterDrop(orders: seq<Order>, o: Order)
    requires NoDup(orders) && o in orders
    requires forall x :: x in orders && x.id == o.id ==> x == o
    ensures o !in Dropped(orders, o.id)
  {
    var i, d := Position(orders, o.id), Dropped(orders, o.id);
    assert i < |orders| && orders[i] in orders;
    assert forall j :: 0 <= j < |d| ==> d[j] == orders[if j < i then j else j + 1];
  }

  lemma OtherSideAfterLeave(buy: bool, refs: map<int, seq<Order>>, index: map<int, Order>, o: Order)
    requires Indexed(buy, refs, index) && o.id in index && index[o.id] == o && o.buy != buy
    ensures Indexed(buy, refs, index - {o.id})
  {
    forall p, x | p in refs && x in refs[p]
      ensures Registered(buy, p, x, index - {o.id})
    {
      assert Registered(buy, p, x, index);
    }
  }

  /** The best order is the front of the best level. */
  lemma HeadOfFlat(buy: bool, refs: map<int, seq<Order>>, index: map<int, Order>)
    requires Indexed(buy, refs, index)
    ensures Flat(buy, refs) == [] <==> refs.Keys == {}
    ensures refs.Keys != {} ==>
              var p := Best(buy, refs.Keys);
              refs[p] != [] && Flat(buy, refs)[0] == refs[p][0] && Registered(buy, p, refs[p][0], index)
  {
    if refs.Keys != {} {
      var p := Best(buy, refs.Keys);
      assert refs[p][0] in refs[p];
    }
  }

  /** Linked ladders show sorted lists of distinct orders, all on their own side. */
  lemma {:induction false} FlatOrdered(buy: bool, refs: map<int, seq<Order>>, index: map<int, Order>)
    requires Indexed(buy, refs, index)
    ensures var f := Flat(buy, refs);
            && (forall o :: o in f ==> Registered(buy, o.price, o, index) && o.price in refs)
            && NoDup(f)
            && Sorted(buy, Views(f))
    decreases |refs.Keys|
  {
    hide Views, Flat, Best;
    if refs.Keys == {} {
      FlatNone(buy, refs);
    } else {
      var p := Best(buy, refs.Keys);
      var rest := refs - {p};
      FlatOrdered(buy, rest, index);
      assert forall r :: r in rest ==> r != p && Ahead(buy, p, r);
      var f, q, t := Flat(buy, refs), refs[p], Flat(buy, rest);
      FlatFirst(buy, refs);
      assert forall i :: 0 <= i < |q| ==> f[i] == q[i] && q[i] in q;
      assert forall i :: |q| <= i < |f| ==> f[i] == t[i - |q|] && t[i - |q|] in t;
      assert forall o :: o in q ==> Registered(buy, p, o, index);
      OrderedJoin(buy, q, t, p);
    }
  }

  lemma OrderedJoin(buy: bool, q: seq<Order>, t: seq<Order>, p: int)
    requires NoDup(q) && NoDup(t) && Sorted(buy, Views(t))
    requires forall o :: o in q ==> o.price == p
    requires forall o :: o in t ==> o.price != p && Ahead(buy, p, o.price)
    ensures NoDup(q + t) && Sorted(buy, Views(q + t))
  {
    hide Views;
    var f := q + t;
    assert forall i :: 0 <= i < |q| ==> f[i] == q[i] && q[i] in q;
    assert forall i :: |q| <= i < |f| ==> f[i] == t[i - |q|] && t[i - |q|] in t && Views(t)[i - |q|] == f[i].View();
  }

  /** `o` stands in the level of its price. */
  ghost predicate Placed(o: Order, refs: map<int, seq<Order>>)
    reads o`price
  {
    o.price in refs && o in refs[o.price]
  }

  /** Every indexed order stands in its own side's ladder. */
  ghost predicate AllPlaced(index: map<int, Order>, buys: map<int, seq<Order>>, sells: map<int, seq<Order>>)
    reads index.Values`price
  {
    forall id :: id in index ==> index[id].id == id && Placed(index[id], if index[id].buy then buys else sells)
  }

  lemma JoinKeepsPlaced(index: map<int, Order>, buys: map<int, seq<Order>>, sells: map<int, seq<Order>>, o: Order)
    requires AllPlaced(index, buys, sells)
    ensures AllPlaced(index[o.id := o], if o.buy then Joined(buys, o) else buys,
                      if o.buy then sells else Joined(sells, o))
  {
  }

  lemma StaysPlaced(x: Order, refs: map<int, seq<Order>>, p: int, id: int)
    requires Placed(x, refs) && x.id != id
    ensures Placed(x, Left(refs, p, id))
  {
    DroppedHolds(At(refs, p), id, x);
  }

  lemma LeaveKeepsPlaced(index: map<int, Order>, buys: map<int, seq<Order>>, sells: map<int, seq<Order>>, o: Order)
    requires AllPlaced(index, buys, sells) && o.id in index && index[o.id] == o
    ensures AllPlaced(index - {o.id},
                      if o.buy then Left(buys, o.price, o.id) else buys,
                      if o.buy then sells else Left(sells, o.price, o.id))
  {
    hide Placed, Left;
    forall id | id in index && id != o.id
      ensures index[id].buy == o.buy ==> Placed(index[id], Left(if o.buy then buys else sells, o.price, o.id))
    {
      if index[id].buy == o.buy {
        StaysPlaced(index[id], if o.buy then buys else sells, o.price, o.id);
      }
    }
  }

  /** Indexing an id that is already in use breaks the links, whatever order it comes with. */
  lemma DuplicateBreaks(index: map<int, Order>, buys: map<int, seq<Order>>, sells: map<int, seq<Order>>, o: Order)
    requires AllPlaced(index, buys, sells) && o.id in index
    ensures !(&& Indexed(true, if o.buy then Joined(buys, o) else buys, index[o.id := o])
              && Indexed(false, if o.buy then sells else Joined(sells, o), index[o.id := o]))
  {
    var x := index[o.id];
    var refs := if x.buy then buys else sells;
    var refs' := if x.buy == o.buy then Joined(refs, o) else refs;
    assert x in refs'[x.price];
    if x == o {
      var q := refs[o.price];
      var i :| 0 <= i < |q| && q[i] == o;
      assert refs'[o.price][i] == refs'[o.price][|q|];
    } else {
      assert !Registered(x.buy, x.price, x, index[o.id := o]);
    }
  }

  /** The orders of an index. */
  function OrdersIn(index: map<int, Order>): set<Order> {
    set id | id in index :: index[id]
  }

  lemma OrdersInUpdate(index: map<int, Order>, o: Order)
    requires o.id !in index
    ensures OrdersIn(index[o.id := o]) == OrdersIn(index) + {o}
  {
    var index' := index[o.id := o];
    forall x | x in OrdersIn(index) + {o}
      ensures x in OrdersIn(index')
    {
      if x != o {
        var id :| id in index && index[id] == x;
        assert id in index' && index'[id] == x;
      } else {
        assert o.id in index' && index'[o.id] == o;
      }
    }
  }

  /** The index and the ladders agree: every indexed order has one slot, in the level it names, and conversely. */
  ghost predicate Structured(index: map<int, Order>, buys: map<int, seq<Order>>, sells: map<int, seq<Order>>)
    reads index.Values`price
  {
    Indexed(true, buys, index) && Indexed(false, sells, index) && AllPlaced(index, buys, sells)
  }

  /** Adding an order keeps the agreement exactly when its id is new. */
  lemma JoinStructured(index: map<int, Order>, buys: map<int, seq<Order>>, sells: map<int, seq<Order>>, o: Order)
    requires Structured(index, buys, sells)
    ensures Structured(index[o.id := o], if o.buy then Joined(buys, o) else buys,
                       if o.buy then sells else Joined(sells, o))
            <==> o.id !in index
  {
    if o.id in index {
      DuplicateBreaks(index, buys, sells, o);
    } else {
      JoinKeepsPlaced(index, buys, sells, o);
      JoinKeepsIndexed(o.buy, if o.buy then buys else sells, index, o);
      OtherSideKeepsIndexed(!o.buy, if o.buy then sells else buys, index, o);
    }
  }

  /** Removing an indexed order keeps the agreement. */
  lemma LeaveStructured(index: map<int, Order>, buys: map<int, seq<Order>>, sells: map<int, seq<Order>>, o: Order)
    requires Structured(index, buys, sells) && o.id in index && index[o.id] == o
    ensures Structured(index - {o.id},
                       if o.buy then Left(buys, o.price, o.id) else buys,
                       if o.buy then sells else Left(sells, o.price, o.id))
  {
    LeaveKeepsPlaced(index, buys, sells, o);
    LeaveKeepsIndexed(o.buy, if o.buy then buys else sells, index, o);
    OtherSideAfterLeave(!o.buy, if o.buy then sells else buys, index, o);
  }

  // What the ladders show.

  /** The two priority lists that a pair of ladders amounts to. */
  ghost function Shown(index: map<int, Order>, buys: map<int, seq<Order>>, sells: map<int, seq<Order>>): Book
    requires Structured(index, buys, sells)
    reads index.Values`price, index.Values`quantity, index.Values`timestamp
  {
    FlatOrdered(true, buys, index);
    FlatOrdered(false, sells, index);
    Book(Views(Flat(true, buys)), Views(Flat(false, sells)))
  }

  /** The ids that one side shows are those of the indexed orders of that side. */
  lemma SideIds(buy: bool, index: map<int, Order>, buys: map<int, seq<Order>>, sells: map<int, seq<Order>>, id: int)
    requires Structured(index, buys, sells)
    ensures HasId(Views(Flat(buy, if buy then buys else sells)), id) <==> id in index && index[id].buy == buy
  {
    hide Views;
    var refs := if buy then buys else sells;
    var f := Flat(buy, refs);
    if HasId(Views(f), id) {
      var i :| 0 <= i < |f| && f[i].id == id;
      FlatOrdered(buy, refs, index);
      assert f[i] in f && Registered(buy, f[i].price, f[i], index);
    }
    if id in index && index[id].buy == buy {
      var p := index[id].price;
      assert p in refs && index[id] in refs[p] by {
        assert Placed(index[id], if index[id].buy then buys else sells);
      }
      FlatHolds(buy, refs, index[id]);
      assert index[id] in f;
      var i :| 0 <= i < |f| && f[i] == index[id];
      assert Views(f)[i].id == id;
    }
  }

  /** The book holds exactly the ids of the index. */
  lemma ShownHolds(index: map<int, Order>, buys: map<int, seq<Order>>, sells: map<int, seq<Order>>, id: int)
    requires Structured(index, buys, sells)
    ensures Shown(index, buys, sells).Holds(id) <==> id in index
    ensures id in index ==> HasId(Shown(index, buys, sells).bids, id) == index[id].buy
  {
    hide Views;
    SideIds(true, index, buys, sells, id);
    SideIds(false, index, buys, sells, id);
  }

  lemma JoinShown(index: map<int, Order>, buys: map<int, seq<Order>>, sells: map<int, seq<Order>>, o: Order)
    requires Structured(index, buys, sells) && o.id !in index
    ensures var buys', sells' := if o.buy then Joined(buys, o) else buys, if o.buy then sells else Joined(sells, o);
            && Structured(index[o.id := o], buys', sells')
            && Shown(index[o.id := o], buys', sells') == Place(Shown(index, buys, sells), o.View())
  {
    hide Views;
    JoinStructured(index, buys, sells, o);
    JoinIsInsert(o.buy, if o.buy then buys else sells, index, o);
  }

  lemma LeaveShown(index: map<int, Order>, buys: map<int, seq<Order>>, sells: map<int, seq<Order>>, o: Order)
    requires Structured(index, buys, sells) && o.id in index && index[o.id] == o
    ensures var buys', sells' := if o.buy then Left(buys, o.price, o.id) else buys,
                                 if o.buy then sells else Left(sells, o.price, o.id);
            && Structured(index - {o.id}, buys', sells')
            && Shown(index - {o.id}, buys', sells') == Cancel(Shown(index, buys, sells), o.id)
  {
    hide Views;
    LeaveStructured(index, buys, sells, o);
    ShownHolds(index, buys, sells, o.id);
    LeaveIsRemove(o.buy, if o.buy then buys else sells, index, o);
  }

  lemma CancelAbsent(index: map<int, Order>, buys: map<int, seq<Order>>, sells: map<int, seq<Order>>, id: int)
    requires Structured(index, buys, sells) && id !in index
    ensures Cancel(Shown(index, buys, sells), id) == Shown(index, buys, sells)
  {
    hide Views;
    ShownHolds(index, buys, sells, id);
  }

  /** Linked ladders with nothing filled up show a well-formed book. */
  lemma ShownWellFormed(index: map<int, Order>, buys: map<int, seq<Order>>, sells: map<int, seq<Order>>)
    requires Structured(index, buys, sells)
    requires forall id :: id in index ==> index[id].quantity > 0
    ensures WellFormed(Shown(index, buys, sells))
  {
    hide Views;
    SideWellFormed(true, buys, index);
    SideWellFormed(false, sells, index);
    forall id
      ensures !(HasId(Shown(index, buys, sells).bids, id) && HasId(Shown(index, buys, sells).asks, id))
    {
      SideIds(true, index, buys, sells, id);
      SideIds(false, index, buys, sells, id);
    }
  }

  lemma SideWellFormed(buy: bool, refs: map<int, seq<Order>>, index: map<int, Order>)
    requires Indexed(buy, refs, index)
    requires forall id :: id in index ==> index[id].quantity > 0
    ensures var l := Views(Flat(buy, refs));
            Sorted(buy, l) && Positive(l) && OnSide(buy, l) && DistinctIds(l)
  {
    hide Views;
    var f := Flat(buy, refs);
    FlatOrdered(buy, refs, index);
    assert forall i :: 0 <= i < |f| ==> f[i] in f && Registered(buy, f[i].price, f[i], index);
  }

  lemma KeyOf<K, V>(m: map<K, V>, v: V) returns (k: K)
    requires v in m.Values
    ensures k in m && m[k] == v
  {
    k :| k in m && m[k] == v;
  }

  lemma FreshIsElsewhere(index: map<int, Order>, buys: map<int, seq<Order>>, sells: map<int, seq<Order>>, o: Order)
    requires Structured(index, buys, sells) && o.id !in index
    ensures o !in index.Values
  {
    if o in index.Values {
      var id := KeyOf(index, o);
    }
  }

  lemma IndexedIsPlaced(index: map<int, Order>, buys: map<int, seq<Order>>, sells: map<int, seq<Order>>, id: int)
    requires Structured(index, buys, sells) && id in index
    ensures index[id].id == id && Placed(index[id], if index[id].buy then buys else sells)
  {
  }

  /** Looking an id up in the book finds the indexed order. */
  lemma FindShown(index: map<int, Order>, buys: map<int, seq<Order>>, sells: map<int, seq<Order>>, id: int)
    requires Structured(index, buys, sells) && id in index
    ensures Shown(index, buys, sells).Holds(id)
    ensures Find(Shown(index, buys, sells), id) == index[id].View()
  {
    hide Views;
    ShownHolds(index, buys, sells, id);
    var buy := index[id].buy;
    var f := Flat(buy, if buy then buys else sells);
    FlatOrdered(buy, if buy then buys else sells, index);
    var i := IndexOf(Views(f), id);
    assert f[i] in f && Registered(buy, f[i].price, f[i], index);
  }

  /** An indexed order stands in no queue but its own. */
  lemma NowhereElse(index: map<int, Order>, buys: map<int, seq<Order>>, sells: map<int, seq<Order>>, o: Order)
    requires Structured(index, buys, sells)
    ensures o.buy ==> forall p :: p in sells ==> o !in sells[p]
    ensures !o.buy ==> forall p :: p in buys ==> o !in buys[p]
    ensures forall p :: p in buys && p != o.price ==> o !in buys[p]
    ensures forall p :: p in sells && p != o.price ==> o !in sells[p]
  {
  }

  /** Where the head of a side stands: once in its own queue, once in its own list, and nowhere on the other side. */
  lemma HeadStands(index: map<int, Order>, buys: map<int, seq<Order>>, sells: map<int, seq<Order>>, o: Order)
    requires Structured(index, buys, sells)
    requires var f := Flat(o.buy, if o.buy then buys else sells); f != [] && f[0] == o
    ensures var refs, others := if o.buy then buys else sells, if o.buy then sells else buys;
            && o.id in index && index[o.id] == o
            && Placed(o, refs) && NoDup(refs[o.price])
            && (forall p :: p in refs && p != o.price ==> o !in refs[p])
            && (forall p :: p in others ==> o !in others[p])
            && NoDup(Flat(o.buy, refs)) && o !in Flat(!o.buy, others)
  {
    var refs, others := if o.buy then buys else sells, if o.buy then sells else buys;
    FlatOrdered(o.buy, refs, index);
    FlatOrdered(!o.buy, others, index);
    assert o in Flat(o.buy, refs);
    assert Registered(o.buy, o.price, o, index);
    IndexedIsPlaced(index, buys, sells, o.id);
    NowhereElse(index, buys, sells, o);
  }

  lemma MiddleAt(b: seq<Entry>, q: seq<Entry>, w: seq<Entry>, p: int)
    requires forall i :: 0 <= i < |b| ==> b[i].price != p
    requires forall i :: 0 <= i < |q| ==> q[i].price == p
    requires forall i :: 0 <= i < |w| ==> w[i].price != p
    ensures QtyAt(b + q + w, p) == Total(q) && CountAt(b + q + w, p) == |q|
  {
    NoneAt(b, p);
    NoneAt(w, p);
    AllAt(q, p);
    AtSplit(b, q, p);
    AtSplit(b + q, w, p);
  }

  /** A level is what its side shows at its price. */
  lemma LevelShown(buy: bool, refs: map<int, seq<Order>>, index: map<int, Order>, p: int)
    requires Indexed(buy, refs, index) && p in refs
    ensures var l := Views(Flat(buy, refs));
            QtyAt(l, p) == Total(Views(refs[p])) && CountAt(l, p) == |refs[p]|
  {
    hide Views;
    var b, q, w := Flat(buy, Better(buy, refs, p)), refs[p], Flat(buy, Worse(buy, refs, p));
    FlatAt(buy, refs, p);
    CutPrices(buy, refs, index, p);
    assert forall x :: x in q ==> Registered(buy, p, x, index);
    ViewsJoin(b, q);
    ViewsJoin(b + q, w);
    assert forall i :: 0 <= i < |b| ==> b[i] in b;
    assert forall i :: 0 <= i < |q| ==> q[i] in q;
    assert forall i :: 0 <= i < |w| ==> w[i] in w;
    MiddleAt(Views(b), Views(q), Views(w), p);
  }

  /** A side shows something at a price exactly when its ladder has a level there. */
  lemma LevelsShown(buy: bool, refs: map<int, seq<Order>>, index: map<int, Order>, p: int)
    requires Indexed(buy, refs, index)
    ensures p in refs <==> CountAt(Views(Flat(buy, refs)), p) > 0
  {
    hide Views, Flat;
    if p in refs {
      LevelShown(buy, refs, index, p);
    } else {
      var f := Flat(buy, refs);
      FlatOrdered(buy, refs, index);
      forall i | 0 <= i < |f|
        ensures Views(f)[i].price != p
      {
        assert f[i] in f;
      }
      NoneAt(Views(f), p);
    }
  }
}
