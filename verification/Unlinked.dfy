// Books whose index and ladders need not agree, as when an id was added twice: when does matching end?

module Unlinked {
  import opened Orders
  import opened Lists
  import Merge
  import Books
  import opened Effects

  /** One place in a queue: the price of its level, and the order object that stands there. */
  datatype Place = Place(price: int, ref: nat)

  /** Order objects by reference, the two ladders best price first, and the id index. Nothing says that they agree. */
  datatype Raw = Raw(orders: map<nat, Entry>, bids: seq<Place>, asks: seq<Place>, index: map<int, nat>)
  {
    function Side(buy: bool): seq<Place> {
      if buy then bids else asks
    }

    function With(buy: bool, l: seq<Place>): Raw {
      if buy then this.(bids := l) else this.(asks := l)
    }
  }

  const NOTHING: Raw := Raw(map[], [], [], map[])

  /** References lead to orders, and each ladder holds orders of its own side. */
  ghost predicate Closed(r: Raw) {
    && (forall buy, i :: 0 <= i < |r.Side(buy)| ==>
          r.Side(buy)[i].ref in r.orders && r.orders[r.Side(buy)[i].ref].buy == buy)
    && (forall id :: id in r.index ==> r.index[id] in r.orders)
  }

  /** How many places have a price at least as good. */
  function Behind(buy: bool, l: seq<Place>, price: int): (s: nat)
    ensures s <= |l|
    ensures forall j :: 0 <= j < s ==> Ahead(buy, l[j].price, price)
    ensures s < |l| ==> !Ahead(buy, l[s].price, price)
  {
    if l == [] || !Ahead(buy, l[0].price, price) then 0 else 1 + Behind(buy, l[1..], price)
  }

  function Queued(buy: bool, l: seq<Place>, p: Place): seq<Place> {
    var s := Behind(buy, l, p.price);
    l[..s] + [p] + l[s..]
  }

  /** `addOrder`: the index entry is written, whatever it held. */
  function Add(r: Raw, ref: nat, now: int): Raw
    requires ref in r.orders
  {
    var e := Books.Stamped(r.orders[ref], now);
    if e.qty == 0 then r
    else
      r.(orders := r.orders[ref := e], index := r.index[e.id := ref])
       .With(e.buy, Queued(e.buy, r.Side(e.buy), Place(e.price, ref)))
  }

  /** Position of the first place in the level `price` whose order has this id, or the length of the list. */
  function Found(l: seq<Place>, orders: map<nat, Entry>, price: int, id: int): (i: nat)
    requires forall j :: 0 <= j < |l| ==> l[j].ref in orders
    ensures i <= |l|
  {
    if l == [] || (l[0].price == price && orders[l[0].ref].id == id) then 0
    else 1 + Found(l[1..], orders, price, id)
  }

  /** `cancelOrder`: looks where the indexed order says that it stands; when nothing is found there, nothing happens. */
  function Cancel(r: Raw, id: int): Raw
    requires Closed(r)
  {
    if id !in r.index then r
    else
      var o := r.orders[r.index[id]];
      var l := r.Side(o.buy);
      assert forall j :: 0 <= j < |l| ==> l[j].ref in r.orders;
      var i := Found(l, r.orders, o.price, id);
      if i == |l| then r else r.(index := r.index - {id}).With(o.buy, l[..i] + l[i + 1..])
  }

  /** The loop ends here: the guard fails, or the check of the order's own prices does. */
  ghost predicate Stops(r: Raw)
    requires Closed(r)
  {
    || r.bids == [] || r.asks == []
    || r.bids[0].price <= 0 || r.asks[0].price <= 0 || r.bids[0].price < r.asks[0].price
    || r.orders[r.Side(true)[0].ref].price < r.orders[r.Side(false)[0].ref].price
  }

  function Least(x: nat, y: nat): nat {
    if x < y then x else y
  }

  /** Lowers the quantities of the two heads. */
  ghost function Lowered(r: Raw): Raw
    requires Closed(r) && !Stops(r)
  {
    var b, a := r.Side(true)[0].ref, r.Side(false)[0].ref;
    var q := Least(r.orders[b].qty, r.orders[a].qty);
    r.(orders := r.orders[b := r.orders[b].(qty := r.orders[b].qty - q)][a := r.orders[a].(qty := r.orders[a].qty - q)])
  }

  lemma LoweredCloses(r: Raw)
    requires Closed(r) && !Stops(r)
    ensures Closed(Lowered(r)) && Lowered(r).bids == r.bids && Lowered(r).asks == r.asks
    ensures Lowered(r).orders.Keys == r.orders.Keys
  {
    var b, a := r.Side(true)[0].ref, r.Side(false)[0].ref;
    var t := Lowered(r);
    assert forall x :: x in r.orders ==> x in t.orders && t.orders[x].buy == r.orders[x].buy;
    forall buy, i | 0 <= i < |t.Side(buy)|
      ensures t.Side(buy)[i].ref in t.orders && t.orders[t.Side(buy)[i].ref].buy == buy
    {
      assert t.Side(buy)[i] == r.Side(buy)[i];
    }
  }

  lemma FewerPlaces(r: Raw, buy: bool, i: nat, id: int)
    requires Closed(r) && i < |r.Side(buy)|
    ensures var l := r.Side(buy); Closed(r.(index := r.index - {id}).With(buy, l[..i] + l[i + 1..]))
  {
    var l := r.Side(buy);
    var t := r.(index := r.index - {id}).With(buy, l[..i] + l[i + 1..]);
    forall side, j | 0 <= j < |t.Side(side)|
      ensures t.Side(side)[j].ref in t.orders && t.orders[t.Side(side)[j].ref].buy == side
    {
      assert t.Side(side)[j] == r.Side(side)[if side == buy && j >= i then j + 1 else j];
    }
  }

  lemma CancelCloses(r: Raw, id: int)
    requires Closed(r)
    ensures Closed(Cancel(r, id)) && Cancel(r, id).orders == r.orders
    ensures Cancel(r, id) == r || |Cancel(r, id).bids| + |Cancel(r, id).asks| < |r.bids| + |r.asks|
  {
    if id in r.index {
      var o := r.orders[r.index[id]];
      var l := r.Side(o.buy);
      assert forall j :: 0 <= j < |l| ==> l[j].ref in r.orders;
      var i := Found(l, r.orders, o.price, id);
      if i < |l| {
        FewerPlaces(r, o.buy, i, id);
      }
    }
  }

  /** Cancels an order when nothing is left of it. */
  ghost function Swept(r: Raw, ref: nat): (t: Raw)
    requires Closed(r) && ref in r.orders
    ensures Closed(t) && t.orders == r.orders
    ensures t == r || |t.bids| + |t.asks| < |r.bids| + |r.asks|
  {
    CancelCloses(r, r.orders[ref].id);
    if r.orders[ref].qty == 0 then Cancel(r, r.orders[ref].id) else r
  }

  /** One turn of the loop. */
  ghost function Turn(r: Raw): (t: Raw)
    requires Closed(r) && !Stops(r)
    ensures Closed(t)
  {
    LoweredCloses(r);
    Swept(Swept(Lowered(r), r.Side(true)[0].ref), r.Side(false)[0].ref)
  }

  // A turn that changes anything brings the end nearer.

  /** The quantities of the orders, counted once for each place. */
  ghost function Resting(l: seq<Place>, orders: map<nat, Entry>): nat
    requires forall i :: 0 <= i < |l| ==> l[i].ref in orders
  {
    if l == [] then 0 else orders[l[0].ref].qty + Resting(l[1..], orders)
  }

  ghost function Weight(r: Raw): nat
    requires Closed(r)
  {
    |r.bids| + |r.asks| + Resting(r.Side(true), r.orders) + Resting(r.Side(false), r.orders)
  }

  lemma {:induction false} RestingFalls(l: seq<Place>, was: map<nat, Entry>, now: map<nat, Entry>)
    requires forall i :: 0 <= i < |l| ==>
               l[i].ref in was && l[i].ref in now && now[l[i].ref].qty <= was[l[i].ref].qty
    ensures Resting(l, now) <= Resting(l, was)
  {
    if l != [] {
      RestingFalls(l[1..], was, now);
    }
  }

  lemma {:induction false} RestingWithout(l: seq<Place>, i: nat, orders: map<nat, Entry>)
    requires forall i :: 0 <= i < |l| ==> l[i].ref in orders
    requires i < |l|
    ensures var m := l[..i] + l[i + 1..];
            (forall j :: 0 <= j < |m| ==> m[j].ref in orders) && Resting(m, orders) <= Resting(l, orders)
  {
    var m := l[..i] + l[i + 1..];
    forall j | 0 <= j < |m|
      ensures m[j].ref in orders
    {
      assert m[j] == l[if j < i then j else j + 1];
    }
    if i == 0 {
      assert m == l[1..];
    } else {
      RestingWithout(l[1..], i - 1, orders);
      assert m[0] == l[0] && m[1..] == l[1..][..i - 1] + l[1..][i..];
    }
  }

  lemma SweptIsLighter(r: Raw, ref: nat)
    requires Closed(r) && ref in r.orders
    ensures var t := Swept(r, ref); t == r || Weight(t) < Weight(r)
  {
    var t := Swept(r, ref);
    if t != r {
      var o := r.orders[r.index[r.orders[ref].id]];
      var l := r.Side(o.buy);
      var i := Found(l, r.orders, o.price, r.orders[ref].id);
      assert t.Side(o.buy) == l[..i] + l[i + 1..] && t.Side(!o.buy) == r.Side(!o.buy);
      RestingWithout(l, i, r.orders);
    }
  }

  lemma LoweredIsLighter(r: Raw)
    requires Closed(r) && !Stops(r)
    ensures Closed(Lowered(r))
    ensures var b, a := r.orders[r.Side(true)[0].ref], r.orders[r.Side(false)[0].ref];
            if b.qty == 0 || a.qty == 0 then Lowered(r) == r else Weight(Lowered(r)) < Weight(r)
  {
    LoweredCloses(r);
    var t := Lowered(r);
    var b, a := r.Side(true)[0].ref, r.Side(false)[0].ref;
    if r.orders[b].qty == 0 || r.orders[a].qty == 0 {
      assert t.orders == r.orders;
    } else {
      forall x | x in r.orders
        ensures x in t.orders && t.orders[x].qty <= r.orders[x].qty
      {
      }
      RestingFalls(r.bids[1..], r.orders, t.orders);
      RestingFalls(r.asks, r.orders, t.orders);
      assert r.Side(true) == r.bids && r.Side(false) == r.asks && t.Side(true) == r.bids && t.Side(false) == r.asks;
    }
  }

  /** A turn either leaves everything as it was, or lowers the weight of the book. */
  lemma TurnIsLighter(r: Raw)
    requires Closed(r) && !Stops(r)
    ensures Turn(r) == r || Weight(Turn(r)) < Weight(r)
  {
    hide Weight, Lowered, Swept, Resting;
    LoweredCloses(r);
    LoweredIsLighter(r);
    var s := Lowered(r);
    SweptIsLighter(s, r.Side(true)[0].ref);
    SweptIsLighter(Swept(s, r.Side(true)[0].ref), r.Side(false)[0].ref);
  }

  // When the loop ends.

  /** The book after at most `n` turns. */
  ghost function After(r: Raw, n: nat): (t: Raw)
    requires Closed(r)
    ensures Closed(t)
    decreases n
  {
    if n == 0 || Stops(r) then r else After(Turn(r), n - 1)
  }

  ghost predicate Ends(r: Raw)
    requires Closed(r)
  {
    exists n :: Stops(After(r, n))
  }

  /** A turn that cannot stop and changes nothing. */
  ghost predicate Stuck(r: Raw)
    requires Closed(r)
  {
    !Stops(r) && Turn(r) == r
  }

  lemma {:induction false} StuckStays(r: Raw, n: nat)
    requires Closed(r) && Stuck(r)
    ensures After(r, n) == r
    decreases n
  {
    hide Closed, Stops, Turn;
    if n > 0 {
      StuckStays(r, n - 1);
    }
  }

  lemma {:induction false} AfterTurn(r: Raw, n: nat)
    requires Closed(r) && !Stops(After(r, n))
    ensures After(r, n + 1) == Turn(After(r, n))
    decreases n
  {
    hide Closed, Stops, Turn;
    if n > 0 {
      AfterTurn(Turn(r), n - 1);
    }
  }

  /** Any run of turns comes to a halt or to a turn that is stuck. */
  lemma {:induction false} HaltsOrSticks(r: Raw) returns (n: nat)
    requires Closed(r)
    ensures Stops(After(r, n)) || Stuck(After(r, n))
    decreases Weight(r)
  {
    hide Closed, Stops, Turn, Weight;
    n := 0;
    if !Stops(r) && !Stuck(r) {
      TurnIsLighter(r);
      var m := HaltsOrSticks(Turn(r));
      n := m + 1;
    }
  }

  lemma {:induction false} StoppedStays(r: Raw, n: nat, m: nat)
    requires Closed(r) && Stops(After(r, n)) && n <= m
    ensures After(r, m) == After(r, n)
    decreases n
  {
    hide Closed, Stops, Turn;
    if n > 0 && !Stops(r) {
      StoppedStays(Turn(r), n - 1, m - 1);
    }
  }

  lemma {:induction false} AfterSum(r: Raw, n: nat, m: nat)
    requires Closed(r)
    ensures After(After(r, n), m) == After(r, n + m)
    decreases n
  {
    hide Closed, Stops, Turn;
    if n > 0 && !Stops(r) {
      AfterSum(Turn(r), n - 1, m);
    } else if n > 0 {
      assert After(r, m) == r;
    }
  }

  /** Matching ends on a book, linked or not, exactly when it never comes to a turn that is stuck. */
  lemma EndsUnlessStuck(r: Raw)
    requires Closed(r)
    ensures Ends(r) <==> forall n :: !Stuck(After(r, n))
  {
    hide Closed, Stops, Turn, After;
    var k := HaltsOrSticks(r);
    if Stuck(After(r, k)) {
      forall n
        ensures !Stops(After(r, n))
      {
        if n <= k {
          if Stops(After(r, n)) {
            StoppedStays(r, n, k);
          }
        } else {
          AfterSum(r, k, n - k);
          StuckStays(After(r, k), n - k);
        }
      }
    } else {
      forall n
        ensures !Stuck(After(r, n))
      {
        if n < k {
          if Stuck(After(r, n)) {
            AfterSum(r, n, k - n);
            StuckStays(After(r, n), k - n);
          }
        } else {
          StoppedStays(r, k, n);
        }
      }
    }
  }

  /** A turn is stuck exactly when a head is empty and no cancellation of an empty head finds it. */
  lemma StuckWhen(r: Raw)
    requires Closed(r) && !Stops(r)
    ensures var b, a := r.orders[r.Side(true)[0].ref], r.orders[r.Side(false)[0].ref];
            Stuck(r) <==>
              && (b.qty == 0 || a.qty == 0)
              && (b.qty == 0 ==> Cancel(r, b.id) == r)
              && (a.qty == 0 ==> Cancel(r, a.id) == r)
  {
    LoweredIsLighter(r);
    var rb, ra := r.Side(true)[0].ref, r.Side(false)[0].ref;
    var s := Lowered(r);
    SweptIsLighter(s, rb);
    SweptIsLighter(Swept(s, rb), ra);
    hide Weight, Lowered, Cancel;
  }

  // An id that was added twice.

  /** Two buys with the same id, and a sell that fills the first. */
  const TWICE: map<nat, Entry> :=
    map[0 := Entry(1, true, 100, 1, 1), 1 := Entry(1, true, 99, 1, 2), 2 := Entry(2, false, 100, 5, 3)]

  lemma TwiceAdded(now: int)
    ensures Add(Add(Add(NOTHING.(orders := TWICE), 0, now), 1, now), 2, now)
            == Raw(TWICE, [Place(100, 0), Place(99, 1)], [Place(100, 2)], map[1 := 1, 2 := 2])
  {
    assert Queued(true, [Place(100, 0)], Place(99, 1)) == [Place(100, 0), Place(99, 1)] by {
      assert Behind(true, [Place(100, 0)], 99) == 1;
    }
  }

  /** The cancellation of the first buy takes out the second, and nothing is left that would find the first. */
  lemma TwiceTurned()
    ensures var r := Raw(TWICE, [Place(100, 0), Place(99, 1)], [Place(100, 2)], map[1 := 1, 2 := 2]);
            Closed(r) && !Stops(r) && Turn(r).bids == [Place(100, 0)] && Turn(r).asks == [Place(100, 2)]
            && Turn(r).index == map[2 := 2]
            && Turn(r).orders == TWICE[0 := TWICE[0].(qty := 0)][2 := TWICE[2].(qty := 4)]
  {
    var r := Raw(TWICE, [Place(100, 0), Place(99, 1)], [Place(100, 2)], map[1 := 1, 2 := 2]);
    var s := Lowered(r);
    assert s.orders == TWICE[0 := TWICE[0].(qty := 0)][2 := TWICE[2].(qty := 4)];
    assert Found(s.bids, s.orders, 99, 1) == 1 by {
      assert s.bids[1..] == [Place(99, 1)];
    }
    assert s.index - {1} == map[2 := 2];
    assert s.bids[..1] + s.bids[2..] == [Place(100, 0)];
    assert Swept(s, 0) == s.(bids := [Place(100, 0)], index := map[2 := 2]);
  }

  /** Matching never ends on such a book. */
  lemma DuplicateNeverEnds(now: int)
    ensures var r := Add(Add(Add(NOTHING.(orders := TWICE), 0, now), 1, now), 2, now);
            Closed(r) && !Ends(r)
  {
    var r := Add(Add(Add(NOTHING.(orders := TWICE), 0, now), 1, now), 2, now);
    TwiceAdded(now);
    TwiceTurned();
    var t := Turn(r);
    StuckWhen(t);
    assert After(r, 1) == t;
    EndsUnlessStuck(r);
  }

  // When index and ladders agree.

  function Entries(l: seq<Place>, orders: map<nat, Entry>): seq<Entry>
    requires forall i :: 0 <= i < |l| ==> l[i].ref in orders
  {
    seq(|l|, i requires 0 <= i < |l| => orders[l[i].ref])
  }

  /** A place at its order's price, known to the index, and the first for its order. */
  ghost predicate PlaceAgrees(r: Raw, side: bool, i: nat)
    requires Closed(r) && i < |r.Side(side)|
  {
    var x := r.Side(side)[i];
    && x.price == r.orders[x.ref].price
    && r.orders[x.ref].id in r.index && r.index[r.orders[x.ref].id] == x.ref
    && forall j :: 0 <= j < i ==> r.Side(side)[j].ref != x.ref
  }

  /** Index and ladders agree at every place. */
  ghost predicate Agrees(r: Raw) {
    Closed(r) && forall buy, i: nat :: i < |r.Side(buy)| ==> PlaceAgrees(r, buy, i)
  }

  /** What one side shows. */
  ghost function Shows(r: Raw, buy: bool): (l: seq<Entry>)
    requires Closed(r)
    ensures |l| == |r.Side(buy)|
  {
    Entries(r.Side(buy), r.orders)
  }

  lemma StopsWhenNothingMatches(r: Raw)
    requires Agrees(r)
    ensures Stops(r) <==> !Merge.HasMatch(Shows(r, true), Shows(r, false))
  {
    assert r.bids != [] ==> PlaceAgrees(r, true, 0);
    assert r.asks != [] ==> PlaceAgrees(r, false, 0);
  }

  lemma LoweredHeads(r: Raw)
    requires Agrees(r) && !Stops(r)
    ensures Agrees(Lowered(r)) && Lowered(r).bids == r.bids && Lowered(r).asks == r.asks
    ensures var b, a := Shows(r, true), Shows(r, false);
            var q := Merge.MatchQty(b[0], a[0]);
            && Entries(r.Side(true), Lowered(r).orders) == b[0 := b[0].(qty := b[0].qty - q)]
            && Entries(r.Side(false), Lowered(r).orders) == a[0 := a[0].(qty := a[0].qty - q)]
  {
    LoweredCloses(r);
    var t := Lowered(r);
    var rb, ra := r.Side(true)[0].ref, r.Side(false)[0].ref;
    assert PlaceAgrees(r, true, 0) && PlaceAgrees(r, false, 0);
    assert rb != ra;
    forall buy, i: nat | i < |r.Side(buy)|
      ensures PlaceAgrees(t, buy, i)
      ensures var x := r.Side(buy)[i].ref;
              t.orders[x] == if i == 0 then t.orders[if buy then rb else ra] else r.orders[x]
    {
      assert PlaceAgrees(r, buy, i);
      assert t.Side(buy) == r.Side(buy) && r.orders[r.Side(buy)[i].ref].buy == buy;
    }
  }

  lemma HeadIsFound(r: Raw, buy: bool)
    requires Agrees(r) && r.Side(buy) != [] && r.orders[r.Side(buy)[0].ref].qty == 0
    ensures var o := r.orders[r.Side(buy)[0].ref];
            Swept(r, r.Side(buy)[0].ref) == r.(index := r.index - {o.id}).With(buy, r.Side(buy)[1..])
  {
    var l := r.Side(buy);
    var o := r.orders[l[0].ref];
    assert PlaceAgrees(r, buy, 0);
    assert r.index[o.id] == l[0].ref && o.buy == buy;
    assert Found(l, r.orders, o.price, o.id) == 0;
    assert l[..0] + l[1..] == l[1..];
  }

  lemma OtherIds(r: Raw, buy: bool, side: bool, k: nat)
    requires Agrees(r) && r.Side(buy) != [] && k < |r.Side(side)| && (side != buy || k > 0)
    ensures r.orders[r.Side(side)[k].ref].id != r.orders[r.Side(buy)[0].ref].id
  {
    var x, p := r.Side(side)[k], r.Side(buy)[0];
    assert PlaceAgrees(r, side, k) && PlaceAgrees(r, buy, 0);
    assert r.orders[x.ref].buy == side && r.orders[p.ref].buy == buy;
    assert r.index[r.orders[x.ref].id] == x.ref && r.index[r.orders[p.ref].id] == p.ref;
    if side == buy {
      assert r.Side(buy)[0].ref != x.ref;
    }
  }

  lemma PlaceStays(r: Raw, t: Raw, side: bool, i: nat, d: nat)
    requires Closed(r) && Closed(t) && t.orders == r.orders
    requires i < |t.Side(side)| && d <= |r.Side(side)| && t.Side(side) == r.Side(side)[d..]
    requires PlaceAgrees(r, side, i + d)
    requires var id := r.orders[r.Side(side)[i + d].ref].id; id in t.index && t.index[id] == r.index[id]
    ensures PlaceAgrees(t, side, i)
  {
    forall j | 0 <= j < i
      ensures t.Side(side)[j].ref != t.Side(side)[i].ref
    {
      assert t.Side(side)[j] == r.Side(side)[j + d];
    }
  }

  lemma AgreesWithoutHead(r: Raw, buy: bool, t: Raw)
    requires Agrees(r) && r.Side(buy) != [] && Closed(t) && t.orders == r.orders
    requires t.Side(buy) == r.Side(buy)[1..] && t.Side(!buy) == r.Side(!buy)
    requires t.index == r.index - {r.orders[r.Side(buy)[0].ref].id}
    ensures Agrees(t)
  {
    forall side, i: nat | i < |t.Side(side)|
      ensures PlaceAgrees(t, side, i)
    {
      var d := if side == buy then 1 else 0;
      assert PlaceAgrees(r, side, i + d);
      OtherIds(r, buy, side, i + d);
      PlaceStays(r, t, side, i, d);
    }
  }

  /** On a book that agrees, the cancellation of an empty head takes out that head. */
  lemma SweptHead(r: Raw, buy: bool)
    requires Agrees(r) && r.Side(buy) != []
    ensures var ref := r.Side(buy)[0].ref;
            var t := Swept(r, ref);
            && Agrees(t)
            && t.Side(buy) == (if r.orders[ref].qty == 0 then r.Side(buy)[1..] else r.Side(buy))
            && t.Side(!buy) == r.Side(!buy)
  {
    var ref := r.Side(buy)[0].ref;
    assert ref in r.orders;
    if r.orders[ref].qty == 0 {
      HeadIsFound(r, buy);
      AgreesWithoutHead(r, buy, Swept(r, ref));
    }
  }

  lemma FillOfHead(l: seq<Place>, was: map<nat, Entry>, now: map<nat, Entry>, q: nat)
    requires forall i :: 0 <= i < |l| ==> l[i].ref in was && l[i].ref in now
    requires l != [] && q <= was[l[0].ref].qty
    requires var e := Entries(l, was); Entries(l, now) == e[0 := e[0].(qty := e[0].qty - q)]
    ensures Entries(if now[l[0].ref].qty == 0 then l[1..] else l, now) == Fill(Entries(l, was), q)
  {
    assert Entries(l, now)[0] == now[l[0].ref];
    assert Entries(l[1..], now) == Entries(l, now)[1..];
  }

  /** On a book that agrees, a turn fills the heads of both lists. */
  lemma TurnFills(r: Raw)
    requires Agrees(r) && Positive(Shows(r, true)) && Positive(Shows(r, false)) && !Stops(r)
    ensures Agrees(Turn(r))
    ensures var b, a := Shows(r, true), Shows(r, false);
            var q := Merge.MatchQty(b[0], a[0]);
            Shows(Turn(r), true) == Fill(b, q) && Shows(Turn(r), false) == Fill(a, q)
  {
    hide PlaceAgrees, Swept, Lowered, Entries, Fill;
    LoweredHeads(r);
    LoweredCloses(r);
    var s := Lowered(r);
    var q := Merge.MatchQty(Shows(r, true)[0], Shows(r, false)[0]);
    SweptHead(s, true);
    var s1 := Swept(s, r.Side(true)[0].ref);
    SweptHead(s1, false);
    HeadShown(r, true);
    HeadShown(r, false);
    FillOfHead(r.Side(true), r.orders, s.orders, q);
    FillOfHead(r.Side(false), r.orders, s.orders, q);
  }

  lemma HeadShown(r: Raw, buy: bool)
    requires Closed(r) && r.Side(buy) != []
    ensures Shows(r, buy)[0] == r.orders[r.Side(buy)[0].ref]
  {
  }

  lemma AfterFirst(r: Raw, m: nat)
    requires Closed(r) && !Stops(r)
    ensures After(r, m + 1) == After(Turn(r), m) && After(r, 0) == r
  {
  }

  /** What a turn of a book that agrees passes on to the next one. */
  lemma TurnPasses(r: Raw, clock: nat -> int, k: nat)
    requires Agrees(r) && Positive(Shows(r, true)) && Positive(Shows(r, false)) && !Stops(r)
    ensures var t := Turn(r);
            && Agrees(t) && Positive(Shows(t, true)) && Positive(Shows(t, false))
            && |t.Side(true)| + |t.Side(false)| <= |r.Side(true)| + |r.Side(false)| - 1
            && Merge.Run(Shows(t, true), Shows(t, false), clock, k + 1).bids
               == Merge.Run(Shows(r, true), Shows(r, false), clock, k).bids
            && Merge.Run(Shows(t, true), Shows(t, false), clock, k + 1).asks
               == Merge.Run(Shows(r, true), Shows(r, false), clock, k).asks
  {
    hide Closed, PlaceAgrees, Turn, Entries, Merge.Run;
    StopsWhenNothingMatches(r);
    var b, a := Shows(r, true), Shows(r, false);
    var q := Merge.MatchQty(b[0], a[0]);
    TurnFills(r);
    Merge.RunStep(b, a, clock, k);
    FillKeeps(true, b, q);
    FillKeeps(false, a, q);
  }

  /** So matching ends there, and what it leaves is what the pure run leaves. */
  lemma {:induction false} AgreeingSettles(r: Raw, clock: nat -> int, k: nat) returns (n: nat)
    requires Agrees(r) && Positive(Shows(r, true)) && Positive(Shows(r, false))
    ensures Stops(After(r, n))
    ensures var out := Merge.Run(Shows(r, true), Shows(r, false), clock, k);
            Shows(After(r, n), true) == out.bids && Shows(After(r, n), false) == out.asks
    decreases |r.Side(true)| + |r.Side(false)|
  {
    hide Closed, PlaceAgrees, Turn, After, Shows, Positive, Stops, Merge.Run;
    n := 0;
    if Stops(r) {
      StopsWhenNothingMatches(r);
      Merge.RunHalts(Shows(r, true), Shows(r, false), clock, k);
      AfterNone(r);
    } else {
      TurnPasses(r, clock, k);
      var m := AgreeingSettles(Turn(r), clock, k + 1);
      AfterFirst(r, m);
      n := m + 1;
    }
  }

  lemma AfterNone(r: Raw)
    requires Closed(r)
    ensures After(r, 0) == r
  {
  }

  lemma AgreeingEnds(r: Raw)
    requires Agrees(r) && Positive(Shows(r, true)) && Positive(Shows(r, false))
    ensures Ends(r)
  {
    var n := AgreeingSettles(r, n => 0, 0);
  }

  // An addition to a book that agrees.

  lemma QueuedAt(buy: bool, l: seq<Place>, p: Place, j: nat)
    requires j <= |l|
    ensures |Queued(buy, l, p)| == |l| + 1
    ensures var s := Behind(buy, l, p.price);
            Queued(buy, l, p)[j] == if j < s then l[j] else if j == s then p else l[j - 1]
  {
  }

  /** Where the place numbered `j` on a side was before the addition; nowhere when it is the new one. */
  function Origin(r: Raw, e: Entry, side: bool, j: nat): int {
    var s := Behind(e.buy, r.Side(e.buy), e.price);
    if side != e.buy || j < s then j else if j == s then -1 else j - 1
  }

  lemma AddPlace(r: Raw, ref: nat, now: int, side: bool, j: nat)
    requires ref in r.orders && r.orders[ref].qty > 0 && j < |Add(r, ref, now).Side(side)|
    ensures var e, i := r.orders[ref], Origin(r, r.orders[ref], side, j);
            && -1 <= i < |r.Side(side)|
            && (i == -1 ==> side == e.buy)
            && Add(r, ref, now).Side(side)[j] == if i == -1 then Place(e.price, ref) else r.Side(side)[i]
  {
    var e := r.orders[ref];
    if side == e.buy {
      QueuedAt(e.buy, r.Side(e.buy), Place(e.price, ref), 0);
      QueuedAt(e.buy, r.Side(e.buy), Place(e.price, ref), j);
    }
  }

  lemma AddOrders(r: Raw, ref: nat, now: int)
    requires ref in r.orders && r.orders[ref].qty > 0
    ensures var e, t := r.orders[ref], Add(r, ref, now);
            && t.orders == r.orders[ref := Entry(e.id, e.buy, e.price, e.qty, if e.ts == 0 then now else e.ts)]
            && t.index == r.index[e.id := ref]
            && t.Side(!e.buy) == r.Side(!e.buy)
            && t.Side(e.buy) == Queued(e.buy, r.Side(e.buy), Place(e.price, ref))
  {
  }

  lemma AddCloses(r: Raw, ref: nat, now: int)
    requires Closed(r) && ref in r.orders && r.orders[ref].qty > 0
    ensures Closed(Add(r, ref, now))
  {
    hide Add, Queued, Origin;
    var t := Add(r, ref, now);
    AddOrders(r, ref, now);
    forall side, j | 0 <= j < |t.Side(side)|
      ensures t.Side(side)[j].ref in t.orders && t.orders[t.Side(side)[j].ref].buy == side
    {
      AddPlace(r, ref, now, side, j);
      var i, x := Origin(r, r.orders[ref], side, j), t.Side(side)[j].ref;
      if i == -1 {
        assert x == ref;
      } else {
        assert x == r.Side(side)[i].ref;
        assert x in r.orders && r.orders[x].buy == side;
      }
    }
  }

  lemma AddPlaceAgrees(r: Raw, ref: nat, now: int, side: bool, j: nat)
    requires Agrees(r) && ref in r.orders && r.orders[ref].qty > 0 && r.orders[ref].id !in r.index
    requires forall buy, i: nat :: i < |r.Side(buy)| ==> r.Side(buy)[i].ref != ref
    requires Closed(Add(r, ref, now)) && j < |Add(r, ref, now).Side(side)|
    ensures PlaceAgrees(Add(r, ref, now), side, j)
  {
    hide Add, Queued, Closed, Behind;
    var t, e := Add(r, ref, now), r.orders[ref];
    AddOrders(r, ref, now);
    AddPlace(r, ref, now, side, j);
    var i := Origin(r, e, side, j);
    if i >= 0 {
      assert PlaceAgrees(r, side, i);
    }
    forall k | 0 <= k < j
      ensures t.Side(side)[k].ref != t.Side(side)[j].ref
    {
      AddPlace(r, ref, now, side, k);
    }
  }

  lemma AddAgrees(r: Raw, ref: nat, now: int)
    requires Agrees(r) && ref in r.orders && r.orders[ref].qty > 0 && r.orders[ref].id !in r.index
    requires forall buy, i: nat :: i < |r.Side(buy)| ==> r.Side(buy)[i].ref != ref
    ensures Agrees(Add(r, ref, now))
  {
    AddCloses(r, ref, now);
    forall side, j: nat | j < |Add(r, ref, now).Side(side)|
      ensures PlaceAgrees(Add(r, ref, now), side, j)
    {
      AddPlaceAgrees(r, ref, now, side, j);
    }
  }

  lemma ShownPrices(r: Raw, buy: bool)
    requires Agrees(r)
    ensures forall i :: 0 <= i < |r.Side(buy)| ==> Shows(r, buy)[i].price == r.Side(buy)[i].price
  {
    forall i | 0 <= i < |r.Side(buy)|
      ensures Shows(r, buy)[i].price == r.Side(buy)[i].price
    {
      assert PlaceAgrees(r, buy, i);
    }
  }

  lemma CutIsQueuedIn(l: seq<Entry>, m: seq<Entry>, x: Entry, s: nat)
    requires Sorted(x.buy, l) && s <= |l| && |m| == |l| + 1
    requires forall j :: 0 <= j < s ==> Ahead(x.buy, l[j].price, x.price)
    requires s < |l| ==> !Ahead(x.buy, l[s].price, x.price)
    requires forall j {:trigger m[j]} :: 0 <= j < |m| ==> m[j] == if j < s then l[j] else if j == s then x else l[j - 1]
    ensures QueuedIn(l, m, x)
  {
    assert m == l[..s] + [x] + l[s..];
    assert forall j :: s <= j < |l| ==> j == s || Ahead(x.buy, l[s].price, l[j].price);
  }

  lemma QueuedShows(r: Raw, t: Raw, x: Entry, ref: nat)
    requires Agrees(r) && Closed(t) && Sorted(x.buy, Shows(r, x.buy))
    requires t.Side(x.buy) == Queued(x.buy, r.Side(x.buy), Place(x.price, ref)) && ref in t.orders && t.orders[ref] == x
    requires forall i: nat :: i < |r.Side(x.buy)| ==>
               r.Side(x.buy)[i].ref in t.orders && t.orders[r.Side(x.buy)[i].ref] == Shows(r, x.buy)[i]
    ensures QueuedIn(Shows(r, x.buy), Shows(t, x.buy), x)
  {
    hide Queued, QueuedIn, PlaceAgrees, Sorted;
    var l, m, p := Shows(r, x.buy), Shows(t, x.buy), Place(x.price, ref);
    var s := Behind(x.buy, r.Side(x.buy), x.price);
    ShownPrices(r, x.buy);
    QueuedAt(x.buy, r.Side(x.buy), p, 0);
    forall j {:trigger m[j]} | 0 <= j < |m|
      ensures m[j] == if j < s then l[j] else if j == s then x else l[j - 1]
    {
      QueuedAt(x.buy, r.Side(x.buy), p, j);
      assert m[j] == t.orders[t.Side(x.buy)[j].ref];
    }
    CutIsQueuedIn(l, m, x, s);
  }

  /**
   * Adding an order that stands nowhere yet, under a new id, to a sorted book that agrees: the book still agrees, and
   * shows the order behind everything at its price or better, stamped when it had no timestamp.
   */
  lemma AddShows(r: Raw, ref: nat, now: int)
    requires Agrees(r) && ref in r.orders && r.orders[ref].qty > 0 && r.orders[ref].id !in r.index
    requires forall buy :: Sorted(buy, Shows(r, buy))
    ensures var e, t := r.orders[ref], Add(r, ref, now);
            && Agrees(t)
            && (forall buy :: Sorted(buy, Shows(t, buy)))
            && Shows(t, !e.buy) == Shows(r, !e.buy)
            && QueuedIn(Shows(r, e.buy), Shows(t, e.buy),
                        Entry(e.id, e.buy, e.price, e.qty, if e.ts == 0 then now else e.ts))
  {
    hide Add, Queued, QueuedIn;
    var e, t := r.orders[ref], Add(r, ref, now);
    var x := Entry(e.id, e.buy, e.price, e.qty, if e.ts == 0 then now else e.ts);
    forall buy, i: nat | i < |r.Side(buy)|
      ensures r.Side(buy)[i].ref != ref
    {
      assert PlaceAgrees(r, buy, i);
    }
    AddCloses(r, ref, now);
    AddOrders(r, ref, now);
    QueuedShows(r, t, x, ref);
    QueuedStaysSorted(Shows(r, e.buy), Shows(t, e.buy), x);
    assert Shows(t, !e.buy) == Shows(r, !e.buy);
    forall buy
      ensures Sorted(buy, Shows(t, buy))
    {
      assert Sorted(buy, Shows(r, buy));
      if buy != e.buy {
        assert buy == !e.buy;
      }
    }
    AddAgrees(r, ref, now);
  }
}
