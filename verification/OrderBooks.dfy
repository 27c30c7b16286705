// The order book: two price ladders, an id index and two cached best prices, changed in place.

module OrderBooks {
  import opened Orders
  import opened Lists
  import Merge
  import opened Books
  import opened Ledgers
  import opened Ladder
  import opened Levels
  import opened BookLinks

  /** Every level holds orders of the pool, and its caches agree with its queue and the volume matched away there. */
  ghost predicate Sound(levels: map<int, Level>, traded: map<int, nat>, pool: set<Order>)
    reads pool`quantity
  {
    && traded.Keys == levels.Keys
    && forall p :: p in levels ==>
         && (forall o :: o in levels[p].orders ==> o in pool)
         && Counted(levels[p], traded[p])
  }

  lemma RefsKeys(levels: map<int, Level>, traded: map<int, nat>, pool: set<Order>)
    requires Sound(levels, traded, pool)
    ensures Refs(levels).Keys == levels.Keys == traded.Keys
  {
  }

  lemma SoundGrows(levels: map<int, Level>, traded: map<int, nat>, pool: set<Order>, o: Order)
    requires Sound(levels, traded, pool)
    ensures Sound(levels, traded, pool + {o})
  {
  }

  /** The volumes at the levels that are still there are the same. */
  predicate Remaining(now: map<int, nat>, before: map<int, nat>) {
    forall p :: p in now ==> p in before && now[p] == before[p]
  }

  lemma RemainingStands(now: map<int, nat>, before: map<int, nat>, l: seq<Entry>)
    requires Remaining(now, before) && forall p :: p in now <==> CountAt(l, p) > 0
    ensures now == Standing(before, l)
  {
    hide CountAt;
    forall p
      ensures p in now <==> p in Standing(before, l)
    {
      assert p in now <==> CountAt(l, p) > 0;
    }
  }

  /** A match of `q` at `p` is booked there and nowhere else. */
  predicate Matched(now: map<int, nat>, before: map<int, nat>, p: int, q: nat) {
    p in before && now == before[p := before[p] + q]
  }

  lemma MatchedHere(before: map<int, nat>, p: int, q: nat)
    requires p in before
    ensures Matched(before[p := before[p] + q], before, p, q)
  {
  }

  /** What an index accounts for is all that the levels hold. */
  lemma SoundUnder(index: map<int, Order>, buyLevels: map<int, Level>, sellLevels: map<int, Level>,
                   buyTraded: map<int, nat>, sellTraded: map<int, nat>, pool: set<Order>)
    requires Structured(index, Refs(buyLevels), Refs(sellLevels))
    requires Sound(buyLevels, buyTraded, pool) && Sound(sellLevels, sellTraded, pool)
    ensures Sound(buyLevels, buyTraded, OrdersIn(index)) && Sound(sellLevels, sellTraded, OrdersIn(index))
  {
    assert forall p :: p in buyLevels ==> Refs(buyLevels)[p] == buyLevels[p].orders;
    assert forall p :: p in sellLevels ==> Refs(sellLevels)[p] == sellLevels[p].orders;
    forall p, o | p in buyLevels && o in buyLevels[p].orders
      ensures o in OrdersIn(index)
    {
      assert Registered(true, p, o, index);
    }
    forall p, o | p in sellLevels && o in sellLevels[p].orders
      ensures o in OrdersIn(index)
    {
      assert Registered(false, p, o, index);
    }
  }

  /** Storing a level back. */
  lemma StoreKeepsSound(levels: map<int, Level>, traded: map<int, nat>, pool: set<Order>, p: int, level: Level, v: nat)
    requires Sound(levels, traded, pool) && Counted(level, v) && forall o :: o in level.orders ==> o in pool
    ensures Sound(levels[p := level], traded[p := v], pool)
    ensures Refs(levels[p := level]) == Refs(levels)[p := level.orders]
  {
    hide Counted;
  }

  lemma DropKeepsSound(levels: map<int, Level>, traded: map<int, nat>, pool: set<Order>, p: int)
    requires Sound(levels, traded, pool)
    ensures Sound(levels - {p}, traded - {p}, pool)
    ensures Refs(levels - {p}) == Refs(levels) - {p}
  {
    hide Counted;
  }

  /** Appends an order to the level of its price, which is created on first use. */
  method AppendTo(levels: map<int, Level>, order: Order, ghost traded: map<int, nat>, ghost pool: set<Order>)
    returns (r: map<int, Level>, ghost traded': map<int, nat>)
    requires Sound(levels, traded, pool) && order in pool
    ensures Sound(r, traded', pool)
    ensures Refs(r) == Joined(Refs(levels), order)
    ensures traded' == Entered(traded, order.price)
  {
    var price := order.price;
    traded' := Entered(traded, price);
    ghost var v := if price in traded then traded[price] else 0;
    var level := new PriceLevel(if price in levels then levels[price] else EMPTY_LEVEL);
    level.AddOrder(order, v);
    r := levels[price := level.Value()];
    StoreKeepsSound(levels, traded, pool, price, level.Value(), v);
  }

  lemma PlacedInLevel(order: Order, levels: map<int, Level>)
    requires Placed(order, Refs(levels))
    ensures order.price in levels && order in levels[order.price].orders
  {
  }

  /** Removes an order from its level, and the level from the ladder when nothing is left in it. */
  method EraseFrom(levels: map<int, Level>, price: int, id: int, ghost traded: map<int, nat>, ghost pool: set<Order>)
    returns (r: map<int, Level>, removed: bool, ghost traded': map<int, nat>)
    requires Sound(levels, traded, pool) && price in levels
    ensures Sound(r, traded', pool)
    ensures Refs(r) == Left(Refs(levels), price, id)
    ensures removed <==> exists o :: o in levels[price].orders && o.id == id
    ensures Remaining(traded', traded)
  {
    var level := new PriceLevel(levels[price]);
    removed := level.RemoveOrder(id, traded[price]);
    forall o | o in level.orders
      ensures o in pool
    {
      DroppedHolds(levels[price].orders, id, o);
    }
    if level.IsEmpty() {
      r, traded' := levels - {price}, traded - {price};
      DropKeepsSound(levels, traded, pool, price);
    } else {
      r, traded' := levels[price := level.Value()], traded;
      StoreKeepsSound(levels, traded, pool, price, level.Value(), traded[price]);
    }
  }

  /** Takes `q` from an order: in a list that starts with it, and in one that does not have it. */
  method Reduce(order: Order, q: Quantity, ghost f: seq<Order>, ghost g: seq<Order>)
    requires q <= order.quantity
    requires f != [] && f[0] == order && NoDup(f) && order !in g
    modifies order`quantity
    ensures order.quantity == old(order.quantity) - q
    ensures Views(f) == Reduced(old(Views(f)), q)
    ensures Views(g) == old(Views(g))
  {
    hide Views;
    ghost var v, w := Views(f), Views(g);
    order.quantity := order.quantity - q;
    assert Views(f) == v[0 := v[0].(qty := v[0].qty - q)];
    assert Views(g) == w;
  }

  /** At the level of the order what rests goes down and what was matched away goes up. */
  method FillAt(level: Level, ghost traded: nat, order: Order, q: Quantity, ghost f: seq<Order>, ghost g: seq<Order>)
    requires Counted(level, traded) && NoDup(level.orders) && order in level.orders
    requires q <= order.quantity
    requires f != [] && f[0] == order && NoDup(f) && order !in g
    modifies order`quantity
    ensures order.quantity == old(order.quantity) - q
    ensures Counted(level, traded + q)
    ensures Views(f) == Reduced(old(Views(f)), q)
    ensures Views(g) == old(Views(g))
  {
    hide Views, Resting, Counted, Reduced;
    var queue := level.orders;
    ghost var views := Views(queue);
    ghost var i :| 0 <= i < |queue| && queue[i] == order;
    RestingIsTotal(queue);
    CountedMeans(level, traded);
    Reduce(order, q, f, g);
    assert Views(queue) == views[i := views[i].(qty := views[i].qty - q)];
    RestingIsTotal(queue);
    TotalAfterFill(views, i, q);
    CountedMeans(level, traded + q);
  }

  /**
   * A fill of one order leaves the cached totals alone: at its level what rests goes down and what was
   * matched away goes up; a ladder without the order does not notice.
   */
  method FillIn(levels: map<int, Level>, ghost traded: map<int, nat>,
                ghost other: map<int, Level>, ghost otherTraded: map<int, nat>,
                ghost pool: set<Order>, order: Order, q: Quantity, ghost f: seq<Order>, ghost g: seq<Order>)
    requires Sound(levels, traded, pool) && Sound(other, otherTraded, pool)
    requires Placed(order, Refs(levels)) && NoDup(Refs(levels)[order.price])
    requires forall p :: p in Refs(levels) && p != order.price ==> order !in Refs(levels)[p]
    requires forall p :: p in Refs(other) ==> order !in Refs(other)[p]
    requires q <= order.quantity
    requires f != [] && f[0] == order && NoDup(f) && order !in g
    modifies order`quantity
    ensures order.quantity == old(order.quantity) - q
    ensures Sound(levels, traded[order.price := traded[order.price] + q], pool)
    ensures Sound(other, otherTraded, pool)
    ensures Views(f) == Reduced(old(Views(f)), q)
    ensures Views(g) == old(Views(g))
  {
    hide Views, Resting, Counted, Reduced;
    OrdersOf(levels, order);
    OrdersOf(other, order);
    LevelCounted(levels, traded, pool, order.price);
    assert Refs(levels)[order.price] == levels[order.price].orders;
    FillAt(levels[order.price], traded[order.price], order, q, f, g);
  }

  lemma LevelCounted(levels: map<int, Level>, traded: map<int, nat>, pool: set<Order>, p: int)
    requires Sound(levels, traded, pool) && p in levels
    ensures Counted(levels[p], traded[p])
  {
  }

  lemma OrdersOf(levels: map<int, Level>, o: Order)
    ensures forall p :: p in levels ==> p in Refs(levels) && Refs(levels)[p] == levels[p].orders
    ensures forall p :: p in levels ==> (o in levels[p].orders <==> o in Refs(levels)[p])
  {
  }

  /** A side after `q` has been taken from its head, before a filled head is removed. */
  function Reduced(l: seq<Entry>, q: nat): seq<Entry>
    requires l != [] && q <= l[0].qty
  {
    l[0 := l[0].(qty := l[0].qty - q)]
  }

  class OrderBook {
    var buyLevels: map<int, Level>
    var sellLevels: map<int, Level>
    var orderMap: map<int, Order>
    var bestBid: int
    var bestAsk: int
    /** Volume matched away at each level since the level was created. */
    ghost var buyTraded: map<int, nat>
    ghost var sellTraded: map<int, nat>

    /** One side's orders, best price first, first in first out within a price. */
    function Queue(buy: bool): seq<Order>
      reads this
    {
      Flat(buy, Refs(if buy then buyLevels else sellLevels))
    }

    /** The index, the ladders and the caches agree. */
    ghost predicate Linked()
      reads this, orderMap.Values`price, orderMap.Values`quantity
    {
      && Structured(orderMap, Refs(buyLevels), Refs(sellLevels))
      && Sound(buyLevels, buyTraded, OrdersIn(orderMap))
      && Sound(sellLevels, sellTraded, OrdersIn(orderMap))
      && bestBid == BestOrZero(true, buyLevels.Keys)
      && bestAsk == BestOrZero(false, sellLevels.Keys)
    }

    /** What the book amounts to. */
    ghost function View(): Book
      requires Linked()
      reads this, orderMap.Values`price, orderMap.Values`quantity, orderMap.Values`timestamp
    {
      Shown(orderMap, Refs(buyLevels), Refs(sellLevels))
    }

    /** The volumes matched away at the levels that are there. */
    ghost function Volumes(): Ledger
      reads `buyTraded, `sellTraded
    {
      Ledger(buyTraded, sellTraded)
    }

    constructor ()
      ensures Linked() && View() == EMPTY && orderMap == map[] && Volumes() == NO_VOLUME
    {
      buyLevels, sellLevels, orderMap := map[], map[], map[];
      bestBid, bestAsk := 0, 0;
      buyTraded, sellTraded := map[], map[];
    }

    method UpdateBestBid()
      modifies this`bestBid
      ensures bestBid == BestOrZero(true, buyLevels.Keys)
      ensures if buyLevels == map[] then bestBid == 0
              else bestBid in buyLevels && forall p :: p in buyLevels ==> p <= bestBid
    {
      bestBid := if buyLevels.Keys == {} then 0 else Best(true, buyLevels.Keys);
    }

    method UpdateBestAsk()
      modifies this`bestAsk
      ensures bestAsk == BestOrZero(false, sellLevels.Keys)
      ensures if sellLevels == map[] then bestAsk == 0
              else bestAsk in sellLevels && forall p :: p in sellLevels ==> bestAsk <= p
    {
      bestAsk := if sellLevels.Keys == {} then 0 else Best(false, sellLevels.Keys);
    }

    /** Queues a buy at its price. */
    method EnqueueBuy(order: Order, ghost pool: set<Order>)
      requires Sound(buyLevels, buyTraded, pool) && Sound(sellLevels, sellTraded, pool) && order in pool
      modifies `buyLevels, `buyTraded, `bestBid
      ensures Sound(buyLevels, buyTraded, pool) && Sound(sellLevels, sellTraded, pool)
      ensures Refs(buyLevels) == Joined(old(Refs(buyLevels)), order)
      ensures buyTraded == Entered(old(buyTraded), order.price)
      ensures bestBid == BestOrZero(true, buyLevels.Keys)
    {
      hide Sound, Joined, Refs;
      buyLevels, buyTraded := AppendTo(buyLevels, order, buyTraded, pool);
      UpdateBestBid();
    }

    /** Queues a sell at its price. */
    method EnqueueSell(order: Order, ghost pool: set<Order>)
      requires Sound(buyLevels, buyTraded, pool) && Sound(sellLevels, sellTraded, pool) && order in pool
      modifies `sellLevels, `sellTraded, `bestAsk
      ensures Sound(buyLevels, buyTraded, pool) && Sound(sellLevels, sellTraded, pool)
      ensures Refs(sellLevels) == Joined(old(Refs(sellLevels)), order)
      ensures sellTraded == Entered(old(sellTraded), order.price)
      ensures bestAsk == BestOrZero(false, sellLevels.Keys)
    {
      hide Sound, Joined, Refs;
      sellLevels, sellTraded := AppendTo(sellLevels, order, sellTraded, pool);
      UpdateBestAsk();
    }

    /** Indexes an order and queues it on its side. */
    method Enlist(order: Order)
      requires Linked()
      modifies this
      ensures orderMap == old(orderMap)[order.id := order]
      ensures Refs(buyLevels) == if order.buy then Joined(old(Refs(buyLevels)), order) else old(Refs(buyLevels))
      ensures Refs(sellLevels) == if order.buy then old(Refs(sellLevels)) else Joined(old(Refs(sellLevels)), order)
      ensures Linked() <==> order.id !in old(orderMap)
      ensures order.id !in old(orderMap) ==> View() == Place(old(View()), order.View())
      ensures buyTraded == if order.buy then Entered(old(buyTraded), order.price) else old(buyTraded)
      ensures sellTraded == if order.buy then old(sellTraded) else Entered(old(sellTraded), order.price)
    {
      hide Structured, Sound, Joined, Refs, OrdersIn, Shown, Place, Add;
      ghost var buys, sells, index := Refs(buyLevels), Refs(sellLevels), orderMap;
      ghost var pool := OrdersIn(orderMap) + {order};
      SoundGrows(buyLevels, buyTraded, OrdersIn(orderMap), order);
      SoundGrows(sellLevels, sellTraded, OrdersIn(orderMap), order);
      orderMap := orderMap[order.id := order];
      if order.buy {
        EnqueueBuy(order, pool);
      } else {
        EnqueueSell(order, pool);
      }
      JoinStructured(index, buys, sells, order);
      if order.id !in index {
        OrdersInUpdate(index, order);
        JoinShown(index, buys, sells, order);
      }
    }

    lemma NewIsElsewhere(order: Order)
      requires Linked() && order.id !in orderMap
      ensures order !in orderMap.Values
    {
      FreshIsElsewhere(orderMap, Refs(buyLevels), Refs(sellLevels), order);
    }

    /** Stamps an order that has no timestamp, then indexes and queues it. */
    method Admit(order: Order, now: int)
      requires Linked()
      modifies this, order`timestamp
      ensures order.View() == Stamped(old(order.View()), now)
      ensures order.timestamp == if old(order.timestamp) == 0 then now else old(order.timestamp)
      ensures orderMap == old(orderMap)[order.id := order]
      ensures Linked() <==> order.id !in old(orderMap)
      ensures order.id !in old(orderMap) ==> View() == Place(old(View()), Stamped(old(order.View()), now))
      ensures buyTraded == if order.buy then Entered(old(buyTraded), order.price) else old(buyTraded)
      ensures sellTraded == if order.buy then old(sellTraded) else Entered(old(sellTraded), order.price)
    {
      hide Structured, Sound, Refs, OrdersIn, Shown, Place, Entered;
      if order.id !in orderMap {
        NewIsElsewhere(order);
      }
      if order.timestamp == 0 {
        order.timestamp := now;
      }
      Enlist(order);
    }

    method AddOrder(order: Order?, now: int) returns (added: bool)
      requires Linked()
      modifies this, {order}`timestamp
      ensures added <==> order != null && order.quantity > 0
      ensures !added ==> unchanged(this)
      ensures order != null ==> order.View() == if added then Stamped(old(order.View()), now) else old(order.View())
      ensures added ==> order.timestamp == if old(order.timestamp) == 0 then now else old(order.timestamp)
      ensures order != null ==> order.price == old(order.price) && order.quantity == old(order.quantity)
      ensures added ==> orderMap == old(orderMap)[order.id := order]
      ensures Linked() <==> !added || order.id !in old(orderMap)
      ensures order != null && Linked() ==> View() == Add(old(View()), old(order.View()), now)
      ensures added ==> buyTraded == if order.buy then Entered(old(buyTraded), order.price) else old(buyTraded)
      ensures added ==> sellTraded == if order.buy then old(sellTraded) else Entered(old(sellTraded), order.price)
    {
      hide OrderBook.Linked, OrderBook.View, Place, Entered;
      if order == null || order.quantity == 0 {
        return false;
      }
      Admit(order, now);
      return true;
    }

    /** Takes a buy out of its level. */
    method DequeueBuy(order: Order, ghost pool: set<Order>) returns (removed: bool)
      requires Sound(buyLevels, buyTraded, pool) && Sound(sellLevels, sellTraded, pool)
      requires Placed(order, Refs(buyLevels))
      modifies `buyLevels, `buyTraded, `bestBid
      ensures Sound(buyLevels, buyTraded, pool) && Sound(sellLevels, sellTraded, pool)
      ensures removed
      ensures Refs(buyLevels) == Left(old(Refs(buyLevels)), order.price, order.id)
      ensures Remaining(buyTraded, old(buyTraded))
      ensures bestBid == BestOrZero(true, buyLevels.Keys)
    {
      hide Sound, Left, Refs, Placed, Remaining, BestOrZero;
      PlacedInLevel(order, buyLevels);
      removed := false;
      if order.price in buyLevels {
        buyLevels, removed, buyTraded := EraseFrom(buyLevels, order.price, order.id, buyTraded, pool);
        UpdateBestBid();
      }
    }

    /** Takes a sell out of its level. */
    method DequeueSell(order: Order, ghost pool: set<Order>) returns (removed: bool)
      requires Sound(buyLevels, buyTraded, pool) && Sound(sellLevels, sellTraded, pool)
      requires Placed(order, Refs(sellLevels))
      modifies `sellLevels, `sellTraded, `bestAsk
      ensures Sound(buyLevels, buyTraded, pool) && Sound(sellLevels, sellTraded, pool)
      ensures removed
      ensures Refs(sellLevels) == Left(old(Refs(sellLevels)), order.price, order.id)
      ensures Remaining(sellTraded, old(sellTraded))
      ensures bestAsk == BestOrZero(false, sellLevels.Keys)
    {
      hide Sound, Left, Refs, Placed, Remaining, BestOrZero;
      PlacedInLevel(order, sellLevels);
      removed := false;
      if order.price in sellLevels {
        sellLevels, removed, sellTraded := EraseFrom(sellLevels, order.price, order.id, sellTraded, pool);
        UpdateBestAsk();
      }
    }

    /** Drops an indexed order from its ladder and from the index. */
    method Delist(order: Order) returns (removed: bool)
      requires Linked() && order.id in orderMap && orderMap[order.id] == order
      modifies this
      ensures Linked() && removed
      ensures orderMap == old(orderMap) - {order.id}
      ensures View() == Cancel(old(View()), order.id)
      ensures Remaining(buyTraded, old(buyTraded)) && Remaining(sellTraded, old(sellTraded))
    {
      hide Structured, Sound, Left, Refs, OrdersIn, Shown, Cancel, Placed;
      ghost var buys, sells, index, pool := Refs(buyLevels), Refs(sellLevels), orderMap, OrdersIn(orderMap);
      IndexedIsPlaced(index, buys, sells, order.id);
      LeaveShown(index, buys, sells, order);
      if order.buy {
        removed := DequeueBuy(order, pool);
      } else {
        removed := DequeueSell(order, pool);
      }
      if removed {
        orderMap := orderMap - {order.id};
      }
      SoundUnder(orderMap, buyLevels, sellLevels, buyTraded, sellTraded, pool);
    }

    /** The volumes are those of the prices at which something rests. */
    lemma VolumesStand()
      requires Linked()
      ensures forall p :: p in buyTraded <==> CountAt(View().bids, p) > 0
      ensures forall p :: p in sellTraded <==> CountAt(View().asks, p) > 0
    {
      hide Views, Flat;
      forall p
        ensures p in buyTraded <==> CountAt(View().bids, p) > 0
        ensures p in sellTraded <==> CountAt(View().asks, p) > 0
      {
        LevelsShown(true, Refs(buyLevels), orderMap, p);
        LevelsShown(false, Refs(sellLevels), orderMap, p);
      }
    }

    /** Volumes that were only ever dropped are the old ones at the prices where something rests. */
    lemma WhatIsKept(before: Ledger)
      requires Linked() && Remaining(buyTraded, before.buys) && Remaining(sellTraded, before.sells)
      ensures Volumes() == Kept(before, View())
    {
      hide OrderBook.Linked, OrderBook.View, CountAt;
      VolumesStand();
      RemainingStands(buyTraded, before.buys, View().bids);
      RemainingStands(sellTraded, before.sells, View().asks);
    }

    method CancelOrder(id: int) returns (removed: bool)
      requires Linked()
      modifies this
      ensures Linked()
      ensures removed <==> id in old(orderMap)
      ensures orderMap == old(orderMap) - {id}
      ensures View() == Cancel(old(View()), id)
      ensures Remaining(buyTraded, old(buyTraded)) && Remaining(sellTraded, old(sellTraded))
    {
      if id !in orderMap {
        CancelAbsent(orderMap, Refs(buyLevels), Refs(sellLevels), id);
        return false;
      }
      removed := Delist(orderMap[id]);
    }

    /** Cancel and re-enter with new terms; a new quantity of 0 only cancels. */
    method ModifyOrder(id: int, newPrice: int, newQuantity: Quantity, now: int, again: int) returns (modified: bool)
      requires Linked()
      modifies this, if id in orderMap then {orderMap[id]} else {}
      ensures Linked()
      ensures modified <==> id in old(orderMap) && newQuantity > 0
      ensures orderMap == if id in old(orderMap) && newQuantity == 0 then old(orderMap) - {id} else old(orderMap)
      ensures View() == Modify(old(View()), id, newPrice, newQuantity, now, again)
      ensures id in old(orderMap) ==>
                var order := old(orderMap[id]);
                && order.price == newPrice && order.quantity == newQuantity
                && order.timestamp == if newQuantity > 0 && now == 0 then again else now
      ensures Volumes() == Requeued(old(Volumes()), old(View()), id, newPrice, newQuantity)
    {
      hide Structured, Sound, Refs, OrdersIn, Shown, Cancel, Add, Find, Modify;
      ShownHolds(orderMap, Refs(buyLevels), Refs(sellLevels), id);
      ModifyCases(View(), id, newPrice, newQuantity, now, again);
      if id !in orderMap {
        return false;
      }
      var order := orderMap[id];
      IndexedIsPlaced(orderMap, Refs(buyLevels), Refs(sellLevels), id);
      FindShown(orderMap, Refs(buyLevels), Refs(sellLevels), id);
      ghost var before := Volumes();
      var _ := CancelOrder(id);
      WhatIsKept(before);
      FreshIsElsewhere(orderMap, Refs(buyLevels), Refs(sellLevels), order);
      order.price := newPrice;
      order.quantity := newQuantity;
      order.timestamp := now;
      modified := AddOrder(order, again);
    }

    /** Takes `q` from the best bid. */
    method TakeFromBid(order: Order, q: Quantity)
      requires Linked()
      requires Queue(true) != [] && Queue(true)[0] == order && order.buy == true && q <= order.quantity
      modifies `buyTraded, order`quantity
      ensures Linked()
      ensures order.quantity == old(order.quantity) - q
      ensures View().asks == old(View()).asks
      ensures var l := old(View()).bids;
              l != [] && q <= l[0].qty && View().bids == Reduced(l, q)
      ensures Matched(buyTraded, old(buyTraded), order.price, q)
    {
      hide Views, Sound, OrdersIn, Refs, Structured, NoDup, Placed, Reduced, Flat, Matched, BestOrZero, Best;
      ghost var buys, sells, pool := Refs(buyLevels), Refs(sellLevels), OrdersIn(orderMap);
      HeadStands(orderMap, buys, sells, order);
      RefsKeys(buyLevels, buyTraded, pool);
      var p := order.price;
      MatchedHere(buyTraded, p, q);
      FillIn(buyLevels, buyTraded, sellLevels, sellTraded, pool, order, q, Queue(true), Queue(false));
      buyTraded := buyTraded[p := buyTraded[p] + q];
    }

    /** Takes `q` from the best ask. */
    method TakeFromAsk(order: Order, q: Quantity)
      requires Linked()
      requires Queue(false) != [] && Queue(false)[0] == order && order.buy == false && q <= order.quantity
      modifies `sellTraded, order`quantity
      ensures Linked()
      ensures order.quantity == old(order.quantity) - q
      ensures View().bids == old(View()).bids
      ensures var l := old(View()).asks;
              l != [] && q <= l[0].qty && View().asks == Reduced(l, q)
      ensures Matched(sellTraded, old(sellTraded), order.price, q)
    {
      hide Views, Sound, OrdersIn, Refs, Structured, NoDup, Placed, Reduced, Flat, Matched, BestOrZero, Best;
      ghost var buys, sells, pool := Refs(buyLevels), Refs(sellLevels), OrdersIn(orderMap);
      HeadStands(orderMap, buys, sells, order);
      RefsKeys(sellLevels, sellTraded, pool);
      var p := order.price;
      MatchedHere(sellTraded, p, q);
      FillIn(sellLevels, sellTraded, buyLevels, buyTraded, pool, order, q, Queue(false), Queue(true));
      sellTraded := sellTraded[p := sellTraded[p] + q];
    }

    // Queries.

    function GetBestBid(): Order?
      reads this
    {
      if buyLevels.Keys == {} then null else buyLevels[Best(true, buyLevels.Keys)].GetBestOrder()
    }

    function GetBestAsk(): Order?
      reads this
    {
      if sellLevels.Keys == {} then null else sellLevels[Best(false, sellLevels.Keys)].GetBestOrder()
    }

    function GetOrder(id: int): Order?
      reads this
    {
      if id in orderMap then orderMap[id] else null
    }

    /** The spread, or 0 when a side is empty (or its best price is 0). */
    function GetSpread(): int
      reads this
    {
      if bestBid == 0 || bestAsk == 0 then 0 else bestAsk - bestBid
    }

    /** The guard of the matching loop: it looks at the cached prices only. */
    predicate HasMatch()
      reads this
    {
      bestBid > 0 && bestAsk > 0 && bestBid >= bestAsk
    }

    /** The best orders are the heads of the priority lists. */
    lemma BestAreHeads()
      requires Linked()
      ensures GetBestBid() == if Queue(true) == [] then null else Queue(true)[0]
      ensures GetBestAsk() == if Queue(false) == [] then null else Queue(false)[0]
      ensures Queue(true) != [] ==> var o := Queue(true)[0];
                o.id in orderMap && orderMap[o.id] == o && o.buy && o.price == bestBid && View().bids[0] == o.View()
      ensures Queue(false) != [] ==> var o := Queue(false)[0];
                o.id in orderMap && orderMap[o.id] == o && !o.buy && o.price == bestAsk && View().asks[0] == o.View()
      ensures |View().bids| == |Queue(true)| && |View().asks| == |Queue(false)|
    {
      hide Views, Sound, Flat;
      assert Refs(buyLevels).Keys == buyLevels.Keys && Refs(sellLevels).Keys == sellLevels.Keys;
      HeadOfFlat(true, Refs(buyLevels), orderMap);
      HeadOfFlat(false, Refs(sellLevels), orderMap);
    }

    /** The cached prices tell whether the heads match, for prices of any sign. */
    lemma CachedMatch()
      requires Linked()
      ensures HasMatch() <==> Merge.HasMatch(View().bids, View().asks)
      ensures Queue(true) == [] ==> bestBid == 0
      ensures Queue(false) == [] ==> bestAsk == 0
    {
      BestAreHeads();
      hide Views, Sound, Flat, Structured;
    }

    /**
     * The caches of every level, told by what the book shows: the count is exact, and the total exceeds what
     * rests at the price by exactly the volume matched away there since the level was created, modulo 2^32.
     */
    lemma LevelTotals(buy: bool, p: int)
      requires Linked() && p in (if buy then buyLevels else sellLevels)
      ensures var level, l := (if buy then buyLevels else sellLevels)[p], View().Side(buy);
              var traded := if buy then buyTraded else sellTraded;
              && level.orderCount == CountAt(l, p) > 0
              && p in traded && level.totalQuantity == (QtyAt(l, p) + traded[p]) % 0x1_0000_0000
              && (QtyAt(l, p) + traded[p] < 0x1_0000_0000 ==> level.totalQuantity == QtyAt(l, p) + traded[p])
    {
      hide Views, Flat;
      var levels := if buy then buyLevels else sellLevels;
      LevelShown(buy, Refs(levels), orderMap, p);
      RestingIsTotal(levels[p].orders);
      assert Refs(levels)[p] == levels[p].orders;
    }

    /** The spread is the gap between the heads, unless a side is empty or a best price is 0. */
    lemma SpreadOfHeads()
      requires Linked()
      ensures var b := View();
              GetSpread() == if b.bids == [] || b.asks == [] || b.bids[0].price == 0 || b.asks[0].price == 0 then 0
                             else b.asks[0].price - b.bids[0].price
    {
      BestAreHeads();
      CachedMatch();
      hide Views, Sound, Flat, Structured;
    }
  }
}
