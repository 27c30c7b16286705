// One price level: a first-in first-out queue with a cached quantity and a cached count.

module Levels {
  import opened Orders
  import opened Lists
  import opened Books

  /** Position of the first order with this id, or the length of the queue. */
  function Position(orders: seq<Order>, id: int): (i: nat)
    ensures i <= |orders|
    ensures forall j :: 0 <= j < i ==> orders[j].id != id
    ensures i < |orders| ==> orders[i].id == id
  {
    if orders == [] || orders[0].id == id then 0 else 1 + Position(orders[1..], id)
  }

  function Dropped(orders: seq<Order>, id: int): seq<Order> {
    var i := Position(orders, id);
    if i < |orders| then orders[..i] + orders[i + 1..] else orders
  }

  lemma IndexUnique(l: seq<Entry>, id: int, i: nat)
    requires i < |l| && l[i].id == id
    requires forall j :: 0 <= j < i ==> l[j].id != id
    ensures IndexOf(l, id) == i
  {
  }

  /** The quantity that rests in a queue. */
  function Resting(orders: seq<Order>): nat
    reads orders`quantity
  {
    if orders == [] then 0 else orders[0].quantity + Resting(orders[1..])
  }

  lemma {:induction false} RestingIsTotal(orders: seq<Order>)
    ensures Resting(orders) == Total(Views(orders))
  {
    if orders != [] {
      RestingIsTotal(orders[1..]);
      assert Views(orders)[1..] == Views(orders[1..]);
    }
  }

  lemma {:induction false} TotalAfterFill(l: seq<Entry>, i: nat, q: nat)
    requires i < |l| && q <= l[i].qty
    ensures Total(l) == Total(l[i := l[i].(qty := l[i].qty - q)]) + q
  {
    if i > 0 {
      TotalAfterFill(l[1..], i - 1, q);
      assert l[i := l[i].(qty := l[i].qty - q)][1..] == l[1..][i - 1 := l[i].(qty := l[i].qty - q)];
    }
  }

  lemma {:induction false} RestingSplit(l: seq<Order>, r: seq<Order>)
    ensures Resting(l + r) == Resting(l) + Resting(r)
  {
    if l == [] {
      assert l + r == r;
    } else {
      RestingSplit(l[1..], r);
      assert (l + r)[1..] == l[1..] + r;
    }
  }

  lemma RestingWithout(l: seq<Order>, i: nat)
    requires i < |l|
    ensures Resting(l) == Resting(l[..i] + l[i + 1..]) + l[i].quantity
  {
    assert l == l[..i] + ([l[i]] + l[i + 1..]);
    assert ([l[i]] + l[i + 1..])[1..] == l[i + 1..];
    RestingSplit(l[..i], [l[i]] + l[i + 1..]);
    RestingSplit(l[..i], l[i + 1..]);
  }

  /** 32-bit addition and subtraction of an exact amount to a wrapped total. */
  lemma Wrap(total: int, q: int)
    ensures (total % QUANTITY_RANGE + q) % QUANTITY_RANGE == (total + q) % QUANTITY_RANGE
    ensures (total % QUANTITY_RANGE - q) % QUANTITY_RANGE == (total - q) % QUANTITY_RANGE
  {
  }

  /** The value of a price level, as the ladder stores it. */
  datatype Level = Level(orders: seq<Order>, totalQuantity: Quantity, orderCount: nat)
  {
    /** First in first out. */
    function GetBestOrder(): Order? {
      if orders == [] then null else orders[0]
    }
  }

  const EMPTY_LEVEL: Level := Level([], 0, 0)

  /**
   * The caches of a level: the count is exact; the total is what rests plus what was matched away
   * while the level existed (the cached total is never told of a match), modulo 2^32.
   */
  predicate Counted(level: Level, traded: nat)
    reads level.orders`quantity
  {
    && level.orderCount == |level.orders|
    && level.totalQuantity == (Resting(level.orders) + traded) % QUANTITY_RANGE
  }

  lemma CountedMeans(level: Level, traded: nat)
    ensures Counted(level, traded) <==>
              && level.orderCount == |level.orders|
              && level.totalQuantity == (Resting(level.orders) + traded) % QUANTITY_RANGE
  {
  }

  /** Taking out the first order with an id. */
  lemma DropKeepsCounted(level: Level, traded: nat, id: int, i: nat)
    requires Counted(level, traded) && i < |level.orders| && level.orders[i].id == id
    requires forall j :: 0 <= j < i ==> level.orders[j].id != id
    ensures i == Position(level.orders, id) && level.orderCount > 0
    ensures Dropped(level.orders, id) == level.orders[..i] + level.orders[i + 1..]
    ensures var total := (level.totalQuantity - level.orders[i].quantity) % QUANTITY_RANGE;
            Counted(Level(Dropped(level.orders, id), total, level.orderCount - 1), traded)
  {
    RestingWithout(level.orders, i);
    Wrap(Resting(level.orders) + traded, level.orders[i].quantity);
  }

  lemma DropNothing(orders: seq<Order>, id: int)
    requires forall j :: 0 <= j < |orders| ==> orders[j].id != id
    ensures Dropped(orders, id) == orders && Position(orders, id) == |orders|
  {
  }

  class PriceLevel {
    var orders: seq<Order>
    var totalQuantity: Quantity
    var orderCount: nat

    function Value(): Level
      reads this
    {
      Level(orders, totalQuantity, orderCount)
    }

    constructor (level: Level)
      ensures Value() == level
    {
      orders, totalQuantity, orderCount := level.orders, level.totalQuantity, level.orderCount;
    }

    method AddOrder(order: Order, ghost traded: nat)
      requires Counted(Value(), traded)
      modifies this
      ensures Counted(Value(), traded)
      ensures orders == old(orders) + [order]
      ensures totalQuantity == (old(totalQuantity) + order.quantity) % 0x1_0000_0000
      ensures orderCount == old(orderCount) + 1
    {
      Wrap(Resting(orders) + traded, order.quantity);
      RestingSplit(orders, [order]);
      orders := orders + [order];
      totalQuantity := (totalQuantity + order.quantity) % QUANTITY_RANGE;
      orderCount := orderCount + 1;
    }

    method RemoveOrder(id: int, ghost traded: nat) returns (removed: bool)
      requires Counted(Value(), traded)
      modifies this
      ensures Counted(Value(), traded)
      ensures removed <==> exists o :: o in old(orders) && o.id == id
      ensures orders == Dropped(old(orders), id)
      ensures var i := Position(old(orders), id);
              if removed then
                && i < |old(orders)|
                && totalQuantity == (old(totalQuantity) - old(orders)[i].quantity) % 0x1_0000_0000
                && orderCount == old(orderCount) - 1
              else unchanged(this)
    {
      hide Counted, Resting, Dropped;
      ghost var at := Position(orders, id);
      var i := 0;
      while i < |orders|
        invariant 0 <= i <= |orders|
        invariant forall j :: 0 <= j < i ==> orders[j].id != id
        invariant unchanged(this)
      {
        if orders[i].id == id {
          DropKeepsCounted(Value(), traded, id, i);
          totalQuantity := (totalQuantity - orders[i].quantity) % QUANTITY_RANGE;
          orders := orders[..i] + orders[i + 1..];
          orderCount := orderCount - 1;
          assert old(orders[at]) in old(orders);
          return true;
        }
        i := i + 1;
      }
      DropNothing(orders, id);
      return false;
    }

    predicate IsEmpty()
      reads this
    {
      orders == []
    }
  }
}
