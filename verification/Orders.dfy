// The order record, its comparators, and the value that a resting order shows to the book.

module Orders {

  /** 32-bit unsigned quantities: sums of them wrap. */
  const QUANTITY_RANGE: int := 0x1_0000_0000
  type Quantity = q: int | 0 <= q < 0x1_0000_0000

  /** What an order says at one instant, without its identity in memory. */
  datatype Entry = Entry(id: int, buy: bool, price: int, qty: nat, ts: int)

  class Order {
    const id: int
    const buy: bool
    var quantity: Quantity
    var price: int
    var timestamp: int

    constructor (id: int, buy: bool, quantity: Quantity, price: int, timestamp: int)
      ensures this.id == id && this.buy == buy
      ensures this.quantity == quantity && this.price == price && this.timestamp == timestamp
      ensures View() == Entry(id, buy, price, quantity, timestamp)
    {
      this.id, this.buy := id, buy;
      this.quantity, this.price, this.timestamp := quantity, price, timestamp;
    }

    function View(): Entry
      reads `price, `quantity, `timestamp
    {
      Entry(id, buy, price, quantity, timestamp)
    }
  }

  /** `operator>`: the order that `l > r` puts first among buys. */
  predicate Greater(l: Entry, r: Entry) {
    if l.price != r.price then l.price > r.price else l.ts < r.ts
  }

  /** `operator<`: the order that `l < r` puts first among sells. */
  predicate Less(l: Entry, r: Entry) {
    if l.price != r.price then l.price < r.price else l.ts < r.ts
  }

  /** The comparator that belongs to a side of the book. */
  predicate Beats(buy: bool, l: Entry, r: Entry) {
    if buy then Greater(l, r) else Less(l, r)
  }

  /** `p` is at least as good a price as `q` for this side. */
  predicate Ahead(buy: bool, p: int, q: int) {
    if buy then p >= q else p <= q
  }

  /** The entries of a list of orders, as the heap stands now. */
  function Views(orders: seq<Order>): (views: seq<Entry>)
    reads orders`price, orders`quantity, orders`timestamp
    ensures |views| == |orders|
    ensures forall i :: 0 <= i < |orders| ==> views[i] == orders[i].View()
  {
    if orders == [] then [] else [orders[0].View()] + Views(orders[1..])
  }
}
