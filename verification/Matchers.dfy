// The matcher: crosses the best bid with the best ask, in place, until the book no longer matches.

module Matchers {
  import opened Orders
  import opened Lists
  import opened Merge
  import opened Books
  import opened BookLinks
  import opened OrderBooks

  /** Removing a head that is filled up completes the fill of a buy. */
  lemma FilledBidLeaves(b: Book, l: seq<Entry>, q: nat)
    requires l != [] && q <= l[0].qty && b.bids == Reduced(l, q)
    ensures l[0].qty == q ==> Cancel(b, l[0].id) == Book(Fill(l, q), b.asks)
    ensures l[0].qty != q ==> b == Book(Fill(l, q), b.asks)
  {
    assert b.bids[0].id == l[0].id;
    assert Reduced(l, q)[1..] == l[1..];
  }

  /** Removing a head that is filled up completes the fill of a sell. */
  lemma FilledAskLeaves(b: Book, l: seq<Entry>, q: nat)
    requires l != [] && q <= l[0].qty && b.asks == Reduced(l, q)
    requires !HasId(b.bids, l[0].id)
    ensures l[0].qty == q ==> Cancel(b, l[0].id) == Book(b.bids, Fill(l, q))
    ensures l[0].qty != q ==> b == Book(b.bids, Fill(l, q))
  {
    assert b.asks[0].id == l[0].id;
    assert Reduced(l, q)[1..] == l[1..];
  }

  /** Nothing was indexed anew. */
  predicate Shrinks(now: map<int, Order>, before: map<int, Order>) {
    forall id :: id in now ==> id in before && now[id] == before[id]
  }

  /** At every level that is left, the volume matched away has grown by `q` at price `p` and by nothing elsewhere. */
  predicate Booked(now: map<int, nat>, before: map<int, nat>, p: int, q: nat) {
    forall r :: r in now ==> r in before && now[r] == before[r] + (if r == p then q else 0)
  }

  lemma BookedThenDropped(now: map<int, nat>, mid: map<int, nat>, before: map<int, nat>, p: int, q: nat)
    requires Remaining(now, mid) && Matched(mid, before, p, q)
    ensures Booked(now, before, p, q)
  {
  }

  lemma RemainingTwice(now: map<int, nat>, mid: map<int, nat>, before: map<int, nat>)
    requires Remaining(now, mid) && Remaining(mid, before)
    ensures Remaining(now, before)
  {
  }

  /** What is booked at a level so far and what the rest of the run will book there make what the whole run does. */
  predicate Due(now: map<int, nat>, here: Book, before: map<int, nat>, start: Book, buy: bool) {
    forall r :: r in now ==>
      && r in before
      && now[r] + MatchedAt(here.bids, here.asks, buy, r) == before[r] + MatchedAt(start.bids, start.asks, buy, r)
  }

  lemma DueTurn(now: map<int, nat>, mid: map<int, nat>, here: Book, before: map<int, nat>, start: Book, buy: bool)
    requires Due(mid, here, before, start, buy) && Merge.HasMatch(here.bids, here.asks)
    requires var q := MatchQty(here.bids[0], here.asks[0]);
             Booked(now, mid, (if buy then here.bids[0] else here.asks[0]).price, q)
    ensures var q := MatchQty(here.bids[0], here.asks[0]);
            Due(now, Book(Fill(here.bids, q), Fill(here.asks, q)), before, start, buy)
  {
    var q := MatchQty(here.bids[0], here.asks[0]);
    forall r | r in now
      ensures r in before
      ensures now[r] + MatchedAt(Fill(here.bids, q), Fill(here.asks, q), buy, r)
              == before[r] + MatchedAt(start.bids, start.asks, buy, r)
    {
      assert r in mid;
      MatchedStep(here.bids, here.asks, buy, r);
      hide MatchedAt;
    }
  }

  lemma MatchedStep(bids: seq<Entry>, asks: seq<Entry>, buy: bool, p: int)
    requires Merge.HasMatch(bids, asks)
    ensures var q := MatchQty(bids[0], asks[0]);
            MatchedAt(bids, asks, buy, p)
            == (if (if buy then bids[0] else asks[0]).price == p then q else 0)
               + MatchedAt(Fill(bids, q), Fill(asks, q), buy, p)
  {
  }

  /** Each level that is left has been booked exactly what the run matched there. */
  predicate Grown(now: map<int, nat>, before: map<int, nat>, start: Book, buy: bool) {
    forall r :: r in now ==> r in before && now[r] == before[r] + MatchedAt(start.bids, start.asks, buy, r)
  }

  /** When nothing matches any more, everything due is booked. */
  lemma DueEnd(now: map<int, nat>, here: Book, before: map<int, nat>, start: Book, buy: bool)
    requires Due(now, here, before, start, buy) && !Merge.HasMatch(here.bids, here.asks)
    ensures Grown(now, before, start, buy)
  {
  }

  lemma ShrinksTwice(now: map<int, Order>, mid: map<int, Order>, before: map<int, Order>)
    requires Shrinks(now, mid) && Shrinks(mid, before)
    ensures Shrinks(now, before)
  {
  }

  lemma SameQuantities(now: map<int, Order>, before: map<int, Order>)
    requires Shrinks(now, before)
    ensures now.Values <= before.Values
  {
    forall o | o in now.Values
      ensures o in before.Values
    {
      var id := KeyOf(now, o);
      assert before[id] in before.Values;
    }
  }

  /** The matcher's records after the trades `done`: they are in the log, and the last trade is the last of them. */
  predicate Recorded(log: seq<Trade>, last: Trade, log0: seq<Trade>, last0: Trade, done: seq<Trade>) {
    log == log0 + done && last == (if done == [] then last0 else done[|done| - 1])
  }

  lemma RecordedTurn(log: seq<Trade>, last: Trade, log0: seq<Trade>, last0: Trade, done: seq<Trade>, t: Trade)
    requires Recorded(log, last, log0, last0, done)
    ensures Recorded(log + [t], t, log0, last0, done + [t])
  {
    assert log0 + done + [t] == log0 + (done + [t]);
  }

  lemma RecordedMeans(log: seq<Trade>, last: Trade, log0: seq<Trade>, last0: Trade, done: seq<Trade>)
    requires Recorded(log, last, log0, last0, done)
    ensures log == log0 + done && last == (if done == [] then last0 else done[|done| - 1])
  {
  }

  class Matcher {
    var lastTrade: Trade
    /** Every trade so far; the program keeps only the last one. */
    ghost var log: seq<Trade>

    constructor ()
      ensures log == []
    {
      lastTrade, log := Trade(0, 0, 0, 0, 0), [];
    }

    /** Removes the best bid when nothing is left of it. */
    method DropFilledBid(book: OrderBook, bid: Order, ghost l: seq<Entry>, ghost q: nat)
      requires book.Linked() && l != [] && q <= l[0].qty && book.View().bids == Reduced(l, q)
      requires bid.id == l[0].id && bid.quantity == l[0].qty - q
      modifies book
      ensures book.Linked() && book.View() == Book(Fill(l, q), old(book.View()).asks)
      ensures Shrinks(book.orderMap, old(book.orderMap))
      ensures Remaining(book.buyTraded, old(book.buyTraded)) && Remaining(book.sellTraded, old(book.sellTraded))
    {
      FilledBidLeaves(book.View(), l, q);
      hide OrderBook.Linked, OrderBook.View, Cancel, Fill, Reduced;
      if bid.quantity == 0 {
        var _ := book.CancelOrder(bid.id);
      }
    }

    /** Removes the best ask when nothing is left of it. */
    method DropFilledAsk(book: OrderBook, ask: Order, ghost l: seq<Entry>, ghost q: nat)
      requires book.Linked() && l != [] && q <= l[0].qty && book.View().asks == Reduced(l, q)
      requires ask.id == l[0].id && ask.quantity == l[0].qty - q && !HasId(book.View().bids, ask.id)
      modifies book
      ensures book.Linked() && book.View() == Book(old(book.View()).bids, Fill(l, q))
      ensures Shrinks(book.orderMap, old(book.orderMap))
      ensures Remaining(book.buyTraded, old(book.buyTraded)) && Remaining(book.sellTraded, old(book.sellTraded))
    {
      FilledAskLeaves(book.View(), l, q);
      hide OrderBook.Linked, OrderBook.View, Cancel, Fill, Reduced;
      if ask.quantity == 0 {
        var _ := book.CancelOrder(ask.id);
      }
    }

    method ExecuteTrade(book: OrderBook, bid: Order, ask: Order, price: int, qty: Quantity, now: int)
      requires book.Linked()
      requires book.Queue(true) != [] && book.Queue(true)[0] == bid
      requires book.Queue(false) != [] && book.Queue(false)[0] == ask
      requires qty <= bid.quantity && qty <= ask.quantity
      modifies this, book, bid`quantity, ask`quantity
      ensures lastTrade == Trade(bid.id, ask.id, qty, price, now) && log == old(log) + [lastTrade]
      ensures book.Linked()
      ensures var before := old(book.View());
              && before.bids != [] && before.asks != [] && qty <= before.bids[0].qty && qty <= before.asks[0].qty
              && book.View() == Book(Fill(before.bids, qty), Fill(before.asks, qty))
      ensures Shrinks(book.orderMap, old(book.orderMap))
      ensures Booked(book.buyTraded, old(book.buyTraded), bid.price, qty)
      ensures Booked(book.sellTraded, old(book.sellTraded), ask.price, qty)
    {
      hide OrderBook.Linked, OrderBook.View, Fill, Shrinks, Booked, Remaining, Matched;
      ghost var before, index, buys, sells := book.View(), book.orderMap, book.buyTraded, book.sellTraded;
      book.BestAreHeads();
      AskIsNoBid(book, ask);
      FillIds(before.bids, qty, ask.id);
      lastTrade := Trade(bid.id, ask.id, qty, price, now);
      log := log + [lastTrade];
      book.TakeFromBid(bid, qty);
      book.TakeFromAsk(ask, qty);
      ghost var buys1, sells1 := book.buyTraded, book.sellTraded;
      DropFilledBid(book, bid, before.bids, qty);
      ghost var index', buys2, sells2 := book.orderMap, book.buyTraded, book.sellTraded;
      DropFilledAsk(book, ask, before.asks, qty);
      ShrinksTwice(book.orderMap, index', index);
      RemainingTwice(book.buyTraded, buys2, buys1);
      RemainingTwice(book.sellTraded, sells2, sells1);
      BookedThenDropped(book.buyTraded, buys1, buys, bid.price, qty);
      BookedThenDropped(book.sellTraded, sells1, sells, ask.price, qty);
    }

    lemma AskIsNoBid(book: OrderBook, ask: Order)
      requires book.Linked() && ask.id in book.orderMap && !book.orderMap[ask.id].buy
      ensures !HasId(book.View().bids, ask.id)
    {
      ShownHolds(book.orderMap, Refs(book.buyLevels), Refs(book.sellLevels), ask.id);
    }

    /** One turn of the loop. On a linked book neither of its two early exits is ever taken. */
    method MatchBest(book: OrderBook, now: int) returns (stop: bool)
      requires book.Linked() && book.HasMatch()
      modifies this, book, book.orderMap.Values`quantity
      ensures !stop && book.Linked()
      ensures old(Merge.HasMatch(book.View().bids, book.View().asks))
      ensures var before := old(book.View());
              var q := MatchQty(before.bids[0], before.asks[0]);
              && book.View() == Book(Fill(before.bids, q), Fill(before.asks, q))
              && lastTrade == TradeOf(before.bids[0], before.asks[0], now)
      ensures log == old(log) + [lastTrade]
      ensures Shrinks(book.orderMap, old(book.orderMap))
      ensures var before := old(book.View());
              var q := MatchQty(before.bids[0], before.asks[0]);
              && Booked(book.buyTraded, old(book.buyTraded), before.bids[0].price, q)
              && Booked(book.sellTraded, old(book.sellTraded), before.asks[0].price, q)
    {
      var bestBid := book.GetBestBid();
      var bestAsk := book.GetBestAsk();
      book.BestAreHeads();
      book.CachedMatch();
      if bestBid == null || bestAsk == null {
        return true;
      }
      if bestBid.price < bestAsk.price {
        return true;
      }
      var matchPrice := if bestBid.timestamp < bestAsk.timestamp then bestBid.price else bestAsk.price;
      var matchQty := if bestBid.quantity < bestAsk.quantity then bestBid.quantity else bestAsk.quantity;
      hide OrderBook.Linked, OrderBook.View, OrderBook.Queue, Shrinks, Fill, Booked;
      ExecuteTrade(book, bestBid, bestAsk, matchPrice, matchQty, now);
      return false;
    }

    /** The whole run is the pure run on the two priority lists. */
    method MatchOrders(book: OrderBook, clock: nat -> int) returns (tradeCount: nat)
      requires book.Linked()
      modifies this, book, book.orderMap.Values`quantity
      ensures book.Linked()
      ensures var out := old(Run(book.View().bids, book.View().asks, clock, 0));
              && book.View() == Book(out.bids, out.asks)
              && tradeCount == |out.trades|
              && log == old(log) + out.trades
              && lastTrade == (if out.trades == [] then old(lastTrade) else out.trades[|out.trades| - 1])
      ensures Shrinks(book.orderMap, old(book.orderMap))
      ensures var start := old(book.View());
              && Grown(book.buyTraded, old(book.buyTraded), start, true)
              && Grown(book.sellTraded, old(book.sellTraded), start, false)
    {
      tradeCount := 0;
      ghost var buys, sells := book.buyTraded, book.sellTraded;
      ghost var start, index, last0, log0, done := book.View(), book.orderMap, lastTrade, log, [];
      assert Shrinks(book.orderMap, index) && Recorded(log, lastTrade, log0, last0, done);
      assert Due(buys, start, buys, start, true) && Due(sells, start, sells, start, false);
      Beginning(start.bids, start.asks, clock);
      hide OrderBook.Linked, OrderBook.View, OrderBook.Queue, Shrinks, Run, Fill, Underway, Recorded, Due, Booked;
      while book.HasMatch()
        invariant book.Linked()
        invariant tradeCount == |done| && Recorded(log, lastTrade, log0, last0, done)
        invariant Underway(start.bids, start.asks, clock, done, book.View().bids, book.View().asks)
        invariant Shrinks(book.orderMap, index)
        invariant Due(book.buyTraded, book.View(), buys, start, true)
        invariant Due(book.sellTraded, book.View(), sells, start, false)
        decreases |book.View().bids| + |book.View().asks|
      {
        ghost var before, index', log', last' := book.View(), book.orderMap, log, lastTrade;
        ghost var buys', sells' := book.buyTraded, book.sellTraded;
        SameQuantities(index', index);
        var stop := MatchBest(book, clock(tradeCount));
        if stop {
          break;
        }
        Turn(start.bids, start.asks, clock, done, before.bids, before.asks, lastTrade);
        RecordedTurn(log', last', log0, last0, done, lastTrade);
        ShrinksTwice(book.orderMap, index', index);
        DueTurn(book.buyTraded, buys', before, buys, start, true);
        DueTurn(book.sellTraded, sells', before, sells, start, false);
        done := done + [lastTrade];
        tradeCount := tradeCount + 1;
      }
      book.CachedMatch();
      DueEnd(book.buyTraded, book.View(), buys, start, true);
      DueEnd(book.sellTraded, book.View(), sells, start, false);
      Ending(start.bids, start.asks, clock, done, book.View().bids, book.View().asks);
      RecordedMeans(log, lastTrade, log0, last0, done);
    }
  }
}
