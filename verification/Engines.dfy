// Scripts of operations run on the book and the matcher in memory.

module Engines {
  import opened Orders
  import opened Lists
  import opened Merge
  import opened Books
  import opened Ledgers
  import opened Levels
  import opened BookLinks
  import opened OrderBooks
  import opened Matchers
  import opened Session

  /** The quantities of an operation fit their 32-bit fields. */
  predicate InRange(op: Op) {
    match op
    case OpAdd(e, _) => e.qty < QUANTITY_RANGE
    case OpModify(_, _, qty, _, _) => qty < QUANTITY_RANGE
    case _ => true
  }

  /** The trades of a script, in order. */
  function TradesOfAll(b: Book, ops: seq<Op>): seq<Trade>
    decreases |ops|
  {
    if ops == [] then []
    else (if ops[0].OpMatch? then TradesOf(b, ops[0].clock) else []) + TradesOfAll(Apply(b, ops[0]), ops[1..])
  }

  /** The trades of a script are those of its parts, and those of a match are the pure run's. */
  lemma {:induction false} TradesOnTrades(b: Book, first: seq<Op>, second: seq<Op>)
    ensures TradesOfAll(b, first + second) == TradesOfAll(b, first) + TradesOfAll(ApplyAll(b, first), second)
    decreases |first|
  {
    if first == [] {
      assert first + second == second;
    } else {
      assert (first + second)[1..] == first[1..] + second;
      TradesOnTrades(Apply(b, first[0]), first[1..], second);
    }
  }

  lemma TradesOfOne(b: Book, op: Op)
    ensures TradesOfAll(b, []) == []
    ensures TradesOfAll(b, [op]) == if op.OpMatch? then Merge.Run(b.bids, b.asks, op.clock, 0).trades else []
  {
    assert [op][1..] == [];
    assert TradesOfAll(Apply(b, op), []) == [];
  }

  lemma IdIsIndexed(book: OrderBook, id: int)
    requires book.Linked()
    ensures book.View().Holds(id) <==> id in book.orderMap
  {
    ShownHolds(book.orderMap, Refs(book.buyLevels), Refs(book.sellLevels), id);
  }

  /** `getOrder` answers from the index exactly what the priority lists hold. */
  lemma GetOrderFinds(book: OrderBook, id: int)
    requires book.Linked()
    ensures book.GetOrder(id) == null <==> !book.View().Holds(id)
    ensures book.View().Holds(id) ==> book.GetOrder(id) != null && book.GetOrder(id).View() == Find(book.View(), id)
  {
    IdIsIndexed(book, id);
    if id in book.orderMap {
      FindShown(book.orderMap, Refs(book.buyLevels), Refs(book.sellLevels), id);
    }
  }

  /** In a time-ordered book no order beats the best one of its side under the comparator of that side. */
  lemma BestIsUnbeaten(book: OrderBook)
    requires book.Linked() && TimeOrdered(book.View())
    ensures book.GetBestBid() == null <==> book.View().bids == []
    ensures book.GetBestAsk() == null <==> book.View().asks == []
    ensures forall e :: e in book.View().bids ==>
              e == book.GetBestBid().View() || !Greater(e, book.GetBestBid().View())
    ensures forall e :: e in book.View().asks ==>
              e == book.GetBestAsk().View() || !Less(e, book.GetBestAsk().View())
  {
    book.BestAreHeads();
    var v := book.View();
    hide OrderBook.Linked, OrderBook.View;
    assert forall i :: 0 < i < |v.bids| ==> !Beats(true, v.bids[i], v.bids[0]);
    assert forall i :: 0 < i < |v.asks| ==> !Beats(false, v.asks[i], v.asks[0]);
  }

  /** When nothing matches and both best prices are above 0, the spread is positive. */
  lemma SpreadWhenUncrossed(book: OrderBook)
    requires book.Linked() && !book.HasMatch()
    requires book.View().bids != [] && book.View().asks != []
    requires book.View().bids[0].price > 0 && book.View().asks[0].price > 0
    ensures book.GetSpread() == book.View().asks[0].price - book.View().bids[0].price > 0
  {
    book.SpreadOfHeads();
    book.CachedMatch();
  }

  /** The caches of every level on one side, told by the book and its ledger. */
  ghost predicate Totalled(levels: map<int, Level>, l: seq<Entry>, traded: map<int, nat>) {
    forall p :: p in levels ==>
      && p in traded && levels[p].orderCount == CountAt(l, p) > 0
      && levels[p].totalQuantity == (QtyAt(l, p) + traded[p]) % 0x1_0000_0000
  }

  lemma TotalsOfLevels(book: OrderBook)
    requires book.Linked()
    ensures Totalled(book.buyLevels, book.View().bids, book.buyTraded)
    ensures Totalled(book.sellLevels, book.View().asks, book.sellTraded)
  {
    hide OrderBook.Linked, OrderBook.View, CountAt, QtyAt;
    forall p | p in book.buyLevels
      ensures p in book.buyTraded && book.buyLevels[p].orderCount == CountAt(book.View().bids, p) > 0
      ensures book.buyLevels[p].totalQuantity == (QtyAt(book.View().bids, p) + book.buyTraded[p]) % 0x1_0000_0000
    {
      book.LevelTotals(true, p);
    }
    forall p | p in book.sellLevels
      ensures p in book.sellTraded && book.sellLevels[p].orderCount == CountAt(book.View().asks, p) > 0
      ensures book.sellLevels[p].totalQuantity == (QtyAt(book.View().asks, p) + book.sellTraded[p]) % 0x1_0000_0000
    {
      book.LevelTotals(false, p);
    }
  }

  lemma RaisedStands(now: map<int, nat>, before: map<int, nat>, start: Book, buy: bool, l: seq<Entry>)
    requires Matchers.Grown(now, before, start, buy) && forall p :: p in now <==> CountAt(l, p) > 0
    ensures now == Standing(Raised(before, start, buy), l)
  {
    hide CountAt, MatchedAt;
    forall p
      ensures p in now <==> p in Standing(Raised(before, start, buy), l)
    {
      assert p in now <==> CountAt(l, p) > 0;
    }
  }

  lemma MatchPosts(book: OrderBook, g: Ledger, b: Book, clock: nat -> int)
    requires book.Linked() && book.View() == Match(b, clock)
    requires Matchers.Grown(book.buyTraded, g.buys, b, true) && Matchers.Grown(book.sellTraded, g.sells, b, false)
    ensures book.Volumes() == Posted(g, b, OpMatch(clock))
  {
    hide OrderBook.Linked, OrderBook.View, CountAt, Raised, Standing, Match, Matchers.Grown;
    book.VolumesStand();
    RaisedStands(book.buyTraded, g.buys, b, true, book.View().bids);
    RaisedStands(book.sellTraded, g.sells, b, false, book.View().asks);
  }

  /** One operation, carried out in memory. */
  method Do(book: OrderBook, matcher: Matcher, op: Op)
    requires book.Linked() && InRange(op) && Fresh(book.View(), op)
    modifies book, matcher, book.orderMap.Values
    ensures book.Linked() && book.View() == old(Apply(book.View(), op))
    ensures matcher.log == old(matcher.log) + if op.OpMatch? then old(TradesOf(book.View(), op.clock)) else []
    ensures forall o :: o in book.orderMap.Values ==> o in old(book.orderMap.Values) || fresh(o)
    ensures book.Volumes() == old(Posted(book.Volumes(), book.View(), op))
  {
    hide OrderBook.Linked, OrderBook.View, Add, Cancel, Modify, Merge.Run;
    match op {
      case OpAdd(e, now) =>
        IdIsIndexed(book, e.id);
        var order := new Order(e.id, e.buy, e.qty, e.price, e.ts);
        var _ := book.AddOrder(order, now);
      case OpCancel(id) =>
        ghost var index, before := book.orderMap, book.Volumes();
        var _ := book.CancelOrder(id);
        book.WhatIsKept(before);
        SameQuantities(book.orderMap, index);
      case OpModify(id, price, qty, now, again) =>
        ghost var index := book.orderMap;
        var _ := book.ModifyOrder(id, price, qty, now, again);
        SameQuantities(book.orderMap, index);
      case OpMatch(clock) =>
        ghost var index, g, b := book.orderMap, book.Volumes(), book.View();
        var _ := matcher.MatchOrders(book, clock);
        SameQuantities(book.orderMap, index);
        MatchPosts(book, g, b, clock);
    }
  }

  /** Every operation fits, and every addition is fresh when its turn comes. */
  ghost predicate Playable(b: Book, ops: seq<Op>)
  {
    AllFresh(b, ops) && forall op :: op in ops ==> InRange(op)
  }

  lemma PlayableFirst(b: Book, ops: seq<Op>)
    requires Playable(b, ops) && ops != []
    ensures InRange(ops[0]) && Fresh(b, ops[0]) && Playable(Apply(b, ops[0]), ops[1..])
  {
  }

  /** A whole script in memory gives the same book and trades as the pure script. */
  method PlayAll(book: OrderBook, matcher: Matcher, ops: seq<Op>)
    requires book.Linked() && Playable(book.View(), ops)
    modifies book, matcher, book.orderMap.Values
    ensures book.Linked() && book.View() == ApplyAll(old(book.View()), ops)
    ensures matcher.log == old(matcher.log) + TradesOfAll(old(book.View()), ops)
    ensures forall o :: o in book.orderMap.Values ==> o in old(book.orderMap.Values) || fresh(o)
    ensures book.Volumes() == PostedAll(old(book.Volumes()), old(book.View()), ops)
    decreases |ops|
  {
    hide OrderBook.Linked, OrderBook.View, Apply, TradesOf, Playable, InRange, Fresh, Posted;
    if ops != [] {
      PlayableFirst(book.View(), ops);
      Do(book, matcher, ops[0]);
      PlayAll(book, matcher, ops[1..]);
    }
  }

  /**
   * And the book keeps what a book keeps: it stays well formed, each level stays in time order when everything enters
   * on time, and the caches of every level are what the book and the ledger of the script say.
   */
  method Play(book: OrderBook, matcher: Matcher, ops: seq<Op>)
    requires book.Linked() && WellFormed(book.View()) && Playable(book.View(), ops)
    modifies book, matcher, book.orderMap.Values
    ensures book.Linked() && book.View() == ApplyAll(old(book.View()), ops) && WellFormed(book.View())
    ensures matcher.log == old(matcher.log) + TradesOfAll(old(book.View()), ops)
    ensures old(TimeOrdered(book.View()) && AllTimely(book.View(), ops)) ==> TimeOrdered(book.View())
    ensures var g := PostedAll(old(book.Volumes()), old(book.View()), ops);
            && book.Volumes() == g
            && Totalled(book.buyLevels, book.View().bids, g.buys)
            && Totalled(book.sellLevels, book.View().asks, g.sells)
  {
    RunsKeepWellFormed(book.View(), ops);
    if TimeOrdered(book.View()) && AllTimely(book.View(), ops) {
      RunsKeepPriority(book.View(), ops);
    }
    hide OrderBook.Linked, OrderBook.View, WellFormed, TimeOrdered, AllTimely, PostedAll;
    PlayAll(book, matcher, ops);
    TotalsOfLevels(book);
  }

  /** The consumer loop in memory: each request is a change and a match. */
  method Serve(book: OrderBook, matcher: Matcher, rs: seq<Request>)
    requires book.Linked() && Settled(book.View()) && Proper(book.View(), rs)
    requires forall op :: op in Script(rs) ==> InRange(op)
    modifies book, matcher, book.orderMap.Values
    ensures book.Linked() && book.View() == HandleAll(old(book.View()), rs)
    ensures matcher.log == old(matcher.log) + TradesOfAll(old(book.View()), Script(rs))
    ensures EachTradesOwnOrder(old(book.View()), rs) && Settled(book.View())
  {
    ScriptOfLoop(book.View(), rs);
    ConsumerLoopTrades(book.View(), rs);
    ConsumerLoopSettles(book.View(), rs);
    hide OrderBook.Linked, OrderBook.View, Settled, AllFresh, Proper, EachTradesOwnOrder;
    PlayAll(book, matcher, Script(rs));
  }
}
