// The documented way to use the book: one change, then a match. And the order in time within a price.

module Session {
  import opened Orders
  import opened Lists
  import opened Merge
  import opened Books
  import opened Clearing
  import opened Effects

  // One incoming order against an uncrossed book.

  predicate AllLater(l: seq<Entry>, ts: int) {
    forall i :: 0 <= i < |l| ==> l[i].ts < ts
  }

  lemma LimitOfHead(l: seq<Entry>)
    requires l != []
    ensures LimitOf(l, l[0].id) == l[0].price
  {
  }

  /** Every trade is with `e`, and at the resting order's limit when `e` came strictly later. */
  predicate IncomingOnly(trades: seq<Trade>, e: Entry, resting: seq<Entry>) {
    forall t :: t in trades ==>
      && PartyOf(t, e.buy) == e.id
      && HasId(resting, PartyOf(t, !e.buy))
      && (AllLater(resting, e.ts) ==> t.price == LimitOf(resting, PartyOf(t, !e.buy)))
  }

  lemma IncomingTail(trades: seq<Trade>, e: Entry, resting: seq<Entry>, q: nat)
    requires resting != [] && q <= resting[0].qty && DistinctIds(resting)
    requires AllLater(resting, e.ts) ==> AllLater(Fill(resting, q), e.ts)
    requires IncomingOnly(trades, e, Fill(resting, q))
    ensures IncomingOnly(trades, e, resting)
  {
    forall t | t in trades
      ensures HasId(resting, PartyOf(t, !e.buy))
      ensures AllLater(resting, e.ts) ==> t.price == LimitOf(resting, PartyOf(t, !e.buy))
    {
      FillIds(resting, q, PartyOf(t, !e.buy));
      FillLimit(resting, q, PartyOf(t, !e.buy));
    }
  }

  lemma FillStaysUncrossed(bids: seq<Entry>, asks: seq<Entry>, q: nat)
    requires Uncrossed(bids, asks)
    ensures bids != [] && q <= bids[0].qty ==> Uncrossed(Fill(bids, q), asks)
    ensures asks != [] && q <= asks[0].qty ==> Uncrossed(bids, Fill(asks, q))
  {
  }

  lemma FillStaysLater(l: seq<Entry>, q: nat, ts: int)
    requires l != [] && q <= l[0].qty
    ensures AllLater(l, ts) ==> AllLater(Fill(l, q), ts)
  {
  }

  /** The fill of an order that stands alone in front of `rest`. */
  lemma FillFront(e: Entry, rest: seq<Entry>, q: nat)
    requires q <= e.qty
    ensures Fill([e] + rest, q) == if q == e.qty then rest else [e.(qty := e.qty - q)] + rest
  {
    assert ([e] + rest)[1..] == rest;
  }

  /** One turn with an incoming buy: it is used up and the run ends, or it stands in front of one ask fewer. */
  lemma BuyTurn(e: Entry, rest: seq<Entry>, asks: seq<Entry>, clock: nat -> int, k: nat)
    requires e.buy && Ready([e] + rest, asks) && DistinctIds(asks) && Uncrossed(rest, asks)
    requires HasMatch([e] + rest, asks)
    ensures var q := MatchQty(e, asks[0]);
            var a, e' := Fill(asks, q), e.(qty := e.qty - q);
            var trades := Run([e] + rest, asks, clock, k).trades;
            if e'.qty == 0 then trades == [TradeOf(e, asks[0], clock(k))]
            else
              && trades == [TradeOf(e, asks[0], clock(k))] + Run([e'] + rest, a, clock, k + 1).trades
              && Ready([e'] + rest, a) && DistinctIds(a) && Uncrossed(rest, a) && |a| < |asks|
  {
    var q := MatchQty(e, asks[0]);
    RunStep([e] + rest, asks, clock, k);
    StepKeepsReady([e] + rest, asks);
    FillKeeps(false, asks, q);
    FillStaysUncrossed(rest, asks, q);
    FillFront(e, rest, q);
  }

  lemma SellTurn(e: Entry, rest: seq<Entry>, bids: seq<Entry>, clock: nat -> int, k: nat)
    requires !e.buy && Ready(bids, [e] + rest) && DistinctIds(bids) && Uncrossed(bids, rest)
    requires HasMatch(bids, [e] + rest)
    ensures var q := MatchQty(bids[0], e);
            var b, e' := Fill(bids, q), e.(qty := e.qty - q);
            var trades := Run(bids, [e] + rest, clock, k).trades;
            if e'.qty == 0 then trades == [TradeOf(bids[0], e, clock(k))]
            else
              && trades == [TradeOf(bids[0], e, clock(k))] + Run(b, [e'] + rest, clock, k + 1).trades
              && Ready(b, [e'] + rest) && DistinctIds(b) && Uncrossed(b, rest) && |b| < |bids|
  {
    var q := MatchQty(bids[0], e);
    RunStep(bids, [e] + rest, clock, k);
    StepKeepsReady(bids, [e] + rest);
    FillKeeps(true, bids, q);
    FillStaysUncrossed(bids, rest, q);
    FillFront(e, rest, q);
  }

  /** The first trade is with `e`, and so are the others. */
  lemma IncomingFirst(t: Trade, tail: seq<Trade>, e: Entry, resting: seq<Entry>)
    requires resting != [] && PartyOf(t, e.buy) == e.id && PartyOf(t, !e.buy) == resting[0].id
    requires resting[0].ts < e.ts ==> t.price == resting[0].price
    requires IncomingOnly(tail, e, resting)
    ensures IncomingOnly([t] + tail, e, resting)
  {
    LimitOfHead(resting);
  }

  lemma {:induction false} IncomingBuy(e: Entry, rest: seq<Entry>, asks: seq<Entry>, clock: nat -> int, k: nat)
    requires e.buy && Ready([e] + rest, asks) && DistinctIds(asks) && Uncrossed(rest, asks)
    ensures IncomingOnly(Run([e] + rest, asks, clock, k).trades, e, asks)
    decreases |asks|
  {
    if HasMatch([e] + rest, asks) {
      BuyTurn(e, rest, asks, clock, k);
      var q, t, tail := MatchQty(e, asks[0]), TradeOf(e, asks[0], clock(k)), [];
      assert IncomingOnly([], e, asks);
      hide Run, Ready, Uncrossed, Fill, IncomingOnly;
      if q < e.qty {
        var e' := e.(qty := e.qty - q);
        tail := Run([e'] + rest, Fill(asks, q), clock, k + 1).trades;
        IncomingBuy(e', rest, Fill(asks, q), clock, k + 1);
        FillStaysLater(asks, q, e.ts);
        SameParty(tail, e', e, Fill(asks, q));
        IncomingTail(tail, e, asks, q);
      }
      IncomingFirst(t, tail, e, asks);
      assert [t] + [] == [t];
    }
  }

  lemma {:induction false} IncomingSell(e: Entry, rest: seq<Entry>, bids: seq<Entry>, clock: nat -> int, k: nat)
    requires !e.buy && Ready(bids, [e] + rest) && DistinctIds(bids) && Uncrossed(bids, rest)
    ensures IncomingOnly(Run(bids, [e] + rest, clock, k).trades, e, bids)
    decreases |bids|
  {
    if HasMatch(bids, [e] + rest) {
      SellTurn(e, rest, bids, clock, k);
      var q, t, tail := MatchQty(bids[0], e), TradeOf(bids[0], e, clock(k)), [];
      assert IncomingOnly([], e, bids);
      hide Run, Ready, Uncrossed, Fill, IncomingOnly;
      if q < e.qty {
        var e' := e.(qty := e.qty - q);
        tail := Run(Fill(bids, q), [e'] + rest, clock, k + 1).trades;
        IncomingSell(e', rest, Fill(bids, q), clock, k + 1);
        FillStaysLater(bids, q, e.ts);
        SameParty(tail, e', e, Fill(bids, q));
        IncomingTail(tail, e, bids, q);
      }
      IncomingFirst(t, tail, e, bids);
      assert [t] + [] == [t];
    }
  }

  lemma SameParty(trades: seq<Trade>, e': Entry, e: Entry, resting: seq<Entry>)
    requires e'.id == e.id && e'.buy == e.buy && e'.ts == e.ts && IncomingOnly(trades, e', resting)
    ensures IncomingOnly(trades, e, resting)
  {
  }

  /** Adding one order to an uncrossed book and matching trades that order only. */
  lemma IncomingOrder(b: Book, e: Entry, clock: nat -> int)
    requires WellFormed(b) && Uncrossed(b.bids, b.asks) && e.qty > 0 && !b.Holds(e.id)
    ensures IncomingOnly(TradesOf(Place(b, e), clock), e, b.Side(!e.buy))
  {
    var l := b.Side(e.buy);
    var s := Slot(e.buy, l, e.price);
    var m := Insert(l, e);
    PlaceKeeps(b, e);
    if s == 0 {
      assert m == [e] + l;
      if e.buy {
        IncomingBuy(e, l, b.asks, clock, 0);
      } else {
        IncomingSell(e, l, b.bids, clock, 0);
      }
    } else {
      assert m[0] == l[0];
      assert !HasMatch(Place(b, e).bids, Place(b, e).asks);
    }
  }

  // Requests: one change each, followed by a match.

  datatype Request =
    | Submit(e: Entry, now: int, clock: nat -> int)
    | Amend(id: int, price: int, qty: nat, now: int, again: int, clock: nat -> int)
    | Withdraw(id: int, clock: nat -> int)

  function Change(r: Request): Op {
    match r
    case Submit(e, now, _) => OpAdd(e, now)
    case Amend(id, price, qty, now, again, _) => OpModify(id, price, qty, now, again)
    case Withdraw(id, _) => OpCancel(id)
  }

  function Handle(b: Book, r: Request): Book {
    Match(Apply(b, Change(r)), r.clock)
  }

  function HandleAll(b: Book, rs: seq<Request>): Book
    decreases |rs|
  {
    if rs == [] then b else HandleAll(Handle(b, rs[0]), rs[1..])
  }

  /** The price that a request brings into the book, if it brings one. */
  predicate PositivePrice(r: Request) {
    match r
    case Submit(e, _, _) => e.price > 0
    case Amend(_, price, _, _, _, _) => price > 0
    case Withdraw(_, _) => true
  }

  /** Ids are fresh when they are submitted, and prices are above the sentinel. */
  predicate Proper(b: Book, rs: seq<Request>)
    decreases |rs|
  {
    rs == [] || (Fresh(b, Change(rs[0])) && PositivePrice(rs[0]) && Proper(Handle(b, rs[0]), rs[1..]))
  }

  predicate AbovePrices(l: seq<Entry>) {
    forall i :: 0 <= i < |l| ==> l[i].price > 0
  }

  /** What the consumer loop keeps after every request. */
  ghost predicate Settled(b: Book) {
    WellFormed(b) && AbovePrices(b.bids) && AbovePrices(b.asks) && Uncrossed(b.bids, b.asks)
  }

  lemma {:induction false} RunKeepsPrices(bids: seq<Entry>, asks: seq<Entry>, clock: nat -> int, k: nat)
    requires AbovePrices(bids) && AbovePrices(asks)
    ensures var out := Run(bids, asks, clock, k);
            AbovePrices(out.bids) && AbovePrices(out.asks)
    decreases |bids| + |asks|
  {
    if HasMatch(bids, asks) {
      var q := MatchQty(bids[0], asks[0]);
      RunKeepsPrices(Fill(bids, q), Fill(asks, q), clock, k + 1);
    }
  }

  lemma InsertPrices(l: seq<Entry>, e: Entry)
    requires AbovePrices(l) && e.price > 0
    ensures AbovePrices(Insert(l, e))
  {
    InsertAt(l, e);
  }

  lemma RemovePrices(l: seq<Entry>, id: int)
    requires AbovePrices(l)
    ensures AbovePrices(Remove(l, id))
  {
  }

  lemma ChangeKeepsPrices(b: Book, r: Request)
    requires WellFormed(b) && AbovePrices(b.bids) && AbovePrices(b.asks) && PositivePrice(r)
    ensures var c := Apply(b, Change(r)); AbovePrices(c.bids) && AbovePrices(c.asks)
  {
    match r {
      case Submit(e, now, _) =>
        InsertPrices(b.Side(e.buy), Stamped(e, now));
      case Amend(id, price, qty, now, again, _) =>
        RemovePrices(b.bids, id);
        RemovePrices(b.asks, id);
        if b.Holds(id) {
          var x := Stamped(Amended(b, id, price, qty, now), again);
          InsertPrices(Cancel(b, id).Side(x.buy), x);
        }
      case Withdraw(id, _) =>
        RemovePrices(b.bids, id);
        RemovePrices(b.asks, id);
    }
  }

  lemma HandleSettles(b: Book, r: Request)
    requires Settled(b) && Fresh(b, Change(r)) && PositivePrice(r)
    ensures Settled(Handle(b, r))
  {
    var c := Apply(b, Change(r));
    ApplyKeeps(b, Change(r));
    ChangeKeepsPrices(b, r);
    MatchKeeps(c, r.clock);
    RunKeepsPrices(c.bids, c.asks, r.clock, 0);
    UncrossedOnExit(c.bids, c.asks, r.clock, 0);
  }

  /** The book is uncrossed and well formed after every request of every proper run. */
  lemma {:induction false} ConsumerLoopSettles(b: Book, rs: seq<Request>)
    requires Settled(b) && Proper(b, rs)
    ensures Settled(HandleAll(b, rs))
    decreases |rs|
  {
    if rs != [] {
      HandleSettles(b, rs[0]);
      ConsumerLoopSettles(Handle(b, rs[0]), rs[1..]);
    }
  }

  lemma RemoveHolds(l: seq<Entry>, id: int, e: Entry)
    ensures e in Remove(l, id) ==> e in l
  {
    var i := IndexOf(l, id);
    if i < |l| && e in l[..i] + l[i + 1..] {
      if e in l[..i] {
        assert e in l;
      } else {
        assert e in l[i + 1..];
      }
    }
  }

  lemma FewerStayUncrossed(b: Book, c: Book)
    requires Uncrossed(b.bids, b.asks)
    requires forall e :: e in c.bids ==> e in b.bids
    requires forall e :: e in c.asks ==> e in b.asks
    ensures Uncrossed(c.bids, c.asks)
  {
    forall i, j | 0 <= i < |c.bids| && 0 <= j < |c.asks|
      ensures c.bids[i].price < c.asks[j].price
    {
      assert c.bids[i] in b.bids && c.asks[j] in b.asks;
    }
  }

  lemma CancelKeepsUncrossed(b: Book, id: int)
    requires Uncrossed(b.bids, b.asks)
    ensures Uncrossed(Cancel(b, id).bids, Cancel(b, id).asks)
  {
    hide Uncrossed, Remove, HasId;
    var c := Cancel(b, id);
    forall e
      ensures e in c.bids ==> e in b.bids
      ensures e in c.asks ==> e in b.asks
    {
      RemoveHolds(b.bids, id, e);
      RemoveHolds(b.asks, id, e);
    }
    FewerStayUncrossed(b, c);
  }

  /** The entry that a request puts into the book, if it puts one there. */
  predicate Enters(b: Book, r: Request, e: Entry) {
    match r
    case Submit(e0, now, _) => e0.qty > 0 && e == Stamped(e0, now)
    case Amend(id, price, qty, now, again, _) =>
      b.Holds(id) && qty > 0 && e == Stamped(Amended(b, id, price, qty, now), again)
    case Withdraw(_, _) => false
  }

  lemma FoundId(b: Book, id: int)
    requires b.Holds(id)
    ensures Find(b, id).id == id
  {
  }

  lemma CancelOther(b: Book, id: int)
    requires !b.Holds(id)
    ensures Cancel(b, id) == b
  {
  }

  lemma UncrossedDoesNotMatch(b: Book, clock: nat -> int)
    requires Uncrossed(b.bids, b.asks)
    ensures TradesOf(b, clock) == []
  {
  }

  /** Every trade of a request has the entering order as one party; a request that enters no order trades nothing. */
  lemma RequestTradesIncoming(b: Book, r: Request, e: Entry)
    requires WellFormed(b) && Uncrossed(b.bids, b.asks) && Fresh(b, Change(r))
    ensures var trades := TradesOf(Apply(b, Change(r)), r.clock);
            && (Enters(b, r, e) ==> IncomingOnly(trades, e, Cancel(b, e.id).Side(!e.buy)))
            && ((forall x :: !Enters(b, r, x)) ==> trades == [])
  {
    hide WellFormed, Uncrossed, IncomingOnly, TradesOf, Cancel, Find, Place, Book.Holds;
    match r {
      case Submit(e0, now, clock) =>
        if e0.qty > 0 {
          var x := Stamped(e0, now);
          assert Enters(b, r, x);
          IncomingOrder(b, x, clock);
          CancelOther(b, x.id);
        } else {
          UncrossedDoesNotMatch(b, clock);
        }
      case Amend(id, price, qty, now, again, clock) =>
        if !b.Holds(id) {
          UncrossedDoesNotMatch(b, clock);
        } else {
          var c := Cancel(b, id);
          CancelKeeps(b, id);
          CancelKeepsUncrossed(b, id);
          FoundId(b, id);
          if qty > 0 {
            var x := Stamped(Amended(b, id, price, qty, now), again);
            assert Enters(b, r, x);
            IncomingOrder(c, x, clock);
          } else {
            UncrossedDoesNotMatch(c, clock);
          }
        }
      case Withdraw(id, clock) =>
        CancelKeepsUncrossed(b, id);
        UncrossedDoesNotMatch(Cancel(b, id), clock);
    }
  }

  // What a request does to the quantities.

  function RequestTrades(b: Book, r: Request): seq<Trade> {
    TradesOf(Apply(b, Change(r)), r.clock)
  }

  /**
   * What rests of each order afterwards and what it traded make what it was before; for the order `id0` that is `qty`,
   * on the given side.
   */
  ghost predicate Accounted(b: Book, c: Book, trades: seq<Trade>, id0: int, buy: bool, qty: nat) {
    forall side, id ::
      QtyOf(c.Side(side), id) + Filled(trades, side, id)
      == if id == id0 then (if side == buy then qty else 0) else QtyOf(b.Side(side), id)
  }

  /** The order that is submitted, amended or withdrawn counts with its new quantity, all others with their old one. */
  ghost predicate RequestAccounted(b: Book, r: Request, c: Book, trades: seq<Trade>) {
    match r
    case Submit(e, _, _) => Accounted(b, c, trades, e.id, e.buy, e.qty)
    case Amend(id, _, qty, _, _, _) =>
      && Accounted(b, c, trades, id, HasId(b.bids, id), if b.Holds(id) then qty else 0)
      && (qty == 0 ==> !c.Holds(id))
    case Withdraw(id, _) => Accounted(b, c, trades, id, true, 0) && !c.Holds(id)
  }

  lemma {:induction false} QtyOfOthers(l: seq<Entry>, id: int, other: int)
    ensures QtyOf(Others(l, id), other) == if other == id then 0 else QtyOf(l, other)
  {
    if l != [] {
      QtyOfOthers(l[1..], id, other);
      var t := Others(l[1..], id);
      if l[0].id == id {
        assert Others(l, id) == [] + t == t;
      } else {
        assert Others(l, id) == [l[0]] + t;
        assert ([l[0]] + t)[1..] == t;
      }
    }
  }

  lemma {:induction false} QtyOfJoin(l: seq<Entry>, r: seq<Entry>, id: int)
    ensures QtyOf(l + r, id) == QtyOf(l, id) + QtyOf(r, id)
  {
    if l == [] {
      assert l + r == r;
    } else {
      QtyOfJoin(l[1..], r, id);
      assert (l + r)[1..] == l[1..] + r;
    }
  }

  lemma QtyOfMiddle(l: seq<Entry>, x: Entry, r: seq<Entry>, id: int)
    ensures QtyOf(l + [x] + r, id) == QtyOf(l + r, id) + if id == x.id then x.qty else 0
  {
    QtyOfJoin(l + [x], r, id);
    QtyOfJoin(l, [x], id);
    QtyOfJoin(l, r, id);
    assert [x][1..] == [];
  }

  lemma QtyOfQueued(l: seq<Entry>, m: seq<Entry>, x: Entry, id: int)
    requires QueuedIn(l, m, x)
    ensures QtyOf(m, id) == QtyOf(l, id) + if id == x.id then x.qty else 0
  {
    hide QtyOf;
    var s: nat :| s <= |l| && m == l[..s] + [x] + l[s..];
    QtyOfMiddle(l[..s], x, l[s..], id);
    assert l[..s] + l[s..] == l;
  }

  /** The change by itself: quantities before the match. */
  ghost predicate Changed(b: Book, c: Book, id0: int, buy: bool, qty: nat) {
    forall side, id ::
      QtyOf(c.Side(side), id) == if id == id0 then (if side == buy then qty else 0) else QtyOf(b.Side(side), id)
  }

  lemma MatchAccounts(b: Book, c: Book, clock: nat -> int, id0: int, buy: bool, qty: nat)
    requires WellFormed(c) && Changed(b, c, id0, buy, qty)
    ensures Accounted(b, Match(c, clock), TradesOf(c, clock), id0, buy, qty)
  {
    forall side, id
      ensures QtyOf(Match(c, clock).Side(side), id) + Filled(TradesOf(c, clock), side, id) == QtyOf(c.Side(side), id)
    {
      MatchEffect(c, clock, id);
      assert Apply(c, OpMatch(clock)) == Match(c, clock);
    }
  }

  lemma SubmitChanges(b: Book, e: Entry, now: int)
    requires WellFormed(b) && !b.Holds(e.id)
    ensures Changed(b, Apply(b, OpAdd(e, now)), e.id, e.buy, e.qty)
  {
    var c := Apply(b, OpAdd(e, now));
    AddEffect(b, e, now);
    forall side, id
      ensures QtyOf(c.Side(side), id)
              == if id == e.id then (if side == e.buy then e.qty else 0) else QtyOf(b.Side(side), id)
    {
      QtyOfAbsent(b.Side(side), e.id);
      if side == e.buy && e.qty > 0 {
        var x := Entry(e.id, e.buy, e.price, e.qty, if e.ts == 0 then now else e.ts);
        QtyOfQueued(b.Side(side), c.Side(side), x, id);
      }
    }
  }

  lemma WithdrawChanges(b: Book, id0: int, buy: bool)
    requires WellFormed(b)
    ensures Changed(b, Apply(b, OpCancel(id0)), id0, buy, 0)
  {
    var c := Apply(b, OpCancel(id0));
    CancelEffect(b, id0);
    forall side, id
      ensures QtyOf(c.Side(side), id) == if id == id0 then 0 else QtyOf(b.Side(side), id)
    {
      QtyOfOthers(b.Side(side), id0, id);
    }
  }

  lemma OrderOf(b: Book, id0: int) returns (x: Entry)
    requires WellFormed(b) && b.Holds(id0)
    ensures x.id == id0 && x.buy == HasId(b.bids, id0) && x in b.Side(x.buy) && !HasId(b.Side(!x.buy), id0)
  {
    var buy := HasId(b.bids, id0);
    var i :| 0 <= i < |b.Side(buy)| && b.Side(buy)[i].id == id0;
    x := b.Side(buy)[i];
    assert !(HasId(b.bids, id0) && HasId(b.asks, id0));
  }

  lemma AmendHeldChanges(b: Book, id0: int, price: int, qty: nat, now: int, again: int)
    requires WellFormed(b) && b.Holds(id0)
    ensures Changed(b, Apply(b, OpModify(id0, price, qty, now, again)), id0, HasId(b.bids, id0), qty)
  {
    hide WellFormed, Apply, Others, QueuedIn, HasId;
    var c := Apply(b, OpModify(id0, price, qty, now, again));
    var x := OrderOf(b, id0);
    var e := Entry(id0, x.buy, price, qty, if now == 0 then again else now);
    ModifyEffect(b, x, price, qty, now, again);
    QtyOfAbsent(b.Side(!x.buy), id0);
    forall side, id
      ensures QtyOf(c.Side(side), id)
              == if id == id0 then (if side == x.buy then qty else 0) else QtyOf(b.Side(side), id)
    {
      QtyOfOthers(b.Side(x.buy), id0, id);
      if side == x.buy && qty > 0 {
        QtyOfQueued(Others(b.Side(x.buy), id0), c.Side(x.buy), e, id);
      }
    }
  }

  lemma AmendChanges(b: Book, id0: int, price: int, qty: nat, now: int, again: int)
    requires WellFormed(b)
    ensures Changed(b, Apply(b, OpModify(id0, price, qty, now, again)), id0, HasId(b.bids, id0),
                    if b.Holds(id0) then qty else 0)
  {
    if b.Holds(id0) {
      AmendHeldChanges(b, id0, price, qty, now, again);
    } else {
      ModifyOfNothing(b, id0, price, qty, now, again);
      QtyOfAbsent(b.bids, id0);
      QtyOfAbsent(b.asks, id0);
    }
  }

  /** Nothing that a request brings in is lost or made up, and nothing else changes but by the trades. */
  lemma RequestAccounts(b: Book, r: Request)
    requires WellFormed(b) && Fresh(b, Change(r))
    ensures RequestAccounted(b, r, Handle(b, r), RequestTrades(b, r))
  {
    ApplyKeeps(b, Change(r));
    match r {
      case Submit(e, now, clock) =>
        SubmitChanges(b, e, now);
        MatchAccounts(b, Apply(b, OpAdd(e, now)), clock, e.id, e.buy, e.qty);
      case Amend(id, price, qty, now, again, clock) =>
        AmendChanges(b, id, price, qty, now, again);
        MatchAccounts(b, Apply(b, OpModify(id, price, qty, now, again)), clock, id, HasId(b.bids, id),
                      if b.Holds(id) then qty else 0);
        CancelKeeps(b, id);
        MatchKeeps(if b.Holds(id) then Cancel(b, id) else b, clock);
      case Withdraw(id, clock) =>
        WithdrawChanges(b, id, true);
        MatchAccounts(b, Apply(b, OpCancel(id)), clock, id, true, 0);
        CancelKeeps(b, id);
        MatchKeeps(Cancel(b, id), clock);
    }
  }

  // What a run of requests does.

  /** A request trades with the order that it enters only, and with nothing when it enters none. */
  ghost predicate TradesOwnOrder(b: Book, r: Request) {
    && (forall e :: Enters(b, r, e) ==> IncomingOnly(RequestTrades(b, r), e, Cancel(b, e.id).Side(!e.buy)))
    && ((forall e :: !Enters(b, r, e)) ==> RequestTrades(b, r) == [])
  }

  /** The books of a run are settled; each of its requests trades with its own order only, and accounts for it. */
  ghost predicate EachTradesOwnOrder(b: Book, rs: seq<Request>)
    decreases |rs|
  {
    && Settled(b)
    && (rs != [] ==>
        && TradesOwnOrder(b, rs[0])
        && RequestAccounted(b, rs[0], Handle(b, rs[0]), RequestTrades(b, rs[0]))
        && EachTradesOwnOrder(Handle(b, rs[0]), rs[1..]))
  }

  lemma RequestTradesOwnOrder(b: Book, r: Request)
    requires Settled(b) && Fresh(b, Change(r))
    ensures TradesOwnOrder(b, r)
  {
    forall e
      ensures Enters(b, r, e) ==> IncomingOnly(RequestTrades(b, r), e, Cancel(b, e.id).Side(!e.buy))
      ensures (forall x :: !Enters(b, r, x)) ==> RequestTrades(b, r) == []
    {
      RequestTradesIncoming(b, r, e);
    }
  }

  lemma {:induction false} ConsumerLoopTrades(b: Book, rs: seq<Request>)
    requires Settled(b) && Proper(b, rs)
    ensures EachTradesOwnOrder(b, rs)
    decreases |rs|
  {
    if rs != [] {
      RequestTradesOwnOrder(b, rs[0]);
      RequestAccounts(b, rs[0]);
      HandleSettles(b, rs[0]);
      hide Settled, TradesOwnOrder, RequestAccounted, Handle, RequestTrades, Fresh;
      ConsumerLoopTrades(Handle(b, rs[0]), rs[1..]);
    }
  }

  /** A run of requests is its requests one after the other. */
  lemma {:induction false} LoopOnLoop(b: Book, first: seq<Request>, second: seq<Request>)
    ensures HandleAll(b, first + second) == HandleAll(HandleAll(b, first), second)
    decreases |first|
  {
    if first == [] {
      assert first + second == second;
    } else {
      assert (first + second)[1..] == first[1..] + second;
      LoopOnLoop(Handle(b, first[0]), first[1..], second);
    }
  }

  /** And a request is its one operation and a match. */
  lemma LoopOfOne(b: Book, r: Request)
    ensures HandleAll(b, []) == b
    ensures r.Submit? ==> HandleAll(b, [r]) == ApplyAll(b, [OpAdd(r.e, r.now), OpMatch(r.clock)])
    ensures r.Amend? ==>
              HandleAll(b, [r]) == ApplyAll(b, [OpModify(r.id, r.price, r.qty, r.now, r.again), OpMatch(r.clock)])
    ensures r.Withdraw? ==> HandleAll(b, [r]) == ApplyAll(b, [OpCancel(r.id), OpMatch(r.clock)])
  {
    assert [r][1..] == [];
    assert HandleAll(b, [r]) == HandleAll(Handle(b, r), []);
    var ops := [Change(r), OpMatch(r.clock)];
    assert ops == [ops[0]] + [ops[1]];
    ScriptOnScript(b, [ops[0]], [ops[1]]);
    ScriptOfOne(b, ops[0]);
    ScriptOfOne(Apply(b, ops[0]), ops[1]);
  }

  /** The operations of a run of requests. */
  function Script(rs: seq<Request>): seq<Op> {
    if rs == [] then [] else [Change(rs[0]), OpMatch(rs[0].clock)] + Script(rs[1..])
  }

  /** A run of requests is the run of its operations. */
  lemma {:induction false} ScriptOfLoop(b: Book, rs: seq<Request>)
    ensures HandleAll(b, rs) == ApplyAll(b, Script(rs))
    ensures Proper(b, rs) ==> AllFresh(b, Script(rs))
    decreases |rs|
  {
    if rs != [] {
      var ops, c := Script(rs), Apply(b, Change(rs[0]));
      assert ops[0] == Change(rs[0]) && ops[1..][0] == OpMatch(rs[0].clock) && ops[1..][1..] == Script(rs[1..]);
      assert Apply(c, OpMatch(rs[0].clock)) == Handle(b, rs[0]);
      ScriptOfLoop(Handle(b, rs[0]), rs[1..]);
      assert ApplyAll(c, ops[1..]) == ApplyAll(Handle(b, rs[0]), Script(rs[1..]));
    }
  }

  // Time order within a price, and the comparators.

  /** Nothing in the list is put behind something it beats. */
  predicate InPriority(buy: bool, l: seq<Entry>) {
    forall i, j :: 0 <= i < j < |l| ==> !Beats(buy, l[j], l[i])
  }

  /** Comparator order is price order, best first, and order of arrival within a price. */
  lemma PriorityIsOrder(buy: bool, l: seq<Entry>)
    ensures InPriority(buy, l) <==>
              forall i, j :: 0 <= i < j < |l| ==>
                && (if buy then l[i].price >= l[j].price else l[i].price <= l[j].price)
                && (l[i].price == l[j].price ==> l[i].ts <= l[j].ts)
  {
    assert forall i, j :: 0 <= i < j < |l| ==>
        (!Beats(buy, l[j], l[i]) <==>
          && (if buy then l[i].price >= l[j].price else l[i].price <= l[j].price)
          && (l[i].price == l[j].price ==> l[i].ts <= l[j].ts));
  }

  predicate TimeOrdered(b: Book) {
    InPriority(true, b.bids) && InPriority(false, b.asks)
  }

  /** `e` is stamped no earlier than anything that rests at its own price. */
  predicate OnTime(l: seq<Entry>, e: Entry) {
    forall i :: 0 <= i < |l| && l[i].price == e.price ==> l[i].ts <= e.ts
  }

  /** What an operation brings in is on time for its price level. */
  predicate Timely(b: Book, op: Op) {
    match op
    case OpAdd(e, now) =>
      var x := Stamped(e, now);
      e.qty > 0 ==> OnTime(b.Side(x.buy), x)
    case OpModify(id, price, qty, now, again) =>
      b.Holds(id) && qty > 0 ==>
        var x := Stamped(Amended(b, id, price, qty, now), again);
        OnTime(Cancel(b, id).Side(x.buy), x)
    case _ => true
  }

  predicate AllTimely(b: Book, ops: seq<Op>)
    decreases |ops|
  {
    ops == [] || (Fresh(b, ops[0]) && Timely(b, ops[0]) && AllTimely(Apply(b, ops[0]), ops[1..]))
  }

  lemma OnTimeKeeps(l: seq<Entry>, e: Entry)
    requires Sorted(e.buy, l) && InPriority(e.buy, l) && OnTime(l, e)
    ensures InPriority(e.buy, Insert(l, e))
  {
    var s, m := Slot(e.buy, l, e.price), Insert(l, e);
    InsertAt(l, e);
    forall i, j | 0 <= i < j < |m|
      ensures !Beats(e.buy, m[j], m[i])
    {
      if i == s {
        assert m[j] == l[j - 1] && (j == s + 1 || Ahead(e.buy, l[s].price, l[j - 1].price));
      } else if j == s {
        assert m[i] == l[i];
      } else {
        var i', j' := if i < s then i else i - 1, if j < s then j else j - 1;
        assert m[i] == l[i'] && m[j] == l[j'];
      }
    }
  }

  /** An insertion keeps comparator order exactly when it is on time. */
  lemma InsertKeepsTime(l: seq<Entry>, e: Entry)
    requires Sorted(e.buy, l) && InPriority(e.buy, l)
    ensures InPriority(e.buy, Insert(l, e)) <==> OnTime(l, e)
  {
    if OnTime(l, e) {
      OnTimeKeeps(l, e);
    } else {
      var s, m := Slot(e.buy, l, e.price), Insert(l, e);
      InsertAt(l, e);
      var i :| 0 <= i < |l| && l[i].price == e.price && l[i].ts > e.ts;
      assert i < s;
      assert m[i] == l[i] && m[s] == e;
    }
  }

  lemma PlaceKeepsTime(b: Book, e: Entry)
    requires WellFormed(b) && TimeOrdered(b) && OnTime(b.Side(e.buy), e)
    ensures TimeOrdered(Place(b, e))
  {
    InsertKeepsTime(b.Side(e.buy), e);
  }

  lemma RemoveKeepsTime(buy: bool, l: seq<Entry>, id: int)
    requires InPriority(buy, l)
    ensures InPriority(buy, Remove(l, id))
  {
    var i, m := IndexOf(l, id), Remove(l, id);
    assert i < |l| ==> forall j :: 0 <= j < |m| ==> m[j] == l[if j < i then j else j + 1];
  }

  lemma FillKeepsTime(buy: bool, l: seq<Entry>, q: nat)
    requires l != [] && q <= l[0].qty && InPriority(buy, l)
    ensures InPriority(buy, Fill(l, q))
  {
    var m := Fill(l, q);
    var d := if l[0].qty == q then 1 else 0;
    assert forall j :: 0 <= j < |m| ==> m[j].price == l[j + d].price && m[j].ts == l[j + d].ts;
    forall i, j | 0 <= i < j < |m|
      ensures !Beats(buy, m[j], m[i])
    {
      assert !Beats(buy, l[j + d], l[i + d]);
    }
  }

  lemma {:induction false} RunKeepsTime(bids: seq<Entry>, asks: seq<Entry>, clock: nat -> int, k: nat)
    requires InPriority(true, bids) && InPriority(false, asks)
    ensures var out := Run(bids, asks, clock, k);
            InPriority(true, out.bids) && InPriority(false, out.asks)
    decreases |bids| + |asks|
  {
    if HasMatch(bids, asks) {
      var q := MatchQty(bids[0], asks[0]);
      FillKeepsTime(true, bids, q);
      FillKeepsTime(false, asks, q);
      RunKeepsTime(Fill(bids, q), Fill(asks, q), clock, k + 1);
    }
  }

  lemma CancelKeepsTime(b: Book, id: int)
    requires TimeOrdered(b)
    ensures TimeOrdered(Cancel(b, id))
  {
    RemoveKeepsTime(true, b.bids, id);
    RemoveKeepsTime(false, b.asks, id);
  }

  lemma ApplyKeepsTime(b: Book, op: Op)
    requires WellFormed(b) && TimeOrdered(b) && Fresh(b, op) && Timely(b, op)
    ensures TimeOrdered(Apply(b, op))
  {
    hide WellFormed, TimeOrdered, OnTime, Cancel, Place, Find, Book.Holds;
    match op {
      case OpAdd(e, now) =>
        if e.qty > 0 {
          PlaceKeepsTime(b, Stamped(e, now));
        }
      case OpCancel(id) =>
        CancelKeepsTime(b, id);
      case OpModify(id, price, qty, now, again) =>
        if b.Holds(id) {
          CancelKeeps(b, id);
          CancelKeepsTime(b, id);
          if qty > 0 {
            PlaceKeepsTime(Cancel(b, id), Stamped(Amended(b, id, price, qty, now), again));
          }
        }
      case OpMatch(clock) =>
        MatchKeepsTime(b, clock);
    }
  }

  lemma MatchKeepsTime(b: Book, clock: nat -> int)
    requires TimeOrdered(b)
    ensures TimeOrdered(Match(b, clock))
  {
    RunKeepsTime(b.bids, b.asks, clock, 0);
  }

  /** With timely entries, list order is comparator order through every run, so nothing beats the best order. */
  lemma {:induction false} RunsKeepPriority(b: Book, ops: seq<Op>)
    requires WellFormed(b) && TimeOrdered(b) && AllTimely(b, ops)
    ensures var c := ApplyAll(b, ops);
            && TimeOrdered(c)
            && (forall i :: 0 <= i < |c.bids| ==> !Greater(c.bids[i], c.bids[0]))
            && (forall i :: 0 <= i < |c.asks| ==> !Less(c.asks[i], c.asks[0]))
    decreases |ops|
  {
    if ops != [] {
      ApplyKeeps(b, ops[0]);
      ApplyKeepsTime(b, ops[0]);
      RunsKeepPriority(Apply(b, ops[0]), ops[1..]);
    }
  }
}
