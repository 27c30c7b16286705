// The volume matched away at each price level since the level last came into being.

module Ledgers {
  import opened Orders
  import opened Lists
  import opened Merge
  import opened Books
  import opened Clearing

  /** One entry per price at which something rests. */
  datatype Ledger = Ledger(buys: map<int, nat>, sells: map<int, nat>)
  {
    function Side(buy: bool): map<int, nat> {
      if buy then buys else sells
    }
  }

  const NO_VOLUME: Ledger := Ledger(map[], map[])

  /** The volumes after an order has entered at `p`: a new level starts from 0. */
  function Entered(traded: map<int, nat>, p: int): map<int, nat> {
    traded[p := if p in traded then traded[p] else 0]
  }

  function Opened(g: Ledger, buy: bool, p: int): Ledger {
    if buy then g.(buys := Entered(g.buys, p)) else g.(sells := Entered(g.sells, p))
  }

  /** The volumes at the prices where something rests. */
  function Standing(traded: map<int, nat>, l: seq<Entry>): map<int, nat> {
    map p | p in traded && CountAt(l, p) > 0 :: traded[p]
  }

  /** What is left of the volumes when the book has become `b`: an emptied level is forgotten. */
  function Kept(g: Ledger, b: Book): Ledger {
    Ledger(Standing(g.buys, b.bids), Standing(g.sells, b.asks))
  }

  /** One side's volumes after a run on `b`: each one grows by what the run matches at its price. */
  function Raised(traded: map<int, nat>, b: Book, buy: bool): map<int, nat> {
    map p | p in traded :: traded[p] + MatchedAt(b.bids, b.asks, buy, p)
  }

  function Grown(g: Ledger, b: Book): Ledger {
    Ledger(Raised(g.buys, b, true), Raised(g.sells, b, false))
  }

  /** A modification takes the order out, which may end its level, and queues it again when anything is left of it. */
  function Requeued(g: Ledger, b: Book, id: int, price: int, qty: nat): Ledger {
    if !b.Holds(id) then g
    else if qty == 0 then Kept(g, Cancel(b, id))
    else Opened(Kept(g, Cancel(b, id)), Find(b, id).buy, price)
  }

  function Posted(g: Ledger, b: Book, op: Op): Ledger {
    match op
    case OpAdd(e, _) => if e.qty == 0 then g else Opened(g, e.buy, e.price)
    case OpCancel(id) => Kept(g, Cancel(b, id))
    case OpModify(id, price, qty, _, _) => Requeued(g, b, id, price, qty)
    case OpMatch(clock) => Kept(Grown(g, b), Match(b, clock))
  }

  /** The volumes at the end of a script. */
  function PostedAll(g: Ledger, b: Book, ops: seq<Op>): Ledger
    decreases |ops|
  {
    if ops == [] then g else PostedAll(Posted(g, b, ops[0]), Apply(b, ops[0]), ops[1..])
  }

  // What the ledger says.

  predicate AllZero(traded: map<int, nat>) {
    forall p :: p in traded ==> traded[p] == 0
  }

  predicate Quiet(g: Ledger) {
    AllZero(g.buys) && AllZero(g.sells)
  }

  predicate MatchFree(ops: seq<Op>)
    decreases |ops|
  {
    ops == [] || (!ops[0].OpMatch? && MatchFree(ops[1..]))
  }

  lemma PostedQuiet(g: Ledger, b: Book, op: Op)
    requires Quiet(g) && !op.OpMatch?
    ensures Quiet(Posted(g, b, op))
  {
    hide CountAt, Cancel, Find, Book.Holds;
  }

  /** Additions, cancellations and modifications alone never post a volume. */
  lemma {:induction false} QuietWithoutMatches(g: Ledger, b: Book, ops: seq<Op>)
    requires Quiet(g) && MatchFree(ops)
    ensures Quiet(PostedAll(g, b, ops))
    decreases |ops|
  {
    if ops != [] {
      PostedQuiet(g, b, ops[0]);
      hide Quiet, Posted, Apply;
      QuietWithoutMatches(Posted(g, b, ops[0]), Apply(b, ops[0]), ops[1..]);
    }
  }

  /** The quantity of the trades whose party on this side has its limit at `p`. */
  function TradedAt(trades: seq<Trade>, buy: bool, l: seq<Entry>, p: int): nat {
    if trades == [] then 0
    else (if LimitOf(l, PartyOf(trades[0], buy)) == p then trades[0].qty else 0) + TradedAt(trades[1..], buy, l, p)
  }

  lemma TradedFirst(t: Trade, rest: seq<Trade>, buy: bool, l: seq<Entry>, p: int)
    ensures TradedAt([t] + rest, buy, l, p)
            == (if LimitOf(l, PartyOf(t, buy)) == p then t.qty else 0) + TradedAt(rest, buy, l, p)
  {
    assert ([t] + rest)[1..] == rest;
  }

  lemma {:induction false} TradedAfterFill(trades: seq<Trade>, buy: bool, l: seq<Entry>, q: nat, p: int)
    requires l != [] && q <= l[0].qty && DistinctIds(l)
    requires forall t :: t in trades ==> HasId(Fill(l, q), PartyOf(t, buy))
    ensures TradedAt(trades, buy, Fill(l, q), p) == TradedAt(trades, buy, l, p)
  {
    hide Fill, LimitOf, DistinctIds, HasId;
    if trades != [] {
      FillLimit(l, q, PartyOf(trades[0], buy));
      TradedAfterFill(trades[1..], buy, l, q, p);
    }
  }

  /** What a run matches at a price is what its trades say of the orders with that limit. */
  lemma {:induction false} MatchedIsTraded(bids: seq<Entry>, asks: seq<Entry>, clock: nat -> int, k: nat,
                                           buy: bool, p: int)
    requires DistinctIds(bids) && DistinctIds(asks)
    ensures MatchedAt(bids, asks, buy, p)
            == TradedAt(Run(bids, asks, clock, k).trades, buy, if buy then bids else asks, p)
    decreases |bids| + |asks|
  {
    if HasMatch(bids, asks) {
      var q := MatchQty(bids[0], asks[0]);
      var b, a := Fill(bids, q), Fill(asks, q);
      var rest := Run(b, a, clock, k + 1).trades;
      var l := if buy then bids else asks;
      assert LimitOf(l, l[0].id) == l[0].price;
      FillKeeps(true, bids, q);
      FillKeeps(false, asks, q);
      RunStep(bids, asks, clock, k);
      TradesNameListed(b, a, clock, k + 1);
      hide Fill, Run, LimitOf, DistinctIds, HasId, TradedAt;
      MatchedIsTraded(b, a, clock, k + 1, buy, p);
      TradedAfterFill(rest, buy, l, q, p);
      TradedFirst(TradeOf(bids[0], asks[0], clock(k)), rest, buy, l, p);
    } else {
      assert Run(bids, asks, clock, k).trades == [];
    }
  }

  /** The quantity resting at a price goes down by exactly what is matched there. */
  lemma {:induction false} LevelConservation(bids: seq<Entry>, asks: seq<Entry>, clock: nat -> int, k: nat, p: int)
    ensures var out := Run(bids, asks, clock, k);
            && QtyAt(bids, p) == QtyAt(out.bids, p) + MatchedAt(bids, asks, true, p)
            && QtyAt(asks, p) == QtyAt(out.asks, p) + MatchedAt(bids, asks, false, p)
    decreases |bids| + |asks|
  {
    if HasMatch(bids, asks) {
      var q := MatchQty(bids[0], asks[0]);
      RunStep(bids, asks, clock, k);
      FillQtyAt(bids, q, p);
      FillQtyAt(asks, q, p);
      LevelConservation(Fill(bids, q), Fill(asks, q), clock, k + 1, p);
    }
  }

  lemma FillQtyAt(l: seq<Entry>, q: nat, p: int)
    requires l != [] && q <= l[0].qty
    ensures QtyAt(l, p) == QtyAt(Fill(l, q), p) + (if l[0].price == p then q else 0)
  {
    assert Fill(l, q) != l[1..] ==> Fill(l, q)[1..] == l[1..];
  }

  /** A level that is there throughout an operation: a modification must leave it standing in between as well. */
  predicate Stands(b: Book, op: Op, buy: bool, p: int) {
    && CountAt(Apply(b, op).Side(buy), p) > 0
    && (op.OpModify? && b.Holds(op.id) ==> CountAt(Cancel(b, op.id).Side(buy), p) > 0)
  }

  predicate StandsAll(b: Book, ops: seq<Op>, buy: bool, p: int)
    decreases |ops|
  {
    ops == [] || (Stands(b, ops[0], buy, p) && StandsAll(Apply(b, ops[0]), ops[1..], buy, p))
  }

  /** What the trades of a script say of the orders with their limit at `p`. */
  function TradedOver(b: Book, ops: seq<Op>, buy: bool, p: int): nat
    decreases |ops|
  {
    if ops == [] then 0
    else (if ops[0].OpMatch? then TradedAt(TradesOf(b, ops[0].clock), buy, b.Side(buy), p) else 0)
         + TradedOver(Apply(b, ops[0]), ops[1..], buy, p)
  }

  lemma PostedStands(g: Ledger, b: Book, op: Op, buy: bool, p: int)
    requires WellFormed(b) && p in g.Side(buy) && Stands(b, op, buy, p)
    ensures p in Posted(g, b, op).Side(buy)
    ensures Posted(g, b, op).Side(buy)[p]
            == g.Side(buy)[p] + if op.OpMatch? then TradedAt(TradesOf(b, op.clock), buy, b.Side(buy), p) else 0
  {
    hide WellFormed, CountAt, TradedAt, Cancel, Place, Find;
    if op.OpMatch? {
      Distinct(b);
      MatchedIsTraded(b.bids, b.asks, op.clock, 0, buy, p);
    }
  }

  lemma Distinct(b: Book)
    requires WellFormed(b)
    ensures DistinctIds(b.bids) && DistinctIds(b.asks)
  {
  }

  /** While a level stands, its volume grows by exactly what the trades of the script say of it. */
  lemma {:induction false} VolumeIsTraded(g: Ledger, b: Book, ops: seq<Op>, buy: bool, p: int)
    requires WellFormed(b) && AllFresh(b, ops) && p in g.Side(buy) && StandsAll(b, ops, buy, p)
    ensures p in PostedAll(g, b, ops).Side(buy)
    ensures PostedAll(g, b, ops).Side(buy)[p] == g.Side(buy)[p] + TradedOver(b, ops, buy, p)
    decreases |ops|
  {
    if ops != [] {
      PostedStands(g, b, ops[0], buy, p);
      ApplyKeeps(b, ops[0]);
      hide WellFormed, Posted, Apply, Stands, TradedAt;
      VolumeIsTraded(Posted(g, b, ops[0]), Apply(b, ops[0]), ops[1..], buy, p);
    }
  }

  /** A level that comes into being, by an addition or by a modification, starts with no volume. */
  lemma NewLevelStartsAtZero(g: Ledger, b: Book, op: Op, buy: bool, p: int)
    requires p in Posted(g, b, op).Side(buy)
    requires p !in g.Side(buy) ||
             (op.OpModify? && b.Holds(op.id) && CountAt(Cancel(b, op.id).Side(buy), p) == 0)
    ensures Posted(g, b, op).Side(buy)[p] == 0
  {
    hide CountAt, Cancel, Find, Match, MatchedAt;
    if op.OpModify? && b.Holds(op.id) {
      assert p !in Kept(g, Cancel(b, op.id)).Side(buy);
    }
  }
}
