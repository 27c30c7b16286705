// A whole matching run as a function of two priority lists, and what such a run does to them.

module Merge {
  import opened Orders
  import opened Lists

  datatype Trade = Trade(buyId: int, sellId: int, qty: nat, price: int, ts: int)

  datatype Outcome = Outcome(trades: seq<Trade>, bids: seq<Entry>, asks: seq<Entry>)

  /** The loop guard: a price of 0 or less never matches, because 0 marks an empty side. */
  predicate HasMatch(bids: seq<Entry>, asks: seq<Entry>) {
    bids != [] && asks != [] && bids[0].price > 0 && asks[0].price > 0 && bids[0].price >= asks[0].price
  }

  function MatchQty(bid: Entry, ask: Entry): nat {
    if bid.qty < ask.qty then bid.qty else ask.qty
  }

  function MatchPrice(bid: Entry, ask: Entry): int {
    if bid.ts < ask.ts then bid.price else ask.price
  }

  function TradeOf(bid: Entry, ask: Entry, now: int): Trade {
    Trade(bid.id, ask.id, MatchQty(bid, ask), MatchPrice(bid, ask), now)
  }

  /** Pairs the heads while they match; trade number `k` is stamped with reading `k` of the clock. */
  function Run(bids: seq<Entry>, asks: seq<Entry>, clock: nat -> int, k: nat): Outcome
    decreases |bids| + |asks|
  {
    if !HasMatch(bids, asks) then Outcome([], bids, asks)
    else
      var q := MatchQty(bids[0], asks[0]);
      var rest := Run(Fill(bids, q), Fill(asks, q), clock, k + 1);
      rest.(trades := [TradeOf(bids[0], asks[0], clock(k))] + rest.trades)
  }

  /** After `k` turns that made the trades `done`, the run from the start is the run from here with those in front. */
  predicate Underway(bids0: seq<Entry>, asks0: seq<Entry>, clock: nat -> int,
                     done: seq<Trade>, bids: seq<Entry>, asks: seq<Entry>) {
    var rest := Run(bids, asks, clock, |done|);
    Run(bids0, asks0, clock, 0) == Outcome(done + rest.trades, rest.bids, rest.asks)
  }

  lemma Beginning(bids: seq<Entry>, asks: seq<Entry>, clock: nat -> int)
    ensures Underway(bids, asks, clock, [], bids, asks)
  {
    assert [] + Run(bids, asks, clock, 0).trades == Run(bids, asks, clock, 0).trades;
  }

  lemma RunStep(bids: seq<Entry>, asks: seq<Entry>, clock: nat -> int, k: nat)
    requires HasMatch(bids, asks)
    ensures var q := MatchQty(bids[0], asks[0]);
            var rest := Run(Fill(bids, q), Fill(asks, q), clock, k + 1);
            && Run(bids, asks, clock, k)
               == Outcome([TradeOf(bids[0], asks[0], clock(k))] + rest.trades, rest.bids, rest.asks)
            && |Fill(bids, q)| + |Fill(asks, q)| < |bids| + |asks|
  {
  }

  lemma RunHalts(bids: seq<Entry>, asks: seq<Entry>, clock: nat -> int, k: nat)
    requires !HasMatch(bids, asks)
    ensures Run(bids, asks, clock, k) == Outcome([], bids, asks)
  {
  }

  /** One turn of the loop takes the run one trade further. */
  lemma Turn(bids0: seq<Entry>, asks0: seq<Entry>, clock: nat -> int,
             done: seq<Trade>, bids: seq<Entry>, asks: seq<Entry>, t: Trade)
    requires Underway(bids0, asks0, clock, done, bids, asks) && HasMatch(bids, asks)
    requires t == TradeOf(bids[0], asks[0], clock(|done|))
    ensures var q := MatchQty(bids[0], asks[0]);
            && Underway(bids0, asks0, clock, done + [t], Fill(bids, q), Fill(asks, q))
            && |Fill(bids, q)| + |Fill(asks, q)| < |bids| + |asks|
  {
    RunStep(bids, asks, clock, |done|);
    var q := MatchQty(bids[0], asks[0]);
    var rest := Run(Fill(bids, q), Fill(asks, q), clock, |done| + 1);
    Rejoin(done, t, rest.trades);
    hide Run;
  }

  lemma Rejoin(done: seq<Trade>, t: Trade, rest: seq<Trade>)
    ensures done + ([t] + rest) == (done + [t]) + rest
    ensures |done + [t]| == |done| + 1
  {
  }

  /** When nothing matches any more the run is over. */
  lemma Ending(bids0: seq<Entry>, asks0: seq<Entry>, clock: nat -> int,
               done: seq<Trade>, bids: seq<Entry>, asks: seq<Entry>)
    requires Underway(bids0, asks0, clock, done, bids, asks) && !HasMatch(bids, asks)
    ensures Run(bids0, asks0, clock, 0) == Outcome(done, bids, asks)
  {
    assert done + [] == done;
  }

  function Volume(trades: seq<Trade>): nat {
    if trades == [] then 0 else trades[0].qty + Volume(trades[1..])
  }

  /** The id by which a trade names its order on one side. */
  function PartyOf(t: Trade, buy: bool): int {
    if buy then t.buyId else t.sellId
  }

  /** Quantity traded by the order with this id on this side. */
  function Filled(trades: seq<Trade>, buy: bool, id: int): nat {
    if trades == [] then 0
    else (if PartyOf(trades[0], buy) == id then trades[0].qty else 0) + Filled(trades[1..], buy, id)
  }

  /** No buy reaches the price of a sell. */
  predicate Uncrossed(bids: seq<Entry>, asks: seq<Entry>) {
    forall i, j :: 0 <= i < |bids| && 0 <= j < |asks| ==> bids[i].price < asks[j].price
  }

  /** Both sides as the book keeps them between operations. */
  predicate Ready(bids: seq<Entry>, asks: seq<Entry>) {
    Sorted(true, bids) && Sorted(false, asks) && Positive(bids) && Positive(asks)
  }

  lemma StepKeepsReady(bids: seq<Entry>, asks: seq<Entry>)
    requires Ready(bids, asks) && HasMatch(bids, asks)
    ensures var q := MatchQty(bids[0], asks[0]);
            q > 0 && Ready(Fill(bids, q), Fill(asks, q))
  {
    var q := MatchQty(bids[0], asks[0]);
    FillKeeps(true, bids, q);
    FillKeeps(false, asks, q);
  }

  /** The volume that a run matches away from the orders resting at price `p` on one side. */
  function MatchedAt(bids: seq<Entry>, asks: seq<Entry>, buy: bool, p: int): nat
    decreases |bids| + |asks|
  {
    if !HasMatch(bids, asks) then 0
    else
      var q := MatchQty(bids[0], asks[0]);
      (if (if buy then bids[0] else asks[0]).price == p then q else 0) + MatchedAt(Fill(bids, q), Fill(asks, q), buy, p)
  }

  // Conservation.

  /** Per order and in total, what a run trades is what leaves each side. */
  lemma {:induction false} Conservation(bids: seq<Entry>, asks: seq<Entry>, clock: nat -> int, k: nat, id: int)
    ensures var out := Run(bids, asks, clock, k);
            && QtyOf(bids, id) == QtyOf(out.bids, id) + Filled(out.trades, true, id)
            && QtyOf(asks, id) == QtyOf(out.asks, id) + Filled(out.trades, false, id)
            && Total(bids) == Total(out.bids) + Volume(out.trades)
            && Total(asks) == Total(out.asks) + Volume(out.trades)
    decreases |bids| + |asks|
  {
    if HasMatch(bids, asks) {
      var q := MatchQty(bids[0], asks[0]);
      var rest := Run(Fill(bids, q), Fill(asks, q), clock, k + 1);
      Conservation(Fill(bids, q), Fill(asks, q), clock, k + 1, id);
      FillQty(bids, q, id);
      FillQty(asks, q, id);
      assert Run(bids, asks, clock, k).trades[1..] == rest.trades;
    }
  }

  /** The residual sides are the starting sides with the traded volume taken off their fronts. */
  lemma {:induction false} ResidualIsConsumed(bids: seq<Entry>, asks: seq<Entry>, clock: nat -> int, k: nat)
    requires Ready(bids, asks)
    ensures var out := Run(bids, asks, clock, k);
            && out.bids == Consume(bids, Volume(out.trades))
            && out.asks == Consume(asks, Volume(out.trades))
    decreases |bids| + |asks|
  {
    if HasMatch(bids, asks) {
      var q := MatchQty(bids[0], asks[0]);
      var rest := Run(Fill(bids, q), Fill(asks, q), clock, k + 1);
      StepKeepsReady(bids, asks);
      RunStep(bids, asks, clock, k);
      assert Run(bids, asks, clock, k).trades[1..] == rest.trades;
      hide Fill, Consume, Ready, Run;
      ResidualIsConsumed(Fill(bids, q), Fill(asks, q), clock, k + 1);
      ConsumeAfterFill(bids, q, Volume(rest.trades));
      ConsumeAfterFill(asks, q, Volume(rest.trades));
    }
  }

  // Termination, progress and the book on exit.

  lemma PositiveTurn(bids: seq<Entry>, asks: seq<Entry>)
    requires Positive(bids) && Positive(asks) && HasMatch(bids, asks)
    ensures var q := MatchQty(bids[0], asks[0]);
            && q > 0 && Positive(Fill(bids, q)) && Positive(Fill(asks, q))
            && |Fill(bids, q)| + |Fill(asks, q)| <= |bids| + |asks| - 1
  {
    var q := MatchQty(bids[0], asks[0]);
    FillKeeps(true, bids, q);
    FillKeeps(false, asks, q);
  }

  /** Every trade fills an order completely, so a run that trades makes at most bids + asks - 1 trades. */
  lemma {:induction false} TradeCount(bids: seq<Entry>, asks: seq<Entry>, clock: nat -> int, k: nat)
    requires Positive(bids) && Positive(asks)
    ensures var out := Run(bids, asks, clock, k);
            && |out.trades| + |out.bids| + |out.asks| <= |bids| + |asks|
            && (out.trades != [] ==> |out.trades| <= |bids| + |asks| - 1)
            && (forall i :: 0 <= i < |out.trades| ==> out.trades[i].qty > 0)
    decreases |bids| + |asks|
  {
    hide Fill, Positive, Run;
    if HasMatch(bids, asks) {
      var q := MatchQty(bids[0], asks[0]);
      PositiveTurn(bids, asks);
      RunStep(bids, asks, clock, k);
      TradeCount(Fill(bids, q), Fill(asks, q), clock, k + 1);
    } else {
      RunHalts(bids, asks, clock, k);
    }
  }

  /** A run keeps what the book relies on. */
  lemma {:induction false} RunKeepsReady(bids: seq<Entry>, asks: seq<Entry>, clock: nat -> int, k: nat)
    requires Ready(bids, asks)
    ensures var out := Run(bids, asks, clock, k);
            Ready(out.bids, out.asks) && !HasMatch(out.bids, out.asks)
    decreases |bids| + |asks|
  {
    if HasMatch(bids, asks) {
      var q := MatchQty(bids[0], asks[0]);
      StepKeepsReady(bids, asks);
      RunKeepsReady(Fill(bids, q), Fill(asks, q), clock, k + 1);
    }
  }

  lemma UncrossedByHeads(bids: seq<Entry>, asks: seq<Entry>)
    requires Sorted(true, bids) && Sorted(false, asks)
    ensures Uncrossed(bids, asks) <==> (bids == [] || asks == [] || bids[0].price < asks[0].price)
  {
    if bids != [] && asks != [] && bids[0].price < asks[0].price {
      forall i, j | 0 <= i < |bids| && 0 <= j < |asks|
        ensures bids[i].price < asks[j].price
      {
        assert i == 0 || Ahead(true, bids[0].price, bids[i].price);
        assert j == 0 || Ahead(false, asks[0].price, asks[j].price);
      }
    }
  }

  /** The sentinel is in the way: crossed, with a best ask at or below 0. */
  predicate Blocked(bids: seq<Entry>, asks: seq<Entry>) {
    bids != [] && asks != [] && asks[0].price <= 0 && bids[0].price >= asks[0].price
  }

  /** A run leaves the book uncrossed exactly when the best ask was not a crossed non-positive price. */
  lemma {:induction false} UncrossedOnExit(bids: seq<Entry>, asks: seq<Entry>, clock: nat -> int, k: nat)
    requires Ready(bids, asks)
    ensures var out := Run(bids, asks, clock, k);
            Uncrossed(out.bids, out.asks) <==> !Blocked(bids, asks)
    decreases |bids| + |asks|
  {
    if HasMatch(bids, asks) {
      var q := MatchQty(bids[0], asks[0]);
      StepKeepsReady(bids, asks);
      if |asks| > 1 {
        assert Ahead(false, asks[0].price, asks[1].price);
      }
      UncrossedOnExit(Fill(bids, q), Fill(asks, q), clock, k + 1);
    } else {
      UncrossedByHeads(bids, asks);
    }
  }

  /** Such a book exists: a bid at 5 and an ask at 0 rest against each other for ever. */
  lemma BlockedExample(clock: nat -> int)
    ensures var bids, asks := [Entry(1, true, 5, 1, 1)], [Entry(2, false, 0, 1, 2)];
            Ready(bids, asks) && Run(bids, asks, clock, 0) == Outcome([], bids, asks) && !Uncrossed(bids, asks)
  {
    var bids, asks := [Entry(1, true, 5, 1, 1)], [Entry(2, false, 0, 1, 2)];
    assert bids[0].price >= asks[0].price;
  }

  // Price-time priority.

  /** The order traded in the run but some of it is left. */
  predicate PartlyFilled(before: seq<Entry>, after: seq<Entry>, i: nat)
    requires i < |before|
  {
    0 < QtyOf(after, before[i].id) < before[i].qty
  }

  /** Taking volume off the front touches an order only after everything ahead of it is gone. */
  lemma {:induction false} ConsumePriority(l: seq<Entry>, v: nat, i: nat, j: nat)
    requires Positive(l) && DistinctIds(l)
    requires i < j < |l|
    requires QtyOf(Consume(l, v), l[j].id) < l[j].qty
    ensures QtyOf(Consume(l, v), l[i].id) == 0
    decreases |l|
  {
    if v == 0 || l[0].qty > v {
      var m := Consume(l, v);
      assert DistinctIds(m) && m[j] == l[j];
      QtyOfPresent(m, j);
    } else {
      var t := l[1..];
      assert t[j - 1] == l[j];
      if i == 0 {
        ConsumeNoNewIds(t, v - l[0].qty, l[0].id);
      } else {
        assert t[i - 1] == l[i];
        ConsumePriority(t, v - l[0].qty, i - 1, j - 1);
      }
    }
  }

  lemma {:induction false} ConsumeNoNewIds(l: seq<Entry>, v: nat, id: int)
    requires !HasId(l, id)
    ensures QtyOf(Consume(l, v), id) == 0
    decreases |l|
  {
    if l == [] || v == 0 {
      QtyOfAbsent(l, id);
    } else if l[0].qty <= v {
      assert !HasId(l[1..], id);
      ConsumeNoNewIds(l[1..], v - l[0].qty, id);
    } else {
      assert l[0].id != id;
      assert !HasId(Consume(l, v), id) by {
        assert forall i :: 1 <= i < |l| ==> Consume(l, v)[i] == l[i];
      }
      QtyOfAbsent(Consume(l, v), id);
    }
  }

  /** Only the head of what is left can be an order that is partly filled. */
  lemma {:induction false} ConsumePartialIsHead(l: seq<Entry>, v: nat, i: nat)
    requires Positive(l) && DistinctIds(l) && i < |l|
    requires PartlyFilled(l, Consume(l, v), i)
    ensures Consume(l, v) != [] && Consume(l, v)[0].id == l[i].id
    ensures !exists n: nat :: n <= |l| && Consume(l, v) == l[n..]
    decreases |l|
  {
    if v == 0 {
      QtyOfPresent(l, i);
    } else if l[0].qty <= v {
      var t := l[1..];
      if i == 0 {
        assert !HasId(t, l[0].id);
        ConsumeNoNewIds(t, v - l[0].qty, l[0].id);
      } else {
        assert t[i - 1] == l[i];
        ConsumePartialIsHead(t, v - l[0].qty, i - 1);
        forall n: nat | n <= |l|
          ensures Consume(l, v) != l[n..]
        {
          if n > 0 {
            assert l[n..] == t[n - 1..];
          } else {
            ConsumeShrinks(t, v - l[0].qty);
          }
        }
      }
    } else {
      var m := Consume(l, v);
      if i > 0 {
        assert DistinctIds(m) && m[i] == l[i];
        QtyOfPresent(m, i);
      }
      assert |m| == |l| && m[0] != l[0];
    }
  }

  lemma {:induction false} ConsumeShrinks(l: seq<Entry>, v: nat)
    ensures |Consume(l, v)| <= |l|
    decreases |l|
  {
    if l != [] && v != 0 && l[0].qty <= v {
      ConsumeShrinks(l[1..], v - l[0].qty);
    }
  }

  /** An order is filled only after every order ahead of it on its side is completely filled. */
  lemma PriceTimePriority(bids: seq<Entry>, asks: seq<Entry>, clock: nat -> int, k: nat)
    requires Ready(bids, asks) && DistinctIds(bids) && DistinctIds(asks)
    ensures var trades := Run(bids, asks, clock, k).trades;
            && (forall i, j :: 0 <= i < j < |bids| && Filled(trades, true, bids[j].id) > 0
                  ==> Filled(trades, true, bids[i].id) == bids[i].qty)
            && (forall i, j :: 0 <= i < j < |asks| && Filled(trades, false, asks[j].id) > 0
                  ==> Filled(trades, false, asks[i].id) == asks[i].qty)
  {
    var out := Run(bids, asks, clock, k);
    ResidualIsConsumed(bids, asks, clock, k);
    forall i, j | 0 <= i < j < |bids| && Filled(out.trades, true, bids[j].id) > 0
      ensures Filled(out.trades, true, bids[i].id) == bids[i].qty
    {
      Conservation(bids, asks, clock, k, bids[i].id);
      Conservation(bids, asks, clock, k, bids[j].id);
      QtyOfPresent(bids, i);
      QtyOfPresent(bids, j);
      ConsumePriority(bids, Volume(out.trades), i, j);
    }
    forall i, j | 0 <= i < j < |asks| && Filled(out.trades, false, asks[j].id) > 0
      ensures Filled(out.trades, false, asks[i].id) == asks[i].qty
    {
      Conservation(bids, asks, clock, k, asks[i].id);
      Conservation(bids, asks, clock, k, asks[j].id);
      QtyOfPresent(asks, i);
      QtyOfPresent(asks, j);
      ConsumePriority(asks, Volume(out.trades), i, j);
    }
  }

  predicate ProperSuffix(after: seq<Entry>, before: seq<Entry>) {
    0 < |before| && |after| < |before| && after == before[|before| - |after|..]
  }

  lemma SuffixOfFill(after: seq<Entry>, l: seq<Entry>, q: nat)
    requires l != [] && q <= l[0].qty
    ensures ProperSuffix(after, Fill(l, q)) ==> ProperSuffix(after, l)
    ensures after == Fill(l, q) && q == l[0].qty ==> ProperSuffix(after, l)
  {
    if ProperSuffix(after, Fill(l, q)) {
      var f := Fill(l, q);
      assert l[|l| - |f|..][1..] == f[1..];
      assert f[|f| - |after|..] == f[1..][|f| - |after| - 1..];
      assert l[|l| - |after|..] == l[|l| - |f|..][1..][|f| - |after| - 1..];
    }
  }

  /** After a run that trades, one side is left with nothing but untouched orders. */
  lemma {:induction false} OneSideExact(bids: seq<Entry>, asks: seq<Entry>, clock: nat -> int, k: nat)
    requires Ready(bids, asks) && HasMatch(bids, asks)
    ensures var out := Run(bids, asks, clock, k);
            ProperSuffix(out.bids, bids) || ProperSuffix(out.asks, asks)
    decreases |bids| + |asks|
  {
    var q := MatchQty(bids[0], asks[0]);
    var b, a := Fill(bids, q), Fill(asks, q);
    var out := Run(b, a, clock, k + 1);
    assert Run(bids, asks, clock, k).bids == out.bids && Run(bids, asks, clock, k).asks == out.asks;
    StepKeepsReady(bids, asks);
    SuffixOfFill(out.bids, bids, q);
    SuffixOfFill(out.asks, asks, q);
    if HasMatch(b, a) {
      OneSideExact(b, a, clock, k + 1);
    }
  }

  /** At most one order of the whole book ends a run partly filled, and it heads its side. */
  lemma OnePartialFill(bids: seq<Entry>, asks: seq<Entry>, clock: nat -> int, k: nat)
    requires Ready(bids, asks) && DistinctIds(bids) && DistinctIds(asks)
    ensures var out := Run(bids, asks, clock, k);
            && (forall i :: 0 <= i < |bids| && PartlyFilled(bids, out.bids, i)
                  ==> out.bids != [] && out.bids[0].id == bids[i].id)
            && (forall j :: 0 <= j < |asks| && PartlyFilled(asks, out.asks, j)
                  ==> out.asks != [] && out.asks[0].id == asks[j].id)
            && (forall i, j :: 0 <= i < |bids| && 0 <= j < |asks|
                  ==> !(PartlyFilled(bids, out.bids, i) && PartlyFilled(asks, out.asks, j)))
  {
    var out := Run(bids, asks, clock, k);
    var v := Volume(out.trades);
    ResidualIsConsumed(bids, asks, clock, k);
    forall i | 0 <= i < |bids| && PartlyFilled(bids, out.bids, i)
      ensures out.bids != [] && out.bids[0].id == bids[i].id && !ProperSuffix(out.bids, bids) && HasMatch(bids, asks)
    {
      ConsumePartialIsHead(bids, v, i);
      QtyOfPresent(bids, i);
    }
    forall j | 0 <= j < |asks| && PartlyFilled(asks, out.asks, j)
      ensures out.asks != [] && out.asks[0].id == asks[j].id && !ProperSuffix(out.asks, asks)
    {
      ConsumePartialIsHead(asks, v, j);
    }
    if HasMatch(bids, asks) {
      OneSideExact(bids, asks, clock, k);
    }
  }

  // The limits of the matched pairs.

  datatype Pair = Pair(bid: Entry, ask: Entry)

  /** The pairs of resting entries that a run matches, in order. */
  function Pairs(bids: seq<Entry>, asks: seq<Entry>): seq<Pair>
    decreases |bids| + |asks|
  {
    if !HasMatch(bids, asks) then []
    else
      var q := MatchQty(bids[0], asks[0]);
      [Pair(bids[0], asks[0])] + Pairs(Fill(bids, q), Fill(asks, q))
  }

  /** The interval between the limits of one pair lies inside that of another. */
  predicate Inside(inner: Pair, outer: Pair) {
    outer.ask.price <= inner.ask.price <= inner.bid.price <= outer.bid.price
  }

  /** Each trade is between the orders of its pair, at the limit of the one stamped earlier (the ask on a tie). */
  lemma {:induction false} TradesFollowPairs(bids: seq<Entry>, asks: seq<Entry>, clock: nat -> int, k: nat)
    ensures var trades := Run(bids, asks, clock, k).trades;
            var pairs := Pairs(bids, asks);
            && |trades| == |pairs|
            && forall n :: 0 <= n < |trades| ==>
                 && trades[n].buyId == pairs[n].bid.id && trades[n].sellId == pairs[n].ask.id
                 && trades[n].ts == clock(k + n)
                 && pairs[n].ask.price <= trades[n].price <= pairs[n].bid.price
                 && trades[n].price
                    == (if pairs[n].ask.ts <= pairs[n].bid.ts then pairs[n].ask.price else pairs[n].bid.price)
    decreases |bids| + |asks|
  {
    if HasMatch(bids, asks) {
      var q := MatchQty(bids[0], asks[0]);
      TradesFollowPairs(Fill(bids, q), Fill(asks, q), clock, k + 1);
    }
  }

  predicate Nested(pairs: seq<Pair>) {
    && (forall n :: 0 <= n < |pairs| ==> pairs[n].ask.price > 0)
    && (forall m, n :: 0 <= m <= n < |pairs| ==> Inside(pairs[n], pairs[m]))
  }

  lemma NestedCons(p: Pair, tail: seq<Pair>)
    requires Nested(tail) && p.ask.price > 0 && Inside(p, p)
    requires tail != [] ==> Inside(tail[0], p)
    ensures Nested([p] + tail)
  {
    var pairs := [p] + tail;
    forall m, n | 0 <= m <= n < |pairs|
      ensures Inside(pairs[n], pairs[m])
    {
      if n > 0 {
        assert Inside(tail[n - 1], tail[0]);
        assert m > 0 ==> Inside(tail[n - 1], tail[m - 1]);
      }
    }
  }

  /** Along a run the matched bid limits never rise and the matched ask limits never fall. */
  lemma {:induction false} NestedLimits(bids: seq<Entry>, asks: seq<Entry>)
    requires Ready(bids, asks)
    ensures Nested(Pairs(bids, asks))
    decreases |bids| + |asks|
  {
    if HasMatch(bids, asks) {
      var q := MatchQty(bids[0], asks[0]);
      var b, a := Fill(bids, q), Fill(asks, q);
      StepKeepsReady(bids, asks);
      NestedLimits(b, a);
      if HasMatch(b, a) {
        assert |bids| > 1 ==> Ahead(true, bids[0].price, bids[1].price);
        assert |asks| > 1 ==> Ahead(false, asks[0].price, asks[1].price);
      }
      NestedCons(Pair(bids[0], asks[0]), Pairs(b, a));
    }
  }
}
