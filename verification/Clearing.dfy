// What a matching run achieves: the clearing volume and the largest possible surplus.

module Clearing {
  import opened Orders
  import opened Lists
  import opened Merge

  // Clearing volume.

  function Min(x: int, y: int): int {
    if x < y then x else y
  }

  /** What could change hands if everybody traded at the one price `p`. */
  function VolumeAt(bids: seq<Entry>, asks: seq<Entry>, p: int): int {
    Min(Depth(true, bids, p), Depth(false, asks, p))
  }

  /** The largest volume that any single price can clear. */
  ghost predicate IsClearingVolume(bids: seq<Entry>, asks: seq<Entry>, v: int) {
    && (forall p :: VolumeAt(bids, asks, p) <= v)
    && (exists p :: VolumeAt(bids, asks, p) == v)
  }

  /** No price clears more than the run trades. */
  lemma {:induction false} VolumeIsUpperBound(bids: seq<Entry>, asks: seq<Entry>, clock: nat -> int, k: nat, p: int)
    requires Ready(bids, asks) && !Blocked(bids, asks)
    ensures VolumeAt(bids, asks, p) <= Volume(Run(bids, asks, clock, k).trades)
    decreases |bids| + |asks|
  {
    if HasMatch(bids, asks) {
      var q := MatchQty(bids[0], asks[0]);
      StepKeepsReady(bids, asks);
      assert |asks| > 1 ==> Ahead(false, asks[0].price, asks[1].price);
      VolumeIsUpperBound(Fill(bids, q), Fill(asks, q), clock, k + 1, p);
      FillDepth(true, bids, q, p);
      FillDepth(false, asks, q, p);
      assert Run(bids, asks, clock, k).trades[1..] == Run(Fill(bids, q), Fill(asks, q), clock, k + 1).trades;
    } else if bids == [] || !Ahead(true, bids[0].price, p) {
      NoDepth(true, bids, p);
    } else {
      NoDepth(false, asks, p);
    }
  }

  /** Some price clears at least what the run trades. */
  lemma {:induction false} SomePriceClears(bids: seq<Entry>, asks: seq<Entry>, clock: nat -> int, k: nat)
    returns (p: int)
    requires Ready(bids, asks)
    ensures VolumeAt(bids, asks, p) >= Volume(Run(bids, asks, clock, k).trades)
    decreases |bids| + |asks|
  {
    p := 0;
    if HasMatch(bids, asks) {
      var q := MatchQty(bids[0], asks[0]);
      var b, a := Fill(bids, q), Fill(asks, q);
      RunStep(bids, asks, clock, k);
      StepKeepsReady(bids, asks);
      VolumeFirst(TradeOf(bids[0], asks[0], clock(k)), Run(b, a, clock, k + 1).trades);
      hide Ready, Run, Volume, Depth, Fill;
      p := SomePriceClears(b, a, clock, k + 1);
      if Volume(Run(b, a, clock, k + 1).trades) == 0 {
        p := bids[0].price;
      } else {
        ClearsHeads(bids, asks, q, p);
      }
      FillDepth(true, bids, q, p);
      FillDepth(false, asks, q, p);
    }
  }

  lemma VolumeFirst(t: Trade, rest: seq<Trade>)
    ensures Volume([t] + rest) == t.qty + Volume(rest)
  {
    assert ([t] + rest)[1..] == rest;
  }

  /** A price at which something of the rest clears lies between the heads. */
  lemma ClearsHeads(bids: seq<Entry>, asks: seq<Entry>, q: nat, p: int)
    requires Ready(bids, asks) && HasMatch(bids, asks) && q == MatchQty(bids[0], asks[0])
    requires Ready(Fill(bids, q), Fill(asks, q))
    requires VolumeAt(Fill(bids, q), Fill(asks, q), p) > 0
    ensures Ahead(true, bids[0].price, p) && Ahead(false, asks[0].price, p)
  {
    hide Depth;
    DepthUpTo(true, Fill(bids, q), p);
    DepthUpTo(false, Fill(asks, q), p);
    assert |bids| > 1 ==> Ahead(true, bids[0].price, bids[1].price);
    assert |asks| > 1 ==> Ahead(false, asks[0].price, asks[1].price);
  }

  /** The traded volume is the clearing volume exactly when the sentinel is not in the way. */
  lemma TradedVolumeClears(bids: seq<Entry>, asks: seq<Entry>, clock: nat -> int, k: nat)
    requires Ready(bids, asks)
    ensures IsClearingVolume(bids, asks, Volume(Run(bids, asks, clock, k).trades)) <==> !Blocked(bids, asks)
  {
    var v := Volume(Run(bids, asks, clock, k).trades);
    if Blocked(bids, asks) {
      assert Depth(true, bids, asks[0].price) > 0 && Depth(false, asks, asks[0].price) > 0;
      assert VolumeAt(bids, asks, asks[0].price) > v;
    } else {
      forall p
        ensures VolumeAt(bids, asks, p) <= v
      {
        VolumeIsUpperBound(bids, asks, clock, k, p);
      }
      var p := SomePriceClears(bids, asks, clock, k);
      assert VolumeAt(bids, asks, p) == v;
    }
  }

  // Surplus.

  /** The price limit of the order with this id; 0 when it is not listed. */
  function LimitOf(l: seq<Entry>, id: int): int {
    if l == [] then 0 else if l[0].id == id then l[0].price else LimitOf(l[1..], id)
  }

  /** An allocation of bid quantity to ask quantity: nobody is allotted more than is resting. */
  ghost predicate Feasible(trades: seq<Trade>, bids: seq<Entry>, asks: seq<Entry>) {
    && (forall id :: Filled(trades, true, id) <= QtyOf(bids, id))
    && (forall id :: Filled(trades, false, id) <= QtyOf(asks, id))
  }

  /** What buyers were ready to pay less what sellers were ready to take. */
  function Surplus(trades: seq<Trade>, bids: seq<Entry>, asks: seq<Entry>): int {
    if trades == [] then 0
    else trades[0].qty * (LimitOf(bids, trades[0].buyId) - LimitOf(asks, trades[0].sellId))
         + Surplus(trades[1..], bids, asks)
  }

  /** How far a limit is on the good side of `p`. */
  function Margin(buy: bool, limit: int, p: int): nat {
    if buy then (if limit > p then limit - p else 0) else (if p > limit then p - limit else 0)
  }

  /** The dual bound of one side: its whole quantity, each unit weighed by its margin at `p`. */
  function Gain(buy: bool, l: seq<Entry>, p: int): nat {
    if l == [] then 0 else l[0].qty * Margin(buy, l[0].price, p) + Gain(buy, l[1..], p)
  }

  /** The traded quantity of one side, each unit weighed by its margin at `p`. */
  function Weighed(trades: seq<Trade>, buy: bool, l: seq<Entry>, p: int): nat {
    if trades == [] then 0
    else trades[0].qty * Margin(buy, LimitOf(l, PartyOf(trades[0], buy)), p) + Weighed(trades[1..], buy, l, p)
  }

  /** The trades that do not name `id` on this side. */
  function Without(trades: seq<Trade>, buy: bool, id: int): seq<Trade> {
    if trades == [] then []
    else if PartyOf(trades[0], buy) == id then Without(trades[1..], buy, id)
    else [trades[0]] + Without(trades[1..], buy, id)
  }

  lemma {:induction false} WithoutFilled(trades: seq<Trade>, buy: bool, id: int, other: int)
    ensures Filled(Without(trades, buy, id), buy, other) == if other == id then 0 else Filled(trades, buy, other)
  {
    if trades != [] {
      WithoutFilled(trades[1..], buy, id, other);
      assert ([trades[0]] + Without(trades[1..], buy, id))[1..] == Without(trades[1..], buy, id);
    }
  }

  lemma Distribute(x: int, y: int, m: int)
    ensures (x + y) * m == x * m + y * m
  {
  }

  /** The weight of one order's trades can be counted apart from the rest. */
  lemma {:induction false} WeighedSplit(trades: seq<Trade>, buy: bool, l: seq<Entry>, p: int)
    requires l != []
    ensures var id := l[0].id;
            Weighed(trades, buy, l, p)
            == Filled(trades, buy, id) * Margin(buy, l[0].price, p) + Weighed(Without(trades, buy, id), buy, l[1..], p)
  {
    if trades != [] {
      var id, m := l[0].id, Margin(buy, l[0].price, p);
      var rest := Without(trades[1..], buy, id);
      WeighedSplit(trades[1..], buy, l, p);
      if PartyOf(trades[0], buy) == id {
        Distribute(trades[0].qty, Filled(trades[1..], buy, id), m);
      } else {
        assert Without(trades, buy, id) == [trades[0]] + rest;
        assert Without(trades, buy, id)[1..] == rest;
      }
    }
  }

  lemma {:induction false} NothingToWeigh(trades: seq<Trade>, buy: bool, p: int)
    requires forall id :: Filled(trades, buy, id) == 0
    ensures Weighed(trades, buy, [], p) == 0
  {
    if trades != [] {
      var id := PartyOf(trades[0], buy);
      assert Filled(trades, buy, id) == 0;
      assert trades[0].qty == 0;
      forall other
        ensures Filled(trades[1..], buy, other) == 0
      {
        assert Filled(trades, buy, other) == 0;
      }
      NothingToWeigh(trades[1..], buy, p);
    }
  }

  lemma MonotoneProduct(x: nat, y: nat, m: nat)
    requires x <= y
    ensures x * m <= y * m
  {
  }

  /** A side can gain no more than all its quantity at its margins. */
  lemma {:induction false} SideBound(trades: seq<Trade>, buy: bool, l: seq<Entry>, p: int)
    requires DistinctIds(l)
    requires forall id :: Filled(trades, buy, id) <= QtyOf(l, id)
    ensures Weighed(trades, buy, l, p) <= Gain(buy, l, p)
    decreases |l|
  {
    if l == [] {
      assert forall id :: QtyOf(l, id) == 0;
      NothingToWeigh(trades, buy, p);
    } else {
      var id0 := l[0].id;
      var others := Without(trades, buy, id0);
      assert !HasId(l[1..], id0);
      forall id
        ensures Filled(others, buy, id) <= QtyOf(l[1..], id)
      {
        WithoutFilled(trades, buy, id0, id);
        assert Filled(trades, buy, id) <= QtyOf(l, id);
      }
      SideBound(others, buy, l[1..], p);
      WeighedSplit(trades, buy, l, p);
      QtyOfPresent(l, 0);
      assert Filled(trades, buy, id0) <= QtyOf(l, id0);
      MonotoneProduct(Filled(trades, buy, id0), l[0].qty, Margin(buy, l[0].price, p));
    }
  }

  lemma UnitBound(q: nat, bid: int, ask: int, p: int)
    ensures q * (bid - ask) <= q * Margin(true, bid, p) + q * Margin(false, ask, p)
  {
    var m := Margin(true, bid, p) + Margin(false, ask, p);
    assert bid - ask <= m;
    assert q * (bid - ask) <= q * m;
  }

  lemma {:induction false} SurplusBelowWeights(trades: seq<Trade>, bids: seq<Entry>, asks: seq<Entry>, p: int)
    ensures Surplus(trades, bids, asks) <= Weighed(trades, true, bids, p) + Weighed(trades, false, asks, p)
  {
    if trades != [] {
      SurplusBelowWeights(trades[1..], bids, asks, p);
      UnitBound(trades[0].qty, LimitOf(bids, trades[0].buyId), LimitOf(asks, trades[0].sellId), p);
    }
  }

  /** Weak duality: whatever the allocation and whatever `p`, the surplus stays below the dual bound at `p`. */
  lemma WeakDuality(trades: seq<Trade>, bids: seq<Entry>, asks: seq<Entry>, p: int)
    requires DistinctIds(bids) && DistinctIds(asks) && Feasible(trades, bids, asks)
    ensures Surplus(trades, bids, asks) <= Gain(true, bids, p) + Gain(false, asks, p)
  {
    SurplusBelowWeights(trades, bids, asks, p);
    SideBound(trades, true, bids, p);
    SideBound(trades, false, asks, p);
  }

  /** `p` separates the run: inside every matched pair, and between the sides that are left. */
  predicate Clears(bids: seq<Entry>, asks: seq<Entry>, p: int)
    decreases |bids| + |asks|
  {
    if HasMatch(bids, asks) then
      var q := MatchQty(bids[0], asks[0]);
      asks[0].price <= p <= bids[0].price && Clears(Fill(bids, q), Fill(asks, q), p)
    else
      (bids != [] ==> bids[0].price <= p) && (asks != [] ==> p <= asks[0].price)
  }

  /** The larger of the last matched ask limit and the best bid that is left. */
  function ClearingPrice(bids: seq<Entry>, asks: seq<Entry>, last: int): int
    decreases |bids| + |asks|
  {
    if HasMatch(bids, asks) then
      var q := MatchQty(bids[0], asks[0]);
      ClearingPrice(Fill(bids, q), Fill(asks, q), asks[0].price)
    else if bids != [] && bids[0].price > last then bids[0].price
    else last
  }

  /** The clearing price separates the run, whatever earlier interval of limits the run is nested in. */
  lemma {:induction false} ClearingPriceClears(bids: seq<Entry>, asks: seq<Entry>, last: int, bound: int)
    requires Ready(bids, asks)
    requires HasMatch(bids, asks) || (bids != [] && asks != [] ==> bids[0].price <= asks[0].price)
    requires asks != [] ==> last <= asks[0].price
    requires bids != [] ==> bids[0].price <= bound
    requires last <= bound
    ensures var p := ClearingPrice(bids, asks, last);
            last <= p <= bound && Clears(bids, asks, p)
    decreases |bids| + |asks|
  {
    if HasMatch(bids, asks) {
      var q := MatchQty(bids[0], asks[0]);
      StepKeepsReady(bids, asks);
      assert |bids| > 1 ==> Ahead(true, bids[0].price, bids[1].price);
      assert |asks| > 1 ==> Ahead(false, asks[0].price, asks[1].price);
      ClearingPriceClears(Fill(bids, q), Fill(asks, q), asks[0].price, bids[0].price);
    }
  }

  /** The clearing price, told by the run: the last matched ask limit, or the best bid left when that is higher. */
  lemma {:induction false} ClearingPriceIs(bids: seq<Entry>, asks: seq<Entry>, clock: nat -> int, k: nat, last: int)
    ensures var pairs, left := Pairs(bids, asks), Run(bids, asks, clock, k).bids;
            var ask := if pairs == [] then last else pairs[|pairs| - 1].ask.price;
            ClearingPrice(bids, asks, last) == if left != [] && left[0].price > ask then left[0].price else ask
    decreases |bids| + |asks|
  {
    if HasMatch(bids, asks) {
      var q := MatchQty(bids[0], asks[0]);
      RunStep(bids, asks, clock, k);
      ClearingPriceIs(Fill(bids, q), Fill(asks, q), clock, k + 1, asks[0].price);
    }
  }

  lemma {:induction false} FillGain(buy: bool, l: seq<Entry>, q: nat, p: int)
    requires l != [] && q <= l[0].qty
    ensures Gain(buy, l, p) == Gain(buy, Fill(l, q), p) + q * Margin(buy, l[0].price, p)
  {
    if l[0].qty != q {
      assert Fill(l, q)[1..] == l[1..];
      Distribute(l[0].qty - q, q, Margin(buy, l[0].price, p));
    }
  }

  lemma {:induction false} NoGain(buy: bool, l: seq<Entry>, p: int)
    requires Sorted(buy, l)
    requires l != [] ==> Margin(buy, l[0].price, p) == 0
    ensures Gain(buy, l, p) == 0
  {
    if l != [] {
      assert |l| > 1 ==> Ahead(buy, l[0].price, l[1].price);
      NoGain(buy, l[1..], p);
    }
  }

  lemma {:induction false} FillLimit(l: seq<Entry>, q: nat, id: int)
    requires l != [] && q <= l[0].qty && DistinctIds(l) && HasId(Fill(l, q), id)
    ensures LimitOf(Fill(l, q), id) == LimitOf(l, id)
  {
    if l[0].qty != q {
      assert Fill(l, q)[1..] == l[1..];
    }
  }

  /** Trades of a run name listed orders only. */
  lemma {:induction false} TradesNameListed(bids: seq<Entry>, asks: seq<Entry>, clock: nat -> int, k: nat)
    ensures forall t :: t in Run(bids, asks, clock, k).trades ==> HasId(bids, t.buyId) && HasId(asks, t.sellId)
    decreases |bids| + |asks|
  {
    if HasMatch(bids, asks) {
      var q := MatchQty(bids[0], asks[0]);
      var rest := Run(Fill(bids, q), Fill(asks, q), clock, k + 1).trades;
      TradesNameListed(Fill(bids, q), Fill(asks, q), clock, k + 1);
      forall t | t in rest
        ensures HasId(bids, t.buyId) && HasId(asks, t.sellId)
      {
        FillIds(bids, q, t.buyId);
        FillIds(asks, q, t.sellId);
      }
    }
  }

  lemma {:induction false} SurplusAfterFill(trades: seq<Trade>, bids: seq<Entry>, asks: seq<Entry>, q: nat)
    requires bids != [] && q <= bids[0].qty && DistinctIds(bids)
    requires asks != [] && q <= asks[0].qty && DistinctIds(asks)
    requires forall t :: t in trades ==> HasId(Fill(bids, q), t.buyId) && HasId(Fill(asks, q), t.sellId)
    ensures Surplus(trades, Fill(bids, q), Fill(asks, q)) == Surplus(trades, bids, asks)
  {
    if trades != [] {
      hide Fill, LimitOf, DistinctIds, HasId;
      FillLimit(bids, q, trades[0].buyId);
      FillLimit(asks, q, trades[0].sellId);
      SurplusAfterFill(trades[1..], bids, asks, q);
    }
  }

  /** The first trade of a run adds its quantity at the difference of the head limits. */
  lemma SurplusHead(t: Trade, rest: seq<Trade>, bids: seq<Entry>, asks: seq<Entry>)
    ensures Surplus([t] + rest, bids, asks)
            == t.qty * (LimitOf(bids, t.buyId) - LimitOf(asks, t.sellId)) + Surplus(rest, bids, asks)
  {
    assert ([t] + rest)[1..] == rest;
  }

  lemma SurplusStep(bids: seq<Entry>, asks: seq<Entry>, clock: nat -> int, k: nat)
    requires DistinctIds(bids) && DistinctIds(asks) && HasMatch(bids, asks)
    ensures var q := MatchQty(bids[0], asks[0]);
            var b, a := Fill(bids, q), Fill(asks, q);
            Surplus(Run(bids, asks, clock, k).trades, bids, asks)
            == q * (bids[0].price - asks[0].price) + Surplus(Run(b, a, clock, k + 1).trades, b, a)
  {
    var q := MatchQty(bids[0], asks[0]);
    var b, a := Fill(bids, q), Fill(asks, q);
    var rest := Run(b, a, clock, k + 1).trades;
    assert LimitOf(bids, bids[0].id) == bids[0].price && LimitOf(asks, asks[0].id) == asks[0].price;
    RunStep(bids, asks, clock, k);
    TradesNameListed(b, a, clock, k + 1);
    hide Fill, Run, LimitOf, DistinctIds, HasId, Surplus;
    SurplusAfterFill(rest, bids, asks, q);
    SurplusHead(TradeOf(bids[0], asks[0], clock(k)), rest, bids, asks);
  }

  lemma UnitExact(q: nat, bid: int, ask: int, p: int)
    requires ask <= p <= bid
    ensures q * (bid - ask) == q * Margin(true, bid, p) + q * Margin(false, ask, p)
  {
    Distribute(bid - p, p - ask, q);
  }

  lemma DualStep(bids: seq<Entry>, asks: seq<Entry>, q: nat, p: int)
    requires bids != [] && asks != [] && q <= bids[0].qty && q <= asks[0].qty
    requires asks[0].price <= p <= bids[0].price
    ensures Gain(true, bids, p) + Gain(false, asks, p)
            == q * (bids[0].price - asks[0].price) + (Gain(true, Fill(bids, q), p) + Gain(false, Fill(asks, q), p))
  {
    FillGain(true, bids, q, p);
    FillGain(false, asks, q, p);
    UnitExact(q, bids[0].price, asks[0].price, p);
  }

  /** Complementary slackness: at a separating price the run attains the dual bound. */
  lemma {:induction false} RunAttainsDual(bids: seq<Entry>, asks: seq<Entry>, clock: nat -> int, k: nat, p: int)
    requires Ready(bids, asks) && DistinctIds(bids) && DistinctIds(asks) && Clears(bids, asks, p)
    ensures Surplus(Run(bids, asks, clock, k).trades, bids, asks) == Gain(true, bids, p) + Gain(false, asks, p)
    decreases |bids| + |asks|
  {
    if HasMatch(bids, asks) {
      var q := MatchQty(bids[0], asks[0]);
      var b, a := Fill(bids, q), Fill(asks, q);
      assert Ready(b, a) && DistinctIds(b) && DistinctIds(a) by {
        StepKeepsReady(bids, asks);
        FillKeeps(true, bids, q);
        FillKeeps(false, asks, q);
      }
      RunAttainsDual(b, a, clock, k + 1, p);
      SurplusStep(bids, asks, clock, k);
      DualStep(bids, asks, q, p);
    } else {
      NoGain(true, bids, p);
      NoGain(false, asks, p);
    }
  }

  /** The best bid strictly beats a best ask that the sentinel keeps from matching. */
  predicate StrictlyBlocked(bids: seq<Entry>, asks: seq<Entry>) {
    Blocked(bids, asks) && bids[0].price > asks[0].price
  }

  ghost predicate Optimal(trades: seq<Trade>, bids: seq<Entry>, asks: seq<Entry>) {
    && Feasible(trades, bids, asks)
    && forall other :: Feasible(other, bids, asks) ==> Surplus(other, bids, asks) <= Surplus(trades, bids, asks)
  }

  lemma RunIsFeasible(bids: seq<Entry>, asks: seq<Entry>, clock: nat -> int, k: nat)
    ensures Feasible(Run(bids, asks, clock, k).trades, bids, asks)
  {
    var trades := Run(bids, asks, clock, k).trades;
    forall id
      ensures Filled(trades, true, id) <= QtyOf(bids, id) && Filled(trades, false, id) <= QtyOf(asks, id)
    {
      Conservation(bids, asks, clock, k, id);
    }
  }

  /** One unit between the heads. */
  lemma UnitTrade(bids: seq<Entry>, asks: seq<Entry>) returns (t: Trade)
    requires bids != [] && asks != [] && bids[0].qty > 0 && asks[0].qty > 0
    ensures Feasible([t], bids, asks)
    ensures Surplus([t], bids, asks) == bids[0].price - asks[0].price
  {
    t := Trade(bids[0].id, asks[0].id, 1, 0, 0);
    assert [t][1..] == [];
    forall id
      ensures Filled([t], true, id) <= QtyOf(bids, id) && Filled([t], false, id) <= QtyOf(asks, id)
    {
      assert Filled([], true, id) == 0 && Filled([], false, id) == 0;
    }
    assert Surplus([], bids, asks) == 0;
  }

  /** A run makes the largest surplus of all allocations exactly when the sentinel keeps no strict cross apart. */
  lemma SurplusOptimality(bids: seq<Entry>, asks: seq<Entry>, clock: nat -> int, k: nat)
    requires Ready(bids, asks) && DistinctIds(bids) && DistinctIds(asks)
    ensures Optimal(Run(bids, asks, clock, k).trades, bids, asks) <==> !StrictlyBlocked(bids, asks)
  {
    var trades := Run(bids, asks, clock, k).trades;
    RunIsFeasible(bids, asks, clock, k);
    if StrictlyBlocked(bids, asks) {
      var t := UnitTrade(bids, asks);
      assert Surplus(trades, bids, asks) == 0;
    } else {
      var last := if asks != [] && (bids == [] || asks[0].price <= bids[0].price) then asks[0].price
                  else if bids != [] then bids[0].price else 0;
      var bound := if bids != [] && bids[0].price > last then bids[0].price else last;
      ClearingPriceClears(bids, asks, last, bound);
      var p := ClearingPrice(bids, asks, last);
      RunAttainsDual(bids, asks, clock, k, p);
      forall other | Feasible(other, bids, asks)
        ensures Surplus(other, bids, asks) <= Surplus(trades, bids, asks)
      {
        WeakDuality(other, bids, asks, p);
      }
    }
  }
}
