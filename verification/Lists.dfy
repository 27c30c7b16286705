// One side of the book as a list of entries, best first.

module Lists {
  import opened Orders

  predicate Sorted(buy: bool, l: seq<Entry>) {
    forall i, j :: 0 <= i < j < |l| ==> Ahead(buy, l[i].price, l[j].price)
  }

  predicate Positive(l: seq<Entry>) {
    forall i :: 0 <= i < |l| ==> l[i].qty > 0
  }

  predicate DistinctIds(l: seq<Entry>) {
    forall i, j :: 0 <= i < j < |l| ==> l[i].id != l[j].id
  }

  predicate OnSide(buy: bool, l: seq<Entry>) {
    forall i :: 0 <= i < |l| ==> l[i].buy == buy
  }

  predicate HasId(l: seq<Entry>, id: int) {
    exists i :: 0 <= i < |l| && l[i].id == id
  }

  /** Total resting quantity. */
  function Total(l: seq<Entry>): nat {
    if l == [] then 0 else l[0].qty + Total(l[1..])
  }

  /** Resting quantity of the orders that carry this id; 0 when there is none. */
  function QtyOf(l: seq<Entry>, id: int): nat {
    if l == [] then 0 else (if l[0].id == id then l[0].qty else 0) + QtyOf(l[1..], id)
  }

  /** Quantity offered on this side at price `p` or better. */
  function Depth(buy: bool, l: seq<Entry>, p: int): nat {
    if l == [] then 0 else (if Ahead(buy, l[0].price, p) then l[0].qty else 0) + Depth(buy, l[1..], p)
  }

  /** Quantity that rests at exactly this price. */
  function QtyAt(l: seq<Entry>, p: int): nat {
    if l == [] then 0 else (if l[0].price == p then l[0].qty else 0) + QtyAt(l[1..], p)
  }

  /** Number of orders that rest at exactly this price. */
  function CountAt(l: seq<Entry>, p: int): nat {
    if l == [] then 0 else (if l[0].price == p then 1 else 0) + CountAt(l[1..], p)
  }

  lemma {:induction false} AtSplit(l: seq<Entry>, r: seq<Entry>, p: int)
    ensures QtyAt(l + r, p) == QtyAt(l, p) + QtyAt(r, p)
    ensures CountAt(l + r, p) == CountAt(l, p) + CountAt(r, p)
  {
    if l == [] {
      assert l + r == r;
    } else {
      AtSplit(l[1..], r, p);
      assert (l + r)[1..] == l[1..] + r;
    }
  }

  lemma {:induction false} NoneAt(l: seq<Entry>, p: int)
    requires forall i :: 0 <= i < |l| ==> l[i].price != p
    ensures QtyAt(l, p) == 0 && CountAt(l, p) == 0
  {
    if l != [] {
      NoneAt(l[1..], p);
    }
  }

  lemma {:induction false} AllAt(l: seq<Entry>, p: int)
    requires forall i :: 0 <= i < |l| ==> l[i].price == p
    ensures QtyAt(l, p) == Total(l) && CountAt(l, p) == |l|
  {
    if l != [] {
      AllAt(l[1..], p);
    }
  }

  /** The list after a fill of `q` at its head. */
  function Fill(l: seq<Entry>, q: nat): seq<Entry>
    requires l != [] && q <= l[0].qty
  {
    if l[0].qty == q then l[1..] else [l[0].(qty := l[0].qty - q)] + l[1..]
  }

  /** Takes `v` units off the front, filling orders one after the other. */
  function Consume(l: seq<Entry>, v: nat): seq<Entry> {
    if l == [] || v == 0 then l
    else if l[0].qty <= v then Consume(l[1..], v - l[0].qty)
    else [l[0].(qty := l[0].qty - v)] + l[1..]
  }

  lemma {:induction false} FillDepth(buy: bool, l: seq<Entry>, q: nat, p: int)
    requires l != [] && q <= l[0].qty
    ensures Depth(buy, l, p) == Depth(buy, Fill(l, q), p) + (if Ahead(buy, l[0].price, p) then q else 0)
  {
    if l[0].qty != q {
      assert Fill(l, q)[1..] == l[1..];
    }
  }

  lemma {:induction false} FillQty(l: seq<Entry>, q: nat, id: int)
    requires l != [] && q <= l[0].qty
    ensures QtyOf(l, id) == QtyOf(Fill(l, q), id) + (if l[0].id == id then q else 0)
    ensures Total(l) == Total(Fill(l, q)) + q
  {
    if l[0].qty != q {
      assert Fill(l, q)[1..] == l[1..];
    }
  }

  lemma FillKeepsSorted(buy: bool, l: seq<Entry>, q: nat)
    requires l != [] && q <= l[0].qty && Sorted(buy, l)
    ensures Sorted(buy, Fill(l, q))
  {
  }

  lemma FillKeepsIds(l: seq<Entry>, q: nat)
    requires l != [] && q <= l[0].qty && DistinctIds(l)
    ensures DistinctIds(Fill(l, q))
  {
  }

  lemma FillKeeps(buy: bool, l: seq<Entry>, q: nat)
    requires l != [] && q <= l[0].qty
    ensures Sorted(buy, l) ==> Sorted(buy, Fill(l, q))
    ensures Positive(l) ==> Positive(Fill(l, q))
    ensures DistinctIds(l) ==> DistinctIds(Fill(l, q))
    ensures OnSide(buy, l) ==> OnSide(buy, Fill(l, q))
  {
    hide Sorted, DistinctIds;
    if Sorted(buy, l) {
      FillKeepsSorted(buy, l, q);
    }
    if DistinctIds(l) {
      FillKeepsIds(l, q);
    }
  }

  lemma FillIds(l: seq<Entry>, q: nat, id: int)
    requires l != [] && q <= l[0].qty
    ensures HasId(Fill(l, q), id) ==> HasId(l, id)
  {
    if HasId(Fill(l, q), id) {
      var i :| 0 <= i < |Fill(l, q)| && Fill(l, q)[i].id == id;
      assert l[if l[0].qty == q then i + 1 else i].id == id;
    }
  }

  lemma {:induction false} ConsumeAfterFill(l: seq<Entry>, q: nat, v: nat)
    requires l != [] && 0 < q <= l[0].qty
    ensures Consume(Fill(l, q), v) == Consume(l, q + v)
  {
    if l[0].qty != q {
      assert Fill(l, q)[1..] == l[1..];
    }
  }

  lemma {:induction false} DepthUpTo(buy: bool, l: seq<Entry>, p: int)
    requires Sorted(buy, l)
    requires Depth(buy, l, p) > 0
    ensures l != [] && Ahead(buy, l[0].price, p)
  {
    if !Ahead(buy, l[0].price, p) {
      NoDepth(buy, l, p);
    }
  }

  lemma {:induction false} NoDepth(buy: bool, l: seq<Entry>, p: int)
    requires Sorted(buy, l)
    requires l != [] ==> !Ahead(buy, l[0].price, p)
    ensures Depth(buy, l, p) == 0
  {
    if |l| > 1 {
      assert Ahead(buy, l[0].price, l[1].price);
      NoDepth(buy, l[1..], p);
    }
  }

  lemma {:induction false} QtyOfAbsent(l: seq<Entry>, id: int)
    requires !HasId(l, id)
    ensures QtyOf(l, id) == 0
  {
    if l != [] {
      assert l[0].id != id;
      QtyOfAbsent(l[1..], id);
    }
  }

  lemma {:induction false} QtyOfPresent(l: seq<Entry>, i: nat)
    requires i < |l| && DistinctIds(l)
    ensures QtyOf(l, l[i].id) == l[i].qty
  {
    if i == 0 {
      assert !HasId(l[1..], l[0].id);
      QtyOfAbsent(l[1..], l[0].id);
    } else {
      QtyOfPresent(l[1..], i - 1);
    }
  }
}
