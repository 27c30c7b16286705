// What each operation does to the book, told without the operations.

module Effects {
  import opened Orders
  import opened Lists
  import opened Merge
  import opened Books

  /** The entries that do not carry this id, in their order. */
  function Others(l: seq<Entry>, id: int): (m: seq<Entry>)
    ensures forall x :: x in m <==> x in l && x.id != id
    ensures !HasId(l, id) ==> m == l
  {
    if l == [] then []
    else
      assert forall x :: x in l <==> x == l[0] || x in l[1..];
      assert HasId(l[1..], id) ==> HasId(l, id) by {
        if HasId(l[1..], id) {
          var i :| 0 <= i < |l| - 1 && l[1..][i].id == id;
          assert l[i + 1].id == id;
        }
      }
      (if l[0].id == id then [] else [l[0]]) + Others(l[1..], id)
  }

  /** `p` is at least as good as `q`: higher for a buy, lower for a sell. */
  predicate AsGood(buy: bool, p: int, q: int) {
    if buy then p >= q else p <= q
  }

  /** `m` is `l` with `x` queued in: behind everything at its price or a better one, in front of everything worse. */
  ghost predicate QueuedIn(l: seq<Entry>, m: seq<Entry>, x: Entry) {
    exists s: nat ::
      && s <= |l| && m == l[..s] + [x] + l[s..]
      && (forall j :: 0 <= j < s ==> AsGood(x.buy, l[j].price, x.price))
      && (forall j :: s <= j < |l| ==> !AsGood(x.buy, l[j].price, x.price))
  }

  lemma InsertQueues(l: seq<Entry>, x: Entry)
    requires Sorted(x.buy, l)
    ensures QueuedIn(l, Insert(l, x), x)
  {
    var s := Slot(x.buy, l, x.price);
    assert forall j :: s <= j < |l| ==> j == s || Ahead(x.buy, l[s].price, l[j].price);
  }

  lemma SortedAround(l: seq<Entry>, m: seq<Entry>, x: Entry, s: nat)
    requires Sorted(x.buy, l) && s <= |l| && |m| == |l| + 1
    requires forall j :: 0 <= j < s ==> AsGood(x.buy, l[j].price, x.price)
    requires forall j :: s <= j < |l| ==> !AsGood(x.buy, l[j].price, x.price)
    requires forall j {:trigger m[j]} :: 0 <= j < |m| ==> m[j] == if j < s then l[j] else if j == s then x else l[j - 1]
    ensures Sorted(x.buy, m)
  {
    forall i, j | 0 <= i < j < |m|
      ensures Ahead(x.buy, m[i].price, m[j].price)
    {
      if i == s {
        assert m[j] == l[j - 1];
      } else if j == s {
        assert m[i] == l[i];
      } else {
        var i', j' := if i < s then i else i - 1, if j < s then j else j - 1;
        assert m[i] == l[i'] && m[j] == l[j'];
      }
    }
  }

  lemma QueuedStaysSorted(l: seq<Entry>, m: seq<Entry>, x: Entry)
    requires Sorted(x.buy, l) && QueuedIn(l, m, x)
    ensures Sorted(x.buy, m)
  {
    hide Sorted;
    var s: nat :| && s <= |l| && m == l[..s] + [x] + l[s..]
                  && (forall j :: 0 <= j < s ==> AsGood(x.buy, l[j].price, x.price))
                  && (forall j :: s <= j < |l| ==> !AsGood(x.buy, l[j].price, x.price));
    SortedAround(l, m, x, s);
  }

  /** A new order enters at the end of its price with its own terms, and with `now` when it has no timestamp. */
  lemma AddEffect(b: Book, e: Entry, now: int)
    requires WellFormed(b) && !b.Holds(e.id)
    ensures var c := Apply(b, OpAdd(e, now));
            if e.qty == 0 then c == b
            else
              && c.Side(!e.buy) == b.Side(!e.buy)
              && QueuedIn(b.Side(e.buy), c.Side(e.buy),
                          Entry(e.id, e.buy, e.price, e.qty, if e.ts == 0 then now else e.ts))
  {
    if e.qty > 0 {
      InsertQueues(b.Side(e.buy), Stamped(e, now));
    }
  }

  lemma TailDistinct(l: seq<Entry>)
    requires l != [] && DistinctIds(l)
    ensures DistinctIds(l[1..]) && !HasId(l[1..], l[0].id)
  {
    var t := l[1..];
    assert forall i :: 0 <= i < |t| ==> t[i] == l[i + 1];
  }

  lemma IndexInTail(l: seq<Entry>, id: int)
    requires l != [] && l[0].id != id
    ensures IndexOf(l, id) == IndexOf(l[1..], id) + 1
  {
  }

  lemma RemoveFromTail(l: seq<Entry>, id: int)
    requires l != [] && l[0].id != id
    ensures Remove(l, id) == [l[0]] + Remove(l[1..], id)
  {
    hide IndexOf, HasId;
    IndexInTail(l, id);
    var j, t := IndexOf(l[1..], id), l[1..];
    if j < |t| {
      assert l[..j + 1] == [l[0]] + t[..j];
      assert l[j + 2..] == t[j + 1..];
    } else {
      assert l == [l[0]] + t;
    }
  }

  lemma RemoveHead(l: seq<Entry>, id: int)
    requires l != [] && l[0].id == id
    ensures Remove(l, id) == l[1..]
  {
    assert IndexOf(l, id) == 0 && l[..0] + l[1..] == l[1..];
  }

  lemma {:induction false} RemoveIsOthers(l: seq<Entry>, id: int)
    requires DistinctIds(l)
    ensures Remove(l, id) == Others(l, id)
  {
    hide DistinctIds, HasId, Remove, IndexOf;
    if l == [] {
      RemoveNothing(id);
    } else {
      TailDistinct(l);
      if l[0].id == id {
        RemoveHead(l, id);
      } else {
        RemoveFromTail(l, id);
        RemoveIsOthers(l[1..], id);
      }
    }
  }

  lemma RemoveNothing(id: int)
    ensures Remove([], id) == []
  {
  }

  /** A cancellation takes out the order with the id, on whichever side it is, and nothing else. */
  lemma CancelEffect(b: Book, id: int)
    requires WellFormed(b)
    ensures var c := Apply(b, OpCancel(id)); c.bids == Others(b.bids, id) && c.asks == Others(b.asks, id)
  {
    RemoveIsOthers(b.bids, id);
    RemoveIsOthers(b.asks, id);
    assert !(HasId(b.bids, id) && HasId(b.asks, id));
  }

  lemma FindIs(b: Book, x: Entry)
    requires WellFormed(b) && x in b.Side(x.buy)
    ensures b.Holds(x.id) && Find(b, x.id) == x
  {
    var l := b.Side(x.buy);
    var i :| 0 <= i < |l| && l[i] == x;
    assert HasId(l, x.id);
    assert !(HasId(b.bids, x.id) && HasId(b.asks, x.id));
    var j := IndexOf(l, x.id);
    assert j == i;
  }

  lemma OthersSorted(buy: bool, l: seq<Entry>, id: int)
    requires DistinctIds(l) && Sorted(buy, l)
    ensures Sorted(buy, Others(l, id))
  {
    RemoveIsOthers(l, id);
    RemoveKeeps(buy, l, id);
  }

  /**
   * A modification of a resting order takes it out and queues it anew, on its side, with the new terms; with quantity
   * 0 it stays out.
   */
  lemma ModifyEffect(b: Book, x: Entry, price: int, qty: nat, now: int, again: int)
    requires WellFormed(b) && x in b.Side(x.buy)
    ensures var c := Apply(b, OpModify(x.id, price, qty, now, again));
            && c.Side(!x.buy) == b.Side(!x.buy)
            && if qty == 0 then c.Side(x.buy) == Others(b.Side(x.buy), x.id)
               else QueuedIn(Others(b.Side(x.buy), x.id), c.Side(x.buy),
                             Entry(x.id, x.buy, price, qty, if now == 0 then again else now))
  {
    FindIs(b, x);
    CancelEffect(b, x.id);
    OthersSorted(x.buy, b.Side(x.buy), x.id);
    assert !HasId(b.Side(!x.buy), x.id) by {
      var i :| 0 <= i < |b.Side(x.buy)| && b.Side(x.buy)[i] == x;
      assert HasId(b.Side(x.buy), x.id);
      assert !(HasId(b.bids, x.id) && HasId(b.asks, x.id));
    }
    if qty > 0 {
      InsertQueues(Others(b.Side(x.buy), x.id), Stamped(Amended(b, x.id, price, qty, now), again));
    }
  }

  lemma ModifyOfNothing(b: Book, id: int, price: int, qty: nat, now: int, again: int)
    requires !HasId(b.bids, id) && !HasId(b.asks, id)
    ensures Apply(b, OpModify(id, price, qty, now, again)) == b
  {
  }

  /** A match takes from each order what its trades say, until the best prices no longer cross above 0. */
  lemma MatchEffect(b: Book, clock: nat -> int, id: int)
    requires WellFormed(b)
    ensures var c, trades := Apply(b, OpMatch(clock)), TradesOf(b, clock);
            && QtyOf(b.bids, id) == QtyOf(c.bids, id) + Filled(trades, true, id)
            && QtyOf(b.asks, id) == QtyOf(c.asks, id) + Filled(trades, false, id)
            && !(c.bids != [] && c.asks != [] && c.bids[0].price > 0 && c.asks[0].price > 0
                 && c.bids[0].price >= c.asks[0].price)
  {
    Conservation(b.bids, b.asks, clock, 0, id);
    RunKeepsReady(b.bids, b.asks, clock, 0);
  }

  /** A script is its operations one after the other. */
  lemma {:induction false} ScriptOnScript(b: Book, first: seq<Op>, second: seq<Op>)
    ensures ApplyAll(b, first + second) == ApplyAll(ApplyAll(b, first), second)
    decreases |first|
  {
    if first == [] {
      assert first + second == second;
    } else {
      assert (first + second)[1..] == first[1..] + second;
      ScriptOnScript(Apply(b, first[0]), first[1..], second);
    }
  }

  lemma ScriptOfOne(b: Book, op: Op)
    ensures ApplyAll(b, []) == b && ApplyAll(b, [op]) == Apply(b, op)
  {
    assert [op][1..] == [];
    assert ApplyAll(Apply(b, op), []) == Apply(b, op);
  }
}
