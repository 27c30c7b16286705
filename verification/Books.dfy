// The order book as two priority lists, its operations, and what every run of them keeps.

module Books {
  import opened Orders
  import opened Lists
  import opened Merge

  datatype Book = Book(bids: seq<Entry>, asks: seq<Entry>)
  {
    function Side(buy: bool): seq<Entry> {
      if buy then bids else asks
    }

    function With(buy: bool, l: seq<Entry>): Book {
      if buy then Book(l, asks) else Book(bids, l)
    }

    predicate Holds(id: int) {
      HasId(bids, id) || HasId(asks, id)
    }
  }

  const EMPTY: Book := Book([], [])

  /** How many leading entries stand at a price at least as good as `price`. */
  function Slot(buy: bool, l: seq<Entry>, price: int): (s: nat)
    ensures s <= |l|
    ensures forall j :: 0 <= j < s ==> Ahead(buy, l[j].price, price)
    ensures s < |l| ==> !Ahead(buy, l[s].price, price)
  {
    if l == [] || !Ahead(buy, l[0].price, price) then 0 else 1 + Slot(buy, l[1..], price)
  }

  /** Queues `e` behind everything at its price or better. */
  function Insert(l: seq<Entry>, e: Entry): seq<Entry> {
    var s := Slot(e.buy, l, e.price);
    l[..s] + [e] + l[s..]
  }

  /** Position of the first entry with this id, or the length of the list. */
  function IndexOf(l: seq<Entry>, id: int): (i: nat)
    ensures i <= |l|
    ensures forall j :: 0 <= j < i ==> l[j].id != id
    ensures i < |l| ==> l[i].id == id
    ensures i < |l| <==> HasId(l, id)
  {
    if l == [] || l[0].id == id then 0
    else
      var i := IndexOf(l[1..], id);
      assert i < |l| - 1 ==> l[i + 1].id == id;
      assert forall j :: 1 <= j < |l| ==> l[j] == l[1..][j - 1];
      i + 1
  }

  function Remove(l: seq<Entry>, id: int): seq<Entry> {
    var i := IndexOf(l, id);
    if i < |l| then l[..i] + l[i + 1..] else l
  }

  /** Only an order without a timestamp is stamped on entry. */
  function Stamped(e: Entry, now: int): Entry {
    if e.ts == 0 then e.(ts := now) else e
  }

  function Place(b: Book, e: Entry): Book {
    b.With(e.buy, Insert(b.Side(e.buy), e))
  }

  function Add(b: Book, e: Entry, now: int): Book {
    if e.qty == 0 then b else Place(b, Stamped(e, now))
  }

  function Cancel(b: Book, id: int): Book {
    if HasId(b.bids, id) then b.With(true, Remove(b.bids, id))
    else b.With(false, Remove(b.asks, id))
  }

  function Find(b: Book, id: int): Entry
    requires b.Holds(id)
  {
    if HasId(b.bids, id) then b.bids[IndexOf(b.bids, id)] else b.asks[IndexOf(b.asks, id)]
  }

  /** The entry with which a modification goes back into the book. */
  function Amended(b: Book, id: int, price: int, qty: nat, now: int): Entry
    requires b.Holds(id)
  {
    Find(b, id).(price := price, qty := qty, ts := now)
  }

  /** Cancel and re-enter: the order loses its place even when nothing changes. */
  function Modify(b: Book, id: int, price: int, qty: nat, now: int, again: int): Book {
    if b.Holds(id) then Add(Cancel(b, id), Amended(b, id, price, qty, now), again) else b
  }

  lemma ModifyCases(b: Book, id: int, price: int, qty: nat, now: int, again: int)
    ensures !b.Holds(id) ==> Modify(b, id, price, qty, now, again) == b
    ensures b.Holds(id) ==>
              Modify(b, id, price, qty, now, again)
              == Add(Cancel(b, id), Find(b, id).(price := price, qty := qty, ts := now), again)
  {
  }

  function Match(b: Book, clock: nat -> int): Book {
    var out := Run(b.bids, b.asks, clock, 0);
    Book(out.bids, out.asks)
  }

  function TradesOf(b: Book, clock: nat -> int): seq<Trade> {
    Run(b.bids, b.asks, clock, 0).trades
  }

  ghost predicate Disjoint(bids: seq<Entry>, asks: seq<Entry>) {
    forall id :: !(HasId(bids, id) && HasId(asks, id))
  }

  /** What the book keeps between operations. */
  ghost predicate WellFormed(b: Book) {
    && Ready(b.bids, b.asks)
    && OnSide(true, b.bids) && OnSide(false, b.asks)
    && DistinctIds(b.bids) && DistinctIds(b.asks)
    && Disjoint(b.bids, b.asks)
  }

  // Insertion and removal.

  lemma InsertAt(l: seq<Entry>, e: Entry)
    ensures var s, m := Slot(e.buy, l, e.price), Insert(l, e);
            && |m| == |l| + 1
            && forall j {:trigger m[j]} :: 0 <= j < |m| ==>
                 m[j] == if j < s then l[j] else if j == s then e else l[j - 1]
  {
  }

  lemma InsertSorted(l: seq<Entry>, e: Entry)
    requires Sorted(e.buy, l)
    ensures Sorted(e.buy, Insert(l, e))
  {
    var s, m := Slot(e.buy, l, e.price), Insert(l, e);
    InsertAt(l, e);
    forall i, j | 0 <= i < j < |m|
      ensures Ahead(e.buy, m[i].price, m[j].price)
    {
      assert i < s < j ==> Ahead(e.buy, l[i].price, l[j - 1].price);
      assert i == s && s < j - 1 ==> Ahead(e.buy, l[s].price, l[j - 1].price);
    }
  }

  lemma InsertHolds(l: seq<Entry>, e: Entry, x: Entry)
    ensures x in Insert(l, e) ==> x == e || x in l
  {
    var s := Slot(e.buy, l, e.price);
    assert l == l[..s] + l[s..];
  }

  lemma DistinctAround(l: seq<Entry>, e: Entry, s: nat, m: seq<Entry>)
    requires DistinctIds(l) && !HasId(l, e.id)
    requires s <= |l| && |m| == |l| + 1
    requires forall j {:trigger m[j]} :: 0 <= j < |m| ==> m[j] == if j < s then l[j] else if j == s then e else l[j - 1]
    ensures DistinctIds(m)
  {
    forall i, j | 0 <= i < j < |m|
      ensures m[i].id != m[j].id
    {
      if i == s {
        assert m[j] == l[j - 1];
      } else if j == s {
        assert m[i] == l[i];
      } else {
        var i', j' := if i < s then i else i - 1, if j < s then j else j - 1;
        assert m[i] == l[i'] && m[j] == l[j'] && l[i'].id != l[j'].id;
      }
    }
  }

  lemma InsertKeepsDistinct(l: seq<Entry>, e: Entry)
    requires DistinctIds(l) && !HasId(l, e.id)
    ensures DistinctIds(Insert(l, e))
  {
    hide Insert, DistinctIds, HasId;
    InsertAt(l, e);
    DistinctAround(l, e, Slot(e.buy, l, e.price), Insert(l, e));
  }

  lemma InsertKeeps(l: seq<Entry>, e: Entry)
    requires Sorted(e.buy, l)
    ensures Sorted(e.buy, Insert(l, e))
    ensures Positive(l) && e.qty > 0 ==> Positive(Insert(l, e))
    ensures OnSide(e.buy, l) ==> OnSide(e.buy, Insert(l, e))
    ensures DistinctIds(l) && !HasId(l, e.id) ==> DistinctIds(Insert(l, e))
  {
    hide Insert, Sorted, DistinctIds, HasId;
    InsertSorted(l, e);
    if DistinctIds(l) && !HasId(l, e.id) {
      InsertKeepsDistinct(l, e);
    }
    var m := Insert(l, e);
    forall i | 0 <= i < |m|
      ensures m[i] == e || m[i] in l
    {
      InsertHolds(l, e, m[i]);
    }
  }

  lemma InsertIds(l: seq<Entry>, e: Entry, id: int)
    ensures HasId(Insert(l, e), id) <==> id == e.id || HasId(l, id)
  {
    var s, m := Slot(e.buy, l, e.price), Insert(l, e);
    assert m[s] == e;
    if HasId(l, id) {
      var i :| 0 <= i < |l| && l[i].id == id;
      assert m[if i < s then i else i + 1] == l[i];
    }
    if HasId(m, id) && id != e.id {
      var i :| 0 <= i < |m| && m[i].id == id;
      assert l[if i < s then i else i - 1] == m[i];
    }
  }

  lemma RemoveKeeps(buy: bool, l: seq<Entry>, id: int)
    ensures Sorted(buy, l) ==> Sorted(buy, Remove(l, id))
    ensures Positive(l) ==> Positive(Remove(l, id))
    ensures OnSide(buy, l) ==> OnSide(buy, Remove(l, id))
    ensures DistinctIds(l) ==> DistinctIds(Remove(l, id)) && !HasId(Remove(l, id), id)
  {
    var i, m := IndexOf(l, id), Remove(l, id);
    assert i < |l| ==> forall j :: 0 <= j < |m| ==> m[j] == l[if j < i then j else j + 1];
  }

  lemma RemoveIds(l: seq<Entry>, gone: int, id: int)
    ensures HasId(Remove(l, gone), id) ==> HasId(l, id)
    ensures HasId(l, id) && id != gone ==> HasId(Remove(l, gone), id)
  {
    var i, m := IndexOf(l, gone), Remove(l, gone);
    if HasId(m, id) && i < |l| {
      var j :| 0 <= j < |m| && m[j].id == id;
      assert l[if j < i then j else j + 1] == m[j];
    }
    if HasId(l, id) && id != gone && i < |l| {
      var j :| 0 <= j < |l| && l[j].id == id;
      assert m[if j < i then j else j - 1] == l[j];
    }
  }

  // Every operation keeps the book well formed.

  lemma PlaceKeeps(b: Book, e: Entry)
    requires WellFormed(b) && e.qty > 0 && !b.Holds(e.id)
    ensures WellFormed(Place(b, e))
  {
    InsertKeeps(b.Side(e.buy), e);
    forall id
      ensures !(HasId(Place(b, e).bids, id) && HasId(Place(b, e).asks, id))
    {
      assert !(HasId(b.bids, id) && HasId(b.asks, id));
      InsertIds(b.Side(e.buy), e, id);
    }
  }

  lemma CancelKeeps(b: Book, id: int)
    requires WellFormed(b)
    ensures WellFormed(Cancel(b, id))
    ensures !Cancel(b, id).Holds(id)
    ensures forall other :: other != id ==> (Cancel(b, id).Holds(other) <==> b.Holds(other))
  {
    RemoveKeeps(true, b.bids, id);
    RemoveKeeps(false, b.asks, id);
    assert !(HasId(b.bids, id) && HasId(b.asks, id));
    forall other
      ensures !(HasId(Cancel(b, id).bids, other) && HasId(Cancel(b, id).asks, other))
      ensures other != id ==> (Cancel(b, id).Holds(other) <==> b.Holds(other))
    {
      assert !(HasId(b.bids, other) && HasId(b.asks, other));
      RemoveIds(b.bids, id, other);
      RemoveIds(b.asks, id, other);
    }
  }

  lemma {:induction false} RunKeepsSides(bids: seq<Entry>, asks: seq<Entry>, clock: nat -> int, k: nat)
    requires DistinctIds(bids) && DistinctIds(asks)
    ensures var out := Run(bids, asks, clock, k);
            && DistinctIds(out.bids) && DistinctIds(out.asks)
            && (OnSide(true, bids) ==> OnSide(true, out.bids))
            && (OnSide(false, asks) ==> OnSide(false, out.asks))
            && (forall id :: HasId(out.bids, id) ==> HasId(bids, id))
            && (forall id :: HasId(out.asks, id) ==> HasId(asks, id))
    decreases |bids| + |asks|
  {
    if HasMatch(bids, asks) {
      var q := MatchQty(bids[0], asks[0]);
      var b, a := Fill(bids, q), Fill(asks, q);
      FillKeeps(true, bids, q);
      FillKeeps(false, asks, q);
      RunKeepsSides(b, a, clock, k + 1);
      forall id
        ensures HasId(b, id) ==> HasId(bids, id)
        ensures HasId(a, id) ==> HasId(asks, id)
      {
        FillIds(bids, q, id);
        FillIds(asks, q, id);
      }
    }
  }

  lemma MatchKeeps(b: Book, clock: nat -> int)
    requires WellFormed(b)
    ensures WellFormed(Match(b, clock))
    ensures forall id :: Match(b, clock).Holds(id) ==> b.Holds(id)
  {
    RunKeepsReady(b.bids, b.asks, clock, 0);
    RunKeepsSides(b.bids, b.asks, clock, 0);
  }

  // Runs of operations.

  datatype Op =
    | OpAdd(e: Entry, now: int)
    | OpCancel(id: int)
    | OpModify(id: int, price: int, qty: nat, now: int, again: int)
    | OpMatch(clock: nat -> int)

  function Apply(b: Book, op: Op): Book {
    match op
    case OpAdd(e, now) => Add(b, e, now)
    case OpCancel(id) => Cancel(b, id)
    case OpModify(id, price, qty, now, again) => Modify(b, id, price, qty, now, again)
    case OpMatch(clock) => Match(b, clock)
  }

  function ApplyAll(b: Book, ops: seq<Op>): Book
    decreases |ops|
  {
    if ops == [] then b else ApplyAll(Apply(b, ops[0]), ops[1..])
  }

  /** An addition brings an id that is not in the book. */
  predicate Fresh(b: Book, op: Op) {
    op.OpAdd? ==> !b.Holds(op.e.id)
  }

  predicate AllFresh(b: Book, ops: seq<Op>)
    decreases |ops|
  {
    ops == [] || (Fresh(b, ops[0]) && AllFresh(Apply(b, ops[0]), ops[1..]))
  }

  lemma ApplyKeeps(b: Book, op: Op)
    requires WellFormed(b) && Fresh(b, op)
    ensures WellFormed(Apply(b, op))
  {
    match op {
      case OpAdd(e, now) =>
        if e.qty > 0 {
          PlaceKeeps(b, Stamped(e, now));
        }
      case OpCancel(id) =>
        CancelKeeps(b, id);
      case OpModify(id, price, qty, now, again) =>
        if b.Holds(id) {
          CancelKeeps(b, id);
          if qty > 0 {
            PlaceKeeps(Cancel(b, id), Stamped(Amended(b, id, price, qty, now), again));
          }
        }
      case OpMatch(clock) =>
        MatchKeeps(b, clock);
    }
  }

  /** Over every run with fresh ids: both sides sorted and positive, every id at one place. */
  lemma {:induction false} RunsKeepWellFormed(b: Book, ops: seq<Op>)
    requires WellFormed(b) && AllFresh(b, ops)
    ensures WellFormed(ApplyAll(b, ops))
    decreases |ops|
  {
    if ops != [] {
      ApplyKeeps(b, ops[0]);
      RunsKeepWellFormed(Apply(b, ops[0]), ops[1..]);
    }
  }

  lemma RemoveUndoesInsert(l: seq<Entry>, e: Entry)
    requires !HasId(l, e.id)
    ensures Remove(Insert(l, e), e.id) == l
  {
    var s, m := Slot(e.buy, l, e.price), Insert(l, e);
    InsertAt(l, e);
    assert m[..s] == l[..s] && m[s + 1..] == l[s..];
    assert l[..s] + l[s..] == l;
    hide Slot, Insert;
    assert IndexOf(m, e.id) == s by {
      assert m[s].id == e.id;
      assert forall j :: 0 <= j < s ==> m[j] == l[j];
    }
  }

  /** Adding a fresh order and cancelling it at once gives the book back. */
  lemma CancelUndoesAdd(b: Book, e: Entry, now: int)
    requires WellFormed(b) && e.qty > 0 && !b.Holds(e.id)
    ensures Cancel(Add(b, e, now), e.id) == b
  {
    var x := Stamped(e, now);
    var l := b.Side(x.buy);
    InsertIds(l, x, x.id);
    RemoveUndoesInsert(l, x);
    hide Insert, Remove;
  }
}
