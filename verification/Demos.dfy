// The loops of the queue demonstration, each run by one thread that is alone with the queue.

module Demos {
  import opened SpscQueues

  /** How many of `n` pushes find room. */
  function Accepted(n: nat, waiting: nat, size: nat): nat {
    if waiting + n < size then n else if waiting < size then size - 1 - waiting else 0
  }

  ghost predicate Holds<T>(now: seq<T>, before: seq<T>, items: seq<T>, k: nat) {
    k <= |items| && now == before + items[..k]
  }

  lemma HoldsMore<T>(now: seq<T>, next: seq<T>, before: seq<T>, items: seq<T>, i: nat, size: nat)
    requires |before| < size && i < |items|
    requires Holds(now, before, items, Accepted(i, |before|, size))
    requires next == if |now| < size - 1 then now + [items[i]] else now
    ensures Holds(next, before, items, Accepted(i + 1, |before|, size))
  {
    var k := Accepted(i, |before|, size);
    assert |now| == |before| + k;
    if |now| < size - 1 {
      assert items[..k + 1] == items[..k] + [items[k]];
      assert before + items[..k] + [items[k]] == before + items[..k + 1];
    }
  }

  /** The producer's loop: the items that find room are queued in order, and the others dropped. */
  method Produce<T(0)>(queue: SpscQueue<T>, items: seq<T>)
    requires queue.Valid()
    modifies queue, queue.buffer
    ensures queue.Valid()
    ensures var before, now := old(queue.Contents()), queue.Contents();
            && |now| == (if |before| + |items| < queue.size then |before| + |items| else queue.size - 1)
            && 0 <= |now| - |before| <= |items|
            && now == before + items[..|now| - |before|]
  {
    hide SpscQueue.Valid, SpscQueue.Contents, Holds, Accepted;
    ghost var before := queue.Contents();
    queue.Room();
    HoldsNone(before, items, queue.size);
    for i := 0 to |items|
      invariant queue.Valid()
      invariant Holds(queue.Contents(), before, items, Accepted(i, |before|, queue.size))
    {
      ghost var now := queue.Contents();
      var _ := queue.Push(items[i]);
      HoldsMore(now, queue.Contents(), before, items, i, queue.size);
    }
    HoldsAll(queue.Contents(), before, items, queue.size);
  }

  lemma HoldsAll<T>(now: seq<T>, before: seq<T>, items: seq<T>, size: nat)
    requires |before| < size && Holds(now, before, items, Accepted(|items|, |before|, size))
    ensures |now| == (if |before| + |items| < size then |before| + |items| else size - 1)
    ensures 0 <= |now| - |before| <= |items| && now == before + items[..|now| - |before|]
  {
  }

  lemma HoldsNone<T>(before: seq<T>, items: seq<T>, size: nat)
    requires |before| < size
    ensures Holds(before, before, items, Accepted(0, |before|, size))
  {
    assert before + items[..0] == before;
  }

  /** The consumer's loop once the producer is done: `handled` are the items in the order of their processing. */
  method Consume<T(0)>(queue: SpscQueue<T>, blank: T) returns (handled: seq<T>, processed: nat)
    requires queue.Valid()
    modifies queue
    ensures queue.Valid() && queue.Contents() == []
    ensures handled == old(queue.Contents()) && processed == |handled|
  {
    hide SpscQueue.Valid, SpscQueue.Contents, Split;
    handled, processed := [], 0;
    SplitStarts(handled, queue.Contents());
    ghost var all := handled + queue.Contents();
    var empty := queue.Empty();
    while !empty
      invariant queue.Valid() && (empty <==> queue.Contents() == []) && processed == |handled|
      invariant Split(all, handled, queue.Contents())
      decreases |queue.Contents()|
    {
      var more, item := queue.Pop(blank);
      if more {
        SplitMoves(all, handled, item, queue.Contents());
        handled := handled + [item];
        processed := processed + 1;
      }
      empty := queue.Empty();
    }
    SplitEnds(all, handled);
    assert [] + old(queue.Contents()) == old(queue.Contents());
  }
}
