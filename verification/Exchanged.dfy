// Why the drain loop reads the flag before it tests the queue: the loop with the two reads exchanged.

module Exchanged {
  import opened Masks
  import opened Spsc
  import opened SpscProgress
  import opened Drain

  /** `while (!empty() || !done)`; `shown` is the number of pushes that the last emptiness test saw. */
  datatype Swapped<T> = Swapped(demo: Demo<T>, shown: nat)

  ghost predicate Begins<T>(s: Swapped<T>) {
    Start(s.demo.(loop := AtFlag)) && s.demo.loop.AtEmpty? && s.shown == 0
  }

  /** The moves are those of the demonstration; where they lead is exchanged. */
  ghost function Then<T>(s: Swapped<T>, m: Move<T>): Swapped<T>
    requires Possible(s.demo, m)
  {
    var d := After(s.demo, m);
    match m
    case LoadFlag(value) => s.(demo := d.(loop := if value then Left else InPop))
    case CheckEmpty(entry) => Swapped(d.(loop := if d.loop.Left? then AtFlag else InPop), entry)
    case Consume(_) => s.(demo := d.(loop := if d.loop.AtFlag? then AtEmpty else d.loop))
    case _ => s.(demo := d)
  }

  ghost predicate Runs<T>(s: Swapped<T>, moves: seq<Move<T>>)
    decreases |moves|
  {
    moves == [] || (Possible(s.demo, moves[0]) && Runs(Then(s, moves[0]), moves[1..]))
  }

  ghost function ThenAll<T>(s: Swapped<T>, moves: seq<Move<T>>): Swapped<T>
    requires Runs(s, moves)
    decreases |moves|
  {
    if moves == [] then s else ThenAll(Then(s, moves[0]), moves[1..])
  }

  ghost predicate Kept<T>(s: Swapped<T>) {
    && Inv(s.demo.queue)
    && s.demo.processed == s.demo.queue.popped
    && (!s.demo.loop.InPop? ==> s.demo.queue.consumer.CIdle?)
    && (s.demo.loop.AtFlag? || s.demo.loop.Left? ==> |s.demo.queue.popped| == s.shown)
    && (s.demo.loop.Left? ==> s.demo.done)
  }

  lemma ReadKeeps<T>(s: Swapped<T>, m: Move<T>)
    requires Kept(s) && Possible(s.demo, m) && (m.LoadFlag? || m.CheckEmpty?)
    ensures Kept(Then(s, m))
  {
    hide Inv;
    Shape(s.demo.queue);
    if m.LoadFlag? {
      StepKeepsInv(s.demo.queue, CSync(|s.demo.queue.pushed|));
    } else {
      EmptyForConsumer(s.demo.queue, m.entry);
      StepKeepsInv(s.demo.queue, CSync(m.entry));
    }
  }

  lemma ThenKeeps<T>(s: Swapped<T>, m: Move<T>)
    requires Kept(s) && Possible(s.demo, m)
    ensures Kept(Then(s, m))
  {
    hide Inv;
    match m {
      case Produce(a) => StepKeepsInv(s.demo.queue, a);
      case SetDone =>
      case Consume(a) => StepKeepsInv(s.demo.queue, a);
      case _ => ReadKeeps(s, m);
    }
  }

  lemma {:induction false} RunsKeep<T>(s: Swapped<T>, moves: seq<Move<T>>)
    requires Kept(s) && Runs(s, moves)
    ensures Kept(ThenAll(s, moves))
    decreases |moves|
  {
    if moves != [] {
      ThenKeeps(s, moves[0]);
      hide Kept;
      RunsKeep(Then(s, moves[0]), moves[1..]);
    }
  }

  /** The exchanged loop leaves with what its last emptiness test saw: with everything only if that saw every push. */
  lemma LeavesWhatWasShown<T>(s: Swapped<T>, moves: seq<Move<T>>)
    requires Begins(s) && Runs(s, moves)
    ensures var t := ThenAll(s, moves);
            t.demo.loop.Left? ==>
              && t.shown <= |t.demo.queue.pushed| && t.demo.processed == t.demo.queue.pushed[..t.shown]
              && (t.demo.processed == t.demo.queue.pushed <==> t.shown == |t.demo.queue.pushed|)
  {
    InitInv(s.demo.queue);
    RunsKeep(s, moves);
    var q := ThenAll(s, moves).demo.queue;
    assert q.popped <= q.pushed;
  }

  lemma RunsOn<T>(s: Swapped<T>, m: Move<T>, rest: seq<Move<T>>)
    requires Possible(s.demo, m) && Runs(Then(s, m), rest)
    ensures Runs(s, [m] + rest) && ThenAll(s, [m] + rest) == ThenAll(Then(s, m), rest)
  {
    assert ([m] + rest)[1..] == rest;
  }

  /** The producer does not notice which loop the consumer runs. */
  lemma {:induction false} ProducerThen<T>(s: Swapped<T>, moves: seq<Move<T>>, last: Move<T>)
    requires forall i :: 0 <= i < |moves| ==> moves[i].Produce? || moves[i].SetDone?
    requires Possibles(s.demo, moves) && Possible(AfterAll(s.demo, moves), last)
    ensures var t := s.(demo := AfterAll(s.demo, moves));
            Runs(s, moves + [last]) && ThenAll(s, moves + [last]) == Then(t, last)
    decreases |moves|
  {
    if moves == [] {
      assert moves + [last] == [last] + [];
      RunsOn(s, last, []);
    } else {
      assert moves + [last] == [moves[0]] + (moves[1..] + [last]);
      ProducerThen(Then(s, moves[0]), moves[1..], last);
      RunsOn(s, moves[0], moves[1..] + [last]);
    }
  }

  /** And it can miss one: an item that is pushed between the two reads stays behind. */
  lemma LeavesOneBehind<T>(s: Swapped<T>, item: T) returns (moves: seq<Move<T>>)
    requires Begins(s)
    ensures Runs(s, moves)
    ensures var t := ThenAll(s, moves).demo;
            t.loop.Left? && t.processed == [] && t.queue.pushed == [item]
  {
    InitInv(s.demo.queue);
    assert GoodSize(s.demo.queue.size);
    var s1 := Then(s, CheckEmpty(0));
    ThenKeeps(s, CheckEmpty(0));
    assert Safe(s1.demo) && s1.demo.loop.AtFlag?;
    var call := Produce(PCall(item));
    MoveKeepsSafe(s1.demo, call);
    var s2 := Then(s1, call);
    var push := FinishPush(s2.demo);
    ProducerThen(s2, push, LoadFlag(true));
    RunsOn(s1, call, push + [LoadFlag(true)]);
    RunsOn(s, CheckEmpty(0), [call] + (push + [LoadFlag(true)]));
    moves := [CheckEmpty(0)] + ([call] + (push + [LoadFlag(true)]));
  }
}
