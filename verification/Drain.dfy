// The demonstration's shutdown: a done flag, and a consumer that loops until the flag is up and the queue is empty.

module Drain {
  import opened Masks
  import opened Spsc
  import opened SpscProgress

  /** Where the consumer is: at the flag, at the emptiness test, inside `pop`, or past the loop. */
  datatype Loop = AtFlag | AtEmpty | InPop | Left

  /** `sawDone`: the consumer has read the flag as true. `processed`: the items it has handled. */
  datatype Demo<T> = Demo(queue: State<T>, done: bool, sawDone: bool, loop: Loop, processed: seq<T>)

  ghost predicate Start<T>(d: Demo<T>) {
    Init(d.queue) && !d.done && !d.sawDone && d.loop.AtFlag? && d.processed == []
  }

  datatype Move<T> =
    | Produce(step: Step<T>)
    | SetDone
    | LoadFlag(value: bool)
    | CheckEmpty(entry: nat)
    | Consume(step: Step<T>)

  /**
   * A load of the flag may be late: false is possible after the store, until true has been read once. The
   * emptiness test may load any entry of the write index that is not older than what the consumer has seen.
   */
  ghost predicate Possible<T>(d: Demo<T>, m: Move<T>) {
    match m
    case Produce(a) => !d.done && ProducerStep(a) && !a.PSync? && Enabled(d.queue, a)
    case SetDone => !d.done && d.queue.producer.PIdle?
    case LoadFlag(value) => d.loop.AtFlag? && (value ==> d.done) && (d.sawDone ==> value)
    case CheckEmpty(entry) => d.loop.AtEmpty? && d.queue.readLog != [] && Enabled(d.queue, CSync(entry))
    case Consume(a) => d.loop.InPop? && PopStep(a) && Enabled(d.queue, a)
  }

  ghost function After<T>(d: Demo<T>, m: Move<T>): Demo<T>
    requires Possible(d, m)
  {
    match m
    case Produce(a) => d.(queue := Apply(d.queue, a))
    case SetDone => d.(done := true)
    case LoadFlag(value) =>
      // Reading true brings with it everything that was pushed before the store.
      if value then d.(queue := d.queue.(seenWrite := |d.queue.pushed|), sawDone := true, loop := AtEmpty)
      else d.(loop := InPop)
    case CheckEmpty(entry) =>
      var empty := d.queue.readLog[|d.queue.readLog| - 1] == d.queue.writeLog[entry];
      d.(queue := Apply(d.queue, CSync(entry)), loop := if empty then Left else InPop)
    case Consume(a) =>
      var q := Apply(d.queue, a);
      d.(queue := q,
         loop := if q.consumer.CIdle? then AtFlag else InPop,
         processed := if a.CPublish? then d.processed + [d.queue.consumer.item] else d.processed)
  }

  ghost predicate Possibles<T>(d: Demo<T>, moves: seq<Move<T>>)
    decreases |moves|
  {
    moves == [] || (Possible(d, moves[0]) && Possibles(After(d, moves[0]), moves[1..]))
  }

  ghost function AfterAll<T>(d: Demo<T>, moves: seq<Move<T>>): Demo<T>
    requires Possibles(d, moves)
    decreases |moves|
  {
    if moves == [] then d else AfterAll(After(d, moves[0]), moves[1..])
  }

  ghost predicate Safe<T>(d: Demo<T>) {
    && Inv(d.queue)
    && d.processed == d.queue.popped
    && (!d.loop.InPop? ==> d.queue.consumer.CIdle?)
    && (d.done ==> d.queue.producer.PIdle?)
    && (d.sawDone ==> d.done && d.queue.seenWrite == |d.queue.pushed|)
    && (d.loop.AtEmpty? ==> d.sawDone)
    && (d.sawDone && d.loop.InPop? ==> |d.queue.popped| < |d.queue.pushed|)
    && (d.loop.Left? ==> d.sawDone && |d.queue.popped| == |d.queue.pushed|)
  }

  lemma ProduceKeepsSafe<T>(d: Demo<T>, a: Step<T>)
    requires Safe(d) && Possible(d, Produce(a))
    ensures Safe(After(d, Produce(a)))
  {
    hide Inv;
    StepKeepsInv(d.queue, a);
  }

  lemma FlagKeepsSafe<T>(d: Demo<T>, value: bool)
    requires Safe(d) && Possible(d, LoadFlag(value))
    ensures Safe(After(d, LoadFlag(value)))
  {
    Shape(d.queue);
    hide Inv;
    if value {
      StepKeepsInv(d.queue, CSync(|d.queue.pushed|));
    }
  }

  lemma EmptyKeepsSafe<T>(d: Demo<T>, entry: nat)
    requires Safe(d) && Possible(d, CheckEmpty(entry))
    ensures Safe(After(d, CheckEmpty(entry)))
  {
    Shape(d.queue);
    EmptyForConsumer(d.queue, entry);
    hide Inv;
    StepKeepsInv(d.queue, CSync(entry));
  }

  lemma ConsumeKeepsSafe<T>(d: Demo<T>, a: Step<T>)
    requires Safe(d) && Possible(d, Consume(a))
    ensures Safe(After(d, Consume(a)))
  {
    Shape(d.queue);
    if a.CTest? {
      EmptyTest(d.queue);
    }
    hide Inv;
    StepKeepsInv(d.queue, a);
    Shape(Apply(d.queue, a));
  }

  lemma MoveKeepsSafe<T>(d: Demo<T>, m: Move<T>)
    requires Safe(d) && Possible(d, m)
    ensures Safe(After(d, m))
  {
    match m {
      case Produce(a) => ProduceKeepsSafe(d, a);
      case SetDone =>
      case LoadFlag(value) => FlagKeepsSafe(d, value);
      case CheckEmpty(entry) => EmptyKeepsSafe(d, entry);
      case Consume(a) => ConsumeKeepsSafe(d, a);
    }
  }

  lemma {:induction false} RunsKeepSafe<T>(d: Demo<T>, moves: seq<Move<T>>)
    requires Safe(d) && Possibles(d, moves)
    ensures Safe(AfterAll(d, moves))
    decreases |moves|
  {
    if moves != [] {
      MoveKeepsSafe(d, moves[0]);
      hide Safe;
      RunsKeepSafe(After(d, moves[0]), moves[1..]);
    }
  }

  /** Nothing is left behind: a consumer that has left the loop has handled every item, in order. */
  lemma LeavesNothing<T>(d: Demo<T>, moves: seq<Move<T>>)
    requires Start(d) && Possibles(d, moves)
    ensures var e := AfterAll(d, moves);
            && e.processed <= e.queue.pushed
            && (e.loop.Left? ==> e.done && e.processed == e.queue.pushed && e.queue.producer.PIdle?)
  {
    InitInv(d.queue);
    RunsKeepSafe(d, moves);
    var e := AfterAll(d, moves);
    assert e.queue.popped <= e.queue.pushed;
  }

  lemma Chain<T>(d: Demo<T>, m: Move<T>, rest: seq<Move<T>>)
    requires Safe(d) && Possible(d, m) && Possibles(After(d, m), rest)
    ensures Possibles(d, [m] + rest) && AfterAll(d, [m] + rest) == AfterAll(After(d, m), rest)
  {
    assert ([m] + rest)[1..] == rest;
  }

  /** A producer in the middle of a push whose item fits can finish it and raise the flag. */
  lemma {:induction false} FinishPush<T>(d: Demo<T>) returns (moves: seq<Move<T>>)
    requires Safe(d) && !d.done && Fits(d.queue)
    ensures forall i :: 0 <= i < |moves| ==> moves[i].Produce? || moves[i].SetDone?
    ensures Possibles(d, moves)
    ensures var e := AfterAll(d, moves);
            && e == d.(queue := e.queue, done := true) && e.queue.popped == d.queue.popped
            && e.queue.pushed == d.queue.pushed + if d.queue.producer.PIdle? then [] else [d.queue.producer.item]
    decreases StepsLeft(d.queue.producer)
  {
    if d.queue.producer.PIdle? {
      moves := [SetDone];
      Chain(d, SetDone, []);
    } else {
      var m := Produce(NextPush(d.queue));
      NextPushFits(d.queue);
      MoveKeepsSafe(d, m);
      hide Safe, Inv, NextPush, Fits, StepsLeft, State.Queue, Apply;
      var rest := FinishPush(After(d, m));
      Chain(d, m, rest);
      moves := [m] + rest;
    }
  }

  // Once the flag is up, the loop ends.

  /** The queue length, then how far the consumer is; a pop begun before the flag was seen may still find nothing. */
  ghost function Rank<T>(d: Demo<T>): int {
    var todo := 10 * (|d.queue.pushed| - |d.queue.popped|);
    match d.loop
    case Left => 0
    case AtFlag => todo + 9
    case AtEmpty => todo + 8
    case InPop => todo + (if d.sawDone then 2 else 10) + PopRank(d.queue.consumer)
  }

  /** How many loads of the flag still gave false. */
  function Late<T>(moves: seq<Move<T>>): nat {
    if moves == [] then 0 else (if moves[0] == LoadFlag(false) then 1 else 0) + Late(moves[1..])
  }

  lemma RankIsLength<T>(d: Demo<T>)
    requires Safe(d)
    ensures 0 <= Rank(d) <= 10 * (|d.queue.pushed| - |d.queue.popped|) + 15
  {
    Shape(d.queue);
  }

  lemma ConsumeLowersRank<T>(d: Demo<T>, a: Step<T>)
    requires Safe(d) && d.done && Possible(d, Consume(a))
    ensures After(d, Consume(a)).done && 0 <= Rank(After(d, Consume(a))) < Rank(d)
  {
    Shape(d.queue);
    hide Inv, Apply, Enabled, PopRank;
    PopAdvances(d.queue, a);
  }

  lemma MoveLowersRank<T>(d: Demo<T>, m: Move<T>)
    requires Safe(d) && d.done && Possible(d, m)
    ensures After(d, m).done && 0 <= Rank(After(d, m))
    ensures if m == LoadFlag(false) then Rank(After(d, m)) <= Rank(d) + 6 else Rank(After(d, m)) < Rank(d)
  {
    if m.Consume? {
      ConsumeLowersRank(d, m.step);
    } else {
      Shape(d.queue);
      hide Inv;
    }
  }

  /**
   * From the store of the flag on, wherever the consumer is and whatever its loads return, the moves still to come
   * are bounded by the measure and by the loads of the flag that come too early to see the store.
   */
  lemma {:induction false} LoopEnds<T>(d: Demo<T>, moves: seq<Move<T>>)
    requires Safe(d) && d.done && Possibles(d, moves)
    ensures |moves| <= Rank(d) + 7 * Late(moves)
    ensures |moves| <= 10 * (|d.queue.pushed| - |d.queue.popped|) + 15 + 7 * Late(moves)
    decreases |moves|
  {
    RankIsLength(d);
    if moves != [] {
      MoveLowersRank(d, moves[0]);
      MoveKeepsSafe(d, moves[0]);
      hide Safe, Possible, After, Rank;
      LoopEnds(After(d, moves[0]), moves[1..]);
    }
  }

  /** Under plain interleaving, where a load gives the current value, there are no such loads. */
  ghost predicate Current<T>(d: Demo<T>, moves: seq<Move<T>>)
    requires Possibles(d, moves)
    decreases |moves|
  {
    moves == [] || ((moves[0].LoadFlag? ==> moves[0].value == d.done) && Current(After(d, moves[0]), moves[1..]))
  }

  lemma {:induction false} CurrentIsNotLate<T>(d: Demo<T>, moves: seq<Move<T>>)
    requires Safe(d) && d.done && Possibles(d, moves) && Current(d, moves)
    ensures Late(moves) == 0
    decreases |moves|
  {
    if moves != [] {
      MoveLowersRank(d, moves[0]);
      MoveKeepsSafe(d, moves[0]);
      hide Safe, Rank;
      CurrentIsNotLate(After(d, moves[0]), moves[1..]);
    }
  }

  /** And the consumer is never stuck before it has left. */
  lemma LoopGoesOn<T>(d: Demo<T>) returns (m: Move<T>)
    requires Safe(d) && !d.loop.Left?
    ensures Possible(d, m) && !m.Produce? && !m.SetDone?
    ensures d.loop.AtFlag? ==> m == LoadFlag(d.sawDone)
    ensures d.loop.InPop? ==> m == Consume(NextPop(d.queue))
  {
    Shape(d.queue);
    NextPopEnabled(d.queue);
    match d.loop {
      case AtFlag => m := LoadFlag(d.sawDone);
      case AtEmpty => m := CheckEmpty(|d.queue.pushed|);
      case InPop => m := Consume(NextPop(d.queue));
    }
  }

  // What the consumer can do by itself.

  /** Some run of the consumer alone leads from the one state to the other. */
  ghost predicate ConsumerLeads<T(!new)>(d: Demo<T>, e: Demo<T>) {
    exists moves: seq<Move<T>> ::
      && Possibles(d, moves) && AfterAll(d, moves) == e
      && forall i :: 0 <= i < |moves| ==> !moves[i].Produce? && !moves[i].SetDone?
  }

  lemma ConsumerLeadsNowhere<T(!new)>(d: Demo<T>)
    ensures ConsumerLeads(d, d)
  {
    assert Possibles(d, []) && AfterAll(d, []) == d;
  }

  lemma ConsumerLeadsVia<T(!new)>(d: Demo<T>, m: Move<T>, e: Demo<T>)
    requires Possible(d, m) && !m.Produce? && !m.SetDone? && ConsumerLeads(After(d, m), e)
    ensures ConsumerLeads(d, e)
  {
    var rest: seq<Move<T>> :| && Possibles(After(d, m), rest) && AfterAll(After(d, m), rest) == e
                && forall i :: 0 <= i < |rest| ==> !rest[i].Produce? && !rest[i].SetDone?;
    var moves := [m] + rest;
    assert moves[0] == m && moves[1..] == rest;
    assert Possibles(d, moves) && AfterAll(d, moves) == e;
    assert forall i :: 1 <= i < |moves| ==> moves[i] == rest[i - 1];
  }

  /** How far the consumer is from having processed everything; a pop that is about to fail has to start over. */
  ghost function Behind<T>(d: Demo<T>): int {
    10 * (|d.queue.pushed| - |d.queue.popped|)
    + match d.loop
      case AtFlag => 9
      case AtEmpty => 8
      case InPop => 2 + PopBehind(d.queue)
      case Left => 0
  }

  lemma PopComesNearer<T>(d: Demo<T>)
    requires Safe(d) && d.loop.InPop? && |d.queue.popped| < |d.queue.pushed|
    requires Possible(d, Consume(NextPop(d.queue)))
    ensures 0 <= Behind(After(d, Consume(NextPop(d.queue)))) < Behind(d)
  {
    hide Inv, Apply, Enabled, NextPop, PopBehind;
    NextPopIs(d.queue);
    NextPopNearer(d.queue);
  }

  lemma ComesNearer<T>(d: Demo<T>, m: Move<T>)
    requires Safe(d) && Possible(d, m) && |d.queue.popped| < |d.queue.pushed|
    requires !m.Produce? && !m.SetDone?
    requires d.loop.AtFlag? ==> m == LoadFlag(d.sawDone)
    requires d.loop.InPop? ==> m == Consume(NextPop(d.queue))
    ensures 0 <= Behind(After(d, m)) < Behind(d)
    ensures After(d, m).done == d.done && After(d, m).queue.pushed == d.queue.pushed
  {
    Shape(d.queue);
    if m.Consume? {
      PopComesNearer(d);
    } else if m.CheckEmpty? {
      EmptyForConsumer(d.queue, m.entry);
    }
    hide Inv, NextPop;
  }

  /** Wherever it is, and whether the flag is up or not, the consumer alone can process everything that was pushed. */
  lemma {:induction false} ConsumerCatchesUp<T(!new)>(d: Demo<T>) returns (e: Demo<T>)
    requires Safe(d)
    ensures ConsumerLeads(d, e) && Safe(e) && e.done == d.done
    ensures e.processed == e.queue.pushed == d.queue.pushed
    decreases Behind(d)
  {
    Shape(d.queue);
    if |d.queue.popped| == |d.queue.pushed| {
      e := d;
      ConsumerLeadsNowhere(d);
      assert d.queue.popped <= d.queue.pushed;
    } else {
      var m := LoopGoesOn(d);
      ComesNearer(d, m);
      MoveKeepsSafe(d, m);
      hide Possible, After, Behind, ConsumerLeads;
      e := ConsumerCatchesUp(After(d, m));
      ConsumerLeadsVia(d, m, e);
    }
  }

  /** Once the flag is up, the consumer alone can leave the loop, with everything processed. */
  lemma {:induction false} LoopCompletes<T(!new)>(d: Demo<T>) returns (e: Demo<T>)
    requires Safe(d) && d.done
    ensures ConsumerLeads(d, e) && e.loop.Left? && e.processed == e.queue.pushed == d.queue.pushed
    decreases Rank(d)
  {
    if d.loop.Left? {
      e := d;
      ConsumerLeadsNowhere(d);
      assert d.queue.popped <= d.queue.pushed;
    } else {
      var m := LoadFlag(true);
      if !d.loop.AtFlag? {
        m := LoopGoesOn(d);
      }
      MoveLowersRank(d, m);
      MoveKeepsSafe(d, m);
      assert After(d, m).queue.pushed == d.queue.pushed;
      hide Possible, After, Rank, ConsumerLeads;
      e := LoopCompletes(After(d, m));
      ConsumerLeadsVia(d, m, e);
    }
  }
}
