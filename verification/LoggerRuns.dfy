// The logger's lifecycle: a main thread that starts, logs and stops, and a worker thread that drains the queue.

module LoggerRuns {
  import opened Masks
  import opened Spsc
  import opened SpscProgress

  /** What `log_file_` holds: nothing (standard output), an open file, or a stream whose file did not open. */
  datatype Sink = Console | File | Dead

  /** The main thread: between calls, inside `start`, inside `log`, and inside `stop`. */
  datatype Main<T> =
    | Idle
    | Raising
    | Spawning
    | Logging
    | Joining
    | Flushing
    | Holding(item: T)
    | Closing

  /** The worker thread; `final` marks the flush after its loop. */
  datatype Worker<T> =
    | NoThread
    | AtFlag
    | AtEmpty
    | Popping(final: bool)
    | Writing(item: T, final: bool)
    | Exited

  /**
   * `written` are the messages handed to the sink and `delivered` those that the sink did not swallow.
   * The last four fields are history. `failed`: the latest `start` with a path could not open it, and no `stop` of a
   * running logger came after it. `mute`: the current session was started without a path while `failed` held.
   * `base` and `before`: how much was written, and what had been delivered, when the session began.
   */
  datatype Logger<T> = Logger(
    queue: State<T>,
    main: Main<T>,
    worker: Worker<T>,
    running: bool,
    sawStop: bool,
    sink: Sink,
    written: seq<T>,
    delivered: seq<T>,
    failed: bool,
    mute: bool,
    base: nat,
    before: seq<T>)
  {
    ghost predicate InSession() {
      running || (!main.Idle? && !main.Logging?)
    }

    /** Popped but not yet written. */
    function InHand(): seq<T> {
      if main.Holding? then [main.item] else if worker.Writing? then [worker.item] else []
    }

    function Write(item: T): Logger<T> {
      this.(written := written + [item], delivered := if sink.Dead? then delivered else delivered + [item])
    }
  }

  ghost predicate Init<T>(l: Logger<T>) {
    && Spsc.Init(l.queue) && l.main.Idle? && l.worker.NoThread? && !l.running && !l.sawStop
    && l.sink.Console? && l.written == [] && l.delivered == []
    && !l.failed && !l.mute && l.base == 0 && l.before == []
  }

  datatype Act<T> =
    | StartRefused
    | StartFails
    | StartPlain
    | StartFile
    | Raise
    | Spawn
    | LogIgnored
    | LogCall(item: T)
    | Push(step: Step<T>)
    | StopIgnored
    | Lower
    | Join
    | MainPop(step: Step<T>)
    | MainWrite
    | Close
    | LoadRunning(value: bool)
    | CheckEmpty(entry: nat)
    | WorkerPop(step: Step<T>)
    | WorkerWrite

  /** The worker may read the flag late: true is possible after it was lowered, until false has been read. */
  ghost predicate Possible<T>(l: Logger<T>, a: Act<T>) {
    match a
    case StartRefused => l.main.Idle? && l.running
    case StartFails => l.main.Idle? && !l.running
    case StartPlain => l.main.Idle? && !l.running
    case StartFile => l.main.Idle? && !l.running
    case Raise => l.main.Raising?
    case Spawn => l.main.Spawning?
    case LogIgnored => l.main.Idle? && !l.running
    case LogCall(item) => l.main.Idle? && l.running && Enabled(l.queue, PCall(item))
    case Push(s) => l.main.Logging? && ProducerStep(s) && !s.PSync? && !s.PCall? && Enabled(l.queue, s)
    case StopIgnored => l.main.Idle? && !l.running
    case Lower => l.main.Idle? && l.running
    case Join => l.main.Joining? && l.worker.Exited?
    case MainPop(s) => l.main.Flushing? && PopStep(s) && Enabled(l.queue, s)
    case MainWrite => l.main.Holding?
    case Close => l.main.Closing?
    case LoadRunning(value) => l.worker.AtFlag? && (!value ==> !l.running) && (l.sawStop ==> !value)
    case CheckEmpty(entry) => l.worker.AtEmpty? && l.queue.readLog != [] && Enabled(l.queue, CSync(entry))
    case WorkerPop(s) => l.worker.Popping? && PopStep(s) && Enabled(l.queue, s)
    case WorkerWrite => l.worker.Writing?
  }

  /** What is known to have been pushed once a thread has synchronized with the main thread. */
  function Synced<T>(q: State<T>): State<T> {
    q.(seenWrite := |q.pushed|)
  }

  ghost function After<T>(l: Logger<T>, a: Act<T>): Logger<T>
    requires Possible(l, a)
  {
    match a
    case StartFails => l.(sink := Dead, failed := true)
    case StartPlain => l.(main := Raising, mute := l.failed, base := |l.written|, before := l.delivered)
    case StartFile =>
      l.(main := Raising, sink := File, failed := false, mute := false, base := |l.written|, before := l.delivered)
    case Raise => l.(main := Spawning, running := true)
    case Spawn => l.(main := Idle, worker := AtFlag, sawStop := false, queue := Synced(l.queue))
    case LogCall(item) => l.(main := Logging, queue := Apply(l.queue, PCall(item)))
    case Push(s) =>
      var q := Apply(l.queue, s);
      l.(queue := q, main := if q.producer.PIdle? then Idle else Logging)
    case Lower => l.(main := Joining, running := false)
    case Join => l.(main := Flushing, worker := NoThread, queue := Synced(l.queue))
    case MainPop(s) =>
      var q := Apply(l.queue, s);
      l.(queue := q,
         main := if s.CPublish? then Holding(l.queue.consumer.item)
                 else if q.consumer.CIdle? then Closing else Flushing)
    case MainWrite => l.Write(l.main.item).(main := Flushing)
    case Close => l.(main := Idle, sink := Console, failed := false)
    case LoadRunning(value) =>
      if value then l.(worker := Popping(false))
      else l.(worker := AtEmpty, sawStop := true, queue := Synced(l.queue))
    case CheckEmpty(entry) =>
      var empty := l.queue.readLog[|l.queue.readLog| - 1] == l.queue.writeLog[entry];
      l.(queue := Apply(l.queue, CSync(entry)), worker := Popping(empty))
    case WorkerPop(s) =>
      var q := Apply(l.queue, s);
      l.(queue := q,
         worker := if s.CPublish? then Writing(l.queue.consumer.item, l.worker.final)
                   else if !q.consumer.CIdle? then l.worker
                   else if l.worker.final then Exited else AtFlag)
    case WorkerWrite =>
      l.Write(l.worker.item).(worker := if l.worker.final then Popping(true) else AtFlag)
    case _ => l
  }

  ghost predicate Possibles<T>(l: Logger<T>, acts: seq<Act<T>>)
    decreases |acts|
  {
    acts == [] || (Possible(l, acts[0]) && Possibles(After(l, acts[0]), acts[1..]))
  }

  ghost function AfterAll<T>(l: Logger<T>, acts: seq<Act<T>>): Logger<T>
    requires Possibles(l, acts)
    decreases |acts|
  {
    if acts == [] then l else AfterAll(After(l, acts[0]), acts[1..])
  }

  // The invariant, in three parts: who runs when, what the drain knows, and where the messages are.

  ghost predicate Roles<T>(l: Logger<T>) {
    && (l.main.Logging? || l.queue.producer.PIdle?)
    && (l.main.Logging? ==> l.running && !l.queue.producer.PIdle?)
    && (l.running ==> l.main.Idle? || l.main.Logging? || l.main.Spawning?)
    && (l.main.Spawning? ==> l.running)
    && (l.worker.NoThread? <==> (l.main.Idle? && !l.running) || l.main.Raising? || l.main.Spawning?
                                || l.main.Flushing? || l.main.Holding? || l.main.Closing?)
    && (l.queue.consumer.CIdle? || l.worker.Popping? || l.main.Flushing?)
  }

  ghost predicate Drained<T>(l: Logger<T>) {
    && (l.running && !l.worker.NoThread? ==> !l.sawStop)
    && (l.sawStop && !l.worker.NoThread? ==> l.queue.seenWrite == |l.queue.pushed|)
    && ((l.worker.AtEmpty? || l.worker.Exited?) ==> l.sawStop)
    && ((l.worker.Popping? || l.worker.Writing?) && l.worker.final ==> l.sawStop)
    && (l.worker.Exited? || (l.worker.NoThread? && !l.running) ==> |l.queue.popped| == |l.queue.pushed|)
    && (l.worker.Popping? && !l.worker.final && l.sawStop ==> |l.queue.popped| < |l.queue.pushed|)
    && (l.main.Flushing? ==> l.queue.seenWrite == |l.queue.pushed|)
    && !l.main.Holding?
  }

  ghost predicate Messages<T>(l: Logger<T>) {
    && l.written + l.InHand() == l.queue.popped
    && l.base <= |l.written|
    && l.delivered == l.before + (if l.mute then [] else l.written[l.base..])
    && (l.sink.Dead? <==> if l.InSession() then l.mute else l.failed)
  }

  ghost predicate Safe<T>(l: Logger<T>) {
    Inv(l.queue) && Roles(l) && Drained(l) && Messages(l)
  }

  // Every step keeps the invariant.

  lemma QueueStep<T>(q: State<T>, a: Step<T>)
    requires Inv(q) && Enabled(q, a)
    ensures Inv(Apply(q, a))
    ensures !a.CPublish? ==> Apply(q, a).popped == q.popped
    ensures a.CPublish? ==> Apply(q, a).popped == q.popped + [q.consumer.item]
  {
    StepKeepsInv(q, a);
  }

  lemma SyncKeepsInv<T>(q: State<T>)
    requires Inv(q) && q.consumer.CIdle?
    ensures Inv(Synced(q))
  {
    Shape(q);
    hide Inv;
    StepKeepsInv(q, CSync(|q.pushed|));
  }

  predicate Quiet<T>(a: Act<T>) {
    a.StartRefused? || a.StartFails? || a.StartPlain? || a.StartFile? || a.Raise? || a.LogIgnored?
    || a.StopIgnored? || a.Lower? || a.Close?
  }

  lemma QuietKeepsSafe<T>(l: Logger<T>, a: Act<T>)
    requires Safe(l) && Possible(l, a) && Quiet(a)
    ensures Safe(After(l, a))
  {
    hide Inv;
  }

  lemma SyncKeepsSafe<T>(l: Logger<T>, a: Act<T>)
    requires Safe(l) && Possible(l, a) && (a.Spawn? || a.Join? || a.LoadRunning?)
    ensures Safe(After(l, a))
  {
    hide Inv;
    SyncKeepsInv(l.queue);
  }

  lemma LogKeepsSafe<T>(l: Logger<T>, a: Act<T>)
    requires Safe(l) && Possible(l, a) && (a.LogCall? || a.Push?)
    ensures Safe(After(l, a))
  {
    hide Inv;
    QueueStep(l.queue, if a.LogCall? then PCall(a.item) else a.step);
  }

  lemma EmptyKeepsSafe<T>(l: Logger<T>, entry: nat)
    requires Safe(l) && Possible(l, CheckEmpty(entry))
    ensures Safe(After(l, CheckEmpty(entry)))
  {
    Shape(l.queue);
    EmptyForConsumer(l.queue, entry);
    hide Inv;
    QueueStep(l.queue, CSync(entry));
  }

  lemma WriteKeepsSafe<T>(l: Logger<T>)
    requires Safe(l) && Possible(l, WorkerWrite)
    ensures Safe(After(l, WorkerWrite))
  {
    hide Inv;
  }

  lemma MainPopKeepsSafe<T>(l: Logger<T>, a: Step<T>)
    requires Safe(l) && Possible(l, MainPop(a))
    ensures Safe(After(l, MainPop(a)))
  {
    Shape(l.queue);
    assert !a.CPublish?;
    hide Inv;
    QueueStep(l.queue, a);
    Shape(Apply(l.queue, a));
  }

  lemma WorkerTakes<T>(l: Logger<T>)
    requires Safe(l) && Possible(l, WorkerPop(CPublish))
    ensures Safe(After(l, WorkerPop(CPublish)))
  {
    Shape(l.queue);
    hide Inv;
    QueueStep(l.queue, CPublish);
    Shape(Apply(l.queue, CPublish));
  }

  lemma WorkerTests<T>(l: Logger<T>)
    requires Safe(l) && Possible(l, WorkerPop(CTest))
    ensures Safe(After(l, WorkerPop(CTest)))
  {
    Shape(l.queue);
    EmptyTest(l.queue);
    hide Inv;
    QueueStep(l.queue, CTest);
  }

  lemma WorkerGoesOn<T>(l: Logger<T>, a: Step<T>)
    requires Safe(l) && Possible(l, WorkerPop(a)) && !a.CPublish? && !a.CTest?
    ensures Safe(After(l, WorkerPop(a)))
  {
    hide Inv;
    QueueStep(l.queue, a);
    var q := Apply(l.queue, a);
    assert !q.consumer.CIdle? && q.seenWrite >= l.queue.seenWrite && q.pushed == l.queue.pushed;
    Shape(q);
  }

  lemma ActKeepsSafe<T>(l: Logger<T>, a: Act<T>)
    requires Safe(l) && Possible(l, a)
    ensures Safe(After(l, a))
  {
    match a {
      case Spawn => SyncKeepsSafe(l, a);
      case Join => SyncKeepsSafe(l, a);
      case LoadRunning(_) => SyncKeepsSafe(l, a);
      case LogCall(_) => LogKeepsSafe(l, a);
      case Push(_) => LogKeepsSafe(l, a);
      case CheckEmpty(entry) => EmptyKeepsSafe(l, entry);
      case WorkerWrite => WriteKeepsSafe(l);
      case MainWrite =>
      case MainPop(s) => MainPopKeepsSafe(l, s);
      case WorkerPop(s) =>
        if s.CPublish? {
          WorkerTakes(l);
        } else if s.CTest? {
          WorkerTests(l);
        } else {
          WorkerGoesOn(l, s);
        }
      case _ => QuietKeepsSafe(l, a);
    }
  }

  // Over every interleaving of every number of start, log and stop calls.

  lemma {:induction false} RunsKeepSafe<T>(l: Logger<T>, acts: seq<Act<T>>)
    requires Safe(l) && Possibles(l, acts)
    ensures Safe(AfterAll(l, acts))
    decreases |acts|
  {
    if acts != [] {
      ActKeepsSafe(l, acts[0]);
      hide Safe;
      RunsKeepSafe(After(l, acts[0]), acts[1..]);
    }
  }

  lemma InitSafe<T>(l: Logger<T>)
    requires Init(l)
    ensures Safe(l)
  {
    InitInv(l.queue);
  }

  predicate WorkerConsumes<T>(l: Logger<T>) {
    l.worker.AtEmpty? || l.worker.Popping? || l.worker.Writing?
  }

  predicate MainConsumes<T>(l: Logger<T>) {
    l.main.Flushing? || l.main.Holding?
  }

  /** The queue never has two consumers, and what `stop` flushes itself is nothing. */
  lemma OneConsumer<T>(l: Logger<T>, acts: seq<Act<T>>)
    requires Init(l) && Possibles(l, acts)
    ensures var t := AfterAll(l, acts);
            && !(WorkerConsumes(t) && MainConsumes(t))
            && (MainConsumes(t) ==> |t.queue.popped| == |t.queue.pushed|)
  {
    InitSafe(l);
    RunsKeepSafe(l, acts);
  }

  /**
   * At any time the written messages are a prefix of the accepted ones. When no session is on (so when `stop` has
   * returned) they are the same: each accepted message was written once, in order, and the queue is empty. What the
   * session delivered is everything it accepted, or nothing when it was mute.
   */
  lemma StopWritesAll<T>(l: Logger<T>, acts: seq<Act<T>>)
    requires Init(l) && Possibles(l, acts)
    ensures var t := AfterAll(l, acts);
            && t.written <= t.queue.pushed
            && (t.main.Idle? && !t.running ==>
                  && t.written == t.queue.pushed && t.queue.popped == t.queue.pushed && t.base <= |t.written|
                  && t.delivered == t.before + if t.mute then [] else t.queue.pushed[t.base..])
  {
    InitSafe(l);
    RunsKeepSafe(l, acts);
    var t := AfterAll(l, acts);
    assert t.queue.popped <= t.queue.pushed;
    assert t.written <= t.queue.popped;
  }

  /** No `start` without a path directly after a `start` that failed to open its file. */
  ghost predicate Careful<T>(l: Logger<T>, acts: seq<Act<T>>)
    requires Possibles(l, acts)
    decreases |acts|
  {
    acts == [] || (!(acts[0].StartPlain? && l.failed) && Careful(After(l, acts[0]), acts[1..]))
  }

  lemma {:induction false} CarefulDelivers<T>(l: Logger<T>, acts: seq<Act<T>>)
    requires Safe(l) && !l.mute && l.delivered == l.written && Possibles(l, acts) && Careful(l, acts)
    ensures var t := AfterAll(l, acts); !t.mute && t.delivered == t.written
    decreases |acts|
  {
    if acts != [] {
      ActKeepsSafe(l, acts[0]);
      hide Inv;
      CarefulDelivers(After(l, acts[0]), acts[1..]);
    }
  }

  /** A caller who takes that care loses no accepted message. */
  lemma NothingLost<T>(l: Logger<T>, acts: seq<Act<T>>)
    requires Init(l) && Possibles(l, acts) && Careful(l, acts)
    ensures var t := AfterAll(l, acts);
            && t.delivered <= t.queue.pushed
            && (t.main.Idle? && !t.running ==> t.delivered == t.queue.pushed)
  {
    InitSafe(l);
    CarefulDelivers(l, acts);
    StopWritesAll(l, acts);
  }

  // `stop` returns.

  /** Inside `stop`, from the moment when the flag has been lowered. */
  predicate Stopping<T>(l: Logger<T>) {
    l.main.Joining? || l.main.Flushing? || l.main.Closing?
  }

  /** The queue length, then how far the worker is, then how far `stop` itself is after the join. */
  ghost function Rank<T>(l: Logger<T>): int {
    var todo := 20 * (|l.queue.pushed| - |l.queue.popped|);
    match l.main
    case Flushing => todo + 1 + PopRank(l.queue.consumer)
    case Joining =>
      8 + todo + (match l.worker
                  case Writing(_, _) => 10
                  case AtFlag => 9
                  case AtEmpty => 8
                  case Popping(_) => (if l.sawStop then 2 else 11) + PopRank(l.queue.consumer)
                  case _ => 0)
    case Closing => 1
    case _ => 0
  }

  /** How many loads of the flag still gave true. */
  function Late<T>(acts: seq<Act<T>>): nat {
    if acts == [] then 0 else (if acts[0] == LoadRunning(true) then 1 else 0) + Late(acts[1..])
  }

  lemma RankIsLength<T>(l: Logger<T>)
    requires Safe(l)
    ensures 0 <= Rank(l) <= 20 * (|l.queue.pushed| - |l.queue.popped|) + 24
  {
    Shape(l.queue);
    hide Inv;
  }

  lemma SyncPushes<T>(q: State<T>, entry: nat)
    requires Enabled(q, CSync(entry))
    ensures Apply(q, CSync(entry)) == q.(seenWrite := entry)
  {
  }

  lemma MainLowersRank<T>(l: Logger<T>, a: Act<T>)
    requires Safe(l) && Stopping(l) && Possible(l, a) && !l.main.Joining?
    ensures 0 <= Rank(After(l, a)) < Rank(l) && a != LoadRunning(true)
    ensures Stopping(After(l, a)) || After(l, a).main.Idle?
  {
    Shape(l.queue);
    hide Inv, Apply, Enabled;
    if a.MainPop? {
      PopAdvances(l.queue, a.step);
    }
  }

  lemma WorkerPopLowersRank<T>(l: Logger<T>, a: Step<T>)
    requires Safe(l) && Stopping(l) && Possible(l, WorkerPop(a)) && l.main.Joining?
    ensures 0 <= Rank(After(l, WorkerPop(a))) < Rank(l) && Stopping(After(l, WorkerPop(a)))
  {
    Shape(l.queue);
    hide Inv, Apply, Enabled, PopRank;
    PopAdvances(l.queue, a);
  }

  lemma WorkerLowersRank<T>(l: Logger<T>, a: Act<T>)
    requires Safe(l) && Stopping(l) && Possible(l, a) && l.main.Joining?
    ensures 0 <= Rank(After(l, a)) && Stopping(After(l, a))
    ensures if a == LoadRunning(true) then Rank(After(l, a)) <= Rank(l) + 7 else Rank(After(l, a)) < Rank(l)
  {
    hide Inv, Apply, Enabled;
    Shape(l.queue);
    if a.WorkerPop? {
      WorkerPopLowersRank(l, a.step);
    } else if a.CheckEmpty? {
      SyncPushes(l.queue, a.entry);
    }
  }

  /** Every step that is taken is one inside this `stop`. */
  ghost predicate InsideStop<T>(l: Logger<T>, acts: seq<Act<T>>)
    decreases |acts|
  {
    acts == [] || (Stopping(l) && Possible(l, acts[0]) && InsideStop(After(l, acts[0]), acts[1..]))
  }

  /**
   * From the lowering of the flag on, wherever the worker is and whatever its loads return, the steps until `stop`
   * returns are bounded by the measure and by the loads of the flag that come too early to see it lowered.
   */
  lemma {:induction false} StopEnds<T>(l: Logger<T>, acts: seq<Act<T>>)
    requires Safe(l) && Stopping(l) && InsideStop(l, acts)
    ensures |acts| <= Rank(l) + 8 * Late(acts)
    ensures |acts| <= 20 * (|l.queue.pushed| - |l.queue.popped|) + 24 + 8 * Late(acts)
    decreases |acts|
  {
    RankIsLength(l);
    if acts != [] {
      if l.main.Joining? {
        WorkerLowersRank(l, acts[0]);
      } else {
        MainLowersRank(l, acts[0]);
      }
      ActKeepsSafe(l, acts[0]);
      hide Safe, Possible, After, Rank, Stopping;
      if acts[1..] == [] {
        assert Late(acts[1..]) == 0;
      } else {
        StopEnds(After(l, acts[0]), acts[1..]);
      }
    }
  }

  /** Under plain interleaving, where a load gives the current value, there are no such loads. */
  ghost predicate Current<T>(l: Logger<T>, acts: seq<Act<T>>)
    requires InsideStop(l, acts)
    decreases |acts|
  {
    acts == [] || ((acts[0].LoadRunning? ==> acts[0].value == l.running) && Current(After(l, acts[0]), acts[1..]))
  }

  lemma {:induction false} CurrentIsNotLate<T>(l: Logger<T>, acts: seq<Act<T>>)
    requires Safe(l) && InsideStop(l, acts) && Current(l, acts)
    ensures Late(acts) == 0
    decreases |acts|
  {
    if acts != [] {
      ActKeepsSafe(l, acts[0]);
      hide Inv, Drained, Messages, After, Possible;
      CurrentIsNotLate(After(l, acts[0]), acts[1..]);
    }
  }

  /** A `stop` that has not returned always has a next step, whatever state its worker is in. */
  lemma StopGoesOn<T>(l: Logger<T>) returns (a: Act<T>)
    requires Safe(l) && Stopping(l)
    ensures Possible(l, a) && a != LoadRunning(true)
  {
    Shape(l.queue);
    NextPopEnabled(l.queue);
    hide Inv;
    if l.main.Closing? {
      a := Close;
    } else if l.main.Flushing? {
      a := MainPop(NextPop(l.queue));
    } else {
      match l.worker {
        case AtFlag => a := LoadRunning(false);
        case AtEmpty => a := CheckEmpty(|l.queue.pushed|);
        case Popping(_) => a := WorkerPop(NextPop(l.queue));
        case Writing(_, _) => a := WorkerWrite;
        case Exited => a := Join;
      }
    }
  }

  lemma {:induction false} Chain<T>(l: Logger<T>, first: seq<Act<T>>, second: seq<Act<T>>)
    requires Possibles(l, first) && Possibles(AfterAll(l, first), second)
    ensures Possibles(l, first + second) && AfterAll(l, first + second) == AfterAll(AfterAll(l, first), second)
    decreases |first|
  {
    if first == [] {
      assert first + second == second;
    } else {
      assert (first + second)[1..] == first[1..] + second;
      Chain(After(l, first[0]), first[1..], second);
    }
  }

  /** Some run leads from the one state to the other. */
  ghost predicate Leads<T(!new)>(l: Logger<T>, t: Logger<T>) {
    exists acts :: Possibles(l, acts) && AfterAll(l, acts) == t
  }

  lemma LeadsByAct<T(!new)>(l: Logger<T>, a: Act<T>)
    requires Possible(l, a)
    ensures Leads(l, After(l, a))
  {
    var acts := [a];
    assert acts[0] == a && acts[1..] == [];
    assert Possibles(After(l, a), []);
    assert AfterAll(l, acts) == AfterAll(After(l, a), []);
  }

  lemma LeadsOn<T(!new)>(l: Logger<T>, m: Logger<T>, t: Logger<T>)
    requires Leads(l, m) && Leads(m, t)
    ensures Leads(l, t)
  {
    var first :| Possibles(l, first) && AfterAll(l, first) == m;
    var second :| Possibles(m, second) && AfterAll(m, second) == t;
    Chain(l, first, second);
  }

  lemma LeadsVia<T(!new)>(l: Logger<T>, a: Act<T>, t: Logger<T>)
    requires Possible(l, a) && Leads(After(l, a), t)
    ensures Leads(l, t)
  {
    LeadsByAct(l, a);
    LeadsOn(l, After(l, a), t);
  }

  /** The two states agree on what was accepted and on the history of the session. */
  ghost predicate SameSession<T>(l: Logger<T>, t: Logger<T>) {
    t.queue.pushed == l.queue.pushed && t.mute == l.mute && t.base == l.base && t.before == l.before
  }

  lemma StoppingAccepts<T>(l: Logger<T>, a: Act<T>)
    requires Safe(l) && Stopping(l) && Possible(l, a)
    ensures SameSession(l, After(l, a)) && !After(l, a).running
    ensures After(l, a).main.Idle? ==> !After(l, a).failed && After(l, a).sink.Console?
  {
    hide Inv, Apply, Enabled;
    if a.MainPop? || a.WorkerPop? {
      PopAdvances(l.queue, a.step);
    } else if a.CheckEmpty? {
      SyncPushes(l.queue, a.entry);
    }
  }

  /** A `stop` that has lowered the flag can be completed, wherever its worker is. */
  lemma {:induction false} StopCompletes<T(!new)>(l: Logger<T>) returns (t: Logger<T>)
    requires Safe(l) && Stopping(l)
    ensures Leads(l, t) && Safe(t) && t.main.Idle? && !t.running && SameSession(l, t)
    ensures !t.failed && t.sink.Console?
    decreases Rank(l)
  {
    var a := StopGoesOn(l);
    if l.main.Joining? {
      WorkerLowersRank(l, a);
    } else {
      MainLowersRank(l, a);
    }
    ActKeepsSafe(l, a);
    StoppingAccepts(l, a);
    hide Safe, Possible, After, Rank, Leads;
    LeadsByAct(l, a);
    t := After(l, a);
    if Stopping(t) {
      t := StopCompletes(t);
      LeadsVia(l, a, t);
    }
  }

  /** A `log` whose message fits can be completed. */
  lemma {:induction false} LogCompletes<T(!new)>(l: Logger<T>) returns (t: Logger<T>)
    requires Safe(l) && l.main.Logging? && Fits(l.queue)
    ensures Leads(l, t) && Safe(t) && t == l.(main := Idle, queue := t.queue)
    ensures t.queue.pushed == l.queue.pushed + [l.queue.producer.item]
    decreases StepsLeft(l.queue.producer)
  {
    var a := Push(NextPush(l.queue));
    NextPushFits(l.queue);
    assert Possible(l, a);
    ActKeepsSafe(l, a);
    t := After(l, a);
    assert t == l.(queue := t.queue, main := t.main);
    hide Safe, Possible, After, Fits, NextPush, StepsLeft, Leads;
    LeadsByAct(l, a);
    if t.main.Logging? {
      t := LogCompletes(t);
      LeadsVia(l, a, t);
    }
  }

  /** Either `start` of a stopped logger opens a session; it is mute when it has no path after one that failed. */
  lemma StartRuns<T(!new)>(l: Logger<T>, file: bool) returns (t: Logger<T>)
    requires Safe(l) && l.main.Idle? && !l.running
    ensures Leads(l, t) && Safe(t) && t.main.Idle? && t.running
    ensures t.queue.pushed == l.queue.pushed && t.queue.popped == l.queue.popped && t.queue.size == l.queue.size
    ensures t.mute == (!file && l.failed) && t.base == |l.written| && t.before == l.delivered
  {
    var start := if file then StartFile else StartPlain;
    var l1 := After(l, start);
    var l2 := After(l1, Raise);
    t := After(l2, Spawn);
    ActKeepsSafe(l, start);
    ActKeepsSafe(l1, Raise);
    ActKeepsSafe(l2, Spawn);
    LeadsByAct(l2, Spawn);
    hide Leads, Safe;
    LeadsVia(l1, Raise, t);
    LeadsVia(l, start, t);
  }

  /** A running logger can be stopped, wherever its worker is. */
  lemma StopCalled<T(!new)>(u: Logger<T>) returns (t: Logger<T>)
    requires Safe(u) && u.main.Idle? && u.running
    ensures Leads(u, t) && Safe(t) && t.main.Idle? && !t.running && SameSession(u, t)
    ensures !t.failed && t.sink.Console?
  {
    ActKeepsSafe(u, Lower);
    hide Leads, Safe;
    t := StopCompletes(After(u, Lower));
    LeadsVia(u, Lower, t);
  }

  /** A message that fits can be logged, and the logger stopped after it. */
  lemma LogThenStop<T(!new)>(s: Logger<T>, item: T) returns (t: Logger<T>)
    requires Safe(s) && s.main.Idle? && s.running
    requires |s.queue.pushed| - |s.queue.popped| < s.queue.size - 1
    ensures Leads(s, t) && Safe(t) && t.main.Idle? && !t.running && !t.failed && t.sink.Console?
    ensures t.queue.pushed == s.queue.pushed + [item] && t.mute == s.mute && t.base == s.base && t.before == s.before
  {
    var s1 := After(s, LogCall(item));
    ActKeepsSafe(s, LogCall(item));
    hide Leads, Safe, Inv;
    var u := LogCompletes(s1);
    t := StopCalled(u);
    LeadsOn(s1, u, t);
    LeadsVia(s, LogCall(item), t);
  }

  /**
   * A session of one message, from any stopped logger: started, logged and stopped, it writes the message, and delivers
   * it exactly when it had a path or no `start` with a path had failed before it.
   */
  lemma SessionDelivers<T(!new)>(l: Logger<T>, file: bool, item: T) returns (t: Logger<T>)
    requires Safe(l) && l.main.Idle? && !l.running
    ensures Leads(l, t) && Safe(t) && t.main.Idle? && !t.running && !t.failed && t.sink.Console?
    ensures t.queue.pushed == l.queue.pushed + [item] == t.written
    ensures t.delivered == l.delivered + if !file && l.failed then [] else [item]
  {
    Shape(l.queue);
    StoppedWrites(l);
    assert GoodSize(l.queue.size) && l.queue.size > 1;
    var s := StartRuns(l, file);
    hide Leads, Safe, Inv;
    t := LogThenStop(s, item);
    LeadsOn(l, s, t);
    StoppedWrites(t);
    assert (l.queue.pushed + [item])[|l.written|..] == [item];
  }

  /** Without that care a message is lost: it is accepted and written, and delivered to nobody. */
  lemma FailedStartLoses<T(!new)>(l: Logger<T>, item: T) returns (t: Logger<T>)
    requires Init(l)
    ensures Leads(l, t) && t.main.Idle? && !t.running
    ensures t.queue.pushed == [item] == t.written && t.delivered == []
  {
    InitSafe(l);
    ActKeepsSafe(l, StartFails);
    t := SessionDelivers(After(l, StartFails), false, item);
    LeadsVia(l, StartFails, t);
  }

  lemma StoppedWrites<T>(t: Logger<T>)
    requires Safe(t) && t.main.Idle? && !t.running
    ensures t.written == t.queue.pushed && t.queue.popped == t.queue.pushed && t.base <= |t.written|
    ensures t.delivered == t.before + if t.mute then [] else t.queue.pushed[t.base..]
  {
    assert t.queue.popped <= t.queue.pushed;
  }

  /** The emptiness test after the flag sends the worker back to its loop exactly when something still waits. */
  lemma LoopsWhileNotEmpty<T>(l: Logger<T>, entry: nat)
    requires Safe(l) && Possible(l, CheckEmpty(entry))
    ensures After(l, CheckEmpty(entry)).worker == Popping(|l.queue.popped| == |l.queue.pushed|)
  {
    Shape(l.queue);
    EmptyForConsumer(l.queue, entry);
    hide Inv;
  }

  // While the logger runs, its worker writes.

  predicate WorkerAct<T>(a: Act<T>) {
    a.LoadRunning? || a.CheckEmpty? || a.WorkerPop? || a.WorkerWrite?
  }

  /** Some run of the worker alone leads from the one state to the other. */
  ghost predicate WorkerLeads<T(!new)>(l: Logger<T>, t: Logger<T>) {
    exists acts ::
      Possibles(l, acts) && AfterAll(l, acts) == t && forall i :: 0 <= i < |acts| ==> WorkerAct(acts[i])
  }

  lemma WorkerLeadsNowhere<T(!new)>(l: Logger<T>)
    ensures WorkerLeads(l, l)
  {
    assert Possibles(l, []) && AfterAll(l, []) == l;
  }

  lemma WorkerLeadsVia<T(!new)>(l: Logger<T>, a: Act<T>, t: Logger<T>)
    requires Possible(l, a) && WorkerAct(a) && WorkerLeads(After(l, a), t)
    ensures WorkerLeads(l, t)
  {
    var rest :| Possibles(After(l, a), rest) && AfterAll(After(l, a), rest) == t
                && forall i :: 0 <= i < |rest| ==> WorkerAct(rest[i]);
    var acts := [a] + rest;
    assert acts[0] == a && acts[1..] == rest;
    assert Possibles(l, acts) && AfterAll(l, acts) == t;
    assert forall i :: 0 <= i < |acts| ==> WorkerAct(acts[i]) by {
      assert forall i :: 1 <= i < |acts| ==> acts[i] == rest[i - 1];
    }
  }

  /** A worker that has not exited always has a next step of its own. */
  lemma WorkerHasNext<T>(l: Logger<T>) returns (a: Act<T>)
    requires Safe(l) && !l.worker.NoThread? && !l.worker.Exited?
    ensures Possible(l, a) && WorkerAct(a)
    ensures l.worker.AtFlag? ==> a == LoadRunning(!l.sawStop)
    ensures l.worker.Popping? ==> a == WorkerPop(NextPop(l.queue))
    ensures l.worker.Writing? ==> a == WorkerWrite
  {
    Shape(l.queue);
    NextPopEnabled(l.queue);
    match l.worker {
      case AtFlag => a := LoadRunning(!l.sawStop);
      case AtEmpty => a := CheckEmpty(|l.queue.pushed|);
      case Popping(_) => a := WorkerPop(NextPop(l.queue));
      case Writing(_, _) => a := WorkerWrite;
    }
    hide Inv;
  }

  /** How far the worker is from having written everything; a pop that is about to fail has to start over. */
  ghost function Behind<T>(l: Logger<T>): int {
    20 * (|l.queue.pushed| - |l.queue.popped|)
    + match l.worker
      case Writing(_, _) => 10
      case AtFlag => 9
      case Popping(_) => 2 + PopBehind(l.queue)
      case _ => 0
  }

  ghost predicate AllWritten<T>(l: Logger<T>) {
    |l.queue.popped| == |l.queue.pushed| && !l.worker.Writing?
  }

  /** A running worker that has not written everything comes nearer to it, with the flag still up. */
  lemma WorkerPopNearer<T>(l: Logger<T>)
    requires Safe(l) && l.running && l.worker.Popping? && !AllWritten(l)
    requires Possible(l, WorkerPop(NextPop(l.queue)))
    ensures 0 <= Behind(After(l, WorkerPop(NextPop(l.queue)))) < Behind(l)
  {
    hide Inv, Apply, Enabled, NextPop, PopBehind;
    Shape(l.queue);
    NextPopIs(l.queue);
    NextPopNearer(l.queue);
  }

  lemma WorkerNearer<T>(l: Logger<T>, a: Act<T>)
    requires Safe(l) && l.running && !l.worker.NoThread? && !AllWritten(l) && Possible(l, a)
    requires l.worker.AtFlag? ==> a == LoadRunning(!l.sawStop)
    requires l.worker.Popping? ==> a == WorkerPop(NextPop(l.queue))
    requires l.worker.Writing? ==> a == WorkerWrite
    requires WorkerAct(a)
    ensures 0 <= Behind(After(l, a)) < Behind(l)
    ensures var t := After(l, a);
            t.running && t.main == l.main && !t.worker.NoThread? && t.queue.pushed == l.queue.pushed
  {
    if a.WorkerPop? {
      WorkerPopNearer(l);
    }
    Shape(l.queue);
    hide Inv, NextPop;
  }

  /**
   * Whatever state a running logger is in, its worker alone can take it to where every accepted message is written,
   * while the flag is up.
   */
  lemma {:induction false} WorkerCatchesUp<T(!new)>(l: Logger<T>) returns (t: Logger<T>)
    requires Safe(l) && l.running && !l.worker.NoThread?
    ensures WorkerLeads(l, t) && Safe(t) && t.running && t.main == l.main
    ensures t.written == t.queue.pushed == l.queue.pushed && t.base <= |t.written|
    ensures t.delivered == t.before + if t.mute then [] else t.queue.pushed[t.base..]
    decreases Behind(l)
  {
    if AllWritten(l) {
      t := l;
      WorkerLeadsNowhere(l);
      AllWrittenMeans(l);
    } else {
      RunningIsNotExited(l);
      var a := WorkerHasNext(l);
      WorkerNearer(l, a);
      ActKeepsSafe(l, a);
      hide Safe, Possible, After, Behind, WorkerLeads, AllWritten;
      t := WorkerCatchesUp(After(l, a));
      WorkerLeadsVia(l, a, t);
    }
  }

  lemma AllWrittenMeans<T>(l: Logger<T>)
    requires Safe(l) && AllWritten(l)
    ensures l.written == l.queue.pushed && l.base <= |l.written|
    ensures l.delivered == l.before + if l.mute then [] else l.queue.pushed[l.base..]
  {
    assert l.queue.popped <= l.queue.pushed;
    assert l.InHand() == [];
  }

  lemma RunningIsNotExited<T>(l: Logger<T>)
    requires Safe(l) && l.running && !l.worker.NoThread?
    ensures !l.worker.Exited? && !l.worker.AtEmpty?
  {
  }
}
