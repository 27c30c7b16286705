// The single-producer single-consumer ring: two threads, one atomic step at a time, with stale loads.

module Spsc {
  import opened Masks

  /** Where the producer is inside `push`. */
  datatype Producer<T> =
    | PIdle
    | PCalled(item: T)
    | PLoaded(item: T, own: nat)
    | PSeen(item: T, own: nat, other: nat)
    | PFits(item: T, own: nat)
    | PWritten(item: T, own: nat)

  /** Where the consumer is inside `pop`. */
  datatype Consumer<T> =
    | CIdle
    | CCalled
    | CLoaded(own: nat)
    | CSeen(own: nat, other: nat)
    | CFits(own: nat)
    | CFetched(item: T, own: nat)

  /**
   * `writeLog` and `readLog` are the values that the two indices have held, in order; the last is current.
   * `pushed` and `popped` are the items of the completed calls, `written` those stored in the buffer so far.
   * `seenRead` and `seenWrite` say how many entries of the other side's log a thread is known to have seen:
   * a load may return any entry that is not older.
   */
  datatype State<T> = State(
    size: nat,
    buffer: seq<T>,
    writeLog: seq<nat>,
    readLog: seq<nat>,
    producer: Producer<T>,
    consumer: Consumer<T>,
    written: seq<T>,
    pushed: seq<T>,
    popped: seq<T>,
    seenRead: nat,
    seenWrite: nat)
  {
    function Mask(x: nat): nat {
      if size == 0 then 0 else And(x, size - 1)
    }

    /** The items in the queue. */
    function Queue(): seq<T>
      requires |popped| <= |pushed|
    {
      pushed[|popped|..]
    }
  }

  ghost predicate Init<T>(s: State<T>) {
    && GoodSize(s.size) && |s.buffer| == s.size
    && s.writeLog == [0] && s.readLog == [0]
    && s.producer.PIdle? && s.consumer.CIdle?
    && s.written == [] && s.pushed == [] && s.popped == []
    && s.seenRead == 0 && s.seenWrite == 0
  }

  /**
   * The atomic steps. A load of the other side's index names the log entry that it returns. A fetch names the
   * write that it observes. The two `Sync` steps raise what a thread has seen: an `empty`, `full` or `size`
   * call, or synchronization from outside the queue.
   */
  datatype Step<T> =
    | PCall(item: T)
    | PLoadOwn
    | PLoadOther(entry: nat)
    | PTest
    | PWrite
    | PPublish
    | PSync(entry: nat)
    | CCall
    | CLoadOwn
    | CLoadOther(entry: nat)
    | CTest
    | CFetch(write: nat)
    | CPublish
    | CSync(entry: nat)

  /** The write numbered `k` went to this slot and is not hidden behind a later one that the consumer has seen. */
  ghost predicate Visible<T>(s: State<T>, slot: nat, k: nat) {
    && k < |s.written| && k < |s.writeLog| && s.writeLog[k] == slot
    && !exists k' :: k < k' < s.seenWrite && k' < |s.writeLog| && s.writeLog[k'] == slot
  }

  ghost predicate Enabled<T>(s: State<T>, a: Step<T>) {
    match a
    case PCall(_) => s.producer.PIdle?
    case PLoadOwn => s.producer.PCalled? && s.writeLog != []
    case PLoadOther(entry) => s.producer.PLoaded? && s.seenRead <= entry < |s.readLog|
    case PTest => s.producer.PSeen?
    case PWrite => s.producer.PFits?
    case PPublish => s.producer.PWritten?
    case PSync(entry) => s.producer.PIdle? && s.seenRead <= entry < |s.readLog|
    case CCall => s.consumer.CIdle?
    case CLoadOwn => s.consumer.CCalled? && s.readLog != []
    case CLoadOther(entry) => s.consumer.CLoaded? && s.seenWrite <= entry < |s.writeLog|
    case CTest => s.consumer.CSeen?
    case CFetch(k) => s.consumer.CFits? && Visible(s, s.consumer.own, k)
    case CPublish => s.consumer.CFetched?
    case CSync(entry) => s.consumer.CIdle? && s.seenWrite <= entry < |s.writeLog|
  }

  ghost function Apply<T>(s: State<T>, a: Step<T>): State<T>
    requires Enabled(s, a)
  {
    match a
    case PCall(item) => s.(producer := PCalled(item))
    case PLoadOwn => s.(producer := PLoaded(s.producer.item, s.writeLog[|s.writeLog| - 1]))
    case PLoadOther(entry) =>
      s.(producer := PSeen(s.producer.item, s.producer.own, s.readLog[entry]), seenRead := entry)
    case PTest =>
      if s.Mask(s.producer.own + 1) == s.producer.other then s.(producer := PIdle)
      else s.(producer := PFits(s.producer.item, s.producer.own))
    case PWrite =>
      s.(producer := PWritten(s.producer.item, s.producer.own),
         buffer := if s.producer.own < |s.buffer| then s.buffer[s.producer.own := s.producer.item] else s.buffer,
         written := s.written + [s.producer.item])
    case PPublish =>
      s.(producer := PIdle,
         writeLog := s.writeLog + [s.Mask(s.producer.own + 1)],
         pushed := s.pushed + [s.producer.item])
    case PSync(entry) => s.(seenRead := entry)
    case CCall => s.(consumer := CCalled)
    case CLoadOwn => s.(consumer := CLoaded(s.readLog[|s.readLog| - 1]))
    case CLoadOther(entry) =>
      s.(consumer := CSeen(s.consumer.own, s.writeLog[entry]), seenWrite := entry)
    case CTest =>
      if s.consumer.own == s.consumer.other then s.(consumer := CIdle)
      else s.(consumer := CFits(s.consumer.own))
    case CFetch(k) => s.(consumer := CFetched(s.written[k], s.consumer.own))
    case CPublish =>
      s.(consumer := CIdle,
         readLog := s.readLog + [s.Mask(s.consumer.own + 1)],
         popped := s.popped + [s.consumer.item])
    case CSync(entry) => s.(seenWrite := entry)
  }

  ghost predicate Runs<T>(s: State<T>, steps: seq<Step<T>>)
    decreases |steps|
  {
    steps == [] || (Enabled(s, steps[0]) && Runs(Apply(s, steps[0]), steps[1..]))
  }

  ghost function ApplyAll<T>(s: State<T>, steps: seq<Step<T>>): State<T>
    requires Runs(s, steps)
    decreases |steps|
  {
    if steps == [] then s else ApplyAll(Apply(s, steps[0]), steps[1..])
  }

  // The invariant, in three parts.

  /** Each entry of an index log is its position modulo the size. */
  predicate LogOk(log: seq<nat>, count: nat, size: nat) {
    size > 0 && |log| == count + 1 && forall i :: 0 <= i < |log| ==> log[i] == i % size
  }

  ghost predicate CountsOk<T>(s: State<T>) {
    && GoodSize(s.size) && |s.buffer| == s.size
    && LogOk(s.writeLog, |s.pushed|, s.size)
    && LogOk(s.readLog, |s.popped|, s.size)
    && s.seenRead <= |s.popped| <= s.seenWrite <= |s.pushed|
    && |s.pushed| - s.seenRead < s.size
  }

  ghost predicate ProducerOk<T>(s: State<T>)
    requires s.size > 0
  {
    var count := |s.pushed|;
    && (s.producer.PLoaded? ==> s.producer.own == count % s.size)
    && (s.producer.PSeen? ==> s.producer.own == count % s.size && s.producer.other == s.seenRead % s.size)
    && (s.producer.PFits? || s.producer.PWritten? ==>
          s.producer.own == count % s.size && count - s.seenRead < s.size - 1)
  }

  ghost predicate ConsumerOk<T>(s: State<T>)
    requires s.size > 0
  {
    var count := |s.popped|;
    && (s.consumer.CLoaded? ==> s.consumer.own == count % s.size)
    && (s.consumer.CSeen? ==> s.consumer.own == count % s.size && s.consumer.other == s.seenWrite % s.size)
    && (s.consumer.CFits? || s.consumer.CFetched? ==> s.consumer.own == count % s.size && count < s.seenWrite)
    && (s.consumer.CFetched? ==> count < |s.pushed| && s.consumer.item == s.pushed[count])
  }

  /** The items: what was popped is a prefix of what was pushed, and the rest is in its slots. */
  ghost predicate ItemsOk<T>(s: State<T>)
    requires s.size > 0 && |s.buffer| == s.size
  {
    && s.popped <= s.pushed
    && s.written == s.pushed + (if s.producer.PWritten? then [s.producer.item] else [])
    && forall k :: |s.popped| <= k < |s.written| ==> s.buffer[k % s.size] == s.written[k]
  }

  ghost predicate Inv<T>(s: State<T>) {
    CountsOk(s) && ProducerOk(s) && ConsumerOk(s) && ItemsOk(s)
  }

  lemma InitInv<T>(s: State<T>)
    requires Init(s)
    ensures Inv(s)
  {
  }

  /** Masking is the remainder in every reachable state. */
  lemma MaskOf<T>(s: State<T>, x: nat)
    requires GoodSize(s.size)
    ensures s.Mask(x) == x % s.size
  {
    MaskIsMod(x, s.size);
  }

  lemma LogGrows(log: seq<nat>, count: nat, size: nat, next: nat)
    requires LogOk(log, count, size) && next == (count + 1) % size
    ensures LogOk(log + [next], count + 1, size)
  {
  }

  /** The producer's test fails exactly when the index entry that it saw is a full ring behind. */
  lemma FullTest<T>(s: State<T>)
    requires Inv(s) && s.producer.PSeen?
    ensures s.Mask(s.producer.own + 1) == s.producer.other <==> |s.pushed| - s.seenRead == s.size - 1
  {
    FullMask(s.seenRead, |s.pushed|, s.size);
  }

  /** The consumer's test fails exactly when the index entry that it saw is its own. */
  lemma EmptyTest<T>(s: State<T>)
    requires Inv(s) && s.consumer.CSeen?
    ensures s.consumer.own == s.consumer.other <==> s.seenWrite == |s.popped|
  {
    SameSlot(|s.popped|, s.seenWrite, s.size);
  }

  /** The only write that a fetch can observe is that of the oldest item. */
  lemma FetchIsOldest<T>(s: State<T>, k: nat)
    requires Inv(s) && s.consumer.CFits? && Visible(s, s.consumer.own, k)
    ensures k == |s.popped| && s.written[k] == s.pushed[k]
  {
    var j := |s.popped|;
    assert s.writeLog[k] == k % s.size && s.writeLog[j] == j % s.size;
    if k < j {
      assert false;
    } else if k > j {
      SameSlot(j, k, s.size);
    }
  }

  /** A consumer that passed its test always has a write to observe. */
  lemma FetchIsPossible<T>(s: State<T>)
    requires Inv(s) && s.consumer.CFits?
    ensures Enabled(s, CFetch(|s.popped|))
  {
    var j := |s.popped|;
    forall k' | j < k' < s.seenWrite
      ensures s.writeLog[k'] != s.consumer.own
    {
      SameSlot(j, k', s.size);
    }
  }

  /** The slot being read holds the oldest item, and it is not the slot being written. */
  lemma SlotsExclusive<T>(s: State<T>)
    requires Inv(s) && s.consumer.CFits?
    ensures s.consumer.own < s.size && s.buffer[s.consumer.own] == s.pushed[|s.popped|]
    ensures s.producer.PFits? || s.producer.PWritten? ==> s.producer.own < s.size && s.producer.own != s.consumer.own
  {
    assert s.written[|s.popped|] == s.pushed[|s.popped|];
    SameSlot(|s.popped|, |s.pushed|, s.size);
  }

  /** The shape of a state that satisfies the invariant. */
  lemma Shape<T>(s: State<T>)
    requires Inv(s)
    ensures GoodSize(s.size) && |s.buffer| == s.size
    ensures |s.writeLog| == |s.pushed| + 1 && |s.readLog| == |s.popped| + 1
    ensures s.seenRead <= |s.popped| <= s.seenWrite <= |s.pushed|
    ensures s.producer.PFits? || s.producer.PWritten? ==> s.producer.own < s.size
    ensures s.consumer.CFits? ==> s.consumer.own < s.size && s.buffer[s.consumer.own] == s.pushed[|s.popped|]
  {
    if s.consumer.CFits? {
      SlotsExclusive(s);
    }
  }

  // Every step keeps the invariant.

  lemma ProducerKeepsInv<T>(s: State<T>, a: Step<T>)
    requires Inv(s) && Enabled(s, a) && (a.PCall? || a.PLoadOwn? || a.PLoadOther? || a.PTest? || a.PSync?)
    ensures Inv(Apply(s, a))
  {
    if a.PTest? {
      FullTest(s);
    }
  }

  lemma WriteKeepsInv<T>(s: State<T>)
    requires Inv(s) && Enabled(s, PWrite)
    ensures Inv(Apply(s, PWrite))
  {
    var t := Apply(s, PWrite);
    var own := s.producer.own;
    assert own == |s.pushed| % s.size && own < s.size;
    forall k | |t.popped| <= k < |t.written|
      ensures t.buffer[k % t.size] == t.written[k]
    {
      if k < |s.pushed| {
        SameSlot(k, |s.pushed|, s.size);
        assert t.written[k] == s.written[k];
      }
    }
  }

  lemma PublishKeepsInv<T>(s: State<T>)
    requires Inv(s) && Enabled(s, PPublish)
    ensures Inv(Apply(s, PPublish))
  {
    var t := Apply(s, PPublish);
    MaskOf(s, s.producer.own + 1);
    NextSlot(|s.pushed|, s.size);
    LogGrows(s.writeLog, |s.pushed|, s.size, s.Mask(s.producer.own + 1));
    assert s.popped <= t.pushed;
  }

  lemma ConsumerKeepsInv<T>(s: State<T>, a: Step<T>)
    requires Inv(s) && Enabled(s, a) && (a.CCall? || a.CLoadOwn? || a.CLoadOther? || a.CTest? || a.CFetch? || a.CSync?)
    ensures Inv(Apply(s, a))
  {
    if a.CTest? {
      EmptyTest(s);
    }
    if a.CFetch? {
      FetchIsOldest(s, a.write);
    }
  }

  lemma TakeKeepsInv<T>(s: State<T>)
    requires Inv(s) && Enabled(s, CPublish)
    ensures Inv(Apply(s, CPublish))
  {
    var t := Apply(s, CPublish);
    MaskOf(s, s.consumer.own + 1);
    NextSlot(|s.popped|, s.size);
    LogGrows(s.readLog, |s.popped|, s.size, s.Mask(s.consumer.own + 1));
    assert t.popped == s.pushed[..|s.popped| + 1];
  }

  lemma StepKeepsInv<T>(s: State<T>, a: Step<T>)
    requires Inv(s) && Enabled(s, a)
    ensures Inv(Apply(s, a))
  {
    match a {
      case PWrite => WriteKeepsInv(s);
      case PPublish => PublishKeepsInv(s);
      case CPublish => TakeKeepsInv(s);
      case PCall(_) => ProducerKeepsInv(s, a);
      case PLoadOwn => ProducerKeepsInv(s, a);
      case PLoadOther(_) => ProducerKeepsInv(s, a);
      case PTest => ProducerKeepsInv(s, a);
      case PSync(_) => ProducerKeepsInv(s, a);
      case _ => ConsumerKeepsInv(s, a);
    }
  }

  // What holds over every interleaving.

  lemma {:induction false} RunsKeepInv<T>(s: State<T>, steps: seq<Step<T>>)
    requires Inv(s) && Runs(s, steps)
    ensures Inv(ApplyAll(s, steps))
    decreases |steps|
  {
    if steps != [] {
      StepKeepsInv(s, steps[0]);
      hide Inv;
      RunsKeepInv(Apply(s, steps[0]), steps[1..]);
    }
  }

  /** No loss, no duplication, no reordering; never more than size - 1 items; each one in its slot. */
  lemma FirstInFirstOut<T>(s: State<T>, steps: seq<Step<T>>)
    requires Init(s) && Runs(s, steps)
    ensures var t := ApplyAll(s, steps);
            && t.popped <= t.pushed
            && |t.Queue()| <= t.size - 1
            && |t.buffer| == t.size > 0
            && (forall i :: 0 <= i < |t.Queue()| ==> t.buffer[(|t.popped| + i) % t.size] == t.Queue()[i])
            && (t.producer.PFits? && t.consumer.CFits? ==> t.producer.own != t.consumer.own)
  {
    InitInv(s);
    RunsKeepInv(s, steps);
    var t := ApplyAll(s, steps);
    if t.consumer.CFits? {
      SlotsExclusive(t);
    }
    forall i | 0 <= i < |t.Queue()|
      ensures t.buffer[(|t.popped| + i) % t.size] == t.Queue()[i]
    {
      var k := |t.popped| + i;
      assert t.Queue()[i] == t.pushed[k] == t.written[k];
    }
  }

  /** Each step is a step of a bounded first-in first-out queue, or leaves that queue alone. */
  lemma StepRefinesQueue<T>(s: State<T>, a: Step<T>)
    requires Inv(s) && Enabled(s, a)
    ensures Apply(s, a).size == s.size && |Apply(s, a).popped| <= |Apply(s, a).pushed|
    ensures match a
            case PPublish => |s.Queue()| < s.size - 1 && Apply(s, a).Queue() == s.Queue() + [s.producer.item]
            case CPublish => s.Queue() == [s.consumer.item] + Apply(s, a).Queue()
            case _ => Apply(s, a).Queue() == s.Queue()
  {
    match a {
      case PPublish =>
        assert Apply(s, a).Queue() == s.Queue() + [s.producer.item];
      case CPublish =>
        assert s.Queue()[0] == s.pushed[|s.popped|];
        assert s.Queue()[1..] == s.pushed[|s.popped| + 1..];
      case _ =>
    }
  }

  predicate ProducerStep<T>(a: Step<T>) {
    a.PCall? || a.PLoadOwn? || a.PLoadOther? || a.PTest? || a.PWrite? || a.PPublish? || a.PSync?
  }

  predicate ProducerOnly<T>(steps: seq<Step<T>>) {
    forall i :: 0 <= i < |steps| ==> ProducerStep(steps[i])
  }

  predicate ConsumerOnly<T>(steps: seq<Step<T>>) {
    forall i :: 0 <= i < |steps| ==> !ProducerStep(steps[i])
  }

  lemma {:induction false} ConsumerOnlyKeeps<T>(s: State<T>, steps: seq<Step<T>>)
    requires Runs(s, steps) && ConsumerOnly(steps)
    ensures var t := ApplyAll(s, steps);
            t.size == s.size && t.producer == s.producer && t.pushed == s.pushed && t.writeLog == s.writeLog
    decreases |steps|
  {
    if steps != [] {
      ConsumerOnlyKeeps(Apply(s, steps[0]), steps[1..]);
    }
  }

  lemma {:induction false} ProducerOnlyKeeps<T>(s: State<T>, steps: seq<Step<T>>)
    requires Runs(s, steps) && ProducerOnly(steps)
    ensures var t := ApplyAll(s, steps);
            t.size == s.size && t.consumer == s.consumer && t.popped == s.popped && t.readLog == s.readLog
    decreases |steps|
  {
    if steps != [] {
      ProducerOnlyKeeps(Apply(s, steps[0]), steps[1..]);
    }
  }

  /**
   * A push that loads the current read index reports a full queue exactly when the queue held size - 1 items at
   * the instant of that load, whatever the consumer does before the test.
   */
  lemma PushVerdict<T>(s: State<T>, others: seq<Step<T>>)
    requires Inv(s) && s.producer.PLoaded?
    requires Runs(Apply(s, PLoadOther(|s.popped|)), others) && ConsumerOnly(others)
    ensures var t := ApplyAll(Apply(s, PLoadOther(|s.popped|)), others);
            Enabled(t, PTest) && (Apply(t, PTest).producer.PIdle? <==> |s.Queue()| == s.size - 1)
  {
    var s' := Apply(s, PLoadOther(|s.popped|));
    StepKeepsInv(s, PLoadOther(|s.popped|));
    FullTest(s');
    ConsumerOnlyKeeps(s', others);
  }

  /** A pop that loads the current write index reports an empty queue exactly when it was empty at that instant. */
  lemma PopVerdict<T>(s: State<T>, others: seq<Step<T>>)
    requires Inv(s) && s.consumer.CLoaded?
    requires Runs(Apply(s, CLoadOther(|s.pushed|)), others) && ProducerOnly(others)
    ensures var t := ApplyAll(Apply(s, CLoadOther(|s.pushed|)), others);
            Enabled(t, CTest) && (Apply(t, CTest).consumer.CIdle? <==> s.Queue() == [])
  {
    var s' := Apply(s, CLoadOther(|s.pushed|));
    StepKeepsInv(s, CLoadOther(|s.pushed|));
    EmptyTest(s');
    ProducerOnlyKeeps(s', others);
  }

  /** The value that `size` computes from the two indices. */
  function SizeOf(write: nat, read: nat, size: nat): int {
    if write >= read then write - read else size - read + write
  }

  /** `size` called by the consumer: the exact length when it loaded the write index. */
  lemma SizeForConsumer<T>(s: State<T>, others: seq<Step<T>>)
    requires Inv(s) && s.consumer.CIdle? && Runs(s, others) && ProducerOnly(others)
    ensures var t := ApplyAll(s, others);
            t.readLog != [] && s.writeLog != [] &&
            SizeOf(s.writeLog[|s.writeLog| - 1], t.readLog[|t.readLog| - 1], s.size) == |s.Queue()|
  {
    ProducerOnlyKeeps(s, others);
    Distance(|s.popped|, |s.pushed|, s.size);
  }

  /** `size` called by the producer: the exact length when it loaded the read index. */
  lemma SizeForProducer<T>(s: State<T>, others: seq<Step<T>>)
    requires Inv(s) && s.producer.PIdle? && Runs(s, others) && ConsumerOnly(others)
    ensures var t := ApplyAll(s, others);
            t.readLog != [] && s.writeLog != [] && |t.popped| <= |t.pushed| &&
            SizeOf(s.writeLog[|s.writeLog| - 1], t.readLog[|t.readLog| - 1], s.size) == |t.Queue()|
  {
    var t := ApplyAll(s, others);
    RunsKeepInv(s, others);
    ConsumerOnlyKeeps(s, others);
    Distance(|t.popped|, |t.pushed|, t.size);
  }

  /** A write index that the consumer may load from `empty` is its own index exactly when it shows nothing more. */
  lemma EmptyForConsumer<T>(s: State<T>, entry: nat)
    requires Inv(s) && Enabled(s, CSync(entry))
    ensures s.readLog[|s.readLog| - 1] == s.writeLog[entry] <==> entry == |s.popped|
  {
    SameSlot(|s.popped|, entry, s.size);
  }

  lemma Indices<T>(s: State<T>)
    requires Inv(s)
    ensures GoodSize(s.size) && s.size > 1 && |s.writeLog| == |s.pushed| + 1 && |s.readLog| == |s.popped| + 1
    ensures forall i :: 0 <= i < |s.writeLog| ==> s.writeLog[i] == i % s.size
    ensures forall i :: 0 <= i < |s.readLog| ==> s.readLog[i] == i % s.size
    ensures s.seenRead <= |s.popped| <= |s.pushed| < s.seenRead + s.size
  {
  }

  /** A read index that the producer may load from `full` is its own next one exactly when it shows a full ring. */
  lemma FullForProducer<T>(s: State<T>, entry: nat)
    requires Inv(s) && Enabled(s, PSync(entry))
    ensures s.writeLog != []
    ensures s.Mask(s.writeLog[|s.writeLog| - 1] + 1) == s.readLog[entry] <==> |s.pushed| - entry == s.size - 1
  {
    hide Inv, And, GoodSize;
    Indices(s);
    FullMask(entry, |s.pushed|, s.size);
  }
}
