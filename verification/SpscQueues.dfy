// The queue's code. Each atomic access is paired with the step of the two-thread machine that it takes.

module SpscQueues {
  import opened Masks
  import opened Spsc

  function Last(log: seq<nat>): nat {
    if log == [] then 0 else log[|log| - 1]
  }

  /** These steps, with none of the other thread in between, take the machine from the one state to the other. */
  ghost predicate Reaches<T>(s: State<T>, steps: seq<Step<T>>, t: State<T>) {
    Runs(s, steps) && ApplyAll(s, steps) == t
  }

  lemma ReachesOne<T>(s: State<T>, a: Step<T>)
    requires Enabled(s, a)
    ensures Reaches(s, [a], Apply(s, a))
  {
    var steps := [a];
    assert steps[0] == a && steps[1..] == [];
    assert Runs(Apply(s, a), []) && ApplyAll(Apply(s, a), []) == Apply(s, a);
  }

  lemma {:induction false} ReachesOn<T>(s: State<T>, first: seq<Step<T>>, m: State<T>,
                                        second: seq<Step<T>>, t: State<T>)
    requires Reaches(s, first, m) && Reaches(m, second, t)
    ensures Reaches(s, first + second, t)
    decreases |first|
  {
    if first == [] {
      assert first + second == second;
    } else {
      assert (first + second)[1..] == first[1..] + second;
      ReachesOn(Apply(s, first[0]), first[1..], m, second, t);
    }
  }

  /** The machine's steps of a whole `push` and a whole `pop`, each load of the other index naming what it returns. */
  function PushSteps<T>(item: T, entry: nat, ok: bool): seq<Step<T>> {
    [PCall(item)] + [PLoadOwn] + [PLoadOther(entry)] + [PTest] + if ok then [PWrite] + [PPublish] else []
  }

  function PopSteps<T>(entry: nat, write: nat, ok: bool): seq<Step<T>> {
    [CCall] + [CLoadOwn] + [CLoadOther(entry)] + [CTest] + if ok then [CFetch(write)] + [CPublish] else []
  }

  /** `push` up to its test, alone with the queue. */
  lemma PushLoads<T>(s: State<T>, item: T)
    requires Inv(s) && s.producer.PIdle?
    ensures Reaches(s, [PCall(item)] + [PLoadOwn] + [PLoadOther(|s.popped|)],
                    s.(producer := PSeen(item, Last(s.writeLog), Last(s.readLog)), seenRead := |s.popped|))
    ensures Inv(s.(producer := PSeen(item, Last(s.writeLog), Last(s.readLog)), seenRead := |s.popped|))
  {
    hide Inv, And, GoodSize, Reaches;
    Shape(s);
    var s1 := Apply(s, PCall(item));
    var s2 := Apply(s1, PLoadOwn);
    var s3 := Apply(s2, PLoadOther(|s.popped|));
    StepKeepsInv(s, PCall(item));
    StepKeepsInv(s1, PLoadOwn);
    StepKeepsInv(s2, PLoadOther(|s.popped|));
    ReachesOne(s, PCall(item));
    ReachesOne(s1, PLoadOwn);
    ReachesOne(s2, PLoadOther(|s.popped|));
    ReachesOn(s, [PCall(item)], s1, [PLoadOwn], s2);
    ReachesOn(s, [PCall(item)] + [PLoadOwn], s2, [PLoadOther(|s.popped|)], s3);
  }

  /** `push` up to the outcome of its test. */
  lemma PushTests<T>(s: State<T>, item: T)
    requires Inv(s) && s.producer.PIdle?
    ensures var own := Last(s.writeLog);
            var fits := s.Mask(own + 1) != Last(s.readLog);
            var t := s.(producer := if fits then PFits(item, own) else PIdle, seenRead := |s.popped|);
            && (fits <==> |s.pushed| - |s.popped| < s.size - 1)
            && Inv(t)
            && Reaches(s, [PCall(item)] + [PLoadOwn] + [PLoadOther(|s.popped|)] + [PTest], t)
  {
    hide Inv, And, GoodSize, Reaches;
    PushLoads(s, item);
    Shape(s);
    var s3 := s.(producer := PSeen(item, Last(s.writeLog), Last(s.readLog)), seenRead := |s.popped|);
    Indices(s3);
    FullTest(s3);
    StepKeepsInv(s3, PTest);
    ReachesOne(s3, PTest);
    ReachesOn(s, [PCall(item)] + [PLoadOwn] + [PLoadOther(|s.popped|)], s3, [PTest], Apply(s3, PTest));
  }

  /** The machine after a `push` that stored its item. */
  function Stored<T>(s: State<T>, item: T): State<T> {
    var own := Last(s.writeLog);
    s.(writeLog := s.writeLog + [s.Mask(own + 1)],
       pushed := s.pushed + [item],
       written := s.written + [item],
       buffer := if own < |s.buffer| then s.buffer[own := item] else s.buffer,
       seenRead := |s.popped|)
  }

  lemma PushStores<T>(s: State<T>, item: T)
    requires Inv(s) && s.producer.PIdle? && s.Mask(Last(s.writeLog) + 1) != Last(s.readLog)
    ensures Last(s.writeLog) < |s.buffer| && |s.popped| <= |s.pushed|
    ensures Inv(Stored(s, item)) && Stored(s, item).Queue() == s.Queue() + [item]
    ensures Reaches(s, PushSteps(item, |s.popped|, true), Stored(s, item))
  {
    hide Inv, And, GoodSize, Reaches;
    PushTests(s, item);
    Shape(s);
    var s4 := s.(producer := PFits(item, Last(s.writeLog)), seenRead := |s.popped|);
    var s5 := Apply(s4, PWrite);
    Shape(s4);
    StepKeepsInv(s4, PWrite);
    StepKeepsInv(s5, PPublish);
    StoresByTwo(s, item, s4);
    assert (s.pushed + [item])[|s.popped|..] == s.pushed[|s.popped|..] + [item];
    var tested := [PCall(item)] + [PLoadOwn] + [PLoadOther(|s.popped|)] + [PTest];
    ReachesOn(s, tested, s4, [PWrite] + [PPublish], Stored(s, item));
  }

  lemma StoresByTwo<T>(s: State<T>, item: T, s4: State<T>)
    requires s.producer.PIdle? && s4 == s.(producer := PFits(item, Last(s.writeLog)), seenRead := |s.popped|)
    ensures Enabled(s4, PWrite) && Enabled(Apply(s4, PWrite), PPublish)
    ensures Apply(Apply(s4, PWrite), PPublish) == Stored(s, item)
    ensures Reaches(s4, [PWrite] + [PPublish], Stored(s, item))
  {
    hide And, Reaches;
    var s5 := Apply(s4, PWrite);
    ReachesOne(s4, PWrite);
    ReachesOne(s5, PPublish);
    ReachesOn(s4, [PWrite], s5, [PPublish], Stored(s, item));
  }

  lemma PushFails<T>(s: State<T>, item: T)
    requires Inv(s) && s.producer.PIdle? && s.Mask(Last(s.writeLog) + 1) == Last(s.readLog)
    ensures var t := s.(seenRead := |s.popped|);
            Inv(t) && Reaches(s, PushSteps(item, |s.popped|, false), t)
  {
    hide Inv, And, GoodSize, Reaches;
    PushTests(s, item);
    assert s.(producer := PIdle, seenRead := |s.popped|) == s.(seenRead := |s.popped|);
    var steps := [PCall(item)] + [PLoadOwn] + [PLoadOther(|s.popped|)] + [PTest];
    assert steps + [] == steps;
  }

  /** `pop` up to its test, alone with the queue. */
  lemma PopLoads<T>(s: State<T>)
    requires Inv(s) && s.consumer.CIdle?
    ensures Reaches(s, [CCall] + [CLoadOwn] + [CLoadOther(|s.pushed|)],
                    s.(consumer := CSeen(Last(s.readLog), Last(s.writeLog)), seenWrite := |s.pushed|))
    ensures Inv(s.(consumer := CSeen(Last(s.readLog), Last(s.writeLog)), seenWrite := |s.pushed|))
  {
    hide Inv, And, GoodSize, Reaches;
    Shape(s);
    var s1 := Apply(s, CCall);
    var s2 := Apply(s1, CLoadOwn);
    var s3 := Apply(s2, CLoadOther(|s.pushed|));
    StepKeepsInv(s, CCall);
    StepKeepsInv(s1, CLoadOwn);
    StepKeepsInv(s2, CLoadOther(|s.pushed|));
    ReachesOne(s, CCall);
    ReachesOne(s1, CLoadOwn);
    ReachesOne(s2, CLoadOther(|s.pushed|));
    ReachesOn(s, [CCall], s1, [CLoadOwn], s2);
    ReachesOn(s, [CCall] + [CLoadOwn], s2, [CLoadOther(|s.pushed|)], s3);
  }

  lemma PopTests<T>(s: State<T>)
    requires Inv(s) && s.consumer.CIdle?
    ensures var own := Last(s.readLog);
            var any := own != Last(s.writeLog);
            var t := s.(consumer := if any then CFits(own) else CIdle, seenWrite := |s.pushed|);
            && (any <==> |s.popped| < |s.pushed|)
            && Inv(t)
            && Reaches(s, [CCall] + [CLoadOwn] + [CLoadOther(|s.pushed|)] + [CTest], t)
  {
    hide Inv, And, GoodSize, Reaches;
    PopLoads(s);
    Shape(s);
    var s3 := s.(consumer := CSeen(Last(s.readLog), Last(s.writeLog)), seenWrite := |s.pushed|);
    EmptyTest(s3);
    StepKeepsInv(s3, CTest);
    ReachesOne(s3, CTest);
    ReachesOn(s, [CCall] + [CLoadOwn] + [CLoadOther(|s.pushed|)], s3, [CTest], Apply(s3, CTest));
  }

  /** The machine after a `pop` that took this item. */
  function Taken<T>(s: State<T>, item: T): State<T> {
    s.(consumer := CIdle,
       readLog := s.readLog + [s.Mask(Last(s.readLog) + 1)],
       popped := s.popped + [item],
       seenWrite := |s.pushed|)
  }

  /** The item that a consumer past its test reads from its slot. */
  lemma PopFetches<T>(s: State<T>)
    requires Inv(s) && s.consumer.CFits?
    ensures |s.popped| < |s.pushed| && s.consumer.own < |s.buffer|
    ensures s.buffer[s.consumer.own] == s.pushed[|s.popped|]
    ensures var t := s.(consumer := CFetched(s.pushed[|s.popped|], s.consumer.own));
            Inv(t) && Reaches(s, [CFetch(|s.popped|)], t)
  {
    SlotsExclusive(s);
    FetchIsPossible(s);
    FetchIsOldest(s, |s.popped|);
    hide Inv, And, GoodSize, Reaches;
    StepKeepsInv(s, CFetch(|s.popped|));
    ReachesOne(s, CFetch(|s.popped|));
  }

  lemma PopTakes<T>(s: State<T>, item: T)
    requires Inv(s) && s.consumer == CFetched(item, Last(s.readLog)) && s.seenWrite == |s.pushed|
    ensures Inv(Taken(s, item)) && Reaches(s, [CPublish], Taken(s, item))
  {
    hide Inv, And, GoodSize, Last, Reaches;
    StepKeepsInv(s, CPublish);
    ReachesOne(s, CPublish);
    assert Apply(s, CPublish) == Taken(s, item);
  }

  lemma PopDone<T>(s: State<T>)
    requires Inv(s) && s.consumer.CIdle? && Last(s.readLog) != Last(s.writeLog)
    ensures |s.popped| < |s.pushed| && Last(s.readLog) < |s.buffer|
    ensures s.buffer[Last(s.readLog)] == s.pushed[|s.popped|]
    ensures Inv(Taken(s, s.pushed[|s.popped|]))
    ensures Reaches(s, PopSteps(|s.pushed|, |s.popped|, true), Taken(s, s.pushed[|s.popped|]))
  {
    hide Inv, And, GoodSize, Last, Reaches;
    Shape(s);
    PopTests(s);
    var own := Last(s.readLog);
    var s4 := s.(consumer := CFits(own), seenWrite := |s.pushed|);
    PopFetches(s4);
    var item := s.pushed[|s.popped|];
    var s5 := s4.(consumer := CFetched(item, own));
    PopTakes(s5, item);
    assert Taken(s5, item) == Taken(s, item);
    var k := |s.popped|;
    ReachesOn(s4, [CFetch(k)], s5, [CPublish], Taken(s, item));
    var tested := [CCall] + [CLoadOwn] + [CLoadOther(|s.pushed|)] + [CTest];
    ReachesOn(s, tested, s4, [CFetch(k)] + [CPublish], Taken(s, item));
  }

  lemma PopFails<T>(s: State<T>)
    requires Inv(s) && s.consumer.CIdle? && Last(s.readLog) == Last(s.writeLog)
    ensures var t := s.(seenWrite := |s.pushed|);
            Inv(t) && Reaches(s, PopSteps(|s.pushed|, |s.popped|, false), t)
  {
    hide Inv, And, GoodSize, Reaches;
    PopTests(s);
    assert s.(consumer := CIdle, seenWrite := |s.pushed|) == s.(seenWrite := |s.pushed|);
    var steps: seq<Step<T>> := [CCall] + [CLoadOwn] + [CLoadOther(|s.pushed|)] + [CTest];
    assert steps + [] == steps;
  }

  // What a stale load can do.

  lemma ReachesFour<T>(s: State<T>, a: Step<T>, b: Step<T>, c: Step<T>, d: Step<T>)
    requires Enabled(s, a) && Enabled(Apply(s, a), b) && Enabled(Apply(Apply(s, a), b), c)
    requires Enabled(Apply(Apply(Apply(s, a), b), c), d)
    ensures Reaches(s, [a] + [b] + [c] + [d], Apply(Apply(Apply(Apply(s, a), b), c), d))
  {
    hide Enabled, Apply, Reaches;
    var s1 := Apply(s, a);
    var s2 := Apply(s1, b);
    var s3 := Apply(s2, c);
    ReachesOne(s, a);
    ReachesOne(s1, b);
    ReachesOne(s2, c);
    ReachesOne(s3, d);
    ReachesOn(s, [a], s1, [b], s2);
    ReachesOn(s, [a] + [b], s2, [c], s3);
    ReachesOn(s, [a] + [b] + [c], s3, [d], Apply(s3, d));
  }

  /** A pop can fail although an item waits: its load of the write index may be stale. */
  lemma StalePopFails<T>(s: State<T>, x: T) returns (steps: seq<Step<T>>, t: State<T>)
    requires Init(s)
    ensures Reaches(s, steps, t)
    ensures steps == PushSteps(x, 0, true) + ([CCall] + [CLoadOwn] + [CLoadOther(0)] + [CTest])
    ensures t.consumer.CIdle? && t.pushed == [x] && t.popped == []
  {
    InitInv(s);
    MaskOf(s, 1);
    PushStores(s, x);
    var s1 := Stored(s, x);
    hide Inv, And, Reaches, PushSteps;
    ReachesFour(s1, CCall, CLoadOwn, CLoadOther(0), CTest);
    t := Apply(Apply(Apply(Apply(s1, CCall), CLoadOwn), CLoadOther(0)), CTest);
    steps := PushSteps(x, 0, true) + ([CCall] + [CLoadOwn] + [CLoadOther(0)] + [CTest]);
    ReachesOn(s, PushSteps(x, 0, true), s1, [CCall] + [CLoadOwn] + [CLoadOther(0)] + [CTest], t);
  }

  /** A push can fail although the queue is empty: its load of the read index may be stale. */
  lemma StalePushFails<T>(s: State<T>, x: T, y: T) returns (steps: seq<Step<T>>, t: State<T>)
    requires Init(s) && s.size == 2
    ensures Reaches(s, steps, t)
    ensures steps == PushSteps(x, 0, true) + PopSteps(1, 0, true)
                     + ([PCall(y)] + [PLoadOwn] + [PLoadOther(0)] + [PTest])
    ensures t.producer.PIdle? && t.pushed == [x] && t.popped == [x]
  {
    InitInv(s);
    MaskOf(s, 1);
    MaskOf(s, 2);
    PushStores(s, x);
    var s1 := Stored(s, x);
    PopDone(s1);
    var s2 := Taken(s1, x);
    hide Inv, And, Reaches, PushSteps, PopSteps;
    ReachesFour(s2, PCall(y), PLoadOwn, PLoadOther(0), PTest);
    t := Apply(Apply(Apply(Apply(s2, PCall(y)), PLoadOwn), PLoadOther(0)), PTest);
    var last := [PCall(y)] + [PLoadOwn] + [PLoadOther(0)] + [PTest];
    steps := PushSteps(x, 0, true) + PopSteps(1, 0, true) + last;
    ReachesOn(s, PushSteps(x, 0, true), s1, PopSteps(1, 0, true), s2);
    ReachesOn(s, PushSteps(x, 0, true) + PopSteps(1, 0, true), s2, last, t);
  }

  /** `all` is what was done and then what is left. */
  ghost predicate Split<T>(all: seq<T>, done: seq<T>, left: seq<T>) {
    all == done + left
  }

  lemma SplitMoves<T>(all: seq<T>, done: seq<T>, x: T, left: seq<T>)
    requires Split(all, done, [x] + left)
    ensures Split(all, done + [x], left)
  {
  }

  lemma SplitStarts<T>(done: seq<T>, left: seq<T>)
    ensures Split(done + left, done, left)
  {
  }

  lemma SplitEnds<T>(all: seq<T>, done: seq<T>)
    requires Split(all, done, [])
    ensures all == done
  {
  }

  class SpscQueue<T(0)> {
    const size: nat
    const buffer: array<T>
    var writePos: nat
    var readPos: nat
    /** The machine that the calls drive. */
    ghost var state: State<T>

    /** Between calls, as one thread sees it that is alone with the queue. */
    ghost predicate Valid()
      reads this, buffer
    {
      && Inv(state) && state.size == size == buffer.Length == |state.buffer|
      && (forall k :: 0 <= k < size ==> buffer[k] == state.buffer[k])
      && writePos == Last(state.writeLog) && readPos == Last(state.readLog)
      && state.producer.PIdle? && state.consumer.CIdle?
    }

    ghost function Contents(): seq<T>
      requires Valid()
      reads this, buffer
    {
      state.Queue()
    }

    constructor (size: nat)
      requires GoodSize(size)
      ensures Valid() && fresh(buffer) && this.size == size && Contents() == []
    {
      this.size := size;
      buffer := new T[size];
      writePos, readPos := 0, 0;
      new;
      state := State(size, buffer[..], [0], [0], PIdle, CIdle, [], [], [], 0, 0);
      InitInv(state);
    }

    /** The ring never holds more than its capacity. */
    lemma Room()
      requires Valid()
      ensures |Contents()| <= Capacity() == size - 1 && Capacity() > 0
    {
    }

    method Push(item: T) returns (ok: bool)
      requires Valid()
      modifies this, buffer
      ensures Valid()
      ensures ok <==> |old(Contents())| < size - 1
      ensures ok <==> |old(Contents())| < Capacity()
      ensures Contents() == if ok then old(Contents()) + [item] else old(Contents())
      ensures Reaches(old(state), PushSteps(item, |old(state).popped|, ok), state)
    {
      hide Inv, And, GoodSize, Reaches, PushSteps;
      Shape(state);
      PushTests(state, item);
      var currentWrite := writePos;
      var nextWrite := And(currentWrite + 1, size - 1);
      ok := nextWrite != readPos;
      if ok {
        PushStores(state, item);
        buffer[currentWrite] := item;
        writePos := nextWrite;
        state := Stored(state, item);
      } else {
        PushFails(state, item);
        state := state.(seenRead := |state.popped|);
      }
    }

    /** The caller's variable `given` is left alone when there is nothing to pop. */
    method Pop(given: T) returns (ok: bool, item: T)
      requires Valid()
      modifies this
      ensures Valid()
      ensures ok <==> old(Contents()) != []
      ensures if ok then old(Contents()) == [item] + Contents() else Contents() == old(Contents()) && item == given
      ensures Reaches(old(state), PopSteps(|old(state).pushed|, |old(state).popped|, ok), state)
    {
      hide Inv, And, GoodSize, Reaches, PopSteps;
      Shape(state);
      PopTests(state);
      item := given;
      var currentRead := readPos;
      ok := currentRead != writePos;
      if ok {
        PopDone(state);
        item := buffer[currentRead];
        var nextRead := And(currentRead + 1, size - 1);
        readPos := nextRead;
        state := Taken(state, item);
      } else {
        PopFails(state);
        state := state.(seenWrite := |state.pushed|);
      }
    }

    method Empty() returns (empty: bool)
      requires Valid()
      ensures empty <==> Contents() == []
    {
      PopTests(state);
      empty := readPos == writePos;
    }

    method Full() returns (full: bool)
      requires Valid()
      ensures full <==> |Contents()| == size - 1
    {
      assert GoodSize(size);
      var nextWrite := And(writePos + 1, size - 1);
      full := nextWrite == readPos;
      FullMask(|state.popped|, |state.pushed|, size);
    }

    method Size() returns (length: nat)
      requires Valid()
      ensures length == |Contents()|
    {
      Distance(|state.popped|, |state.pushed|, size);
      length := if writePos >= readPos then writePos - readPos else size - readPos + writePos;
    }

    function Capacity(): int {
      size - 1
    }
  }
}
