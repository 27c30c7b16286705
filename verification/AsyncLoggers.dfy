// The logger's code, as one thread runs it that is alone with the queue: what each call does to queue and output.

module AsyncLoggers {
  import opened Masks
  import opened SpscQueues
  import opened LoggerRuns

  class AsyncLogger<T(0)> {
    const queue: SpscQueue<T>
    var running: bool
    var minLevel: nat
    var sink: Sink
    /** The messages handed to the sink, and those that it did not swallow. */
    var written: seq<T>
    var delivered: seq<T>

    ghost predicate Valid()
      reads this, queue, queue.buffer
    {
      queue.Valid()
    }

    /** The messages that wait in the queue. */
    ghost function Waiting(): seq<T>
      requires Valid()
      reads this, queue, queue.buffer
    {
      queue.Contents()
    }

    constructor (size: nat, minLevel: nat)
      requires GoodSize(size)
      ensures Valid() && fresh(queue) && fresh(queue.buffer)
      ensures queue.size == size && !running && sink.Console? && this.minLevel == minLevel
      ensures Waiting() == written == delivered == []
    {
      queue := new SpscQueue(size);
      running, sink := false, Console;
      this.minLevel := minLevel;
      written, delivered := [], [];
    }

    /** `opens`: whether the file at `path` can be opened. The worker thread is not started here. */
    method Start(path: string, opens: bool) returns (ok: bool)
      requires Valid()
      modifies `running, `sink
      ensures Valid()
      ensures ok <==> !old(running) && (path == "" || opens)
      ensures running <==> ok || old(running)
      ensures sink == if old(running) || path == "" then old(sink) else if opens then File else Dead
    {
      if running {
        return false;
      }
      if path != "" {
        sink := if opens then File else Dead;
        if !opens {
          return false;
        }
      }
      running := true;
      return true;
    }

    method Log(level: nat, message: T)
      requires Valid()
      modifies queue, queue.buffer
      ensures Valid()
      ensures var accepted := minLevel <= level && running && |old(Waiting())| < queue.size - 1;
              Waiting() == if accepted then old(Waiting()) + [message] else old(Waiting())
    {
      if level < minLevel {
        return;
      }
      if !running {
        return;
      }
      var _ := queue.Push(message);
    }

    method WriteLogMessage(message: T)
      modifies `written, `delivered
      ensures written == old(written) + [message]
      ensures delivered == if sink.Dead? then old(delivered) else old(delivered) + [message]
    {
      written := written + [message];
      if !sink.Dead? {
        delivered := delivered + [message];
      }
    }

    /** Writes every message that waits, in order. */
    method Flush(blank: T)
      requires Valid()
      modifies `written, `delivered, queue
      ensures Valid() && Waiting() == []
      ensures written == old(written) + old(Waiting())
      ensures delivered == if sink.Dead? then old(delivered) else old(delivered) + old(Waiting())
    {
      hide Split, SpscQueue.Valid, SpscQueue.Contents;
      ghost var all, reached := written + Waiting(), delivered + if sink.Dead? then [] else Waiting();
      SplitStarts(written, Waiting());
      SplitStarts(delivered, if sink.Dead? then [] else Waiting());
      var more, message := queue.Pop(blank);
      ghost var left := if more then [message] + Waiting() else [];
      assert left == old(Waiting());
      while more
        invariant Valid()
        invariant left == if more then [message] + Waiting() else []
        invariant !more ==> Waiting() == []
        invariant Split(all, written, left) && Split(reached, delivered, if sink.Dead? then [] else left)
        decreases |left|
      {
        SplitMoves(all, written, message, Waiting());
        if !sink.Dead? {
          SplitMoves(reached, delivered, message, Waiting());
        }
        WriteLogMessage(message);
        left := Waiting();
        more, message := queue.Pop(message);
      }
      SplitEnds(all, written);
      SplitEnds(reached, delivered);
    }

    /** What is left of the worker's loop, with its final flush, once the flag is down. */
    method LogWorker(blank: T)
      requires Valid() && !running
      modifies `written, `delivered, queue
      ensures Valid() && Waiting() == []
      ensures written == old(written) + old(Waiting())
      ensures delivered == if sink.Dead? then old(delivered) else old(delivered) + old(Waiting())
    {
      hide Split, SpscQueue.Valid, SpscQueue.Contents;
      ghost var all, reached := written + Waiting(), delivered + if sink.Dead? then [] else Waiting();
      SplitStarts(written, Waiting());
      SplitStarts(delivered, if sink.Dead? then [] else Waiting());
      var empty := queue.Empty();
      while running || !empty
        invariant Valid() && (empty <==> Waiting() == [])
        invariant Split(all, written, Waiting()) && Split(reached, delivered, if sink.Dead? then [] else Waiting())
        decreases |Waiting()|
      {
        var more, message := queue.Pop(blank);
        if more {
          SplitMoves(all, written, message, Waiting());
          if !sink.Dead? {
            SplitMoves(reached, delivered, message, Waiting());
          }
          WriteLogMessage(message);
        }
        empty := queue.Empty();
      }
      SplitEnds(all, written);
      SplitEnds(reached, delivered);
      Flush(blank);
    }

    /** With the worker's remaining work done at the join. */
    method Stop(blank: T)
      requires Valid()
      modifies `running, `sink, `written, `delivered, queue
      ensures Valid() && !running
      ensures !old(running) ==>
                && Waiting() == old(Waiting()) && sink == old(sink)
                && written == old(written) && delivered == old(delivered)
      ensures old(running) ==>
                && Waiting() == [] && sink.Console?
                && written == old(written) + old(Waiting())
                && delivered == if old(sink).Dead? then old(delivered) else old(delivered) + old(Waiting())
    {
      if !running {
        return;
      }
      running := false;
      LogWorker(blank);
      Flush(blank);
      sink := Console;
    }
  }
}
