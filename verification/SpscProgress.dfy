// How a push and a pop go on when nothing is stale.

module SpscProgress {
  import opened Spsc

  /** The steps left of a push whose item fits. */
  function StepsLeft<T>(p: Producer<T>): nat {
    match p
    case PIdle => 0
    case PWritten(_, _) => 1
    case PFits(_, _) => 2
    case PSeen(_, _, _) => 3
    case PLoaded(_, _) => 4
    case PCalled(_) => 5
  }

  ghost predicate Fits<T>(q: State<T>) {
    && (q.producer.PSeen? ==> |q.pushed| - q.seenRead < q.size - 1)
    && (q.producer.PLoaded? || q.producer.PCalled? ==> |q.pushed| - |q.popped| < q.size - 1)
  }

  /** The next step of a producer that loads what is current. */
  ghost function NextPush<T>(q: State<T>): Step<T>
    requires !q.producer.PIdle?
  {
    match q.producer
    case PCalled(_) => PLoadOwn
    case PLoaded(_, _) => PLoadOther(|q.popped|)
    case PSeen(_, _, _) => PTest
    case PFits(_, _) => PWrite
    case PWritten(_, _) => PPublish
  }

  lemma NextPushFits<T>(q: State<T>)
    requires Inv(q) && Fits(q) && !q.producer.PIdle?
    ensures Enabled(q, NextPush(q)) && ProducerStep(NextPush(q)) && !NextPush(q).PSync?
    ensures var r := Apply(q, NextPush(q));
            && Fits(r) && StepsLeft(r.producer) == StepsLeft(q.producer) - 1
            && r.popped == q.popped
            && (r.producer.PIdle? ==> r.pushed == q.pushed + [q.producer.item])
            && (!r.producer.PIdle? ==> r.pushed == q.pushed && r.producer.item == q.producer.item)
  {
    Shape(q);
    if q.producer.PSeen? {
      FullTest(q);
    }
  }

  /** A step of `pop`, of whoever the consumer is. */
  predicate PopStep<T>(a: Step<T>) {
    !ProducerStep(a) && !a.CSync?
  }

  /** The steps left of a pop. */
  function PopRank<T>(c: Consumer<T>): nat {
    match c
    case CIdle => 5
    case CCalled => 4
    case CLoaded(_) => 3
    case CSeen(_, _) => 2
    case CFits(_) => 1
    case CFetched(_, _) => 0
  }

  /** The next step of a consumer that loads what is current. */
  ghost function NextPop<T>(q: State<T>): Step<T> {
    match q.consumer
    case CIdle => CCall
    case CCalled => CLoadOwn
    case CLoaded(_) => CLoadOther(|q.pushed|)
    case CSeen(_, _) => CTest
    case CFits(_) => CFetch(|q.popped|)
    case CFetched(_, _) => CPublish
  }

  lemma NextPopEnabled<T>(q: State<T>)
    requires Inv(q)
    ensures Enabled(q, NextPop(q)) && PopStep(NextPop(q))
  {
    if q.consumer.CFits? {
      FetchIsPossible(q);
    }
  }

  /** A step of `pop` brings it nearer to its end; it ends by taking an item, or because the consumer has seen none. */
  lemma PopAdvances<T>(q: State<T>, a: Step<T>)
    requires Inv(q) && PopStep(a) && Enabled(q, a)
    ensures var r := Apply(q, a);
            && r.pushed == q.pushed && r.producer == q.producer
            && |q.popped| <= |r.popped| <= |r.pushed|
            && if a.CPublish? then r.consumer.CIdle? && |r.popped| == |q.popped| + 1
               else if a.CTest? && r.consumer.CIdle? then
                 r.popped == q.popped && q.seenWrite == |q.popped| && PopRank(q.consumer) == 2
               else r.popped == q.popped && !r.consumer.CIdle? && PopRank(r.consumer) < PopRank(q.consumer)
  {
    Shape(q);
    if a.CTest? {
      EmptyTest(q);
    }
  }

  lemma NextPopIs<T>(q: State<T>)
    ensures NextPop(q).CPublish? <==> q.consumer.CFetched?
    ensures NextPop(q).CTest? <==> q.consumer.CSeen?
    ensures PopStep(NextPop(q))
  {
  }

  /** The steps left of a pop, where one that is about to fail has a whole new pop before it. */
  ghost function PopBehind<T>(q: State<T>): nat {
    if q.consumer.CSeen? && q.seenWrite == |q.popped| then 13 else PopRank(q.consumer)
  }

  /** With something to take, the next step of a consumer takes it, comes nearer to it, or gives up a stale test. */
  lemma NextPopNearer<T>(q: State<T>)
    requires Inv(q) && |q.popped| < |q.pushed|
    ensures Enabled(q, NextPop(q))
    ensures var r := Apply(q, NextPop(q));
            && r.pushed == q.pushed
            && if q.consumer.CFetched? then r.consumer.CIdle? && |r.popped| == |q.popped| + 1 <= |q.pushed|
               else
                 && r.popped == q.popped
                 && if r.consumer.CIdle? then PopBehind(q) == 13 else PopBehind(r) < PopBehind(q) <= 13
  {
    NextPopEnabled(q);
    if q.consumer.CSeen? {
      EmptyTest(q);
    }
  }
}
