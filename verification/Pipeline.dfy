/** The pipeline: a producer loop that enqueues what it gets from the producer,
    and on the other side either the consumer loop or calls of
    `getLatestProduct`, over the blocking queue and at its granularity. */
module Pipeline {
  import opened Wrappers
  import Q = ReaderWriterQueue
  import S = LightweightSemaphore
  import B = BlockingQueue

  /** `runProducer`: fetch a batch, then enqueue its products one by one. */
  datatype Source<T> = Fetch | Enqueue(rest: seq<T>) | Ended

  /** One delivery: `getLatestProduct` drains the queue and waits only if that
      found nothing; a turn of `runConsumer` just waits. */
  datatype Sink<T> = Ready | Drain(last: Option<T>) | Await | Delivered(result: Option<T>, drained: bool)

  /** What became of a product once it had been offered to the queue; a dropped one with the
      number of elements held when the enqueue found its block full. */
  datatype Fate = Accepted | Dropped(saw: nat)

  /** What became of a product once it had left the queue. */
  datatype Use = Used | Superseded

  datatype State<T> = State(
    b: B.State<T>,
    running: bool,
    source: Source<T>,
    sink: Sink<T>,
    // history
    produced: seq<T>,
    fates: seq<Fate>,     // of the first products
    uses: seq<Use>,       // of the first products taken
    delivered: seq<T>)

  /** Environment of a producer step: the next batch or a failure to get one. */
  datatype SourceEnv<T> = SourceEnv(batch: seq<T>, failed: bool, inner: Q.Env<T>)

  predicate Defined<T>(s: State<T>) { B.Defined(s.b) }

  // --- Steps ---------------------------------------------------------------

  function SourceStep<T>(s: State<T>, e: SourceEnv<T>): State<T>
    requires Defined(s)
  {
    match s.source
    case Fetch =>
      if !s.running then s.(source := Ended)
      else if e.failed then s.(source := Ended, running := false)
      else s.(source := Enqueue(e.batch), produced := s.produced + e.batch)
    case Enqueue(rest) =>
      if rest == [] then s.(source := Fetch)
      else if s.b.bp.BPDone? then
        s.(b := B.ProducerStep(s.b, e.inner), source := Enqueue(rest[1..]),
           fates := s.fates + [if s.b.bp.ok then Accepted else Dropped(s.b.q.pSaw)])
      else s.(b := B.ProducerStep(s.b, e.inner.(x := rest[0], alloc := false)))
    case Ended => s
  }

  function Deliver<T>(s: State<T>, x: T, drained: bool): State<T> {
    s.(sink := Delivered(Some(x), drained), uses := s.uses + [Used], delivered := s.delivered + [x])
  }

  /** `latest` selects the kind of the next delivery, `timeout` ends a timed wait. */
  function SinkStep<T>(s: State<T>, latest: bool, timeout: bool): State<T>
    requires Defined(s)
  {
    match s.sink
    case Ready =>
      if latest then s.(sink := Drain(None)) else if s.running then s.(sink := Await) else s
    case Drain(last) =>
      var s' := s.(b := B.ConsumerStep(s.b, S.TryOnly, timeout));
      if !s.b.bc.BCDone? then s'
      else if s.b.bc.result.Some? then
        s'.(sink := Drain(s.b.bc.result), uses := if last.Some? then s.uses + [Superseded] else s.uses)
      else if last.Some? then Deliver(s', last.value, true)
      else s'.(sink := Await)
    case Await =>
      var s' := s.(b := B.ConsumerStep(s.b, S.Timed, timeout));
      if !s.b.bc.BCDone? then s'
      else if s.b.bc.result.Some? then Deliver(s', s.b.bc.result.value, false)
      else s'.(sink := Delivered(None, false))
    case Delivered(_, _) => s.(sink := Ready)
  }

  /** `stop`, or a consumer that refuses a product. */
  function StopStep<T>(s: State<T>): State<T> { s.(running := false) }

  // --- Invariant -----------------------------------------------------------

  /** The products with fate `Accepted`, in production order. */
  function Kept<T>(products: seq<T>, fates: seq<Fate>): seq<T>
    requires |products| == |fates|
  {
    if fates == [] then []
    else
      var n := |fates| - 1;
      Kept(products[..n], fates[..n]) + (if fates[n] == Accepted then [products[n]] else [])
  }

  /** The elements put to use, in the order they were taken. */
  function Picked<T>(taken: seq<T>, uses: seq<Use>): seq<T>
    requires |taken| == |uses|
  {
    if uses == [] then []
    else
      var n := |uses| - 1;
      Picked(taken[..n], uses[..n]) + (if uses[n] == Used then [taken[n]] else [])
  }

  /** The product being offered is in the queue but has no recorded fate yet. */
  predicate InFlight<T(==)>(b: B.State<T>) {
    (b.bp.BPEnqueue? && b.q.p == Q.PDone(true)) || b.bp.BPSignal? || b.bp == B.BPDone(true)
  }

  ghost predicate SourceInv<T>(s: State<T>) {
    && |s.fates| <= |s.produced|
    && (s.source.Enqueue? ==> s.produced[|s.fates|..] == s.source.rest)
    && (!s.source.Enqueue? ==> |s.produced| == |s.fates|)
    && (!s.b.bp.BPIdle? ==> s.source.Enqueue? && s.source.rest != [])
    && (!s.b.q.p.PIdle? && !s.b.q.p.PDone? ==>
           s.source.Enqueue? && s.source.rest != [] && s.b.q.p.x == s.source.rest[0])
    && s.b.q.accepted == Kept(s.produced[..|s.fates|], s.fates) + (if InFlight(s.b) then [s.source.rest[0]] else [])
  }

  /** Elements taken from the queue and not yet given a use. */
  function Unsettled<T>(s: State<T>): nat {
    (if s.sink.Drain? && s.sink.last.Some? then 1 else 0)
    + (if (s.b.bc.BCDequeue? && s.b.q.c.CDone?) || (s.b.bc.BCDone? && s.b.bc.result.Some?) then 1 else 0)
  }

  ghost predicate SinkInv<T>(s: State<T>) {
    && |s.b.q.taken| == |s.uses| + Unsettled(s)
    && (s.sink.Drain? && s.sink.last.Some? ==> s.sink.last.value == s.b.q.taken[|s.uses|])
    && (!s.b.bc.BCIdle? ==> s.sink.Drain? || s.sink.Await?)
    && s.delivered == Picked(s.b.q.taken[..|s.uses|], s.uses)
    && (s.sink.Delivered? && s.sink.result.Some? ==>
          0 < |s.uses| && s.uses[|s.uses| - 1] == Used && s.b.q.taken[|s.uses| - 1] == s.sink.result.value)
    && (s.sink.Delivered? && s.sink.drained ==> s.sink.result.Some? && s.b.sem.settled == |s.uses|)
  }

  ghost predicate Inv<T>(s: State<T>) {
    B.Inv(s.b) && SourceInv(s) && SinkInv(s)
  }

  ghost predicate Init<T>(s: State<T>) {
    && s.source == Fetch && s.sink == Ready
    && s.produced == [] && s.fates == [] && s.uses == [] && s.delivered == []
    && s.b.q.accepted == [] && s.b.q.taken == []
  }

  // --- Preservation ------------------------------------------------------------

  /** What a producer step of the queue changes, as far as the pipeline can tell. */
  lemma QueueProducerStep<T>(b: B.State<T>, e: Q.Env<T>)
    requires B.Inv(b)
    ensures B.Defined(b)
    ensures var b' := B.ProducerStep(b, e);
            && B.Inv(b')
            && b'.bc == b.bc && b'.q.c == b.q.c && b'.q.taken == b.q.taken && b'.sem.settled == b.sem.settled
            && (b.bp.BPDone? ==> b'.bp.BPIdle? && b'.q == b.q)
            && (!b.bp.BPDone? ==> !b'.bp.BPIdle?)
            && (InFlight(b) && !b.bp.BPDone? ==> InFlight(b') && b'.q.accepted == b.q.accepted)
            && (!InFlight(b) && InFlight(b') ==>
                   !b.q.p.PIdle? && !b.q.p.PDone? && b'.q.accepted == b.q.accepted + [b.q.p.x])
            && (!InFlight(b) && !InFlight(b') ==> b'.q.accepted == b.q.accepted)
            && (!b'.q.p.PIdle? && !b'.q.p.PDone? ==>
                  b'.q.p.x == if b.q.p.PIdle? then e.x else b.q.p.x)
            && (b.q.p.PDone? ==> b'.q.p.PIdle? || b'.q.p.PDone?)
  {
    B.ProducerKeeps(b, e);
    B.InnerEnqueueStep(b.q, e);
  }

  /** The source's bookkeeping while a product is being offered, by itself. */
  lemma OfferBooks<T>(s: State<T>, b': B.State<T>)
    requires SourceInv(s) && s.source.Enqueue? && s.source.rest != []
    requires InFlight(s.b) ==> InFlight(b') && b'.q.accepted == s.b.q.accepted
    requires !InFlight(s.b) && InFlight(b') ==>
               !s.b.q.p.PIdle? && !s.b.q.p.PDone? && b'.q.accepted == s.b.q.accepted + [s.b.q.p.x]
    requires !InFlight(s.b) && !InFlight(b') ==> b'.q.accepted == s.b.q.accepted
    requires s.b.q.p.PDone? ==> b'.q.p.PIdle? || b'.q.p.PDone?
    requires !b'.q.p.PIdle? && !b'.q.p.PDone? ==>
               b'.q.p.x == if s.b.q.p.PIdle? then s.source.rest[0] else s.b.q.p.x
    ensures SourceInv(s.(b := b'))
  {
  }

  /** The sink's side does not depend on what the source changes. */
  lemma SinkUnmoved<T>(s: State<T>, s': State<T>)
    requires SinkInv(s)
    requires s'.sink == s.sink && s'.uses == s.uses && s'.delivered == s.delivered
    requires s'.b.bc == s.b.bc && s'.b.q.c == s.b.q.c && s'.b.q.taken == s.b.q.taken
    requires s'.b.sem.settled == s.b.sem.settled
    ensures SinkInv(s')
  {
  }

  lemma SourceOffers<T>(s: State<T>, e: SourceEnv<T>)
    requires Inv(s) && s.source.Enqueue? && s.source.rest != [] && !s.b.bp.BPDone?
    ensures Defined(s) && Inv(SourceStep(s, e))
  {
    hide B.Inv, B.ProducerStep, B.Defined, SourceInv, SinkInv;
    QueueProducerStep(s.b, e.inner.(x := s.source.rest[0], alloc := false));
    var s' := SourceStep(s, e);
    OfferBooks(s, s'.b);
    SinkUnmoved(s, s');
  }

  lemma SourceSettles<T>(s: State<T>, e: SourceEnv<T>)
    requires Inv(s) && s.source.Enqueue? && s.source.rest != [] && s.b.bp.BPDone?
    ensures Defined(s) && Inv(SourceStep(s, e))
  {
    hide B.Inv, B.ProducerStep, B.Defined, SinkInv;
    QueueProducerStep(s.b, e.inner);
    var s' := SourceStep(s, e);
    SinkUnmoved(s, s');
    var n := |s.fates|;
    assert s.produced[n] == s.source.rest[0];
    assert s'.produced[..n + 1][..n] == s.produced[..n] && s'.fates[..n] == s.fates;
    assert s'.produced[n + 1..] == s.source.rest[1..];
  }

  lemma SourceFetches<T>(s: State<T>, e: SourceEnv<T>)
    requires Inv(s) && (!s.source.Enqueue? || s.source.rest == [])
    ensures Defined(s) && Inv(SourceStep(s, e))
  {
    Q.InvIsDefined(s.b.q);
    var s' := SourceStep(s, e);
    if s.source.Enqueue? {
      assert |s.produced[|s.fates|..]| == 0;
    }
    assert s'.produced[..|s.fates|] == s.produced[..|s.fates|];
  }

  lemma SourceKeeps<T>(s: State<T>, e: SourceEnv<T>)
    requires Inv(s)
    ensures Defined(s) && Inv(SourceStep(s, e))
  {
    if s.source.Enqueue? && s.source.rest != [] {
      if s.b.bp.BPDone? {
        SourceSettles(s, e);
      } else {
        SourceOffers(s, e);
      }
    } else {
      SourceFetches(s, e);
    }
  }

  /** What a consumer step of the queue changes, as far as the pipeline can tell. */
  lemma QueueConsumerStep<T>(b: B.State<T>, mode: S.Mode, timeout: bool)
    requires B.Inv(b)
    ensures B.Defined(b)
    ensures var b' := B.ConsumerStep(b, mode, timeout);
            && B.Inv(b')
            && b'.bp == b.bp && b'.q.p == b.q.p && b'.q.accepted == b.q.accepted
            && (b.bc.BCDone? ==> b'.bc.BCIdle? && b'.q == b.q && b'.sem == b.sem)
            && (!b.bc.BCDone? ==> !b'.bc.BCIdle?)
            && b'.q.taken == b.q.taken +
                 (if b.bc.BCDequeue? && b'.q.c.CDone? then [b'.q.c.result.value] else [])
            && (b.bc.BCDequeue? && b.q.c.CDone? ==> b'.bc == B.BCDone(b.q.c.result) && b.q.c.result.Some?)
            && (b'.bc.BCDone? && b'.bc.result.Some? ==> b.bc.BCDequeue? && b.q.c.CDone?)
            && (b'.bc.BCDequeue? && b'.q.c.CDone? ==> b.bc.BCDequeue?)
            && (b.bc.BCDequeue? && b.q.c.CDone? ==> !b'.q.c.CDone?)
  {
    B.ConsumerKeeps(b, mode, timeout);
    B.InnerDequeueStep(b.q);
  }

  lemma PickedPrefix<T>(s: State<T>, taken': seq<T>)
    requires |s.uses| <= |s.b.q.taken| && s.b.q.taken <= taken'
    ensures taken'[..|s.uses|] == s.b.q.taken[..|s.uses|]
  {
  }

  lemma SinkWorks<T>(s: State<T>, latest: bool, timeout: bool)
    requires Inv(s) && (s.sink.Drain? || s.sink.Await?) && !s.b.bc.BCDone?
    ensures Defined(s) && Inv(SinkStep(s, latest, timeout))
  {
    hide B.Inv, B.ConsumerStep, B.Defined, SourceInv;
    QueueConsumerStep(s.b, if s.sink.Drain? then S.TryOnly else S.Timed, timeout);
    PickedPrefix(s, SinkStep(s, latest, timeout).b.q.taken);
    SourceUnmoved(s, SinkStep(s, latest, timeout));
  }

  /** Giving the oldest unsettled element a use extends the record by one. */
  lemma PickedExtends<T>(taken: seq<T>, uses: seq<Use>, use: Use)
    requires |uses| < |taken|
    ensures var n := |uses|;
            Picked(taken[..n + 1], uses + [use]) ==
              Picked(taken[..n], uses) + (if use == Used then [taken[n]] else [])
  {
    var n := |uses|;
    assert (uses + [use])[..n] == uses;
    assert taken[..n + 1][..n] == taken[..n];
  }

  /** The source's side does not depend on what the sink changes. */
  lemma SourceUnmoved<T>(s: State<T>, s': State<T>)
    requires SourceInv(s)
    requires s'.source == s.source && s'.produced == s.produced && s'.fates == s.fates
    requires s'.b.bp == s.b.bp && s'.b.q.p == s.b.q.p && s'.b.q.accepted == s.b.q.accepted
    ensures SourceInv(s')
  {
  }

  /** What the pipeline needs to know of a queue whose dequeue has just finished. */
  lemma Finished<T>(b: B.State<T>)
    requires B.Inv(b) && b.bc.BCDone?
    ensures b.sem.acquired == |b.q.taken|
    ensures b.bc.result.Some? ==> B.LastTaken(b, b.bc.result.value)
    ensures b.bc.result.None? ==> b.sem.settled == |b.q.taken|
  {
  }

  /** Delivering the oldest unsettled element when it is the only one. */
  lemma DeliverBooks<T>(s: State<T>, b': B.State<T>, x: T, drained: bool)
    requires SinkInv(s) && |s.b.q.taken| == |s.uses| + 1 && s.b.q.taken[|s.uses|] == x
    requires drained ==> s.b.sem.settled == |s.b.q.taken|
    requires b'.bc.BCIdle? && b'.q.taken == s.b.q.taken && b'.sem.settled == s.b.sem.settled
    ensures SinkInv(Deliver(s.(b := b'), x, drained))
  {
    PickedExtends(s.b.q.taken, s.uses, Used);
  }

  /** Replacing the candidate of a drain by the element just taken. */
  lemma DrainBooks<T>(s: State<T>, s': State<T>, b': B.State<T>)
    requires SinkInv(s) && s.sink.Drain? && s.b.bc.BCDone? && s.b.bc.result.Some?
    requires B.LastTaken(s.b, s.b.bc.result.value)
    requires b'.bc.BCIdle? && b'.q.taken == s.b.q.taken
    requires s' == s.(b := b', sink := Drain(s.b.bc.result),
                      uses := if s.sink.last.Some? then s.uses + [Superseded] else s.uses)
    ensures SinkInv(s')
  {
    if s.sink.last.Some? {
      PickedExtends(s.b.q.taken, s.uses, Superseded);
    }
  }

  lemma SinkBooks<T>(s: State<T>, s': State<T>, latest: bool, timeout: bool)
    requires SinkInv(s) && (s.sink.Drain? || s.sink.Await?) && s.b.bc.BCDone? && Defined(s)
    requires s.b.bc.result.Some? ==> B.LastTaken(s.b, s.b.bc.result.value)
    requires s.b.bc.result.None? ==> s.b.sem.settled == |s.b.q.taken|
    requires s' == SinkStep(s, latest, timeout)
    ensures SinkInv(s')
  {
    if s.b.bc.result.Some? {
      if s.sink.Await? {
        DeliverBooks(s, s'.b, s.b.bc.result.value, false);
      } else {
        DrainBooks(s, s', s'.b);
      }
    } else if s.sink.Drain? && s.sink.last.Some? {
      DeliverBooks(s, s'.b, s.sink.last.value, true);
    }
  }

  lemma SinkSettles<T>(s: State<T>, latest: bool, timeout: bool)
    requires Inv(s) && (s.sink.Drain? || s.sink.Await?) && s.b.bc.BCDone?
    ensures Defined(s) && Inv(SinkStep(s, latest, timeout))
  {
    hide B.Inv, B.ConsumerStep, B.Defined, SourceInv, SinkInv;
    QueueConsumerStep(s.b, if s.sink.Drain? then S.TryOnly else S.Timed, timeout);
    var s' := SinkStep(s, latest, timeout);
    SourceUnmoved(s, s');
    Finished(s.b);
    SinkBooks(s, s', latest, timeout);
  }

  /** Turns of the sink that leave the queue alone. */
  lemma SinkTurns<T>(s: State<T>, latest: bool, timeout: bool)
    requires Defined(s) && Inv(s) && (s.sink.Ready? || s.sink.Delivered?)
    ensures Inv(SinkStep(s, latest, timeout))
  {
    hide B.Inv, B.Defined, B.ConsumerStep;
    SourceUnmoved(s, SinkStep(s, latest, timeout));
  }

  lemma SinkKeeps<T>(s: State<T>, latest: bool, timeout: bool)
    requires Inv(s)
    ensures Defined(s) && Inv(SinkStep(s, latest, timeout))
  {
    Q.InvIsDefined(s.b.q);
    hide B.Inv, SourceInv, SinkInv, SinkStep;
    if s.sink.Ready? || s.sink.Delivered? {
      SinkTurns(s, latest, timeout);
    } else if !s.b.bc.BCDone? {
      SinkWorks(s, latest, timeout);
    } else {
      SinkSettles(s, latest, timeout);
    }
  }

  // --- Runs ------------------------------------------------------------------

  datatype Move<T> = Produce(e: SourceEnv<T>) | Consume(latest: bool, timeout: bool) | Stop

  function Step<T>(s: State<T>, move: Move<T>): State<T>
    requires Defined(s)
  {
    match move
    case Produce(e) => SourceStep(s, e)
    case Consume(latest, timeout) => SinkStep(s, latest, timeout)
    case Stop => StopStep(s)
  }

  lemma StepKeeps<T>(s: State<T>, move: Move<T>)
    requires Inv(s)
    ensures Defined(s) && Inv(Step(s, move))
  {
    match move
    case Produce(e) => SourceKeeps(s, e);
    case Consume(latest, timeout) => SinkKeeps(s, latest, timeout);
    case Stop => Q.InvIsDefined(s.b.q);
  }

  ghost function Run<T>(s: State<T>, moves: seq<Move<T>>): (s': State<T>)
    requires Inv(s)
    ensures Inv(s')
    decreases |moves|
  {
    if moves == [] then s
    else
      StepKeeps(s, moves[0]);
      Run(Step(s, moves[0]), moves[1..])
  }

  /** A pipeline about to run, over a queue for `maxSize` elements. */
  method NewPipeline<T>(maxSize: nat, maxBlock: nat, junk: (nat, nat) -> T) returns (s: State<T>)
    requires 1 <= maxSize && 2 <= maxBlock
    ensures Q.Init(s.b.q, maxSize, maxBlock) && B.Init(s.b) && Init(s) && s.running
  {
    var q := Q.NewQueue(maxSize, maxBlock, junk);
    var sem := S.Sem(0, 0, S.SIdle, S.WIdle, 0, 0, 0);
    s := State(B.State(q, sem, B.BPIdle, B.BCIdle), true, Fetch, Ready, [], [], [], []);
  }

  /** Between calls, every product offered was either dropped by a refused
      enqueue or accepted; the accepted ones, in production order, are those taken
      followed by those still held; and of those taken each was delivered or
      superseded, the deliveries in production order. */
  lemma EveryProductAccounted<T>(s: State<T>, moves: seq<Move<T>>, maxSize: nat, maxBlock: nat)
    requires 1 <= maxSize && 2 <= maxBlock && Q.Init(s.b.q, maxSize, maxBlock) && B.Init(s.b) && Init(s)
    ensures Inv(s)
    ensures var s' := Run(s, moves);
            && (s'.b.bp.BPIdle? ==>
                  Kept(s'.produced[..|s'.fates|], s'.fates) == s'.b.q.taken + s'.b.q.m.Held())
            && (s'.sink.Ready? ==>
                  |s'.uses| == |s'.b.q.taken| && s'.delivered == Picked(s'.b.q.taken, s'.uses))
            && (s'.source.Fetch? ==> |s'.fates| == |s'.produced|)
  {
    InitKeeps(s, maxSize, maxBlock);
    var s' := Run(s, moves);
    assert s'.b.q.taken[..|s'.b.q.taken|] == s'.b.q.taken;
  }

  lemma InitKeeps<T>(s: State<T>, maxSize: nat, maxBlock: nat)
    requires 1 <= maxSize && 2 <= maxBlock && Q.Init(s.b.q, maxSize, maxBlock) && B.Init(s.b) && Init(s)
    ensures Inv(s)
  {
    B.InitKeeps(s.b, maxSize, maxBlock);
    hide B.Inv, Q.Init;
  }

  /** A `getLatestProduct` call that found the queue non-empty returns the newest
      of the products signalled by the time its drain saw the semaphore empty. */
  lemma LatestIsNewest<T>(s: State<T>, moves: seq<Move<T>>)
    requires Inv(s)
    ensures var s' := Run(s, moves);
            s'.sink.Delivered? && s'.sink.drained ==>
              && 0 < s'.b.sem.settled <= |s'.b.q.accepted|
              && s'.sink.result == Some(s'.b.q.accepted[s'.b.sem.settled - 1])
  {
    hide Run, Inv;
    NewestDelivered(Run(s, moves));
  }

  lemma NewestDelivered<T>(s: State<T>)
    requires Inv(s)
    ensures s.sink.Delivered? && s.sink.drained ==>
              && 0 < s.b.sem.settled <= |s.b.q.accepted|
              && s.sink.result == Some(s.b.q.accepted[s.b.sem.settled - 1])
  {
    hide B.Inv, SourceInv;
    if s.sink.Delivered? && s.sink.drained {
      Delivers(s);
    }
  }

  // --- Why a product is dropped ----------------------------------------------------

  /** A refused product met a queue that held its capacity. */
  ghost predicate FullDrops<T>(s: State<T>, maxSize: nat) {
    && s.b.q.capacity == maxSize
    && (s.b.bp == B.BPDone(false) ==> maxSize <= s.b.q.pSaw)
    && forall i :: 0 <= i < |s.fates| && s.fates[i].Dropped? ==> maxSize <= s.fates[i].saw
  }

  lemma QueueProducerSees<T>(q: Q.State<T>, e: Q.Env<T>)
    requires Q.Defined(q)
    ensures var q' := Q.ProducerStep(q, e); q'.capacity == q.capacity && (q.p.PDone? ==> q'.pSaw == q.pSaw)
  {
  }

  lemma QueueConsumerSees<T>(q: Q.State<T>)
    requires Q.Defined(q)
    ensures var q' := Q.ConsumerStep(q); q'.capacity == q.capacity && q'.pSaw == q.pSaw
  {
  }

  lemma ProducerSees<T>(b: B.State<T>, e: Q.Env<T>)
    requires B.Inv(b)
    ensures B.Defined(b)
    ensures var b' := B.ProducerStep(b, e);
            && b'.q.capacity == b.q.capacity
            && (b.bp.BPDone? ==> b'.bp.BPIdle?)
            && (b'.bp == B.BPDone(false) ==> b.q.capacity <= b'.q.pSaw)
  {
    Q.InvIsDefined(b.q);
    QueueProducerSees(b.q, e);
    hide Q.ProducerStep;
  }

  lemma ConsumerSees<T>(b: B.State<T>, mode: S.Mode, timeout: bool)
    requires B.Inv(b)
    ensures B.Defined(b)
    ensures var b' := B.ConsumerStep(b, mode, timeout);
            b'.q.capacity == b.q.capacity && b'.q.pSaw == b.q.pSaw && b'.bp == b.bp
  {
    Q.InvIsDefined(b.q);
    QueueConsumerSees(b.q);
    hide Q.ConsumerStep;
  }

  lemma SourceKeepsFullDrops<T>(s: State<T>, e: SourceEnv<T>, maxSize: nat)
    requires B.Inv(s.b) && FullDrops(s, maxSize)
    ensures Defined(s) && FullDrops(SourceStep(s, e), maxSize)
  {
    hide B.Inv, B.ProducerStep, B.Defined;
    ProducerSees(s.b, e.inner);
    if s.source.Enqueue? && s.source.rest != [] {
      ProducerSees(s.b, e.inner.(x := s.source.rest[0], alloc := false));
    }
  }

  lemma SinkKeepsFullDrops<T>(s: State<T>, latest: bool, timeout: bool, maxSize: nat)
    requires B.Inv(s.b) && FullDrops(s, maxSize)
    ensures Defined(s) && FullDrops(SinkStep(s, latest, timeout), maxSize)
  {
    hide B.Inv, B.ConsumerStep, B.Defined;
    ConsumerSees(s.b, S.TryOnly, timeout);
    ConsumerSees(s.b, S.Timed, timeout);
  }

  lemma StepKeepsFullDrops<T>(s: State<T>, move: Move<T>, maxSize: nat)
    requires Inv(s) && FullDrops(s, maxSize)
    ensures Defined(s) && FullDrops(Step(s, move), maxSize)
  {
    hide B.Inv, SourceInv, SinkInv, SourceStep, SinkStep;
    StepKeeps(s, move);
    match move {
      case Produce(e) => SourceKeepsFullDrops(s, e, maxSize);
      case Consume(latest, timeout) => SinkKeepsFullDrops(s, latest, timeout, maxSize);
      case Stop =>
    }
  }

  lemma {:induction false} RunKeepsFullDrops<T>(s: State<T>, moves: seq<Move<T>>, maxSize: nat)
    requires Inv(s) && FullDrops(s, maxSize)
    ensures FullDrops(Run(s, moves), maxSize)
    decreases |moves|
  {
    hide Inv, FullDrops, Step;
    if moves != [] {
      StepKeeps(s, moves[0]);
      StepKeepsFullDrops(s, moves[0], maxSize);
      RunKeepsFullDrops(Step(s, moves[0]), moves[1..], maxSize);
    }
  }

  /** A product is dropped only if the queue held at least `maxSize` elements when the enqueue
      found its block full. */
  lemma DroppedOnlyWhenFull<T>(s: State<T>, moves: seq<Move<T>>, maxSize: nat, maxBlock: nat)
    requires 1 <= maxSize && 2 <= maxBlock && Q.Init(s.b.q, maxSize, maxBlock) && B.Init(s.b) && Init(s)
    ensures Inv(s)
    ensures var s' := Run(s, moves);
            forall i :: 0 <= i < |s'.fates| && s'.fates[i].Dropped? ==> maxSize <= s'.fates[i].saw
  {
    InitKeeps(s, maxSize, maxBlock);
    RunKeepsFullDrops(s, moves, maxSize);
  }

  // --- The queue of a pipeline is bounded ---------------------------------------------

  ghost predicate Fixed<T>(s: State<T>, blocks: nat) {
    Q.Kind(s.b.q.p, false) && |s.b.q.m.blocks| == blocks
  }

  lemma ProducerFixed<T>(b: B.State<T>, e: Q.Env<T>)
    requires B.Inv(b) && Q.Kind(b.q.p, false) && (b.bp.BPDone? || !e.alloc)
    ensures B.Defined(b)
    ensures var b' := B.ProducerStep(b, e); Q.Kind(b'.q.p, false) && |b'.q.m.blocks| == |b.q.m.blocks|
  {
    Q.InvIsDefined(b.q);
    if b.bp.BPIdle? || b.bp.BPEnqueue? {
      Q.ProducerKind(b.q, e, false);
    }
    hide Q.ProducerStep, Q.Kind;
  }

  lemma ConsumerFixed<T>(b: B.State<T>, mode: S.Mode, timeout: bool)
    requires B.Inv(b)
    ensures B.Defined(b)
    ensures var b' := B.ConsumerStep(b, mode, timeout); b'.q.p == b.q.p && |b'.q.m.blocks| == |b.q.m.blocks|
  {
    Q.InvIsDefined(b.q);
    Q.ConsumerKind(b.q);
    hide Q.ConsumerStep;
  }

  lemma SourceFixed<T>(s: State<T>, e: SourceEnv<T>, blocks: nat)
    requires B.Inv(s.b) && Fixed(s, blocks)
    ensures Defined(s) && Fixed(SourceStep(s, e), blocks)
  {
    hide B.Inv, B.ProducerStep, B.Defined, Q.Kind;
    DefinedHere(s);
    if s.source.Enqueue? && s.source.rest != [] {
      if s.b.bp.BPDone? {
        ProducerFixed(s.b, e.inner);
      } else {
        ProducerFixed(s.b, e.inner.(x := s.source.rest[0], alloc := false));
      }
    }
  }

  lemma DefinedHere<T>(s: State<T>)
    requires B.Inv(s.b)
    ensures Defined(s)
  {
    Q.InvIsDefined(s.b.q);
  }

  lemma SinkFixed<T>(s: State<T>, latest: bool, timeout: bool, blocks: nat)
    requires B.Inv(s.b) && Fixed(s, blocks)
    ensures Defined(s) && Fixed(SinkStep(s, latest, timeout), blocks)
  {
    hide B.Inv, B.ConsumerStep, B.Defined, Q.Kind;
    ConsumerFixed(s.b, S.TryOnly, timeout);
    ConsumerFixed(s.b, S.Timed, timeout);
  }

  lemma {:induction false} RunFixed<T>(s: State<T>, moves: seq<Move<T>>, blocks: nat)
    requires Inv(s) && Fixed(s, blocks)
    ensures Fixed(Run(s, moves), blocks)
    decreases |moves|
  {
    hide B.Inv, SourceInv, SinkInv, SourceStep, SinkStep, Fixed;
    if moves != [] {
      StepKeeps(s, moves[0]);
      match moves[0] {
        case Produce(e) => SourceFixed(s, e, blocks);
        case Consume(latest, timeout) => SinkFixed(s, latest, timeout, blocks);
        case Stop => StopFixed(s, blocks);
      }
      RunFixed(Step(s, moves[0]), moves[1..], blocks);
    }
  }

  lemma StopFixed<T>(s: State<T>, blocks: nat)
    requires Fixed(s, blocks)
    ensures Fixed(StopStep(s), blocks)
  {
  }

  /** However long it runs, a pipeline keeps the blocks its queue was built with. */
  lemma QueueNeverGrows<T>(s: State<T>, moves: seq<Move<T>>, maxSize: nat, maxBlock: nat)
    requires 1 <= maxSize && 2 <= maxBlock && Q.Init(s.b.q, maxSize, maxBlock) && B.Init(s.b) && Init(s)
    ensures Inv(s) && |Run(s, moves).b.q.m.blocks| == Q.InitialCount(maxSize, maxBlock)
  {
    hide B.Inv, SourceInv, SinkInv, Q.Init, Q.Kind;
    InitKeeps(s, maxSize, maxBlock);
    Q.InitSized(s.b.q, maxSize, maxBlock);
    RunFixed(s, moves, Q.InitialCount(maxSize, maxBlock));
  }

  // --- What one delivery returns -------------------------------------------------------

  /** The call under way has not returned before the last move. */
  ghost predicate Under<T>(s: State<T>, moves: seq<Move<T>>)
    requires Inv(s)
    decreases |moves|
  {
    moves == [] ||
    (&& (s.sink.Drain? || s.sink.Await?)
     && (StepKeeps(s, moves[0]);
         Under(Step(s, moves[0]), moves[1..])))
  }

  /** A `getLatestProduct` call that began when `k` products had been signalled: it gives up its
      drain only after it has been through those, and waits only after that. */
  ghost predicate Draining<T>(s: State<T>, k: nat) {
    && k <= s.b.sem.signalled
    && (s.b.sem.w == S.WDone(false) || s.b.bc == B.BCDone(None) ==> k <= s.b.sem.settled)
    && (s.sink.Drain? || s.sink.Await? || s.sink.Delivered?)
    && (s.sink.Await? || s.sink.Delivered? ==> k <= |s.uses|)
  }

  lemma SignalSettles(sem: S.Sem, n: nat)
    ensures var sem' := S.SignalStep(sem, n);
            sem.signalled <= sem'.signalled && sem'.settled == sem.settled && sem'.w == sem.w
  {
  }

  lemma WaitSettles(sem: S.Sem, mode: S.Mode, timeout: bool)
    ensures var sem' := S.WaitStep(sem, mode, timeout);
            && sem'.signalled == sem.signalled
            && (sem'.w == S.WDone(false) ==> sem'.settled == sem.signalled)
            && (sem'.w != S.WDone(false) ==> sem'.settled == sem.settled)
            && (sem.w.WDone? ==> sem'.w.WIdle?)
  {
  }

  lemma ProducerDrains<T>(b: B.State<T>, e: Q.Env<T>)
    requires B.Defined(b)
    ensures var b' := B.ProducerStep(b, e);
            && b.sem.signalled <= b'.sem.signalled && b'.sem.settled == b.sem.settled && b'.sem.w == b.sem.w
            && b'.bc == b.bc
  {
    hide Q.ProducerStep;
    SignalSettles(b.sem, 1);
  }

  lemma ConsumerDrains<T>(b: B.State<T>, mode: S.Mode, timeout: bool)
    requires B.Inv(b)
    ensures B.Defined(b)
    ensures var b' := B.ConsumerStep(b, mode, timeout);
            && b'.sem.signalled == b.sem.signalled
            && (b'.sem.w == S.WDone(false) ==> b'.sem.settled == b.sem.signalled)
            && (b'.bc == B.BCDone(None) ==> b.sem.w == S.WDone(false) && b'.sem.settled == b.sem.settled)
            && (b.bc.BCDone? ==> b'.sem == b.sem && b'.bc.BCIdle?)
            && (b.bc == B.BCDone(None) ==> b.sem.settled == |b.q.taken|)
  {
    Q.InvIsDefined(b.q);
    WaitSettles(b.sem, mode, timeout);
    B.HeldCoversInHand(b);
    hide Q.ConsumerStep;
  }

  lemma SinkDrains<T>(s: State<T>, latest: bool, timeout: bool, k: nat)
    requires Inv(s) && Draining(s, k) && (s.sink.Drain? || s.sink.Await?)
    ensures Defined(s) && Draining(SinkStep(s, latest, timeout), k)
  {
    hide B.ConsumerStep, B.Defined, SourceInv, Q.Inv, S.Inv;
    ConsumerDrains(s.b, if s.sink.Drain? then S.TryOnly else S.Timed, timeout);
  }

  lemma SourceDrains<T>(s: State<T>, e: SourceEnv<T>, k: nat)
    requires Defined(s) && Draining(s, k)
    ensures Draining(SourceStep(s, e), k)
  {
    hide B.ProducerStep, B.Defined;
    ProducerDrains(s.b, e.inner);
    if s.source.Enqueue? && s.source.rest != [] {
      ProducerDrains(s.b, e.inner.(x := s.source.rest[0], alloc := false));
    }
  }

  lemma {:induction false} CallDrains<T>(s: State<T>, moves: seq<Move<T>>, k: nat)
    requires Inv(s) && Draining(s, k) && Under(s, moves)
    ensures Draining(Run(s, moves), k)
    decreases |moves|
  {
    hide B.Inv, SourceInv, SinkInv, SourceStep, SinkStep, Draining;
    if moves != [] {
      StepKeeps(s, moves[0]);
      match moves[0] {
        case Produce(e) => SourceDrains(s, e, k);
        case Consume(latest, timeout) => SinkDrains(s, latest, timeout, k);
        case Stop => StopDrains(s, k);
      }
      CallDrains(Step(s, moves[0]), moves[1..], k);
    }
  }

  lemma StopDrains<T>(s: State<T>, k: nat)
    requires Draining(s, k)
    ensures Draining(StopStep(s), k)
  {
  }

  /** A delivery begun: `getLatestProduct`, or a turn of the consumer loop. */
  ghost function Begun<T>(s: State<T>, latest: bool, timeout: bool): (s': State<T>)
    requires Inv(s)
    ensures Inv(s')
  {
    StepKeeps(s, Consume(latest, timeout));
    Step(s, Consume(latest, timeout))
  }

  /** In every run, what a `getLatestProduct` call returns is never older than the newest product
      signalled when the call began. */
  lemma LatestNeverStale<T>(s: State<T>, before: seq<Move<T>>, timeout: bool, during: seq<Move<T>>)
    requires Inv(s) && Run(s, before).sink.Ready?
    requires Under(Begun(Run(s, before), true, timeout), during)
    ensures var s1, s3 := Run(s, before), Run(Begun(Run(s, before), true, timeout), during);
            s3.sink.Delivered? && s3.sink.result.Some? ==>
              exists i :: s1.b.sem.signalled - 1 <= i < |s3.b.q.accepted| && 0 <= i
                          && s3.b.q.accepted[i] == s3.sink.result.value
  {
    hide Under, B.Inv, Q.Inv;
    var s1 := Run(s, before);
    var s2 := Begun(s1, true, timeout);
    var k := s1.b.sem.signalled;
    BeginsDraining(s1, timeout);
    CallDrains(s2, during, k);
    var s3 := Run(s2, during);
    if s3.sink.Delivered? && s3.sink.result.Some? {
      Delivers(s3);
      assert s3.b.q.accepted[|s3.uses| - 1] == s3.sink.result.value;
    }
  }

  lemma BeginsDraining<T>(s: State<T>, timeout: bool)
    requires Inv(s) && s.sink.Ready?
    ensures Draining(Begun(s, true, timeout), s.b.sem.signalled)
  {
    hide Q.Inv, S.Inv, SourceInv;
  }

  /** A product delivered is the last one used, and was accepted there. */
  lemma Delivers<T>(s: State<T>)
    requires Inv(s) && s.sink.Delivered? && s.sink.result.Some?
    ensures 0 < |s.uses| <= |s.b.q.taken| && s.b.q.taken <= s.b.q.accepted
    ensures s.b.q.accepted[|s.uses| - 1] == s.sink.result.value
  {
    hide Q.Inv, S.Inv, SourceInv;
    B.InnerBooks(s.b.q);
  }

  /** A turn of the consumer loop that began after `n` products had been used. */
  ghost predicate Waiting<T>(s: State<T>, n: nat) {
    || (s.sink.Await? && |s.uses| == n)
    || (s.sink.Delivered? && (s.sink.result.Some? ==> |s.uses| == n + 1))
  }

  lemma SinkWaits<T>(s: State<T>, latest: bool, timeout: bool, n: nat)
    requires Defined(s) && Waiting(s, n) && s.sink.Await?
    ensures Waiting(SinkStep(s, latest, timeout), n)
  {
    hide B.ConsumerStep, B.Defined;
  }

  lemma SourceWaits<T>(s: State<T>, e: SourceEnv<T>, n: nat)
    requires Defined(s) && Waiting(s, n)
    ensures Waiting(SourceStep(s, e), n) && SourceStep(s, e).sink == s.sink
  {
    hide B.ProducerStep, B.Defined;
  }

  lemma {:induction false} CallWaits<T>(s: State<T>, moves: seq<Move<T>>, n: nat)
    requires Inv(s) && Waiting(s, n) && Under(s, moves)
    ensures Waiting(Run(s, moves), n)
    decreases |moves|
  {
    hide B.Inv, SourceInv, SinkInv, SourceStep, SinkStep;
    if moves != [] {
      StepKeeps(s, moves[0]);
      match moves[0] {
        case Produce(e) => SourceWaits(s, e, n);
        case Consume(latest, timeout) => SinkWaits(s, latest, timeout, n);
        case Stop =>
      }
      CallWaits(Step(s, moves[0]), moves[1..], n);
    }
  }

  /** A turn of the consumer loop delivers the oldest product not yet used, and skips none. */
  lemma ConsumerTakesNext<T>(s: State<T>, before: seq<Move<T>>, timeout: bool, during: seq<Move<T>>)
    requires Inv(s) && Run(s, before).sink.Ready? && Run(s, before).running
    requires Under(Begun(Run(s, before), false, timeout), during)
    ensures var s1, s3 := Run(s, before), Run(Begun(Run(s, before), false, timeout), during);
            s3.sink.Delivered? && s3.sink.result.Some? ==>
              |s1.uses| < |s3.b.q.accepted| && s3.b.q.accepted[|s1.uses|] == s3.sink.result.value
  {
    hide Under, B.Inv, Q.Inv;
    var s1 := Run(s, before);
    var s2 := Begun(s1, false, timeout);
    CallWaits(s2, during, |s1.uses|);
    var s3 := Run(s2, during);
    if s3.sink.Delivered? && s3.sink.result.Some? {
      Delivers(s3);
    }
  }

  // --- Stopping ----------------------------------------------------------------------

  /** A pipeline that has been stopped fetches nothing more, whatever is still under way. */
  lemma {:induction false} StoppedFetchesNothing<T>(s: State<T>, moves: seq<Move<T>>)
    requires Inv(s) && !s.running
    ensures var s' := Run(s, moves); !s'.running && s'.produced == s.produced
    decreases |moves|
  {
    hide B.Inv, SourceInv, SinkInv, B.ProducerStep, B.ConsumerStep;
    if moves != [] {
      StepKeeps(s, moves[0]);
      StoppedFetchesNothing(Step(s, moves[0]), moves[1..]);
    }
  }

  /** So does one whose producer has failed. */
  lemma FailureStops<T>(s: State<T>, e: SourceEnv<T>, moves: seq<Move<T>>)
    requires Inv(s) && s.source.Fetch? && e.failed
    ensures Defined(s) && Inv(Step(s, Produce(e)))
    ensures Run(Step(s, Produce(e)), moves).produced == s.produced
  {
    hide B.Inv, SourceInv, SinkInv;
    StepKeeps(s, Produce(e));
    StoppedFetchesNothing(Step(s, Produce(e)), moves);
  }

  // --- Which waits block, and which give up ---------------------------------------------

  predicate Quick(w: S.Waiter) { w.WIdle? || w == S.WLoad(S.TryOnly) || w.WClaim? || w.WDone? }

  predicate Patient(w: S.Waiter) {
    || w.WIdle? || w == S.WLoad(S.Timed) || w.WClaim? || w.WSpin? || w.WTake? || w.WBlock? || w == S.WDone(true)
  }

  lemma QuickStep(sem: S.Sem, timeout: bool)
    requires Quick(sem.w)
    ensures Quick(S.WaitStep(sem, S.TryOnly, timeout).w)
  {
  }

  lemma PatientStep(sem: S.Sem)
    requires Patient(sem.w)
    ensures Patient(S.WaitStep(sem, S.Timed, false).w)
  {
  }

  /** The drain never blocks; the wait after it never gives up unless it times out. */
  ghost predicate Manners<T>(s: State<T>) {
    && (s.sink.Drain? ==> Quick(s.b.sem.w))
    && (s.sink.Await? ==> Patient(s.b.sem.w) && s.b.bc != B.BCDone(None))
    && (s.sink.Delivered? ==> s.sink.result.Some?)
  }

  lemma ConsumerManners<T>(b: B.State<T>, mode: S.Mode, timeout: bool)
    requires B.Inv(b)
    ensures B.Defined(b)
    ensures var b' := B.ConsumerStep(b, mode, timeout);
            && (mode == S.TryOnly && Quick(b.sem.w) ==> Quick(b'.sem.w))
            && (mode == S.Timed && !timeout && Patient(b.sem.w) ==> Patient(b'.sem.w) && b'.bc != B.BCDone(None))
            && (b.bc.BCDone? ==> b'.bc.BCIdle? && b'.sem.w.WIdle?)
  {
    Q.InvIsDefined(b.q);
    if mode == S.TryOnly && Quick(b.sem.w) {
      QuickStep(b.sem, timeout);
    }
    if mode == S.Timed && !timeout && Patient(b.sem.w) {
      PatientStep(b.sem);
    }
    QueueConsumerStep(b, mode, timeout);
    hide Q.ConsumerStep, Quick, Patient, Q.Inv, S.WaitStep;
  }

  lemma SinkManners<T>(s: State<T>, latest: bool, timeout: bool)
    requires Inv(s) && Manners(s) && (s.sink.Drain? || (s.sink.Await? && !timeout))
    ensures Defined(s) && Manners(SinkStep(s, latest, timeout))
  {
    hide B.ConsumerStep, B.Defined, SourceInv, SinkInv, B.Inv;
    ConsumerManners(s.b, if s.sink.Drain? then S.TryOnly else S.Timed, timeout);
  }

  lemma SourceManners<T>(s: State<T>, e: SourceEnv<T>)
    requires Defined(s) && Manners(s)
    ensures Manners(SourceStep(s, e))
  {
    hide B.ProducerStep, B.Defined, Quick, Patient;
    ProducerDrains(s.b, e.inner);
    if s.source.Enqueue? && s.source.rest != [] {
      ProducerDrains(s.b, e.inner.(x := s.source.rest[0], alloc := false));
    }
  }

  lemma {:induction false} CallManners<T>(s: State<T>, moves: seq<Move<T>>)
    requires Inv(s) && Manners(s) && Under(s, moves)
    requires forall k :: 0 <= k < |moves| && moves[k].Consume? ==> !moves[k].timeout
    ensures Manners(Run(s, moves))
    decreases |moves|
  {
    hide B.Inv, SourceInv, SinkInv, SourceStep, SinkStep, Manners;
    if moves != [] {
      StepKeeps(s, moves[0]);
      match moves[0] {
        case Produce(e) => SourceManners(s, e);
        case Consume(latest, timeout) => SinkManners(s, latest, timeout);
        case Stop => StopManners(s);
      }
      CallManners(Step(s, moves[0]), moves[1..]);
    }
  }

  lemma StopManners<T>(s: State<T>)
    requires Manners(s)
    ensures Manners(StopStep(s))
  {
  }

  /** A delivery that does not time out delivers: while it drains it never blocks, and when it
      waits it never comes back with nothing. */
  lemma NoTimeoutNoGivingUp<T>(s: State<T>, before: seq<Move<T>>, latest: bool, during: seq<Move<T>>)
    requires Inv(s) && Run(s, before).sink.Ready? && (latest || Run(s, before).running)
    requires Under(Begun(Run(s, before), latest, false), during)
    requires forall k :: 0 <= k < |during| && during[k].Consume? ==> !during[k].timeout
    ensures var s3 := Run(Begun(Run(s, before), latest, false), during);
            && (s3.sink.Delivered? ==> s3.sink.result.Some?)
            && (s3.sink.Drain? ==> !s3.b.sem.w.WSpin? && !s3.b.sem.w.WBlock?)
  {
    hide Under, Inv, Run, Begun;
    var s1 := Run(s, before);
    MannersBegin(s1, latest);
    CallManners(Begun(s1, latest, false), during);
  }

  lemma MannersBegin<T>(s: State<T>, latest: bool)
    requires Inv(s) && s.sink.Ready? && (latest || s.running)
    ensures Manners(Begun(s, latest, false))
  {
    hide Q.Inv, S.Inv, SourceInv;
  }
}
