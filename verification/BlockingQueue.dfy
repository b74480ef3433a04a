/** The blocking queue: the lock-free queue and the semaphore composed, each call
    running the inner operations step by step, so that a schedule interleaves the
    atomic steps of both inside both threads. */
module BlockingQueue {
  import opened Wrappers
  import Q = ReaderWriterQueue
  import S = LightweightSemaphore

  /** `tryEnqueue` and `enqueue`. */
  datatype Producer = BPIdle | BPEnqueue | BPSignal | BPDone(ok: bool)

  /** `tryDequeue`, `waitDequeue` and `waitDequeTimed`. */
  datatype Consumer<T> = BCIdle | BCWait | BCDequeue | BCDone(result: Option<T>)

  datatype State<T> = State(q: Q.State<T>, sem: S.Sem, bp: Producer, bc: Consumer<T>)

  predicate Defined<T>(s: State<T>) { Q.Defined(s.q) }

  // --- Steps ---------------------------------------------------------------

  function ProducerStep<T>(s: State<T>, e: Q.Env<T>): State<T>
    requires Defined(s)
  {
    match s.bp
    case BPIdle => s.(q := Q.ProducerStep(s.q, e), bp := BPEnqueue)
    case BPEnqueue =>
      s.(q := Q.ProducerStep(s.q, e),
         bp := if !s.q.p.PDone? then BPEnqueue else if s.q.p.ok then BPSignal else BPDone(false))
    case BPSignal =>
      s.(sem := S.SignalStep(s.sem, 1), bp := if s.sem.sg.SDone? then BPDone(true) else BPSignal)
    case BPDone(_) => s.(bp := BPIdle)
  }

  function ConsumerStep<T>(s: State<T>, mode: S.Mode, timeout: bool): State<T>
    requires Defined(s)
  {
    match s.bc
    case BCIdle => s.(sem := S.WaitStep(s.sem, mode, timeout), bc := BCWait)
    case BCWait =>
      s.(sem := S.WaitStep(s.sem, mode, timeout),
         bc := if !s.sem.w.WDone? then BCWait else if s.sem.w.ok then BCDequeue else BCDone(None))
    case BCDequeue =>
      s.(q := Q.ConsumerStep(s.q), bc := if s.q.c.CDone? then BCDone(s.q.c.result) else BCDequeue)
    case BCDone(_) => s.(bc := BCIdle)
  }

  // --- Invariant -----------------------------------------------------------

  /** Elements enqueued whose signal has not reached the count yet. */
  function Unsignalled<T>(s: State<T>): nat {
    if (s.bp.BPSignal? && (s.sem.sg.SIdle? || s.sem.sg.SAdd?)) || (s.bp.BPEnqueue? && s.q.p == Q.PDone(true))
    then 1 else 0
  }

  /** Units acquired whose element has not been dequeued yet. */
  function InHand<T>(s: State<T>): nat {
    if (s.bc.BCWait? && s.sem.w == S.WDone(true)) || (s.bc.BCDequeue? && !s.q.c.CDone?) then 1 else 0
  }

  ghost predicate LastTaken<T>(s: State<T>, x: T) {
    0 < |s.q.taken| && s.q.taken[|s.q.taken| - 1] == x
  }

  ghost predicate Inv<T>(s: State<T>) {
    && Q.Inv(s.q) && S.Inv(s.sem)
    && (s.bp.BPEnqueue? <==> !s.q.p.PIdle?)
    && (!s.bp.BPSignal? ==> s.sem.sg == S.SIdle)
    && (s.sem.sg.SAdd? ==> s.sem.sg.n == 1)
    && (s.bc.BCWait? <==> !s.sem.w.WIdle?)
    && (!s.bc.BCDequeue? ==> s.q.c == Q.CIdle)
    && |s.q.accepted| == s.sem.signalled + Unsignalled(s)
    && s.sem.acquired == |s.q.taken| + InHand(s)
    && (s.bc.BCDequeue? && (s.q.c.CReadTailBlock? || s.q.c == Q.CDone(None)) ==> 0 < s.q.cSaw)
    && (s.bc == BCDone(None) ==> s.sem.settled == s.sem.acquired)
    && (s.bc.BCDequeue? && s.q.c.CDone? && s.q.c.result.Some? ==> LastTaken(s, s.q.c.result.value))
    && (s.bc.BCDone? && s.bc.result.Some? ==> LastTaken(s, s.bc.result.value))
  }

  predicate Init<T>(s: State<T>) {
    s.bp == BPIdle && s.bc.BCIdle? && S.Init(s.sem)
  }

  /** What an inner step of the producer leaves alone and when it accepts. */
  lemma InnerEnqueueStep<T>(q: Q.State<T>, e: Q.Env<T>)
    requires Q.Defined(q)
    ensures var q' := Q.ProducerStep(q, e);
            && q'.c == q.c && q'.taken == q.taken && q'.cSaw == q.cSaw
            && q'.accepted == q.accepted + (if q'.p == Q.PDone(true) then [q.p.x] else [])
            && (q.p.PIdle? ==> q'.p.PReadTailBlock? && q'.p.x == e.x && q'.p.alloc == e.alloc)
            && (!q.p.PIdle? && !q.p.PDone? && !q'.p.PDone? ==> q'.p.x == q.p.x)
            && (q.p.PDone? <==> q'.p.PIdle?)
  {
    match q.p {
      case PReadFront(_, _, _, _, _) =>
      case PReadFrontBlock(_, _, _, _) =>
      case PAllocate(_, _) =>
      case PLink(_, _, _) =>
      case PStoreTail(_, _, _) =>
      case PStoreTailBlock(_, _) =>
      case _ =>
    }
  }

  lemma InnerDequeueStep<T>(q: Q.State<T>)
    requires Q.Defined(q)
    ensures var q' := Q.ConsumerStep(q);
            && q'.p == q.p && q'.accepted == q.accepted
            && q'.taken == q.taken + (if q'.c.CDone? && q'.c.result.Some? then [q'.c.result.value] else [])
            && (q.c.CDone? <==> q'.c.CIdle?)
            && (q'.c == Q.CDone(None) ==> q.c.CReadTailBlock? && q'.cSaw == q.cSaw)
            && (q'.c.CReadTailBlock? ==> q'.cSaw == |q.m.Held()|)
  {
  }

  lemma ProducerKeepsInner<T>(s: State<T>, e: Q.Env<T>)
    requires Inv(s) && (s.bp.BPIdle? || s.bp.BPEnqueue?)
    ensures Defined(s) && Inv(ProducerStep(s, e))
  {
    Q.ProducerKeeps(s.q, e);
    InnerEnqueueStep(s.q, e);
  }

  lemma ProducerKeeps<T>(s: State<T>, e: Q.Env<T>)
    requires Inv(s)
    ensures Defined(s) && Inv(ProducerStep(s, e))
  {
    Q.InvIsDefined(s.q);
    if s.bp.BPIdle? || s.bp.BPEnqueue? {
      ProducerKeepsInner(s, e);
    } else {
      S.SignalKeeps(s.sem, 1);
    }
  }

  lemma InnerBooks<T>(q: Q.State<T>)
    requires Q.Inv(q)
    ensures q.m.InBounds() && q.accepted == q.taken + q.m.Held()
    ensures q.c == Q.CDone(None) ==> q.cSaw == 0
  {
  }

  /** Whoever holds a unit finds an element. */
  lemma HeldCoversInHand<T>(s: State<T>)
    requires Inv(s)
    ensures |s.q.m.Held()| == (s.sem.signalled - s.sem.acquired) + Unsignalled(s) + InHand(s)
  {
    assert |s.q.accepted| == |s.q.taken| + |s.q.m.Held()|;
  }

  /** What a step of the semaphore's waiter leaves alone and when it acquires. */
  lemma InnerWaitStep(sem: S.Sem, mode: S.Mode, timeout: bool)
    requires S.Inv(sem)
    ensures var sem' := S.WaitStep(sem, mode, timeout);
            && S.Inv(sem')
            && sem'.sg == sem.sg && sem'.signalled == sem.signalled
            && sem'.acquired == sem.acquired + (if sem'.w == S.WDone(true) && !sem.w.WDone? then 1 else 0)
            && (sem.w.WDone? <==> sem'.w.WIdle?)
            && (sem.w.WDone? ==> sem'.settled == sem.settled)
  {
    S.WaitKeeps(sem, mode, timeout);
  }

  lemma ConsumerKeepsWait<T>(s: State<T>, mode: S.Mode, timeout: bool)
    requires Inv(s) && (s.bc.BCIdle? || s.bc.BCWait?)
    ensures Defined(s) && Inv(ConsumerStep(s, mode, timeout))
  {
    Q.InvIsDefined(s.q);
    InnerWaitStep(s.sem, mode, timeout);
    hide S.WaitStep, S.Inv;
  }

  lemma ConsumerKeepsInner<T>(s: State<T>, mode: S.Mode, timeout: bool)
    requires Inv(s) && s.bc.BCDequeue?
    ensures Defined(s) && Inv(ConsumerStep(s, mode, timeout))
  {
    Q.ConsumerKeeps(s.q);
    InnerDequeueStep(s.q);
    HeldCoversInHand(s);
  }

  lemma ConsumerKeeps<T>(s: State<T>, mode: S.Mode, timeout: bool)
    requires Inv(s)
    ensures Defined(s) && Inv(ConsumerStep(s, mode, timeout))
  {
    match s.bc
    case BCIdle => ConsumerKeepsWait(s, mode, timeout);
    case BCWait => ConsumerKeepsWait(s, mode, timeout);
    case BCDequeue => ConsumerKeepsInner(s, mode, timeout);
    case BCDone(_) => Q.InvIsDefined(s.q);
  }

  // --- Runs ------------------------------------------------------------------

  datatype Move<T> = Produce(e: Q.Env<T>) | Consume(mode: S.Mode, timeout: bool)

  function Step<T>(s: State<T>, move: Move<T>): State<T>
    requires Defined(s)
  {
    match move
    case Produce(e) => ProducerStep(s, e)
    case Consume(mode, timeout) => ConsumerStep(s, mode, timeout)
  }

  lemma StepKeeps<T>(s: State<T>, move: Move<T>)
    requires Inv(s)
    ensures Defined(s) && Inv(Step(s, move))
  {
    match move
    case Produce(e) => ProducerKeeps(s, e);
    case Consume(mode, timeout) => ConsumerKeeps(s, mode, timeout);
  }

  ghost function Run<T>(s: State<T>, moves: seq<Move<T>>): (s': State<T>)
    requires Inv(s)
    ensures Inv(s')
    decreases |moves|
  {
    if moves == [] then s
    else
      StepKeeps(s, moves[0]);
      Run(Step(s, moves[0]), moves[1..])
  }

  lemma InitKeeps<T>(s: State<T>, maxSize: nat, maxBlock: nat)
    requires 1 <= maxSize && 2 <= maxBlock && Q.Init(s.q, maxSize, maxBlock) && Init(s)
    ensures Inv(s)
  {
    Q.InitKeeps(s.q, maxSize, maxBlock);
    assert s.q.accepted == [] && s.q.taken == [] && s.q.p == Q.PIdle && s.q.c == Q.CIdle;
    hide Q.Inv, Q.Init;
  }

  /** In every reachable state the elements held are the units available, plus
      those enqueued but not yet signalled, plus those acquired but not yet
      dequeued; so the inner dequeue after a successful wait never fails. */
  lemma EveryInterleaving<T>(s: State<T>, moves: seq<Move<T>>, maxSize: nat, maxBlock: nat)
    requires 1 <= maxSize && 2 <= maxBlock && Q.Init(s.q, maxSize, maxBlock) && Init(s)
    ensures Inv(s)
    ensures var s' := Run(s, moves);
            && |s'.q.m.Held()| == (s'.sem.count + (if S.InDebt(s'.sem.w) then 1 else 0)) + Unsignalled(s') + InHand(s')
            && (s'.bc.BCDequeue? ==> s'.q.c != Q.CDone(None))
            && s'.q.accepted == s'.q.taken + s'.q.m.Held()
  {
    hide Q.Init, Q.Inv, Run;
    InitKeeps(s, maxSize, maxBlock);
    var s' := Run(s, moves);
    HeldCoversInHand(s');
    InnerBooks(s'.q);
  }
}
