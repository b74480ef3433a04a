/** The counting semaphore that spins before it blocks, for one signaling and one
    waiting thread.  Every access to the atomic count and every operation on the
    kernel semaphore is one step; the kernel semaphore is an ideal token counter
    whose timed wait may give up at any moment. */
module LightweightSemaphore {

  /** Program counter of `signal`. */
  datatype Signaler = SIdle | SAdd(n: nat) | SPost | SDone

  datatype Mode = TryOnly | Forever | Timed

  /** Program counter of `tryWait` and `wait`, including the spin loop and the
      repair loop entered after a timeout. */
  datatype Waiter =
    | WIdle
    | WLoad(mode: Mode)                  // tryWait: load
    | WClaim                             // a positive count was seen: fetch-add -1
    | WSpin(mode: Mode, left: nat)       // spin loop
    | WTake(mode: Mode)                  // fetch-add -1 after the spin loop
    | WBlock(mode: Mode)                 // on the kernel semaphore
    | WRestore                           // repair loop: fetch-add +1
    | WRetake                            // repair loop: fetch-add -1
    | WKernelTry                         // repair loop: kernel tryWait
    | WDone(ok: bool)

  const SPINS: nat := 10000

  datatype Sem = Sem(
    count: int,
    tokens: nat,        // kernel semaphore
    sg: Signaler,
    w: Waiter,
    // history: never read by a step
    signalled: nat,     // units added so far
    acquired: nat,      // successful waits so far
    settled: nat)       // units signalled by the time the last wait gave up

  // --- Steps ---------------------------------------------------------------

  /** One atomic step of `signal(n)`. */
  function SignalStep(s: Sem, n: nat): Sem {
    match s.sg
    case SIdle => s.(sg := SAdd(n))
    case SAdd(k) =>
      s.(count := s.count + k, signalled := s.signalled + k, sg := if s.count < 0 then SPost else SDone)
    case SPost => s.(tokens := s.tokens + 1, sg := SDone)
    case SDone => s.(sg := SIdle)
  }

  function Succeed(s: Sem): Sem { s.(w := WDone(true), acquired := s.acquired + 1) }

  function GiveUp(s: Sem): Sem { s.(w := WDone(false), settled := s.signalled) }

  /** One atomic step of a wait; `mode` matters when a call starts, `timeout`
      when the thread is blocked in a timed wait. */
  function WaitStep(s: Sem, mode: Mode, timeout: bool): Sem {
    match s.w
    case WIdle => s.(w := WLoad(mode))
    case WLoad(m) =>
      if s.count > 0 then s.(w := WClaim)
      else if m == TryOnly then GiveUp(s)
      else s.(w := WSpin(m, SPINS))
    case WClaim => Succeed(s.(count := s.count - 1))
    case WSpin(m, left) =>
      if left == 0 then s.(w := WTake(m))
      else if s.count > 0 then s.(w := WClaim)
      else s.(w := WSpin(m, left - 1))
    case WTake(m) =>
      var s' := s.(count := s.count - 1);
      if s.count > 0 then Succeed(s') else s'.(w := WBlock(m))
    case WBlock(m) =>
      if m == Timed && timeout then s.(w := WRestore)
      else if 0 < s.tokens then Succeed(s.(tokens := s.tokens - 1))
      else s
    case WRestore =>
      var s' := s.(count := s.count + 1);
      if s.count < 0 then GiveUp(s') else s'.(w := WRetake)
    case WRetake =>
      s.(count := s.count - 1, w := if s.count > 0 then WKernelTry else WRestore)
    case WKernelTry =>
      if 0 < s.tokens then Succeed(s.(tokens := s.tokens - 1)) else s.(w := WRestore)
    case WDone(_) => s.(w := WIdle)
  }

  // --- Invariant -----------------------------------------------------------

  /** The waiter has lowered the count without yet having anything for it. */
  predicate InDebt(w: Waiter) { w.WBlock? || w.WRestore? || w.WKernelTry? }

  /** Posts decided by the signaler and not yet made. */
  function PendingPosts(s: Sem): nat { if s.sg.SPost? then 1 else 0 }

  /** The count is what was signalled less what was acquired and what is owed;
      kernel tokens exist exactly when a signal found the waiter in debt. */
  predicate Inv(s: Sem) {
    && s.count == s.signalled - s.acquired - (if InDebt(s.w) then 1 else 0)
    && s.acquired <= s.signalled
    && s.tokens + PendingPosts(s) ==
         (if (InDebt(s.w) && 0 <= s.count) || s.w.WRetake? then 1 else 0)
    && (s.w.WClaim? || s.w.WRetake? ==> 0 < s.count)
    && (s.w == WDone(false) ==> s.settled == s.acquired)
  }

  predicate Init(s: Sem) {
    s.count == 0 && s.tokens == 0 && s.sg == SIdle && s.w == WIdle && s.signalled == 0 && s.acquired == 0
  }

  lemma WaitKeeps(s: Sem, mode: Mode, timeout: bool)
    requires Inv(s)
    ensures Inv(WaitStep(s, mode, timeout))
  {
  }

  /** Adding `n` keeps the balance exactly when it adds something or nobody waits:
      `signal(0)` posts to a blocked waiter without giving it anything. */
  lemma SignalKeeps(s: Sem, n: nat)
    requires Inv(s)
    ensures Inv(SignalStep(s, n)) <==> !(s.sg == SAdd(0) && s.count < 0)
  {
  }

  /** `signal(0)` with the waiter blocked lets a wait succeed with nothing signalled. */
  lemma SignalZeroWakes(s: Sem)
    requires Inv(s) && s.sg == SAdd(0) && s.w.WBlock? && s.signalled == 0
    ensures var posted := SignalStep(SignalStep(s, 0), 0);
            var woken := WaitStep(posted, TryOnly, false);
            woken.w == WDone(true) && woken.acquired == 1 && woken.signalled == 0
  {
  }

  // --- Runs ------------------------------------------------------------------

  datatype Move = Signal(n: nat) | Wait(mode: Mode, timeout: bool)

  function Step(s: Sem, move: Move): Sem {
    match move
    case Signal(n) => SignalStep(s, n)
    case Wait(mode, timeout) => WaitStep(s, mode, timeout)
  }

  function Run(s: Sem, moves: seq<Move>): Sem
    decreases |moves|
  {
    if moves == [] then s else Run(Step(s, moves[0]), moves[1..])
  }

  /** No step of the schedule adds nothing while a waiter is in debt. */
  predicate Harmless(s: Sem, moves: seq<Move>)
    decreases |moves|
  {
    moves == [] ||
    (!(moves[0].Signal? && s.sg == SAdd(0) && s.count < 0) && Harmless(Step(s, moves[0]), moves[1..]))
  }

  /** The balance holds all along the schedule. */
  predicate Always(s: Sem, moves: seq<Move>)
    decreases |moves|
  {
    Inv(s) && (moves == [] || Always(Step(s, moves[0]), moves[1..]))
  }

  lemma {:induction false} AlwaysIff(s: Sem, moves: seq<Move>)
    requires Inv(s)
    ensures Always(s, moves) <==> Harmless(s, moves)
    ensures Harmless(s, moves) ==> Inv(Run(s, moves))
    decreases |moves|
  {
    if moves != [] {
      match moves[0] {
        case Signal(n) => SignalKeeps(s, n);
        case Wait(mode, timeout) => WaitKeeps(s, mode, timeout);
      }
      if Inv(Step(s, moves[0])) {
        AlwaysIff(Step(s, moves[0]), moves[1..]);
      }
    }
  }

  /** Schedules in which every call of `signal` adds something, as the library's do, are harmless. */
  lemma {:induction false} PositiveIsHarmless(s: Sem, moves: seq<Move>)
    requires s.sg != SAdd(0) && forall k :: 0 <= k < |moves| && moves[k].Signal? ==> 1 <= moves[k].n
    ensures Harmless(s, moves)
    decreases |moves|
  {
    if moves != [] {
      PositiveIsHarmless(Step(s, moves[0]), moves[1..]);
    }
  }

  lemma {:induction false} RunAppend(s: Sem, a: seq<Move>, b: seq<Move>)
    ensures Run(s, a + b) == Run(Run(s, a), b)
    decreases |a|
  {
    if a == [] {
      assert a + b == b;
    } else {
      assert (a + b)[0] == a[0] && (a + b)[1..] == a[1..] + b;
      RunAppend(Step(s, a[0]), a[1..], b);
    }
  }

  lemma RunTwo(s: Sem, a: Move, b: Move)
    ensures Run(s, [a, b]) == Step(Step(s, a), b)
  {
    assert [a, b][1..] == [b] && [b][1..] == [];
    assert Run(Step(s, a), [b]) == Run(Step(Step(s, a), b), []);
  }

  /** A waiter that finds nothing spins, takes a unit that is not there, and blocks. */
  lemma {:induction false} SpinsDown(s: Sem, left: nat) returns (moves: seq<Move>)
    requires s.count == 0 && s.w == WSpin(Forever, left)
    ensures Run(s, moves) == s.(count := -1, w := WBlock(Forever))
    decreases left
  {
    var wait := Wait(Forever, false);
    if left == 0 {
      moves := [wait, wait];
      RunTwo(s, wait, wait);
    } else {
      var rest := SpinsDown(WaitStep(s, Forever, false), left - 1);
      moves := [wait] + rest;
      assert moves[1..] == rest;
    }
  }

  /** A schedule from the start in which `signal(0)` makes a wait succeed with nothing signalled. */
  lemma SignalZeroRun(s: Sem) returns (moves: seq<Move>)
    requires Init(s)
    ensures var s' := Run(s, moves); s'.w == WDone(true) && s'.acquired == 1 && s'.signalled == 0 && s'.count == -1
  {
    var wait, signal := Wait(Forever, false), Signal(0);
    var spinning := Step(Step(s, wait), wait);
    var down := SpinsDown(spinning, SPINS);
    moves := [wait, wait] + down + [signal, signal] + [signal, wait];
    RunTwo(s, wait, wait);
    RunAppend(s, [wait, wait], down);
    var blocked := Run(s, [wait, wait] + down);
    RunAppend(s, [wait, wait] + down, [signal, signal]);
    RunTwo(blocked, signal, signal);
    RunAppend(s, [wait, wait] + down + [signal, signal], [signal, wait]);
    var added := Step(blocked, signal);
    RunTwo(Step(added, signal), signal, wait);
    SignalZeroWakes(added);
  }

  /** For every interleaving, timeouts included: the count stays at or above -1,
      at most one wake-up is under way and none while nobody waits, waits never
      succeed more often than units were signalled, a wait gives up only when
      every unit signalled had been acquired, and a waiter is never left blocked with a unit
      available and no wake-up under way. */
  lemma EveryInterleaving(s: Sem, moves: seq<Move>)
    requires Init(s) && Harmless(s, moves)
    ensures var s' := Run(s, moves);
            && -1 <= s'.count
            && s'.tokens + PendingPosts(s') <= 1
            && (s'.w.WIdle? || s'.w.WDone? ==> s'.tokens + PendingPosts(s') == 0)
            && s'.acquired <= s'.signalled
            && (s'.w == WDone(false) ==> s'.settled == s'.acquired)
            && (s'.w.WBlock? && s'.acquired < s'.signalled ==> s'.tokens + PendingPosts(s') == 1)
  {
    AlwaysIff(s, moves);
  }

  /** Once no post is pending, the repair loop ends within three steps: it hands
      the unit back if there is none, and otherwise takes the kernel token. */
  lemma RepairEnds(s: Sem, mode: Mode, timeout: bool)
    requires Inv(s) && s.w == WRestore && s.sg != SPost
    ensures var s1 := WaitStep(s, mode, timeout);
            var s3 := WaitStep(WaitStep(s1, mode, timeout), mode, timeout);
            if s.acquired == s.signalled then s1.w == WDone(false) else s3.w == WDone(true)
  {
    WaitKeeps(s, mode, timeout);
  }

  // --- Which calls return, and how ---------------------------------------------------------

  /** Own steps that a call of `tryWait` still needs. */
  function TryRank(w: Waiter): nat {
    match w
    case WLoad(TryOnly) => 2
    case WClaim => 1
    case _ => 0
  }

  function WaitMoves(moves: seq<Move>): nat {
    if moves == [] then 0 else (if moves[0].Wait? then 1 else 0) + WaitMoves(moves[1..])
  }

  /** Whatever is signalled meanwhile, `tryWait` returns within two steps of its own. */
  lemma {:induction false} TryWaitReturns(s: Sem, moves: seq<Move>) returns (k: nat)
    requires 0 < TryRank(s.w) <= WaitMoves(moves)
    ensures k <= |moves| && Run(s, moves[..k]).w.WDone?
    decreases |moves|
  {
    var s' := Step(s, moves[0]);
    if s'.w.WDone? {
      k := 1;
      assert moves[..1] == [moves[0]] && [moves[0]][1..] == [];
    } else {
      k := TryWaitReturns(s', moves[1..]);
      assert moves[..k + 1][1..] == moves[1..][..k] && moves[..k + 1][0] == moves[0];
      k := k + 1;
    }
  }

  /** It takes a unit if it saw one, and none otherwise. */
  lemma TryWaitAnswers(s: Sem, mode: Mode, timeout: bool)
    requires s.w == WLoad(TryOnly)
    ensures var s1 := WaitStep(s, mode, timeout);
            if s.count > 0 then WaitStep(s1, mode, timeout).w == WDone(true) else s1.w == WDone(false)
  {
  }

  predicate Endless(w: Waiter) {
    match w
    case WLoad(m) => m == Forever
    case WSpin(m, _) => m == Forever
    case WTake(m) => m == Forever
    case WBlock(m) => m == Forever
    case WDone(ok) => ok
    case WIdle => true
    case WClaim => true
    case _ => false
  }

  /** A wait without a timeout never comes back with false. */
  lemma {:induction false} EndlessWaitNeverFails(s: Sem, moves: seq<Move>)
    requires Endless(s.w) && forall k :: 0 <= k < |moves| && moves[k].Wait? ==> moves[k].mode == Forever
    ensures Endless(Run(s, moves).w) && Run(s, moves).w != WDone(false)
    decreases |moves|
  {
    if moves != [] {
      EndlessWaitNeverFails(Step(s, moves[0]), moves[1..]);
    }
  }

  /** A timed wait comes back with false only after a timeout, from the kernel semaphore. */
  lemma {:induction false} TimedWaitNeedsTimeout(s: Sem, moves: seq<Move>)
    requires s.w.WIdle? || s.w == WLoad(Timed)
    requires forall k :: 0 <= k < |moves| && moves[k].Wait? ==> moves[k].mode == Timed && !moves[k].timeout
    ensures Run(s, moves).w != WDone(false)
  {
    Unhurried(s, moves);
  }

  predicate Calm(w: Waiter) {
    || w.WIdle? || w == WLoad(Timed) || w.WClaim? || w.WTake? || w.WBlock? || w == WDone(true) || w.WSpin?
  }

  lemma {:induction false} Unhurried(s: Sem, moves: seq<Move>)
    requires Calm(s.w)
    requires forall k :: 0 <= k < |moves| && moves[k].Wait? ==> moves[k].mode == Timed && !moves[k].timeout
    ensures Calm(Run(s, moves).w)
    decreases |moves|
  {
    if moves != [] {
      Unhurried(Step(s, moves[0]), moves[1..]);
    }
  }
}
