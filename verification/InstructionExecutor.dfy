/** One `executeMotion` call against any number of result and disconnect callbacks and
    cancel requests, one step per access to the shared flags, the result and its mutex. */
module InstructionExecutor {

  datatype TrajectoryResult = Unknown | Success | Canceled | Failure

  /** Where `executeMotion` is. */
  datatype Motion =
    | Start          // about to send TRAJECTORY_START
    | FailLock       // sending failed: about to lock, write a failure, unlock
    | FailWrite
    | FailUnlock
    | Raise          // points written: about to set trajectory_running_
    | ClearCancel
    | PollRunning
    | PollCancel
    | FinalCheck
    | ResultLock
    | ResultRead
    | ResultUnlock(answer: bool)
    | Returned(answer: bool)

  /** Where a callback is; a result callback has already seen trajectory_running_ set. */
  datatype Callback =
    | Idle
    | DoneLock(result: TrajectoryResult)
    | DoneWrite(result: TrajectoryResult)
    | DoneLower
    | DropLock
    | DropCheck
    | DropWrite
    | DropLower
    | Unlock

  datatype Holder = Free | HeldByMotion | HeldBy(i: nat)

  datatype Source = Nobody | MotionCall | DoneCallback | DropCallback

  /** The latest write to trajectory_result_, and whether its callback has since lowered
      trajectory_running_ after this call raised it. */
  datatype Write = Write(writer: Source, value: TrajectoryResult, lowered: bool)

  datatype Shared = Shared(running: bool, cancel: bool, result: TrajectoryResult, mutex: Holder)

  /** What has happened so far. */
  datatype History = History(
    last: Write,            // latest write to the result
    lowered: bool,          // trajectory_running_ was lowered after this call raised it
    cancelled: bool,        // a cancel request came after this call cleared the flag
    checked: bool,          // `cancelled`, as it was at the final check
    seen: Write)            // the latest write when the result was read

  datatype State = State(motion: Motion, callbacks: seq<Callback>, shared: Shared, history: History)

  datatype Event =
    | MotionMoves(sent: bool)                     // `sent`: TRAJECTORY_START reached the robot
    | ResultArrives(i: nat, result: TrajectoryResult)
    | ConnectionDrops(i: nat)
    | CallbackMoves(i: nat)
    | CancelRequested

  // ---------------------------------------------------------------------
  // Steps
  // ---------------------------------------------------------------------

  function Locked(s: State, holder: Holder): Shared { s.shared.(mutex := holder) }

  /** A write to the result, and the lowering of the flag that follows it in a callback. */
  function Wrote(s: State, writer: Source, r: TrajectoryResult): State {
    s.(shared := s.shared.(result := r), history := s.history.(last := Write(writer, r, false)))
  }

  function Lowered(s: State): State {
    s.(shared := s.shared.(running := false),
       history := s.history.(lowered := Raised(s), last := s.history.last.(lowered := Raised(s))))
  }

  function MotionStep(s: State, sent: bool): State {
    var shared, history := s.shared, s.history;
    match s.motion
    case Start => s.(motion := if sent then Raise else FailLock)
    case FailLock => if shared.mutex == Free then s.(motion := FailWrite, shared := Locked(s, HeldByMotion)) else s
    case FailWrite => Wrote(s, MotionCall, Failure).(motion := FailUnlock)
    case FailUnlock => s.(motion := Returned(false), shared := Locked(s, Free))
    case Raise =>
      s.(motion := ClearCancel, shared := shared.(running := true),
         history := history.(lowered := false, last := history.last.(lowered := false)))
    case ClearCancel =>
      s.(motion := PollRunning, shared := shared.(cancel := false), history := history.(cancelled := false))
    case PollRunning => s.(motion := if shared.running then PollCancel else FinalCheck)
    case PollCancel => s.(motion := if shared.cancel then FinalCheck else PollRunning)
    case FinalCheck =>
      s.(motion := if shared.cancel then Returned(false) else ResultLock,
         history := history.(checked := history.cancelled))
    case ResultLock => if shared.mutex == Free then s.(motion := ResultRead, shared := Locked(s, HeldByMotion)) else s
    case ResultRead => s.(motion := ResultUnlock(shared.result == Success), history := history.(seen := history.last))
    case ResultUnlock(answer) => s.(motion := Returned(answer), shared := Locked(s, Free))
    case Returned(_) => s
  }

  function At(s: State, i: nat): Callback { if i < |s.callbacks| then s.callbacks[i] else Idle }

  function To(s: State, i: nat, c: Callback): State
    requires i < |s.callbacks|
  {
    s.(callbacks := s.callbacks[i := c])
  }

  function CallbackStep(s: State, i: nat): State
    requires i < |s.callbacks|
  {
    var free := s.shared.mutex == Free;
    match s.callbacks[i]
    case Idle => s
    case DoneLock(r) => if free then To(s, i, DoneWrite(r)).(shared := Locked(s, HeldBy(i))) else s
    case DoneWrite(r) => Wrote(To(s, i, DoneLower), DoneCallback, r)
    case DoneLower => Lowered(To(s, i, Unlock))
    case DropLock => if free then To(s, i, DropCheck).(shared := Locked(s, HeldBy(i))) else s
    case DropCheck => To(s, i, if s.shared.running then DropWrite else Unlock)
    case DropWrite => Wrote(To(s, i, DropLower), DropCallback, Failure)
    case DropLower => Lowered(To(s, i, Unlock))
    case Unlock => To(s, i, Idle).(shared := Locked(s, Free))
  }

  /** This call has set trajectory_running_ and not returned yet. */
  predicate Raised(s: State) {
    || s.motion.ClearCancel? || s.motion.PollRunning? || s.motion.PollCancel? || s.motion.FinalCheck?
    || s.motion.ResultLock? || s.motion.ResultRead? || s.motion.ResultUnlock?
  }

  function Step(s: State, e: Event): State {
    match e
    case MotionMoves(sent) => MotionStep(s, sent)
    case ResultArrives(i, r) =>
      if i < |s.callbacks| && s.callbacks[i] == Idle && s.shared.running then To(s, i, DoneLock(r)) else s
    case ConnectionDrops(i) => if i < |s.callbacks| && s.callbacks[i] == Idle then To(s, i, DropLock) else s
    case CallbackMoves(i) => if i < |s.callbacks| then CallbackStep(s, i) else s
    case CancelRequested => s.(shared := s.shared.(cancel := true), history := s.history.(cancelled := true))
  }

  function Run(s: State, events: seq<Event>): State {
    if events == [] then s else Step(Run(s, events[..|events| - 1]), events[|events| - 1])
  }

  // ---------------------------------------------------------------------
  // Invariant
  // ---------------------------------------------------------------------

  predicate Holds(c: Callback) { !(c.Idle? || c.DoneLock? || c.DropLock?) }

  predicate MotionHolds(m: Motion) { m.FailWrite? || m.FailUnlock? || m.ResultRead? || m.ResultUnlock? }

  /** The mutex is held by whoever is inside it. */
  predicate Exclusive(s: State) {
    && (MotionHolds(s.motion) <==> s.shared.mutex.HeldByMotion?)
    && (s.shared.mutex.HeldBy? ==> s.shared.mutex.i < |s.callbacks|)
    && forall i :: 0 <= i < |s.callbacks| ==> (Holds(s.callbacks[i]) <==> s.shared.mutex == HeldBy(i))
  }

  /** The callback inside the mutex has written the result and not yet lowered the flag. */
  predicate Between(s: State) {
    s.shared.mutex.HeldBy? && (At(s, s.shared.mutex.i).DoneLower? || At(s, s.shared.mutex.i).DropLower?)
  }

  predicate Written(s: State) {
    && s.history.last.value == s.shared.result
    && (Between(s) ==>
           s.history.last.writer == (if At(s, s.shared.mutex.i).DoneLower? then DoneCallback else DropCallback))
    && (s.history.last.writer.MotionCall? || s.history.last.writer.DropCallback? ==> s.history.last.value == Failure)
    && (s.history.last.writer.Nobody? ==> !s.history.last.lowered)
  }

  /** The flag stays up until somebody lowers it, and whoever did wrote the result before. */
  predicate Lowering(s: State) {
    Raised(s) ==> (!s.history.lowered ==> s.shared.running)
                  && (s.history.lowered && !Between(s) ==> s.history.last.lowered)
  }

  /** What `executeMotion` knows where it is. */
  predicate Progress(s: State) {
    match s.motion
    case PollRunning | PollCancel => s.shared.cancel == s.history.cancelled
    case FinalCheck => s.shared.cancel == s.history.cancelled && (s.history.lowered || s.shared.cancel)
    case ResultLock | ResultRead => s.history.lowered && !s.history.checked
    case ResultUnlock(answer) => !s.history.checked && (answer ==> Proven(s.history.seen))
    case Returned(answer) => answer ==> Proven(s.history.seen) && !s.history.checked
    case _ => true
  }

  /** A success written by a result callback that lowered the flag after this call raised it. */
  predicate Proven(w: Write) { w.writer == DoneCallback && w.value == Success && w.lowered }

  predicate Inv(s: State) { Exclusive(s) && Written(s) && Lowering(s) && Progress(s) }

  /** A call about to start, whatever an earlier one left in the flags and the result, with
      result callbacks possibly still on their way to the mutex. */
  predicate Init(s: State) {
    && s.motion == Start && s.shared.mutex == Free
    && s.history.last == Write(Nobody, s.shared.result, false) && !s.history.lowered
    && forall i :: 0 <= i < |s.callbacks| ==> !Holds(s.callbacks[i])
  }

  lemma MotionKeeps(s: State, sent: bool)
    requires Inv(s)
    ensures Inv(MotionStep(s, sent))
  {
    MotionKeepsExclusive(s, sent);
    MotionKeepsWritten(s, sent);
    MotionKeepsRest(s, sent);
  }

  /** What a move of `executeMotion` may do to the mutex and the result. */
  lemma MotionMay(s: State, sent: bool)
    requires MotionHolds(s.motion) <==> s.shared.mutex.HeldByMotion?
    ensures var t := MotionStep(s, sent);
            && t.callbacks == s.callbacks
            && (MotionHolds(t.motion) <==> t.shared.mutex.HeldByMotion?)
            && (t.shared.mutex == s.shared.mutex || (!s.shared.mutex.HeldBy? && !t.shared.mutex.HeldBy?))
            && ((t.shared.result == s.shared.result && t.history.last.value == s.history.last.value
                 && t.history.last.writer == s.history.last.writer
                 && (t.history.last.lowered ==> s.history.last.lowered))
                || (s.shared.mutex.HeldByMotion? && t.shared.mutex == s.shared.mutex && t.shared.result == Failure
                    && t.history.last == Write(MotionCall, Failure, false)))
  {
  }

  lemma MotionKeepsExclusive(s: State, sent: bool)
    requires Exclusive(s)
    ensures Exclusive(MotionStep(s, sent))
  {
    MotionMay(s, sent);
    hide MotionStep, MotionHolds;
  }

  lemma MotionKeepsWritten(s: State, sent: bool)
    requires Exclusive(s) && Written(s)
    ensures Written(MotionStep(s, sent))
  {
    MotionMay(s, sent);
    hide MotionStep, MotionHolds, Exclusive;
  }

  lemma MotionKeepsRest(s: State, sent: bool)
    requires Inv(s)
    ensures Lowering(MotionStep(s, sent)) && Progress(MotionStep(s, sent))
  {
    hide Exclusive;
    assert MotionHolds(s.motion) ==> !Between(s) by {
      MotionInside(s);
    }
  }

  lemma MotionInside(s: State)
    requires Exclusive(s)
    ensures MotionHolds(s.motion) <==> s.shared.mutex.HeldByMotion?
  {
  }

  lemma CallbackKeeps(s: State, i: nat)
    requires Inv(s) && i < |s.callbacks|
    ensures Inv(CallbackStep(s, i))
  {
    CallbackKeepsExclusive(s, i);
    CallbackKeepsRest(s, i);
  }

  /** What a move of a callback may do to the mutex and to the others. */
  lemma CallbackMay(s: State, i: nat)
    requires i < |s.callbacks|
    requires Holds(s.callbacks[i]) <==> s.shared.mutex == HeldBy(i)
    ensures var t := CallbackStep(s, i);
            && t.motion == s.motion && t.shared.cancel == s.shared.cancel && t.history.cancelled == s.history.cancelled
            && t.history.seen == s.history.seen && t.history.checked == s.history.checked
            && |t.callbacks| == |s.callbacks|
            && (forall k :: 0 <= k < |s.callbacks| && k != i ==> t.callbacks[k] == s.callbacks[k])
            && (Holds(t.callbacks[i]) <==> t.shared.mutex == HeldBy(i))
            && (t.shared.mutex == s.shared.mutex || (s.shared.mutex == Free && t.shared.mutex == HeldBy(i))
                || (s.shared.mutex == HeldBy(i) && t.shared.mutex == Free))
            && (s.shared.mutex != HeldBy(i) ==>
                  t.shared.result == s.shared.result && t.history.last == s.history.last
                  && t.shared.running == s.shared.running && t.history.lowered == s.history.lowered)
  {
  }

  lemma CallbackKeepsExclusive(s: State, i: nat)
    requires Exclusive(s) && i < |s.callbacks|
    ensures Exclusive(CallbackStep(s, i))
  {
    CallbackMay(s, i);
    hide CallbackStep, Holds, MotionHolds;
  }

  lemma CallbackKeepsRest(s: State, i: nat)
    requires Inv(s) && i < |s.callbacks|
    ensures var t := CallbackStep(s, i); Written(t) && Lowering(t) && Progress(t)
  {
    CallbackMay(s, i);
    assert s.shared.mutex.HeldByMotion? <==> MotionHolds(s.motion);
    assert s.shared.mutex.HeldBy? ==> s.shared.mutex.i < |s.callbacks|;
    var t := CallbackStep(s, i);
    if s.shared.mutex == HeldBy(i) {
      hide Exclusive;
      InsideKeeps(s, i);
    } else {
      assert s.shared.mutex.HeldBy? ==> At(t, s.shared.mutex.i) == At(s, s.shared.mutex.i);
      hide CallbackStep, Exclusive;
      assert Between(t) ==> Between(s);
      assert Between(s) ==> Between(t);
    }
  }

  /** A callback inside the mutex. */
  lemma InsideKeeps(s: State, i: nat)
    requires i < |s.callbacks| && s.shared.mutex == HeldBy(i) && Holds(s.callbacks[i]) && !MotionHolds(s.motion)
    requires Written(s) && Lowering(s) && Progress(s)
    ensures var t := CallbackStep(s, i); Written(t) && Lowering(t) && Progress(t)
  {
    InsideMay(s, i);
    var t := CallbackStep(s, i);
    assert At(s, i) == s.callbacks[i] && At(t, i) == t.callbacks[i];
    hide CallbackStep, Holds, MotionHolds;
  }

  /** It writes first, lowers the flag next, and leaves. */
  lemma InsideMay(s: State, i: nat)
    requires i < |s.callbacks| && s.shared.mutex == HeldBy(i) && Holds(s.callbacks[i])
    ensures var t, was := CallbackStep(s, i), s.callbacks[i];
            && t.motion == s.motion && |t.callbacks| == |s.callbacks|
            && t.shared.cancel == s.shared.cancel && t.history.cancelled == s.history.cancelled
            && t.history.seen == s.history.seen && t.history.checked == s.history.checked
            && (t.shared.mutex == if was.Unlock? then Free else HeldBy(i))
            && (if was.DoneWrite? || was.DropWrite? then
                  && t.shared.running == s.shared.running && t.history.lowered == s.history.lowered
                  && t.callbacks[i] == (if was.DoneWrite? then DoneLower else DropLower)
                  && t.shared.result == (if was.DoneWrite? then was.result else Failure)
                  && t.history.last ==
                       Write(if was.DoneWrite? then DoneCallback else DropCallback, t.shared.result, false)
                else if was.DoneLower? || was.DropLower? then
                  && t.callbacks[i] == Unlock && t.shared.result == s.shared.result
                  && t.history.lowered == t.history.last.lowered == Raised(s)
                  && t.history.last == s.history.last.(lowered := Raised(s))
                else
                  && !t.callbacks[i].DoneLower? && !t.callbacks[i].DropLower?
                  && t.shared.result == s.shared.result && t.shared.running == s.shared.running
                  && t.history.last == s.history.last && t.history.lowered == s.history.lowered)
  {
  }

  /** A callback that starts, or a request to cancel, touches nothing the others rely on. */
  lemma ArrivalKeeps(s: State, e: Event)
    requires Inv(s) && (e.ResultArrives? || e.ConnectionDrops? || e.CancelRequested?)
    ensures Inv(Step(s, e))
  {
    if e.CancelRequested? {
      assert Between(Step(s, e)) <==> Between(s);
    } else if Step(s, e) != s {
      assert !Holds(s.callbacks[e.i]);
      assert Between(Step(s, e)) <==> Between(s);
    }
  }

  lemma StepKeeps(s: State, e: Event)
    requires Inv(s)
    ensures Inv(Step(s, e))
  {
    hide Inv;
    match e
    case MotionMoves(sent) => MotionKeeps(s, sent);
    case CallbackMoves(i) => if i < |s.callbacks| { CallbackKeeps(s, i); }
    case _ => ArrivalKeeps(s, e);
  }

  /** For every interleaving: `executeMotion` returns true only if the latest write to the result,
      when it read it, was a success by a result callback that lowered trajectory_running_
      after this call raised it, and no cancel request had come before the final check. */
  lemma {:induction false} EveryInterleaving(s: State, events: seq<Event>)
    requires Init(s)
    ensures var t := Run(s, events);
            Inv(t) && (t.motion == Returned(true) ==> Proven(t.history.seen) && !t.history.checked)
  {
    hide Step;
    if events != [] {
      EveryInterleaving(s, events[..|events| - 1]);
      StepKeeps(Run(s, events[..|events| - 1]), events[|events| - 1]);
    }
  }

  /** The result is looked at only if no cancel request has come since the flag was cleared. */
  lemma FinalCheckIff(s: State, sent: bool)
    requires Inv(s) && s.motion == FinalCheck
    ensures MotionStep(s, sent).motion == ResultLock <==> !s.history.cancelled
    ensures MotionStep(s, sent).motion == Returned(false) <==> s.history.cancelled
  {
  }

  // ---------------------------------------------------------------------
  // Which cancel requests end a call
  // ---------------------------------------------------------------------

  /** The call has cleared the cancel flag and not made its final check. */
  predicate Polling(m: Motion) { m.PollRunning? || m.PollCancel? || m.FinalCheck? }

  /** It has not cleared the flag yet, or sending failed and it never will. */
  predicate Early(m: Motion) {
    m.Start? || m.Raise? || m.ClearCancel? || m.FailLock? || m.FailWrite? || m.FailUnlock?
  }

  /** Event `k` is a cancel request made while the call was polling. */
  predicate CancelWhilePolling(s: State, events: seq<Event>, k: int) {
    0 <= k < |events| && events[k].CancelRequested? && Polling(Run(s, events[..k]).motion)
  }

  lemma RunSplit(s: State, events: seq<Event>, k: nat)
    requires events != [] && k < |events|
    ensures events[..|events| - 1][..k] == events[..k]
  {
  }

  /** While the call has not cleared the flag, it has not been polling. */
  lemma {:induction false} EarlyBefore(s: State, events: seq<Event>, k: nat)
    requires k <= |events| && Early(Run(s, events).motion)
    ensures Early(Run(s, events[..k]).motion)
    decreases |events|
  {
    if k == |events| {
      assert events[..k] == events;
    } else {
      RunSplit(s, events, k);
      EarlyBefore(s, events[..|events| - 1], k);
    }
  }

  /** One more event: the requests that count are those before, and the event itself if it is one. */
  lemma OneMore(s: State, events: seq<Event>)
    requires events != []
    ensures var n := |events| - 1;
            (exists k :: CancelWhilePolling(s, events, k)) <==>
              (exists k :: CancelWhilePolling(s, events[..n], k)) || CancelWhilePolling(s, events, n)
  {
    hide Run;
    var n := |events| - 1;
    forall k | 0 <= k < n ensures CancelWhilePolling(s, events, k) <==> CancelWhilePolling(s, events[..n], k) {
      RunSplit(s, events, k);
    }
  }

  lemma {:induction false} CancelledIff(s: State, events: seq<Event>)
    requires Early(s.motion) && Polling(Run(s, events).motion)
    ensures Run(s, events).history.cancelled <==> exists k :: CancelWhilePolling(s, events, k)
    decreases |events|
  {
    var n := |events| - 1;
    var before, t := events[..n], Run(s, events[..n]);
    OneMore(s, events);
    if Polling(t.motion) {
      CancelledIff(s, before);
      PollingStep(t, events[n]);
    } else {
      StartsPolling(t, events[n]);
      forall k ensures !CancelWhilePolling(s, before, k) {
        if 0 <= k < n {
          EarlyBefore(s, before, k);
        }
      }
    }
  }

  lemma PollingStep(t: State, e: Event)
    requires Polling(t.motion) && Polling(Step(t, e).motion)
    ensures Step(t, e).history.cancelled == (t.history.cancelled || e.CancelRequested?)
  {
  }

  lemma StartsPolling(t: State, e: Event)
    requires !Polling(t.motion) && Polling(Step(t, e).motion)
    ensures t.motion.ClearCancel? && e.MotionMoves? && !Step(t, e).history.cancelled
  {
  }

  /** For every run: the final check ends the call with false exactly if a cancel request came
      after the call cleared the flag and before the check; otherwise the result is looked at. */
  lemma CancelEndsIff(s: State, events: seq<Event>, j: nat)
    requires Init(s) && j < |events|
    requires Run(s, events[..j]).motion == FinalCheck && events[j].MotionMoves?
    ensures var t := Run(s, events[..j + 1]);
            && (t.motion == Returned(false) <==> exists k :: k < j && CancelWhilePolling(s, events, k))
            && (t.motion == ResultLock <==> !exists k :: k < j && CancelWhilePolling(s, events, k))
  {
    var before, t := events[..j], Run(s, events[..j]);
    EveryInterleaving(s, before);
    CancelledIff(s, before);
    assert events[..j + 1][..j] == before;
    assert Run(s, events[..j + 1]) == Step(t, events[j]);
    FinalCheckIff(t, events[j].sent);
    hide Run;
    forall k | 0 <= k < j ensures CancelWhilePolling(s, events, k) <==> CancelWhilePolling(s, before, k) {
      assert before[..k] == events[..k];
    }
  }

  /** A cancel request before that is forgotten: whatever follows, the call goes the same way as
      without it, and from the moment it polls the two runs are the same in everything. */
  lemma {:induction false} CancelForgotten(s: State, events: seq<Event>)
    requires Early(s.motion)
    ensures var t, t' := Run(s, events), Run(Step(s, CancelRequested), events);
            && t'.motion == t.motion && t'.callbacks == t.callbacks && t'.shared.result == t.shared.result
            && (Polling(t.motion) || t.motion.ResultLock? || t.motion.ResultRead? || t.motion.ResultUnlock? ==> t' == t)
  {
    Forgotten(s, events);
  }

  /** Equal but for the cancel flag and its history. */
  predicate Alike(t: State, t': State) {
    && t'.motion == t.motion && t'.callbacks == t.callbacks
    && t'.shared.running == t.shared.running && t'.shared.result == t.shared.result && t'.shared.mutex == t.shared.mutex
    && t'.history.last == t.history.last && t'.history.lowered == t.history.lowered
    && t'.history.checked == t.history.checked && t'.history.seen == t.history.seen
  }

  predicate SameCancel(t: State, t': State) {
    t'.shared.cancel == t.shared.cancel && t'.history.cancelled == t.history.cancelled
  }

  /** Equal, or alike where nobody looks at the flag any more. */
  predicate UpToCancel(t: State, t': State) {
    Alike(t, t') && (SameCancel(t, t') || Early(t.motion) || t.motion == Returned(false))
  }

  lemma {:induction false} Forgotten(s: State, events: seq<Event>)
    requires Early(s.motion)
    ensures UpToCancel(Run(s, events), Run(Step(s, CancelRequested), events))
    decreases |events|
  {
    if events != [] {
      var n := |events| - 1;
      Forgotten(s, events[..n]);
      StepForgets(Run(s, events[..n]), Run(Step(s, CancelRequested), events[..n]), events[n]);
    }
  }

  lemma StepForgets(t: State, t': State, e: Event)
    requires UpToCancel(t, t')
    ensures UpToCancel(Step(t, e), Step(t', e))
  {
    match e
    case MotionMoves(sent) => MotionForgets(t, t', sent);
    case CallbackMoves(i) => if i < |t.callbacks| { CallbackForgets(t, t', i); }
    case _ =>
  }

  lemma MotionForgets(t: State, t': State, sent: bool)
    requires UpToCancel(t, t')
    ensures UpToCancel(MotionStep(t, sent), MotionStep(t', sent))
  {
    if SameCancel(t, t') {
      assert t' == t;
    } else {
      match t.motion {
        case Start =>
        case FailLock =>
        case FailWrite =>
        case FailUnlock =>
        case Raise =>
        case ClearCancel =>
        case Returned(_) =>
      }
    }
  }

  lemma CallbackForgets(t: State, t': State, i: nat)
    requires UpToCancel(t, t') && i < |t.callbacks|
    ensures UpToCancel(CallbackStep(t, i), CallbackStep(t', i))
  {
    match t.callbacks[i] {
      case Idle =>
      case DoneLock(_) =>
      case DoneWrite(_) =>
      case DoneLower =>
      case DropLock =>
      case DropCheck =>
      case DropWrite =>
      case DropLower =>
      case Unlock =>
    }
  }

  // ---------------------------------------------------------------------
  // When a call returns true
  // ---------------------------------------------------------------------

  /** Some event of the run happened in a state with it as described. */
  predicate Ever(s: State, events: seq<Event>, what: (State, Event) -> bool) {
    if events == [] then false
    else
      var before := events[..|events| - 1];
      Ever(s, before, what) || what(Run(s, before), events[|events| - 1])
  }

  /** TRAJECTORY_START reaches the robot. */
  predicate Sends(t: State, e: Event) { t.motion.Start? && e == MotionMoves(true) }

  predicate Cancels(t: State, e: Event) { Polling(t.motion) && e.CancelRequested? }

  predicate Reads(t: State, e: Event) { t.motion.ResultRead? && e.MotionMoves? }

  predicate ReadsSuccess(t: State, e: Event) { Reads(t, e) && t.shared.result == Success }

  /** What has happened by the time the call is where it is. */
  predicate Ledger(t: State, sent: bool, cancelled: bool, read: bool, success: bool) {
    match t.motion
    case Start | FailLock | FailWrite | FailUnlock => !sent && !cancelled && !read && !success
    case Raise | ClearCancel => sent && !cancelled && !read && !success
    case PollRunning | PollCancel | FinalCheck => sent && !read && !success && cancelled == t.history.cancelled
    case ResultLock | ResultRead => sent && !cancelled && !read && !success
    case ResultUnlock(answer) => sent && !cancelled && read && answer == success
    case Returned(answer) => (read <==> sent && !cancelled) && (success ==> read) && answer == success
  }

  lemma LedgerMotion(t: State, moved: bool, sent: bool, cancelled: bool, read: bool, success: bool)
    requires Inv(t) && Ledger(t, sent, cancelled, read, success)
    ensures var e := MotionMoves(moved);
            Ledger(MotionStep(t, moved), sent || Sends(t, e), cancelled || Cancels(t, e), read || Reads(t, e),
                   success || ReadsSuccess(t, e))
  {
    hide Exclusive, Written, Lowering;
    if t.motion.FinalCheck? {
      FinalCheckIff(t, moved);
    }
  }

  lemma LedgerOthers(t: State, e: Event, sent: bool, cancelled: bool, read: bool, success: bool)
    requires !e.MotionMoves? && Ledger(t, sent, cancelled, read, success)
    ensures Ledger(Step(t, e), sent || Sends(t, e), cancelled || Cancels(t, e), read || Reads(t, e),
                   success || ReadsSuccess(t, e))
  {
    if e.CallbackMoves? && e.i < |t.callbacks| {
      CallbackLeaves(t, e.i);
      hide CallbackStep;
    }
  }

  lemma CallbackLeaves(t: State, i: nat)
    requires i < |t.callbacks|
    ensures var t' := CallbackStep(t, i); t'.motion == t.motion && t'.history.cancelled == t.history.cancelled
  {
  }

  lemma {:induction false} LedgerKept(s: State, events: seq<Event>)
    requires Init(s)
    ensures Ledger(Run(s, events), Ever(s, events, Sends), Ever(s, events, Cancels), Ever(s, events, Reads),
                   Ever(s, events, ReadsSuccess))
    decreases |events|
  {
    hide Ledger, Inv, Step, Sends, Cancels, Reads, ReadsSuccess;
    if events == [] {
      LedgerStarts(s);
    } else {
      var before, e := events[..|events| - 1], events[|events| - 1];
      var t := Run(s, before);
      LedgerKept(s, before);
      EveryInterleaving(s, before);
      var sent, cancelled := Ever(s, before, Sends), Ever(s, before, Cancels);
      var read, success := Ever(s, before, Reads), Ever(s, before, ReadsSuccess);
      LedgerStep(t, e, sent, cancelled, read, success);
    }
  }

  lemma LedgerStarts(s: State)
    requires Init(s)
    ensures Ledger(s, false, false, false, false)
  {
  }

  lemma LedgerStep(t: State, e: Event, sent: bool, cancelled: bool, read: bool, success: bool)
    requires Inv(t) && Ledger(t, sent, cancelled, read, success)
    ensures Ledger(Step(t, e), sent || Sends(t, e), cancelled || Cancels(t, e), read || Reads(t, e),
                   success || ReadsSuccess(t, e))
  {
    hide Ledger, Inv, Sends, Cancels, Reads, ReadsSuccess;
    if e.MotionMoves? {
      LedgerMotion(t, e.sent, sent, cancelled, read, success);
    } else {
      LedgerOthers(t, e, sent, cancelled, read, success);
    }
  }

  /** For every run: a call that has returned answers true if and only if it sent its start message,
      no cancel request came between the clearing of the flag and the final check, and the
      result it read was a success. */
  lemma TrueIff(s: State, events: seq<Event>)
    requires Init(s) && Run(s, events).motion.Returned?
    ensures Run(s, events).motion.answer
            <==> Ever(s, events, Sends) && !Ever(s, events, Cancels) && Ever(s, events, ReadsSuccess)
    ensures Ever(s, events, Reads) <==> Ever(s, events, Sends) && !Ever(s, events, Cancels)
  {
    LedgerKept(s, events);
  }

  // ---------------------------------------------------------------------
  // What is reported stands
  // ---------------------------------------------------------------------

  /** The flag is down, and no callback that saw it up is still to write. */
  predicate Settled(s: State) {
    && !s.shared.running
    && (Polling(s.motion) || s.motion.ResultLock? || s.motion.ResultRead? || s.motion.ResultUnlock?)
    && forall i :: 0 <= i < |s.callbacks| ==>
         s.callbacks[i].Idle? || s.callbacks[i].DropLock? || s.callbacks[i].DropCheck? || s.callbacks[i].Unlock?
  }

  lemma SettledMotion(t: State, sent: bool)
    requires Settled(t)
    ensures MotionStep(t, sent).motion.Returned? || Settled(MotionStep(t, sent))
    ensures MotionStep(t, sent).shared.result == t.shared.result
  {
  }

  lemma SettledOthers(t: State, e: Event)
    requires Settled(t) && !e.MotionMoves?
    ensures Settled(Step(t, e)) && Step(t, e).shared.result == t.shared.result
  {
  }

  /** From then on, results that arrive late and connections that drop leave the result alone until
      the call has returned. */
  lemma {:induction false} ResultStands(s: State, events: seq<Event>)
    requires Settled(s)
    ensures var t := Run(s, events);
            Ever(s, events, Ends) || (Settled(t) && t.shared.result == s.shared.result)
    decreases |events|
  {
    hide Settled, Step;
    if events != [] {
      var before, e := events[..|events| - 1], events[|events| - 1];
      ResultStands(s, before);
      if !Ever(s, before, Ends) {
        SettledStep(Run(s, before), e);
      }
    }
  }

  /** The move with which the call returns. */
  predicate Ends(t: State, e: Event) { !t.motion.Returned? && Step(t, e).motion.Returned? }

  lemma SettledStep(t: State, e: Event)
    requires Settled(t)
    ensures Ends(t, e) || (Settled(Step(t, e)) && Step(t, e).shared.result == t.shared.result)
  {
    if e.MotionMoves? {
      SettledMotion(t, e.sent);
    } else {
      SettledOthers(t, e);
    }
  }

  lemma {:induction false} RunAppend(s: State, a: seq<Event>, b: seq<Event>)
    ensures Run(s, a + b) == Run(Run(s, a), b)
    decreases |b|
  {
    hide Step;
    if b == [] {
      assert a + b == a;
    } else {
      var n := |b| - 1;
      assert (a + b)[..|a| + n] == a + b[..n] && (a + b)[|a| + n] == b[n];
      RunAppend(s, a, b[..n]);
    }
  }

  lemma RunTwo(s: State, e: Event)
    ensures Run(s, [e, e]) == Step(Step(s, e), e)
  {
    hide Step;
    assert [e, e][..1] == [e] && [e][..0] == [];
    assert Run(s, [e]) == Step(Run(s, []), e);
  }

  /** A callback let in and left alone: four moves. */
  function Undisturbed(i: nat): seq<Event> {
    [CallbackMoves(i), CallbackMoves(i)] + [CallbackMoves(i), CallbackMoves(i)]
  }

  lemma FourMoves(s: State, i: nat)
    ensures var e := CallbackMoves(i); Run(s, Undisturbed(i)) == Step(Step(Step(Step(s, e), e), e), e)
  {
    hide Step;
    var e := CallbackMoves(i);
    RunAppend(s, [e, e], [e, e]);
    RunTwo(s, e);
    RunTwo(Step(Step(s, e), e), e);
  }

  /** A result that arrives while the flag is up is written, and the flag lowered. */
  lemma ResultReported(s: State, i: nat, r: TrajectoryResult)
    requires i < |s.callbacks| && s.callbacks[i] == Idle && s.shared.mutex == Free && s.shared.running
    ensures var t := Run(s, [ResultArrives(i, r)] + Undisturbed(i));
            && t.shared == s.shared.(running := false, result := r)
            && At(t, i) == Idle && t.motion == s.motion
  {
    var e := ResultArrives(i, r);
    RunAppend(s, [e], Undisturbed(i));
    assert [e][..0] == [];
    assert Run(s, [e]) == Step(s, e);
    ResultLetIn(Step(s, e), i);
  }

  /** A connection that drops is a failure if the flag is up, and nothing otherwise. */
  lemma DropReported(s: State, i: nat)
    requires i < |s.callbacks| && s.callbacks[i] == Idle && s.shared.mutex == Free
    ensures var t := Run(s, [ConnectionDrops(i)] + ([CallbackMoves(i)] + Undisturbed(i)));
            && t.shared == (if s.shared.running then s.shared.(running := false, result := Failure) else s.shared)
            && At(t, i) == Idle && t.motion == s.motion
  {
    var e, move := ConnectionDrops(i), CallbackMoves(i);
    RunAppend(s, [e], [move] + Undisturbed(i));
    RunAppend(Step(s, e), [move], Undisturbed(i));
    assert [e][..0] == [] && [move][..0] == [];
    assert Run(s, [e]) == Step(s, e) && Run(Step(s, e), [move]) == Step(Step(s, e), move);
    DropLetIn(Step(Step(s, e), move), i);
  }

  lemma ResultLetIn(s: State, i: nat)
    requires i < |s.callbacks| && s.callbacks[i].DoneLock? && s.shared.mutex == Free
    ensures var t := Run(s, Undisturbed(i));
            && t.shared == s.shared.(running := false, result := s.callbacks[i].result)
            && At(t, i) == Idle && t.motion == s.motion
  {
    hide Run, Raised;
    FourMoves(s, i);
    var e := CallbackMoves(i);
    var t := Step(Step(s, e), e);
    assert t.callbacks[i] == DoneLower && t.shared == s.shared.(mutex := HeldBy(i), result := s.callbacks[i].result);
  }

  lemma DropLetIn(s: State, i: nat)
    requires i < |s.callbacks| && s.callbacks[i] == DropCheck && s.shared.mutex == HeldBy(i)
    ensures var t := Run(s, Undisturbed(i));
            && t.shared == (if s.shared.running then s.shared.(running := false, result := Failure, mutex := Free)
                            else s.shared.(mutex := Free))
            && At(t, i) == Idle && t.motion == s.motion
  {
    hide Run, Raised;
    FourMoves(s, i);
    var e := CallbackMoves(i);
    var t := Step(Step(s, e), e);
    assert s.shared.running ==> t.callbacks[i] == DropLower;
    assert !s.shared.running ==> t.callbacks[i] == Idle;
  }

  /** Once the flag is down and the mutex free, the call needs five more moves of its own, and
      answers what was reported unless it was cancelled. */
  lemma Finishes(s: State)
    requires s.motion == PollRunning && !s.shared.running && s.shared.mutex == Free
    ensures var move := MotionMoves(true);
            Run(s, [move, move, move, move, move]).motion == Returned(!s.shared.cancel && s.shared.result == Success)
  {
    var move := MotionMoves(true);
    FiveMoves(s, move);
    hide Run;
    var t := MotionStep(MotionStep(s, true), true);
    assert t.motion == (if s.shared.cancel then Returned(false) else ResultLock) && t.shared == s.shared;
    Answers(t);
  }

  lemma Answers(t: State)
    requires t.motion.Returned? || (t.motion.ResultLock? && t.shared.mutex == Free)
    ensures MotionStep(MotionStep(MotionStep(t, true), true), true).motion
         == if t.motion.Returned? then t.motion else Returned(t.shared.result == Success)
  {
  }

  lemma FiveMoves(s: State, e: Event)
    ensures Run(s, [e, e, e, e, e]) == Step(Step(Step(Step(Step(s, e), e), e), e), e)
  {
    hide Step;
    assert [e, e, e, e, e] == [e, e] + ([e, e] + [e]);
    RunAppend(s, [e, e], [e, e] + [e]);
    RunTwo(s, e);
    var t := Step(Step(s, e), e);
    RunAppend(t, [e, e], [e]);
    RunTwo(t, e);
    assert [e][..0] == [];
  }

  /** A call that is cancelled while the trajectory runs ends within three moves of its own. */
  lemma CancelFinishes(s: State)
    requires s.motion == PollRunning && s.shared.running && s.shared.cancel
    ensures var move := MotionMoves(true); Run(s, [move, move] + [move]).motion == Returned(false)
  {
    var move := MotionMoves(true);
    RunAppend(s, [move, move], [move]);
    RunTwo(s, move);
    assert [move][..0] == [];
    var t := MotionStep(MotionStep(s, true), true);
    assert t.motion == FinalCheck && t.shared.cancel;
    assert Run(t, [move]) == Step(t, move);
  }

  /** A call whose start message does not reach the robot reports a failure and returns false. */
  lemma StartFails(s: State)
    requires s.motion == Start && s.shared.mutex == Free
    ensures var move := MotionMoves(false);
            var t := Run(s, [move, move] + [move, move]);
            t.motion == Returned(false) && t.shared == s.shared.(result := Failure)
  {
    var move := MotionMoves(false);
    RunAppend(s, [move, move], [move, move]);
    RunTwo(s, move);
    var t := MotionStep(MotionStep(s, false), false);
    assert t.motion == FailWrite && t.shared == s.shared.(mutex := HeldByMotion);
    RunTwo(t, move);
  }
}
