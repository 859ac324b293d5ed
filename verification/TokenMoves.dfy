/** What every step does to the wake-up tokens of every fiber, exactly: a fiber gains one when it parks, is spawned, is
    scheduled by hand or is put back by its worker, loses one when it is swapped in or dropped, and all other steps only
    move tokens from place to place. The one exception is delEvent, which throws a registration away. */
module TokenMoves {
  import opened Folds
  import opened Tasks
  import opened FdTable
  import opened Semaphores
  import opened Runtime
  import opened HandOvers
  import opened WakeTokens
  import opened WakeSafety

  // ----------------------------------------------------------------------------------------------------------
  // Facts about activities and timers that hold in every run

  ghost predicate TimersOk(s: State) {
    forall k :: 0 <= k < |s.timers| && s.timers[k].Some? && s.timers[k].value.recurring ==>
      !s.timers[k].value.cb.WakeUp?
  }

  /** The timer a do_io call armed is some call's timeout, or gone... */
  ghost predicate TimeoutOk(s: State, timer: Option<nat>) {
    timer.Some? ==>
      timer.value < |s.timers| &&
      (s.timers[timer.value].Some? ==> s.timers[timer.value].value.cb.IoTimeout?)
  }

  /** ... and as long as the call waits, or is about to, that of this very call. */
  ghost predicate OwnTimeout(s: State, timer: Option<nat>, fd: nat, e: Event, info: nat) {
    timer.Some? ==>
      timer.value < |s.timers| &&
      (s.timers[timer.value].Some? ==>
         s.timers[timer.value].value == PendingTimer(IoTimeout(fd, e, info), false))
  }

  ghost predicate ActOk(s: State, a: Activity) {
    match a
    case IoArmed(info, timer, fd, e) => OwnTimeout(s, timer, fd, e, info)
    case IoRefused(_, timer) => TimeoutOk(s, timer)
    case IoParked(info, timer, fd, e) => OwnTimeout(s, timer, fd, e, info)
    case IoResumed(_, timer) => TimeoutOk(s, timer)
    case _ => true
  }

  /** A fiber that is new, has yielded READY or has ended is not in the middle of anything. */
  ghost predicate FiberOrderly(s: State, fb: Fiber) {
    ActOk(s, fb.act) && (fb.state == INIT || fb.state == READY || Ended(fb.state) ==> fb.act == Body)
  }

  ghost predicate Orderly(s: State) {
    TimersOk(s) && forall f :: 0 <= f < |s.fibers| ==> FiberOrderly(s, s.fibers[f])
  }

  // ----------------------------------------------------------------------------------------------------------
  // Gains and uses

  ghost predicate Gains(s: State, st: Step, f: FiberId)
    requires Enabled(s, st)
  {
    match st
    case Work(w, RequeueReady) => f == s.workers[w].pc.fiber
    case Act(w, a) => f == s.workers[w].pc.fiber && ParksBy(s, f, s.fibers[f].act, a)
    case Open(Spawn(_)) => f == |s.fibers|
    case Open(RawSchedule(g, _)) => f == g
    case _ => false
  }

  /** The step parks fiber f with a source that will wake it. */
  ghost predicate ParksBy(s: State, f: FiberId, a: Activity, st: FiberStep)
    requires FiberCan(s, f, a, st)
  {
    match st
    case Sleep => true
    case SwitchTo(_) => true
    case SemWait(k) => s.sems[k].count == 0
    case IoRegister(ok) => AddEvent(s.io, a.fd, a.event, RunFiber(f), ok).1 == Added
    case _ => false
  }

  ghost predicate Uses(s: State, st: Step, f: FiberId)
    requires Enabled(s, st)
  {
    st.Work? && (st.work.SwapIn? || st.work.DropEnded?) && f == s.workers[st.w].pc.entry.task.fiber
  }

  /** The wake-ups a step throws away. */
  ghost function Dropped(s: State, st: Step): multiset<FiberId> {
    match st
    case Open(DelFdEvent(fd, e, ok)) => Deleted(s.io, fd, e, ok)
    case _ => multiset{}
  }

  // ----------------------------------------------------------------------------------------------------------
  // Worker steps

  lemma TakeTokens(s: State, w: nat, g: FiberId)
    requires WorkerEnabled(s, w, Take)
    ensures Tokens(WorkerApply(s, w, Take), g) == Tokens(s, g)
  {
    var t := WorkerApply(s, w, Take);
    var i := PickIndex(s, w);
    var m := s.(queue := t.queue);
    SumRemove(s.queue, i, EntryTok, g);
    TokensAfter(m, t, w, s.workers[w].(pc := Picked(s.queue[i])), g);
  }

  /** One worker and one fiber changed, nothing else that carries tokens. */
  lemma MoveTokens(s: State, t: State, w: nat, nw: Worker, f: FiberId, nf: Fiber, g: FiberId)
    requires OneWorker(s, t, w, nw) && f < |s.fibers| && t.fibers == s.fibers[f := nf]
    requires SameRest(s, t)
    ensures Tokens(t, g) + WorkerTok(s.workers[w])[g] + FiberTok(s.fibers[f])[g] ==
            Tokens(s, g) + WorkerTok(nw)[g] + FiberTok(nf)[g]
  {
    var m := s.(workers := t.workers);
    TokensAfter(s, m, w, nw, g);
    TokensAfterFiber(m, t, f, nf, g);
  }

  /** One worker changed and one fiber was appended. */
  lemma AppendTokens(s: State, t: State, w: nat, nw: Worker, nf: Fiber, g: FiberId)
    requires OneWorker(s, t, w, nw) && t.fibers == s.fibers + [nf]
    requires SameRest(s, t)
    ensures Tokens(t, g) + WorkerTok(s.workers[w])[g] == Tokens(s, g) + WorkerTok(nw)[g] + FiberTok(nf)[g]
  {
    var m := s.(workers := t.workers);
    TokensAfter(s, m, w, nw, g);
    SumAppend(s.fibers, nf, FiberTok, g);
  }

  lemma SwapInShape(s: State, w: nat)
    requires WorkerEnabled(s, w, SwapIn)
    ensures var t, f := WorkerApply(s, w, SwapIn), s.workers[w].pc.entry.task.fiber;
            && OneWorker(s, t, w, s.workers[w].(pc := Running(f, false))) && SameRest(s, t)
            && t.fibers == s.fibers[f := Fiber(EXEC, Resumed(s.fibers[f].act))]
  {
  }

  lemma ResumedTokens(fb: Fiber)
    ensures FiberTok(Fiber(EXEC, Resumed(fb.act))) == FiberTok(fb)
  {
  }

  lemma SwapInTokens(s: State, w: nat, g: FiberId)
    requires WorkerEnabled(s, w, SwapIn)
    ensures var f := s.workers[w].pc.entry.task.fiber;
            Tokens(WorkerApply(s, w, SwapIn), g) + (if g == f then 1 else 0) == Tokens(s, g)
  {
    var f := s.workers[w].pc.entry.task.fiber;
    var nf := Fiber(EXEC, Resumed(s.fibers[f].act));
    ResumedTokens(s.fibers[f]);
    SwapInShape(s, w);
    MoveTokens(s, WorkerApply(s, w, SwapIn), w, s.workers[w].(pc := Running(f, false)), f, nf, g);
  }

  lemma DropEndedTokens(s: State, w: nat, g: FiberId)
    requires WorkerEnabled(s, w, DropEnded)
    ensures var f := s.workers[w].pc.entry.task.fiber;
            Tokens(WorkerApply(s, w, DropEnded), g) + (if g == f then 1 else 0) == Tokens(s, g)
  {
    TokensAfter(s, WorkerApply(s, w, DropEnded), w, s.workers[w].(pc := Loop), g);
  }

  lemma CallbackTokens(s: State, t: State, w: nat, f: FiberId, g: FiberId)
    requires CallbackStarts(s, t, w, f) && SameRest(s, t) && (f < |s.fibers| ==> FiberTok(s.fibers[f]) == multiset{})
    ensures Tokens(t, g) == Tokens(s, g)
  {
    var nw := s.workers[w].(pc := Running(f, true), cbFiber := Some(f));
    var nf := Fiber(EXEC, Entering(s.workers[w].pc.entry.task.cb));
    if f < |s.fibers| {
      MoveTokens(s, t, w, nw, f, nf, g);
    } else {
      AppendTokens(s, t, w, nw, nf, g);
    }
  }

  lemma StartCallbackTokens(s: State, w: nat, g: FiberId)
    requires WakeOk(s) && Orderly(s) && WorkerEnabled(s, w, StartCallback)
    ensures Tokens(WorkerApply(s, w, StartCallback), g) == Tokens(s, g)
  {
    StartCallbackShape(s, w);
    if s.workers[w].cbFiber.Some? {
      var f := s.workers[w].cbFiber.value;
      CachedIsIdle(s, w);
      assert FiberOrderly(s, s.fibers[f]);
      CallbackTokens(s, StartOnCached(s, w), w, f, g);
    } else {
      CallbackTokens(s, StartOnFresh(s, w), w, |s.fibers|, g);
    }
  }

  function QuietNext(wk: Worker, st: WorkerStep): Worker
    requires st.SwapOut? || st.Decrement? ==> wk.pc.Running? || wk.pc.Back?
  {
    wk.(pc := match st
      case GoIdle => Idling([])
      case SwapOut => Back(wk.pc.fiber, wk.pc.viaCb)
      case Decrement => Released(wk.pc.fiber, wk.pc.viaCb)
      case _ => Exited)
  }

  /** The worker's own move: nothing else changes. */
  lemma QuietShape(s: State, w: nat, st: WorkerStep)
    requires WorkerEnabled(s, w, st) && (st.GoIdle? || st.Exit? || st.SwapOut? || st.Decrement?)
    ensures var t := WorkerApply(s, w, st);
            && OneWorker(s, t, w, QuietNext(s.workers[w], st)) && SameRest(s, t) && t.fibers == s.fibers
    ensures WorkerTok(s.workers[w]) == multiset{} && WorkerTok(QuietNext(s.workers[w], st)) == multiset{}
  {
  }

  lemma QuietTokens(s: State, w: nat, st: WorkerStep, g: FiberId)
    requires WorkerEnabled(s, w, st) && (st.GoIdle? || st.Exit? || st.SwapOut? || st.Decrement?)
    ensures Tokens(WorkerApply(s, w, st), g) == Tokens(s, g)
  {
    QuietShape(s, w, st);
    TokensAfter(s, WorkerApply(s, w, st), w, QuietNext(s.workers[w], st), g);
  }

  lemma InspectedTokens(s: State, t: State, w: nat, f: FiberId, viaCb: bool, g: FiberId)
    requires w < |s.workers| && f < |s.fibers| && s.workers[w].pc == Released(f, viaCb) && SameRest(s, t)
    requires Inspected(s, t, w, f, viaCb) && FiberOrderly(s, s.fibers[f])
    ensures Tokens(t, g) == Tokens(s, g)
  {
    if Ended(s.fibers[f].state) {
      var nf := if viaCb then Fiber(INIT, Body) else s.fibers[f];
      assert FiberTok(nf) == multiset{} && FiberTok(s.fibers[f]) == multiset{};
      LetGoTokens(s, t, w, s.workers[w].(pc := Loop), f, nf, g);
    } else {
      var nw := s.workers[w].(pc := if s.fibers[f].state == READY then Requeue(f, viaCb) else MarkHold(f, viaCb));
      assert WorkerTok(nw) == multiset{};
      TokensAfter(s, t, w, nw, g);
    }
  }

  lemma LetGoTokens(s: State, t: State, w: nat, nw: Worker, f: FiberId, nf: Fiber, g: FiberId)
    requires OneWorker(s, t, w, nw) && f < |s.fibers| && t.fibers == s.fibers[f := nf] && SameRest(s, t)
    requires WorkerTok(s.workers[w]) == WorkerTok(nw) && FiberTok(nf) == FiberTok(s.fibers[f])
    ensures Tokens(t, g) == Tokens(s, g)
  {
    MoveTokens(s, t, w, nw, f, nf, g);
  }

  lemma InspectTokens(s: State, w: nat, g: FiberId)
    requires Orderly(s) && WorkerEnabled(s, w, Inspect)
    ensures Tokens(WorkerApply(s, w, Inspect), g) == Tokens(s, g)
  {
    var f, viaCb := s.workers[w].pc.fiber, s.workers[w].pc.viaCb;
    InspectShape(s, w, f, viaCb);
    InspectedTokens(s, DealWith(s, w, f, viaCb), w, f, viaCb, g);
  }

  lemma WriteHoldTokens(s: State, w: nat, g: FiberId)
    requires WorkerEnabled(s, w, WriteHold)
    ensures Tokens(WorkerApply(s, w, WriteHold), g) == Tokens(s, g)
  {
    var f := s.workers[w].pc.fiber;
    MoveTokens(s, WorkerApply(s, w, WriteHold), w, LetGo(s.workers[w], s.workers[w].pc.viaCb), f,
               s.fibers[f].(state := HOLD), g);
  }

  lemma RequeueReadyTokens(s: State, w: nat, g: FiberId)
    requires WorkerEnabled(s, w, RequeueReady)
    ensures Tokens(WorkerApply(s, w, RequeueReady), g) == Tokens(s, g) + (if g == s.workers[w].pc.fiber then 1 else 0)
  {
    var f := s.workers[w].pc.fiber;
    var t := WorkerApply(s, w, RequeueReady);
    var m := s.(queue := t.queue);
    SumAppend(s.queue, Entry(RunFiber(f), -1), EntryTok, g);
    TokensAfter(m, t, w, LetGo(s.workers[w], s.workers[w].pc.viaCb), g);
  }

  lemma WorkerTokens(s: State, w: nat, st: WorkerStep, g: FiberId)
    requires WakeOk(s) && Orderly(s) && WorkerEnabled(s, w, st)
    ensures Tokens(WorkerApply(s, w, st), g) + (if Uses(s, Work(w, st), g) then 1 else 0) ==
            Tokens(s, g) + (if Gains(s, Work(w, st), g) then 1 else 0)
  {
    match st
    case SwapIn => SwapInTokens(s, w, g);
    case DropEnded => DropEndedTokens(s, w, g);
    case RequeueReady => RequeueReadyTokens(s, w, g);
    case _ => OtherWorkTokens(s, w, st, g);
  }

  lemma OtherWorkTokens(s: State, w: nat, st: WorkerStep, g: FiberId)
    requires WakeOk(s) && Orderly(s) && WorkerEnabled(s, w, st) && !st.SwapIn? && !st.DropEnded? && !st.RequeueReady?
    ensures Tokens(WorkerApply(s, w, st), g) == Tokens(s, g)
  {
    match st
    case Take => TakeTokens(s, w, g);
    case StartCallback => StartCallbackTokens(s, w, g);
    case Inspect => InspectTokens(s, w, g);
    case WriteHold => WriteHoldTokens(s, w, g);
    case _ => QuietTokens(s, w, st, g);
  }

  // ----------------------------------------------------------------------------------------------------------
  // Steps of the running fiber

  /** Only fiber f's activity changed, from one without a wake-up to one without, and timers without one: none, one
      added, or one cancelled. */
  ghost predicate LocalChange(s: State, t: State, f: FiberId, a: Activity) {
    && t.workers == s.workers && t.queue == s.queue && t.io == s.io && t.sems == s.sems
    && f < |s.fibers| && t.fibers == s.fibers[f := s.fibers[f].(act := a)]
    && FiberTok(s.fibers[f]) == multiset{} && !a.Entering?
    && (|| t.timers == s.timers
        || (exists cb :: t.timers == s.timers + [Some(PendingTimer(cb, false))] && !cb.WakeUp?)
        || (exists k :: TimerCancelled(s.timers, t.timers, k)))
  }

  ghost predicate TimerCancelled(a: seq<Option<PendingTimer>>, b: seq<Option<PendingTimer>>, k: nat) {
    k < |a| && b == a[k := None] && TimerTok(a[k]) == multiset{}
  }

  lemma LocalTokens(s: State, t: State, f: FiberId, a: Activity, g: FiberId)
    requires LocalChange(s, t, f, a)
    ensures Tokens(t, g) == Tokens(s, g)
  {
    SumShift(s.fibers, f, s.fibers[f].(act := a), FiberTok, g);
    if t.timers != s.timers {
      if cb :| t.timers == s.timers + [Some(PendingTimer(cb, false))] && !cb.WakeUp? {
        SumAppend(s.timers, Some(PendingTimer(cb, false)), TimerTok, g);
      } else {
        var k :| TimerCancelled(s.timers, t.timers, k);
        SumShift(s.timers, k, None, TimerTok, g);
      }
    }
  }

  lemma LocalFlowShape(s: State, f: FiberId, st: FiberStep)
    requires f < |s.fibers| && FiberCan(s, f, s.fibers[f].act, st)
    requires st.EnterUser? || st.FireTimeout? || st.YieldBare? || st.IoBegin? || st.IoReturn?
    ensures var t := FiberDo(s, f, s.fibers[f].act, st); LocalChange(s, t, f, t.fibers[f].act)
  {
  }

  lemma IoArmShape(s: State, f: FiberId, st: FiberStep)
    requires f < |s.fibers| && FiberCan(s, f, s.fibers[f].act, st) && st.IoArm?
    ensures var t := FiberDo(s, f, s.fibers[f].act, st); LocalChange(s, t, f, t.fibers[f].act)
  {
    var t := FiberDo(s, f, s.fibers[f].act, st);
    if st.timed {
      assert t.timers == s.timers + [Some(PendingTimer(IoTimeout(st.fd, st.event, s.fibers[f].act.info), false))];
    }
  }

  lemma IoEndShape(s: State, f: FiberId, st: FiberStep)
    requires f < |s.fibers| && FiberOrderly(s, s.fibers[f]) && FiberCan(s, f, s.fibers[f].act, st)
    requires st.IoGiveUp? || st.IoWoken?
    ensures var t := FiberDo(s, f, s.fibers[f].act, st); LocalChange(s, t, f, t.fibers[f].act)
  {
    var t := FiberDo(s, f, s.fibers[f].act, st);
    var timer := s.fibers[f].act.timer;
    if timer.Some? {
      assert TimerCancelled(s.timers, t.timers, timer.value);
    }
  }

  predicate LocalStep(st: FiberStep) {
    || st.EnterUser? || st.FireTimeout? || st.YieldBare? || st.IoBegin? || st.IoReturn? || st.IoArm?
    || st.IoGiveUp? || st.IoWoken?
  }

  lemma LocalStepTokens(s: State, f: FiberId, st: FiberStep, g: FiberId)
    requires f < |s.fibers| && FiberOrderly(s, s.fibers[f]) && FiberCan(s, f, s.fibers[f].act, st) && LocalStep(st)
    ensures Tokens(FiberDo(s, f, s.fibers[f].act, st), g) == Tokens(s, g)
  {
    if st.IoArm? {
      IoArmShape(s, f, st);
    } else if st.IoGiveUp? || st.IoWoken? {
      IoEndShape(s, f, st);
    } else {
      LocalFlowShape(s, f, st);
    }
    var t := FiberDo(s, f, s.fibers[f].act, st);
    LocalTokens(s, t, f, t.fibers[f].act, g);
  }

  /** The sleep callback moves its token from the callback fiber to the list. */
  lemma FireWakeTokens(s: State, t: State, f: FiberId, target: FiberId, g: FiberId)
    requires f < |s.fibers| && s.fibers[f].act == Entering(WakeUp(target))
    requires t.fibers == s.fibers[f := s.fibers[f].(act := Body)] && t.queue == s.queue + [Entry(RunFiber(target), -1)]
    requires t.workers == s.workers && t.io == s.io && t.timers == s.timers && t.sems == s.sems
    ensures Tokens(t, g) == Tokens(s, g)
  {
    SumShift(s.fibers, f, s.fibers[f].(act := Body), FiberTok, g);
    SumAppend(s.queue, Entry(RunFiber(target), -1), EntryTok, g);
  }

  /** Waiters taken out of the fd table are on the list: the same tokens in another place. */
  lemma FiredTokens(s: State, t: State, io: Table, tasks: seq<Task>, g: FiberId)
    requires t.io == io && t.queue == s.queue + Entries(tasks) && t.workers == s.workers && t.sems == s.sems
    requires t.timers == s.timers && Sum(t.fibers, FiberTok)[g] == Sum(s.fibers, FiberTok)[g]
    requires Sum(io.contexts, ContextTok)[g] + Sum(tasks, TaskTok)[g] == Sum(s.io.contexts, ContextTok)[g]
    ensures Tokens(t, g) == Tokens(s, g)
  {
    QueueGrows(s.queue, tasks, g);
  }

  lemma FireCancelTokens(s: State, f: FiberId, ok: bool, g: FiberId)
    requires f < |s.fibers| && FiberCan(s, f, s.fibers[f].act, FireCancel(ok))
    ensures Tokens(FiberDo(s, f, s.fibers[f].act, FireCancel(ok)), g) == Tokens(s, g)
  {
    var a, t := s.fibers[f].act, FiberDo(s, f, s.fibers[f].act, FireCancel(ok));
    var r := CancelEvent(s.io, a.fd, a.event, ok);
    var m := SetAct(s, f, Body);
    TokensAfterFiber(s, m, f, s.fibers[f].(act := Body), g);
    CancelEventMoves(s.io, a.fd, a.event, ok, g);
    FiredTokens(m, t, r.0, r.1, g);
  }

  lemma OwnStateTokens(s: State, t: State, f: FiberId, nf: Fiber, g: FiberId)
    requires f < |s.fibers| && s.fibers[f].act == Body && nf.act == Body && t.fibers == s.fibers[f := nf]
    requires t.workers == s.workers && SameRest(s, t)
    ensures Tokens(t, g) == Tokens(s, g)
  {
    TokensAfterFiber(s, t, f, nf, g);
  }

  /** Fiber f parks. */
  ghost predicate Parks(s: State, t: State, f: FiberId, a: Activity) {
    && t.workers == s.workers && f < |s.fibers| && t.fibers == s.fibers[f := s.fibers[f].(act := a)]
    && FiberTok(s.fibers[f]) == multiset{} && !a.Entering?
  }

  lemma SleepTokens(s: State, t: State, f: FiberId, g: FiberId)
    requires Parks(s, t, f, Parked) && t.timers == s.timers + [Some(PendingTimer(WakeUp(f), false))]
    requires t.queue == s.queue && t.io == s.io && t.sems == s.sems
    ensures Tokens(t, g) == Tokens(s, g) + (if g == f then 1 else 0)
  {
    SumShift(s.fibers, f, s.fibers[f].(act := Parked), FiberTok, g);
    SumAppend(s.timers, Some(PendingTimer(WakeUp(f), false)), TimerTok, g);
  }

  lemma SwitchToTokens(s: State, t: State, f: FiberId, thread: int, g: FiberId)
    requires Parks(s, t, f, Parked) && t.queue == s.queue + [Entry(RunFiber(f), thread)]
    requires t.timers == s.timers && t.io == s.io && t.sems == s.sems
    ensures Tokens(t, g) == Tokens(s, g) + (if g == f then 1 else 0)
  {
    SumShift(s.fibers, f, s.fibers[f].(act := Parked), FiberTok, g);
    SumAppend(s.queue, Entry(RunFiber(f), thread), EntryTok, g);
  }

  lemma SemBlockTokens(s: State, t: State, f: FiberId, k: nat, g: FiberId)
    requires Parks(s, t, f, Parked) && k < |s.sems| && t.sems == s.sems[k := Acquire(s.sems[k], f, true).0]
    requires s.sems[k].count == 0 && t.timers == s.timers && t.io == s.io && t.queue == s.queue
    ensures Tokens(t, g) == Tokens(s, g) + (if g == f then 1 else 0)
  {
    SumShift(s.fibers, f, s.fibers[f].(act := Parked), FiberTok, g);
    WaitersSum(s.sems, k, Acquire(s.sems[k], f, true).0, g);
  }

  lemma SemGrantTokens(s: State, t: State, k: nat, sem: Sem, g: FiberId)
    requires k < |s.sems| && t.sems == s.sems[k := sem] && sem.waiters == s.sems[k].waiters
    requires t.workers == s.workers && t.fibers == s.fibers && t.timers == s.timers
    requires t.io == s.io && t.queue == s.queue
    ensures Tokens(t, g) == Tokens(s, g)
  {
    WaitersSum(s.sems, k, sem, g);
  }

  lemma RegisterTokens(s: State, t: State, f: FiberId, a: Activity, fd: nat, e: Event, ok: bool, g: FiberId)
    requires Parks(s, t, f, a) && TableOk(s.io) && fd < |Grown(s.io.contexts, fd)|
    requires t.io == AddEvent(s.io, fd, e, RunFiber(f), ok).0
    requires t.timers == s.timers && t.sems == s.sems && t.queue == s.queue
    ensures Tokens(t, g) == Tokens(s, g) +
              (if g == f && AddEvent(s.io, fd, e, RunFiber(f), ok).1 == Added then 1 else 0)
  {
    SumShift(s.fibers, f, s.fibers[f].(act := a), FiberTok, g);
    AddEventAdds(s.io, fd, e, RunFiber(f), ok, g);
  }

  lemma ParkStepTokens(s: State, f: FiberId, st: FiberStep, g: FiberId)
    requires TableOk(s.io) && f < |s.fibers| && FiberCan(s, f, s.fibers[f].act, st)
    requires st.Sleep? || st.SwitchTo? || st.IoRegister? || st.SemWait?
    ensures Tokens(FiberDo(s, f, s.fibers[f].act, st), g) ==
            Tokens(s, g) + (if g == f && ParksBy(s, f, s.fibers[f].act, st) then 1 else 0)
  {
    var a := s.fibers[f].act;
    var t := FiberDo(s, f, a, st);
    match st
    case Sleep => SleepTokens(s, t, f, g);
    case SwitchTo(thread) => SwitchToTokens(s, t, f, thread, g);
    case SemWait(k) =>
      if s.sems[k].count == 0 { SemBlockTokens(s, t, f, k, g); }
      else { SemGrantTokens(s, t, k, Acquire(s.sems[k], f, true).0, g); }
    case IoRegister(ok) => RegisterTokens(s, t, f, t.fibers[f].act, a.fd, a.event, ok, g);
  }

  lemma FiberTokens(s: State, f: FiberId, st: FiberStep, g: FiberId)
    requires TableOk(s.io) && f < |s.fibers| && FiberOrderly(s, s.fibers[f]) && FiberCan(s, f, s.fibers[f].act, st)
    ensures Tokens(FiberDo(s, f, s.fibers[f].act, st), g) ==
            Tokens(s, g) + (if g == f && ParksBy(s, f, s.fibers[f].act, st) then 1 else 0)
  {
    var a := s.fibers[f].act;
    var t := FiberDo(s, f, a, st);
    match st
    case FireWake => FireWakeTokens(s, t, f, a.cb.fiber, g);
    case FireCancel(ok) => FireCancelTokens(s, f, ok, g);
    case YieldToReady => OwnStateTokens(s, t, f, Fiber(READY, Body), g);
    case Finish(threw) => OwnStateTokens(s, t, f, Fiber(if threw then EXCEPT else TERM, Body), g);
    case Sleep => ParkStepTokens(s, f, st, g);
    case SwitchTo(_) => ParkStepTokens(s, f, st, g);
    case IoRegister(_) => ParkStepTokens(s, f, st, g);
    case SemWait(_) => ParkStepTokens(s, f, st, g);
    case _ => LocalStepTokens(s, f, st, g);
  }

  // ----------------------------------------------------------------------------------------------------------
  // Steps of any thread

  lemma PushTokens(s: State, t: State, e: Entry, g: FiberId)
    requires t.queue == s.queue + [e] && t.workers == s.workers && t.fibers == s.fibers && t.io == s.io
    requires t.timers == s.timers && t.sems == s.sems
    ensures Tokens(t, g) == Tokens(s, g) + EntryTok(e)[g]
  {
    SumAppend(s.queue, e, EntryTok, g);
  }

  lemma NewFiberTokens(s: State, t: State, g: FiberId)
    requires t.fibers == s.fibers + [Fiber(INIT, Body)] && t.workers == s.workers && SameRest(s, t)
    ensures Tokens(t, g) == Tokens(s, g)
  {
    SumAppend(s.fibers, Fiber(INIT, Body), FiberTok, g);
  }

  lemma SpawnTokens(s: State, t: State, thread: int, g: FiberId)
    requires t == OpenApply(s, Spawn(thread))
    ensures Tokens(t, g) == Tokens(s, g) + (if g == |s.fibers| then 1 else 0)
  {
    var m := s.(fibers := s.fibers + [Fiber(INIT, Body)]);
    NewFiberTokens(s, m, g);
    PushTokens(m, t, Entry(RunFiber(|s.fibers|), thread), g);
  }

  lemma AddTimerTokens(s: State, t: State, timer: PendingTimer, g: FiberId)
    requires t == s.(timers := s.timers + [Some(timer)]) && !timer.cb.WakeUp?
    ensures Tokens(t, g) == Tokens(s, g)
  {
    SumAppend(s.timers, Some(timer), TimerTok, g);
  }

  lemma CancelTimerTokens(s: State, t: State, k: nat, g: FiberId)
    requires k < |s.timers| && t == s.(timers := s.timers[k := None]) && TimerTok(s.timers[k]) == multiset{}
    ensures Tokens(t, g) == Tokens(s, g)
  {
    SumShift(s.timers, k, None, TimerTok, g);
  }

  lemma NewSemaphoreTokens(s: State, t: State, n: nat, g: FiberId)
    requires t == s.(sems := s.sems + [NewSem(n)])
    ensures Tokens(t, g) == Tokens(s, g)
  {
    SumAppend(s.sems, NewSem(n), SemTok, g);
  }

  lemma NotifyTokens(s: State, t: State, k: nat, g: FiberId)
    requires k < |s.sems| && t.sems == s.sems[k := Notify(s.sems[k]).0]
    requires t.queue == s.queue + Entries(Woken(s.sems[k]))
    requires t.workers == s.workers && t.fibers == s.fibers && t.io == s.io && t.timers == s.timers
    ensures Tokens(t, g) == Tokens(s, g)
  {
    NotifyMoves(s.sems, k, g);
    QueueGrows(s.queue, Woken(s.sems[k]), g);
  }

  lemma DeletionTokens(s: State, t: State, fd: nat, e: Event, ok: bool, g: FiberId)
    requires t == s.(io := DelEvent(s.io, fd, e, ok).0)
    ensures Tokens(t, g) + Deleted(s.io, fd, e, ok)[g] == Tokens(s, g)
  {
    var io, drop := DelEvent(s.io, fd, e, ok).0, Deleted(s.io, fd, e, ok)[g];
    assert Sum(io.contexts, ContextTok)[g] + drop == Sum(s.io.contexts, ContextTok)[g] by {
      DelEventDrops(s.io, fd, e, ok, g);
    }
    TableTokens(s, io, drop, g);
  }

  lemma TableTokens(s: State, io: Table, drop: nat, g: FiberId)
    requires Sum(io.contexts, ContextTok)[g] + drop == Sum(s.io.contexts, ContextTok)[g]
    ensures Tokens(s.(io := io), g) + drop == Tokens(s, g)
  {
  }

  lemma CancelFdEventTokens(s: State, fd: nat, e: Event, ok: bool, g: FiberId)
    ensures Tokens(OpenApply(s, CancelFdEvent(fd, e, ok)), g) == Tokens(s, g)
  {
    var t, r := OpenApply(s, CancelFdEvent(fd, e, ok)), CancelEvent(s.io, fd, e, ok);
    CancelEventMoves(s.io, fd, e, ok, g);
    FiredTokens(s, t, r.0, r.1, g);
  }

  lemma CancelFdTokens(s: State, fd: nat, ok: bool, g: FiberId)
    ensures Tokens(OpenApply(s, CancelFd(fd, ok)), g) == Tokens(s, g)
  {
    CancelAllMoves(s.io, fd, ok, g);
    FiredTokens(s, OpenApply(s, CancelFd(fd, ok)), CancelAll(s.io, fd, ok).0, CancelAll(s.io, fd, ok).1, g);
  }

  lemma TableStepTokens(s: State, st: OpenStep, g: FiberId)
    requires TableOk(s.io) && OpenEnabled(s, st)
    requires st.AddCallbackEvent? || st.CancelFdEvent? || st.CancelFd?
    ensures Tokens(OpenApply(s, st), g) == Tokens(s, g)
  {
    var t := OpenApply(s, st);
    match st
    case AddCallbackEvent(fd, e, id, ok) => AddEventAdds(s.io, fd, e, RunCallback(UserCode(id)), ok, g);
    case CancelFdEvent(fd, e, ok) => CancelFdEventTokens(s, fd, e, ok, g);
    case CancelFd(fd, ok) => CancelFdTokens(s, fd, ok, g);
  }

  lemma QuietOpenTokens(s: State, st: OpenStep, g: FiberId)
    requires OpenEnabled(s, st)
    requires || st.AddUserTimer? || st.CancelUserTimer? || st.NewSemaphore? || st.SemNotify? || st.SemTryWait?
             || st.RequestStop?
    ensures Tokens(OpenApply(s, st), g) == Tokens(s, g)
  {
    var t := OpenApply(s, st);
    match st
    case AddUserTimer(id, recurring) => AddTimerTokens(s, t, PendingTimer(UserCode(id), recurring), g);
    case CancelUserTimer(k) => CancelTimerTokens(s, t, k, g);
    case NewSemaphore(n) => NewSemaphoreTokens(s, t, n, g);
    case SemNotify(k) => NotifyTokens(s, t, k, g);
    case SemTryWait(k) => SemGrantTokens(s, t, k, Acquire(s.sems[k], 0, false).0, g);
    case RequestStop =>
  }

  lemma ListStepTokens(s: State, st: OpenStep, g: FiberId)
    requires OpenEnabled(s, st) && (st.Spawn? || st.Submit? || st.NewFiber? || st.RawSchedule?)
    ensures Tokens(OpenApply(s, st), g) == Tokens(s, g) + (if Gains(s, Open(st), g) then 1 else 0)
  {
    var t := OpenApply(s, st);
    match st
    case Spawn(thread) => SpawnTokens(s, t, thread, g);
    case Submit(id, thread) => PushTokens(s, t, Entry(RunCallback(UserCode(id)), thread), g);
    case NewFiber => NewFiberTokens(s, t, g);
    case RawSchedule(f, thread) => HandOverTokens(s, f, thread, g);
  }

  lemma HandOverTokens(s: State, f: FiberId, thread: int, g: FiberId)
    requires f < |s.fibers|
    ensures Tokens(OpenApply(s, RawSchedule(f, thread)), g) == Tokens(s, g) + (if g == f then 1 else 0)
  {
    PushTokens(s, OpenApply(s, RawSchedule(f, thread)), Entry(RunFiber(f), thread), g);
  }

  lemma OpenTokens(s: State, st: OpenStep, g: FiberId)
    requires TableOk(s.io) && OpenEnabled(s, st)
    ensures Tokens(OpenApply(s, st), g) + Dropped(s, Open(st))[g] ==
            Tokens(s, g) + (if Gains(s, Open(st), g) then 1 else 0)
  {
    if st.Spawn? || st.Submit? || st.NewFiber? || st.RawSchedule? {
      ListStepTokens(s, st, g);
    } else if st.DelFdEvent? {
      DeletionTokens(s, OpenApply(s, st), st.fd, st.event, st.ok, g);
    } else if st.AddCallbackEvent? || st.CancelFdEvent? || st.CancelFd? {
      TableStepTokens(s, st, g);
    } else {
      QuietOpenTokens(s, st, g);
    }
  }

  // ----------------------------------------------------------------------------------------------------------
  // Steps of the idle fiber

  lemma HandGrowsTokens(s: State, t: State, w: nat, nw: Worker, cb: Callback, g: FiberId)
    requires w < |s.workers| && s.workers[w].pc.Idling? && nw.pc == Idling(s.workers[w].pc.hand + [cb])
    requires OneWorker(s, t, w, nw) && SameRest(s, t) && t.fibers == s.fibers
    ensures Tokens(t, g) == Tokens(s, g) + CbTok(cb)[g]
  {
    TokensAfter(s, t, w, nw, g);
    HandTokens(s.workers[w], nw, cb, g);
  }

  lemma HandTokens(wk: Worker, nw: Worker, cb: Callback, g: FiberId)
    requires wk.pc.Idling? && nw.pc == Idling(wk.pc.hand + [cb])
    ensures WorkerTok(nw)[g] == WorkerTok(wk)[g] + CbTok(cb)[g]
  {
    SumAppend(wk.pc.hand, cb, CbTok, g);
  }

  lemma TimerGoesTokens(s: State, t: State, k: nat, g: FiberId)
    requires k < |s.timers| && t == s.(timers := s.timers[k := None])
    ensures Tokens(t, g) + TimerTok(s.timers[k])[g] == Tokens(s, g)
  {
    SumShift(s.timers, k, None, TimerTok, g);
  }

  lemma ExpireTokens(s: State, w: nat, k: nat, g: FiberId)
    requires TimersOk(s) && IdleEnabled(s, w, Expire(k))
    ensures Tokens(IdleApply(s, w, Expire(k)), g) == Tokens(s, g)
  {
    var p := s.timers[k].value;
    var nw := s.workers[w].(pc := Idling(s.workers[w].pc.hand + [p.cb]));
    var t := s.(workers := s.workers[w := nw]);
    HandGrowsTokens(s, t, w, nw, p.cb, g);
    if !p.recurring {
      TimerGoesTokens(t, IdleApply(s, w, Expire(k)), k, g);
    }
  }

  lemma FlushTokens(s: State, t: State, w: nat, g: FiberId)
    requires w < |s.workers| && s.workers[w].pc.Idling?
    requires t.workers == s.workers[w := s.workers[w].(pc := Idling([]))]
    requires t.queue == s.queue + Entries(AsCallbacks(s.workers[w].pc.hand))
    requires t.fibers == s.fibers && t.io == s.io && t.timers == s.timers && t.sems == s.sems
    ensures Tokens(t, g) == Tokens(s, g)
  {
    var hand := s.workers[w].pc.hand;
    TokensAfter(s, s.(workers := t.workers), w, s.workers[w].(pc := Idling([])), g);
    QueueGrows(s.queue, AsCallbacks(hand), g);
    HandAndTasks(hand);
  }

  lemma IdleTokens(s: State, w: nat, st: IdleStep, g: FiberId)
    requires TimersOk(s) && IdleEnabled(s, w, st)
    ensures Tokens(IdleApply(s, w, st), g) == Tokens(s, g)
  {
    var t := IdleApply(s, w, st);
    match st
    case Expire(k) => ExpireTokens(s, w, k, g);
    case Flush => FlushTokens(s, t, w, g);
    case DispatchFd(fd, rep, ok) =>
      DispatchMoves(s.io, fd, rep, ok, g);
      FiredTokens(s, t, Dispatch(s.io, fd, rep, ok).0, Dispatch(s.io, fd, rep, ok).1, g);
    case LeaveIdle => TokensAfter(s, t, w, s.workers[w].(pc := Loop), g);
    case EndIdle => TokensAfter(s, t, w, s.workers[w].(pc := Loop, idleEnded := true), g);
  }

  // ----------------------------------------------------------------------------------------------------------
  // Order is kept

  /** Timers are added, or go. */
  ghost predicate TimersGo(s: State, t: State) {
    && |s.timers| <= |t.timers|
    && forall k :: 0 <= k < |s.timers| ==> t.timers[k] == s.timers[k] || t.timers[k] == None
  }

  lemma StaysOrderly(s: State, t: State, fb: Fiber)
    requires FiberOrderly(s, fb) && TimersGo(s, t)
    ensures FiberOrderly(t, fb)
  {
  }

  /** What a worker step does to the record of fiber g. */
  lemma WorkerRecords(s: State, w: nat, st: WorkerStep, g: FiberId)
    requires WorkerEnabled(s, w, st) && g < |WorkerApply(s, w, st).fibers|
    ensures var r := WorkerApply(s, w, st).fibers[g];
            || (g < |s.fibers| && r == s.fibers[g])
            || (st.SwapIn? && g == s.workers[w].pc.entry.task.fiber < |s.fibers| &&
                r == Fiber(EXEC, Resumed(s.fibers[g].act)))
            || (st.StartCallback? && r == Fiber(EXEC, Entering(s.workers[w].pc.entry.task.cb)) &&
                g == if s.workers[w].cbFiber.Some? then s.workers[w].cbFiber.value else |s.fibers|)
            || (st.Inspect? && g < |s.fibers| && Ended(s.fibers[g].state) && r == Fiber(INIT, Body))
            || (st.WriteHold? && g < |s.fibers| && g == s.workers[w].pc.fiber && r == s.fibers[g].(state := HOLD))
  {
  }

  lemma WorkerLists(s: State, w: nat, st: WorkerStep)
    requires WorkerEnabled(s, w, st)
    ensures WorkerApply(s, w, st).timers == s.timers
    ensures |s.fibers| <= |WorkerApply(s, w, st).fibers| <= |s.fibers| + 1
    ensures |WorkerApply(s, w, st).fibers| == |s.fibers| + 1 ==> st.StartCallback? && s.workers[w].cbFiber.None?
  {
  }

  lemma WorkerKeepsOrder(s: State, w: nat, st: WorkerStep)
    requires Orderly(s) && WorkerEnabled(s, w, st)
    ensures Orderly(WorkerApply(s, w, st))
  {
    var t := WorkerApply(s, w, st);
    WorkerLists(s, w, st);
    forall g | 0 <= g < |t.fibers| ensures FiberOrderly(t, t.fibers[g]) {
      WorkerRecords(s, w, st, g);
      if g < |s.fibers| {
        assert FiberOrderly(s, s.fibers[g]);
        StaysOrderly(s, t, s.fibers[g]);
      }
    }
  }

  /** What a step of fiber f does to its record and to the others. */
  lemma FiberRecords(s: State, f: FiberId, a: Activity, st: FiberStep)
    requires FiberCan(s, f, a, st)
    ensures var t := FiberDo(s, f, a, st);
            && |t.fibers| == |s.fibers|
            && (forall g :: 0 <= g < |s.fibers| && g != f ==> t.fibers[g] == s.fibers[g])
  {
  }

  lemma FiberTimers(s: State, f: FiberId, a: Activity, st: FiberStep)
    requires FiberCan(s, f, a, st) && TimersOk(s)
    ensures TimersGo(s, FiberDo(s, f, a, st)) && TimersOk(FiberDo(s, f, a, st))
  {
  }

  lemma ActorOrderly(s: State, f: FiberId, st: FiberStep)
    requires f < |s.fibers| && FiberOrderly(s, s.fibers[f]) && FiberCan(s, f, s.fibers[f].act, st)
    requires s.fibers[f].state == EXEC
    ensures var t := FiberDo(s, f, s.fibers[f].act, st); f < |t.fibers| && FiberOrderly(t, t.fibers[f])
  {
  }

  lemma FiberKeepsOrder(s: State, w: nat, st: FiberStep)
    requires Orderly(s) && FiberEnabled(s, w, st)
    ensures Orderly(FiberApply(s, w, st))
  {
    var f := s.workers[w].pc.fiber;
    var t := FiberApply(s, w, st);
    FiberRecords(s, f, s.fibers[f].act, st);
    FiberTimers(s, f, s.fibers[f].act, st);
    ActorOrderly(s, f, st);
    forall g | 0 <= g < |t.fibers| ensures FiberOrderly(t, t.fibers[g]) {
      assert FiberOrderly(s, s.fibers[g]);
      if g != f {
        StaysOrderly(s, t, s.fibers[g]);
      }
    }
  }

  lemma OpenRecords(s: State, st: OpenStep)
    requires OpenEnabled(s, st)
    ensures var t := OpenApply(s, st);
            && (t.fibers == s.fibers || ((st.Spawn? || st.NewFiber?) && t.fibers == s.fibers + [Fiber(INIT, Body)]))
            && TimersGo(s, t) && (TimersOk(s) ==> TimersOk(t))
  {
  }

  lemma OpenKeepsOrder(s: State, st: OpenStep)
    requires Orderly(s) && OpenEnabled(s, st)
    ensures Orderly(OpenApply(s, st))
  {
    var t := OpenApply(s, st);
    OpenRecords(s, st);
    forall g | 0 <= g < |t.fibers| ensures FiberOrderly(t, t.fibers[g]) {
      if g < |s.fibers| {
        assert FiberOrderly(s, s.fibers[g]);
        StaysOrderly(s, t, s.fibers[g]);
      }
    }
  }

  lemma IdleKeepsOrder(s: State, w: nat, st: IdleStep)
    requires Orderly(s) && IdleEnabled(s, w, st)
    ensures Orderly(IdleApply(s, w, st)) && IdleApply(s, w, st).fibers == s.fibers
  {
    var t := IdleApply(s, w, st);
    assert TimersGo(s, t);
    forall g | 0 <= g < |t.fibers| ensures FiberOrderly(t, t.fibers[g]) {
      assert FiberOrderly(s, s.fibers[g]);
      StaysOrderly(s, t, s.fibers[g]);
    }
  }

  lemma StepKeepsOrder(s: State, st: Step)
    requires Orderly(s) && Enabled(s, st)
    ensures Orderly(Apply(s, st))
  {
    match st
    case Work(w, a) => WorkerKeepsOrder(s, w, a);
    case Act(w, a) => FiberKeepsOrder(s, w, a);
    case Open(a) => OpenKeepsOrder(s, a);
    case Idle(w, a) => IdleKeepsOrder(s, w, a);
  }

  /** Every step conserves tokens up to what it gains, uses and throws away. */
  lemma StepTokens(s: State, st: Step, g: FiberId)
    requires Inv(s) && Orderly(s) && Enabled(s, st)
    ensures var t := Apply(s, st);
            var gain, use := if Gains(s, st, g) then 1 else 0, if Uses(s, st, g) then 1 else 0;
            Tokens(t, g) + use + Dropped(s, st)[g] == Tokens(s, g) + gain
  {
    match st
    case Work(w, a) => WorkerTokens(s, w, a, g);
    case Act(w, a) =>
      assert FiberOrderly(s, s.fibers[s.workers[w].pc.fiber]);
      FiberTokens(s, s.workers[w].pc.fiber, a, g);
    case Open(a) => OpenTokens(s, a, g);
    case Idle(w, a) => IdleTokens(s, w, a, g);
  }
}
