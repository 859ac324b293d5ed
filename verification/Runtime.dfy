/** The fiber runtime as a step machine: workers (Scheduler::run), fiber states, hooked I/O waits (do_io), the sleep
    hooks, one-shot and recurring timers, the fd-event table and fiber semaphores.

    Each lock-protected section and each access to m_state is one step; a run is any sequence of enabled steps, so
    every interleaving of the workers and of outside threads is a run. */
module Runtime {
  import opened Tasks
  import opened FdTable
  import opened Semaphores

  datatype FiberState = INIT | HOLD | EXEC | TERM | READY | EXCEPT

  /** Where a fiber is in the code it executes. */
  datatype Activity =
    | Entering(cb: Callback)                                  // MainFunc is about to call m_cb
    | Body                                                    // user code
    | Cancelling(fd: nat, event: Event)                       // timeout callback, before its cancelEvent
    | IoCall(info: nat)                                       // do_io at `retry`
    | IoArmed(info: nat, timer: Option<nat>, fd: nat, event: Event)  // timer added, addEvent next
    | IoRefused(info: nat, timer: Option<nat>)                // addEvent failed
    | IoParked(info: nat, timer: Option<nat>, fd: nat, event: Event)  // registered, YieldToHold
    | IoResumed(info: nat, timer: Option<nat>)                // back from YieldToHold
    | Parked                                                  // sleep, semaphore wait, switchTo, bare YieldToHold

  datatype Fiber = Fiber(state: FiberState, act: Activity)

  /** Program counter of one pass through the loop of Scheduler::run. `viaCb` tells the cb_fiber branch. */
  datatype Pc =
    | Loop
    | Picked(entry: Entry)                          // entry erased from the list, ++m_activeThreadCount
    | Running(fiber: FiberId, viaCb: bool)          // inside swapIn
    | Back(fiber: FiberId, viaCb: bool)             // swapIn returned
    | Released(fiber: FiberId, viaCb: bool)         // --m_activeThreadCount done
    | MarkHold(fiber: FiberId, viaCb: bool)         // about to write HOLD
    | Requeue(fiber: FiberId, viaCb: bool)          // saw READY, about to schedule
    | Idling(hand: seq<Callback>)                   // inside the idle fiber, with expired callbacks in hand
    | Exited

  datatype Worker = Worker(pc: Pc, cbFiber: Option<FiberId>, idleEnded: bool)

  datatype PendingTimer = PendingTimer(cb: Callback, recurring: bool)

  /** timer_info of one do_io call: reachable through the weak pointer, and its `cancelled` flag. */
  datatype TimerInfo = TimerInfo(alive: bool, cancelled: bool)

  datatype State = State(
    queue: seq<Entry>,
    active: int,
    idle: int,
    stopRequested: bool,                 // m_autoStop && m_stopping
    workers: seq<Worker>,
    fibers: seq<Fiber>,
    io: Table,
    timers: seq<Option<PendingTimer>>,
    infos: seq<TimerInfo>,
    sems: seq<Sem>,
    accepted: multiset<Entry>,           // history: everything ever pushed onto the list
    consumed: multiset<Entry>)           // history: everything taken and acted on

  predicate Ended(st: FiberState) {
    st == TERM || st == EXCEPT
  }

  predicate ParkedAct(a: Activity) {
    a.IoParked? || a.Parked?
  }

  function Resumed(a: Activity): Activity {
    match a
    case IoParked(info, timer, _, _) => IoResumed(info, timer)
    case Parked => Body
    case _ => a
  }

  // ----------------------------------------------------------------------------------------------------------
  // Picking

  predicate Eligible(e: Entry, thread: nat, fibers: seq<Fiber>) {
    (e.thread == -1 || e.thread == thread) &&
    (e.task.RunFiber? ==> e.task.fiber < |fibers| && fibers[e.task.fiber].state != EXEC)
  }

  /** Index of the entry the pick loop stops at, |q| if none. */
  function PickFrom(q: seq<Entry>, i: nat, thread: nat, fibers: seq<Fiber>): (r: nat)
    requires i <= |q|
    ensures i <= r <= |q|
    ensures r < |q| ==> Eligible(q[r], thread, fibers)
    ensures forall j :: i <= j < r ==> !Eligible(q[j], thread, fibers)
    decreases |q| - i
  {
    if i == |q| || Eligible(q[i], thread, fibers) then i else PickFrom(q, i + 1, thread, fibers)
  }

  function PickIndex(s: State, w: nat): (r: nat)
    ensures r <= |s.queue|
  {
    PickFrom(s.queue, 0, w, s.fibers)
  }

  // ----------------------------------------------------------------------------------------------------------
  // Small state updates

  function Push(s: State, e: Entry): State {
    s.(queue := s.queue + [e], accepted := s.accepted + multiset{e})
  }

  function Entries(tasks: seq<Task>): (r: seq<Entry>)
    ensures |r| == |tasks| && forall i :: 0 <= i < |r| ==> r[i] == Entry(tasks[i], -1)
  {
    seq(|tasks|, i requires 0 <= i < |tasks| => Entry(tasks[i], -1))
  }

  /** Batch scheduling, and triggered waiters one after another. */
  function PushAll(s: State, tasks: seq<Task>): State {
    s.(queue := s.queue + Entries(tasks), accepted := s.accepted + multiset(Entries(tasks)))
  }

  function SetPc(s: State, w: nat, pc: Pc): State
    requires w < |s.workers|
  {
    s.(workers := s.workers[w := s.workers[w].(pc := pc)])
  }

  function SetFiber(s: State, f: FiberId, fiber: Fiber): State
    requires f < |s.fibers|
  {
    s.(fibers := s.fibers[f := fiber])
  }

  function SetAct(s: State, f: FiberId, a: Activity): State
    requires f < |s.fibers|
  {
    SetFiber(s, f, s.fibers[f].(act := a))
  }

  function KillInfo(infos: seq<TimerInfo>, info: nat): seq<TimerInfo> {
    if info < |infos| then infos[info := infos[info].(alive := false)] else infos
  }

  /** Timer::cancel through the pointer do_io kept. */
  function DropTimer(timers: seq<Option<PendingTimer>>, t: Option<nat>): seq<Option<PendingTimer>> {
    if t.Some? && t.value < |timers| then timers[t.value := None] else timers
  }

  /** What notify hands to schedule. */
  function Woken(sem: Sem): seq<Task> {
    var r := Notify(sem).1;
    if r.Some? then [RunFiber(r.value)] else []
  }

  function AsCallbacks(hand: seq<Callback>): (r: seq<Task>)
    ensures |r| == |hand| && forall i :: 0 <= i < |r| ==> r[i] == RunCallback(hand[i])
  {
    seq(|hand|, i requires 0 <= i < |hand| => RunCallback(hand[i]))
  }

  // ----------------------------------------------------------------------------------------------------------
  // Steps

  /** One pass through the loop of Scheduler::run. */
  datatype WorkerStep =
    | Take | GoIdle | Exit
    | SwapIn | DropEnded | StartCallback
    | SwapOut | Decrement | Inspect | WriteHold | RequeueReady

  /** What the fiber running on a worker does. */
  datatype FiberStep =
    | EnterUser | FireWake | FireTimeout | FireCancel(ok: bool)
    | YieldToReady | Finish(threw: bool)
    | Sleep | SemWait(sem: nat) | SwitchTo(thread: int) | YieldBare
    | IoBegin | IoReturn | IoArm(timed: bool, fd: nat, event: Event) | IoRegister(ok: bool) | IoGiveUp | IoWoken

  /** What any thread may do: user code of a running fiber, or a thread outside the scheduler. */
  datatype OpenStep =
    | Spawn(thread: int) | Submit(id: nat, thread: int) | NewFiber | RawSchedule(fiber: FiberId, thread: int)
    | AddCallbackEvent(fd: nat, event: Event, id: nat, ok: bool)
    | DelFdEvent(fd: nat, event: Event, ok: bool)
    | CancelFdEvent(fd: nat, event: Event, ok: bool)
    | CancelFd(fd: nat, ok: bool)
    | AddUserTimer(id: nat, recurring: bool) | CancelUserTimer(timer: nat)
    | NewSemaphore(n: nat) | SemNotify(sem: nat) | SemTryWait(sem: nat)
    | RequestStop

  /** The idle fiber of a worker (IOManager::idle). */
  datatype IdleStep =
    | Expire(timer: nat) | Flush | DispatchFd(fd: nat, rep: Report, ok: bool) | LeaveIdle | EndIdle

  datatype Step =
    | Work(w: nat, work: WorkerStep)
    | Act(w: nat, act: FiberStep)
    | Open(open: OpenStep)
    | Idle(w: nat, idling: IdleStep)

  /** Scheduler::stopping, evaluated under the scheduler lock. */
  predicate Stopping(s: State) {
    s.stopRequested && s.queue == [] && s.active == 0
  }

  /** Worker w executes a fiber that has not begun to yield. */
  predicate Executes(s: State, w: nat) {
    w < |s.workers| && s.workers[w].pc.Running? && s.workers[w].pc.fiber < |s.fibers| &&
    s.fibers[s.workers[w].pc.fiber].state == EXEC
  }

  predicate Holding(s: State, w: nat) {
    w < |s.workers| &&
    match s.workers[w].pc
    case Back(f, _) => f < |s.fibers|
    case Released(f, _) => f < |s.fibers|
    case MarkHold(f, _) => f < |s.fibers|
    case Requeue(f, _) => f < |s.fibers|
    case _ => false
  }

  predicate IdleEmpty(s: State, w: nat) {
    w < |s.workers| && s.workers[w].pc == Idling([])
  }

  predicate WorkerEnabled(s: State, w: nat, st: WorkerStep) {
    w < |s.workers| &&
    match st
    case Take => s.workers[w].pc == Loop && PickIndex(s, w) < |s.queue|
    case GoIdle =>
      s.workers[w].pc == Loop && PickIndex(s, w) == |s.queue| && !s.workers[w].idleEnded
    case Exit =>
      s.workers[w].pc == Loop && PickIndex(s, w) == |s.queue| && s.workers[w].idleEnded
    case SwapIn =>
      s.workers[w].pc.Picked? && s.workers[w].pc.entry.task.RunFiber? &&
      s.workers[w].pc.entry.task.fiber < |s.fibers| && !Ended(s.fibers[s.workers[w].pc.entry.task.fiber].state)
    case DropEnded =>
      s.workers[w].pc.Picked? && s.workers[w].pc.entry.task.RunFiber? &&
      s.workers[w].pc.entry.task.fiber < |s.fibers| && Ended(s.fibers[s.workers[w].pc.entry.task.fiber].state)
    case StartCallback =>
      s.workers[w].pc.Picked? && s.workers[w].pc.entry.task.RunCallback? &&
      (s.workers[w].cbFiber.Some? ==> s.workers[w].cbFiber.value < |s.fibers|)
    case SwapOut =>
      s.workers[w].pc.Running? && s.workers[w].pc.fiber < |s.fibers| &&
      var fb := s.fibers[s.workers[w].pc.fiber];
      fb.state == READY || Ended(fb.state) || (fb.state == EXEC && ParkedAct(fb.act))
    case Decrement => Holding(s, w) && s.workers[w].pc.Back?
    case Inspect => Holding(s, w) && s.workers[w].pc.Released?
    case WriteHold => Holding(s, w) && s.workers[w].pc.MarkHold?
    case RequeueReady => Holding(s, w) && s.workers[w].pc.Requeue?
  }

  /** cb_fiber->reset(cb), then swapIn. */
  function StartOnCached(s: State, w: nat): State
    requires WorkerEnabled(s, w, StartCallback) && s.workers[w].cbFiber.Some?
  {
    var e, f := s.workers[w].pc.entry, s.workers[w].cbFiber.value;
    SetFiber(SetPc(s, w, Running(f, true)), f, Fiber(EXEC, Entering(e.task.cb)))
      .(consumed := s.consumed + multiset{e})
  }

  /** cb_fiber.reset(new Fiber(cb)), then swapIn. */
  function StartOnFresh(s: State, w: nat): State
    requires WorkerEnabled(s, w, StartCallback)
  {
    var e, f := s.workers[w].pc.entry, |s.fibers|;
    s.(workers := s.workers[w := s.workers[w].(pc := Running(f, true), cbFiber := Some(f))],
       fibers := s.fibers + [Fiber(EXEC, Entering(e.task.cb))],
       consumed := s.consumed + multiset{e})
  }

  /** After the decrement: what the worker does with the fiber depends on the state it finds. */
  function DealWith(s: State, w: nat, f: FiberId, viaCb: bool): State
    requires w < |s.workers| && f < |s.fibers|
  {
    var state := s.fibers[f].state;
    if state == READY then SetPc(s, w, Requeue(f, viaCb))
    else if !Ended(state) then SetPc(s, w, MarkHold(f, viaCb))
    else if !viaCb then SetPc(s, w, Loop)
    else SetFiber(SetPc(s, w, Loop), f, Fiber(INIT, Body))  // cb_fiber is kept, reset to no function
  }

  function WorkerApply(s: State, w: nat, st: WorkerStep): State
    requires WorkerEnabled(s, w, st)
  {
    match st
    case Take =>
      var i := PickIndex(s, w);
      SetPc(s, w, Picked(s.queue[i])).(queue := s.queue[..i] + s.queue[i + 1..], active := s.active + 1)
    case GoIdle => SetPc(s, w, Idling([])).(idle := s.idle + 1)
    case Exit => SetPc(s, w, Exited)
    case SwapIn =>
      var e := s.workers[w].pc.entry;
      var f := e.task.fiber;
      SetFiber(SetPc(s, w, Running(f, false)), f, Fiber(EXEC, Resumed(s.fibers[f].act)))
        .(consumed := s.consumed + multiset{e})
    case DropEnded =>
      var e := s.workers[w].pc.entry;
      SetPc(s, w, Loop).(active := s.active - 1, consumed := s.consumed + multiset{e})
    case StartCallback => if s.workers[w].cbFiber.Some? then StartOnCached(s, w) else StartOnFresh(s, w)
    case SwapOut => SetPc(s, w, Back(s.workers[w].pc.fiber, s.workers[w].pc.viaCb))
    case Decrement =>
      SetPc(s, w, Released(s.workers[w].pc.fiber, s.workers[w].pc.viaCb)).(active := s.active - 1)
    case Inspect => DealWith(s, w, s.workers[w].pc.fiber, s.workers[w].pc.viaCb)
    case WriteHold =>
      var f, viaCb := s.workers[w].pc.fiber, s.workers[w].pc.viaCb;
      SetFiber(s.(workers := s.workers[w := LetGo(s.workers[w], viaCb)]), f, s.fibers[f].(state := HOLD))
    case RequeueReady =>
      var f, viaCb := s.workers[w].pc.fiber, s.workers[w].pc.viaCb;
      Push(s.(workers := s.workers[w := LetGo(s.workers[w], viaCb)]), Entry(RunFiber(f), -1))
  }

  /** Fiber f, at activity a, may do this. */
  predicate FiberCan(s: State, f: FiberId, a: Activity, st: FiberStep) {
    f < |s.fibers| &&
    match st
    case EnterUser => a.Entering? && a.cb.UserCode?
    case FireWake => a.Entering? && a.cb.WakeUp?
    case FireTimeout => a.Entering? && a.cb.IoTimeout?
    case FireCancel(_) => a.Cancelling?
    case YieldToReady => a == Body
    case Finish(_) => a == Body
    case Sleep => a == Body
    case SemWait(k) => a == Body && k < |s.sems|
    case SwitchTo(_) => a == Body
    case YieldBare => a == Body
    case IoBegin => a == Body
    case IoReturn => a.IoCall?
    case IoArm(_, _, _) => a.IoCall?
    case IoRegister(ok) =>
      a.IoArmed? &&
      a.fd < |Grown(s.io.contexts, a.fd)| &&
      AddEvent(s.io, a.fd, a.event, RunFiber(f), ok).1 != AlreadyRegistered
    case IoGiveUp => a.IoRefused?
    case IoWoken => a.IoResumed?
  }

  function FiberDo(s: State, f: FiberId, a: Activity, st: FiberStep): State
    requires FiberCan(s, f, a, st)
  {
    match st
    case EnterUser => SetAct(s, f, Body)
    case FireWake => Push(SetAct(s, f, Body), Entry(RunFiber(a.cb.fiber), -1))
    case FireTimeout =>
      var cb := a.cb;
      var live := cb.info < |s.infos| && s.infos[cb.info].alive && !s.infos[cb.info].cancelled;
      SetAct(s, f, if live then Cancelling(cb.fd, cb.event) else Body)
        .(infos := if live then s.infos[cb.info := s.infos[cb.info].(cancelled := true)] else s.infos)
    case FireCancel(ok) =>
      var r := CancelEvent(s.io, a.fd, a.event, ok);
      PushAll(SetAct(s, f, Body).(io := r.0), r.1)
    case YieldToReady => SetFiber(s, f, Fiber(READY, Body))
    case Finish(threw) => SetFiber(s, f, Fiber(if threw then EXCEPT else TERM, Body))
    case Sleep =>
      SetAct(s, f, Parked)
        .(timers := s.timers + [Some(PendingTimer(WakeUp(f), false))])
    case SemWait(k) =>
      var r := Acquire(s.sems[k], f, true);
      SetAct(s, f, if r.1 then a else Parked).(sems := s.sems[k := r.0])
    case SwitchTo(thread) => Push(SetAct(s, f, Parked), Entry(RunFiber(f), thread))
    case YieldBare => SetAct(s, f, Parked)
    case IoBegin =>
      SetAct(s, f, IoCall(|s.infos|)).(infos := s.infos + [TimerInfo(true, false)])
    case IoReturn => SetAct(s, f, Body).(infos := KillInfo(s.infos, a.info))
    case IoArm(timed, fd, e) =>
      var timeout := Some(PendingTimer(IoTimeout(fd, e, a.info), false));
      SetAct(s, f, IoArmed(a.info, if timed then Some(|s.timers|) else None, fd, e))
        .(timers := if timed then s.timers + [timeout] else s.timers)
    case IoRegister(ok) =>
      var r := AddEvent(s.io, a.fd, a.event, RunFiber(f), ok);
      SetAct(s, f, if r.1 == Added then IoParked(a.info, a.timer, a.fd, a.event) else IoRefused(a.info, a.timer))
        .(io := r.0)
    case IoGiveUp =>
      SetAct(s, f, Body).(timers := DropTimer(s.timers, a.timer), infos := KillInfo(s.infos, a.info))
    case IoWoken =>
      var cancelled := a.info < |s.infos| && s.infos[a.info].cancelled;
      SetAct(s, f, if cancelled then Body else IoCall(a.info))
        .(timers := DropTimer(s.timers, a.timer), infos := if cancelled then KillInfo(s.infos, a.info) else s.infos)
  }

  predicate FiberEnabled(s: State, w: nat, st: FiberStep) {
    Executes(s, w) && FiberCan(s, s.workers[w].pc.fiber, s.fibers[s.workers[w].pc.fiber].act, st)
  }

  function FiberApply(s: State, w: nat, st: FiberStep): State
    requires FiberEnabled(s, w, st)
  {
    FiberDo(s, s.workers[w].pc.fiber, s.fibers[s.workers[w].pc.fiber].act, st)
  }

  predicate OpenEnabled(s: State, st: OpenStep) {
    match st
    case Spawn(_) => true
    case Submit(_, _) => true
    case NewFiber => true
    case RawSchedule(f, _) => f < |s.fibers|
    case AddCallbackEvent(fd, e, id, ok) =>
      fd < |Grown(s.io.contexts, fd)| &&
      AddEvent(s.io, fd, e, RunCallback(UserCode(id)), ok).1 != AlreadyRegistered
    case DelFdEvent(_, _, _) => true
    case CancelFdEvent(_, _, _) => true
    case CancelFd(_, _) => true
    case AddUserTimer(_, _) => true
    case CancelUserTimer(t) => t < |s.timers| && s.timers[t].Some? && s.timers[t].value.cb.UserCode?
    case NewSemaphore(_) => true
    case SemNotify(k) => k < |s.sems|
    case SemTryWait(k) => k < |s.sems|
    case RequestStop => true
  }

  function OpenApply(s: State, st: OpenStep): State
    requires OpenEnabled(s, st)
  {
    match st
    case Spawn(thread) =>
      Push(s.(fibers := s.fibers + [Fiber(INIT, Body)]), Entry(RunFiber(|s.fibers|), thread))
    case Submit(id, thread) => Push(s, Entry(RunCallback(UserCode(id)), thread))
    case NewFiber => s.(fibers := s.fibers + [Fiber(INIT, Body)])
    case RawSchedule(f, thread) => Push(s, Entry(RunFiber(f), thread))
    case AddCallbackEvent(fd, e, id, ok) => s.(io := AddEvent(s.io, fd, e, RunCallback(UserCode(id)), ok).0)
    case DelFdEvent(fd, e, ok) => s.(io := DelEvent(s.io, fd, e, ok).0)
    case CancelFdEvent(fd, e, ok) =>
      var r := CancelEvent(s.io, fd, e, ok);
      PushAll(s.(io := r.0), r.1)
    case CancelFd(fd, ok) =>
      var r := CancelAll(s.io, fd, ok);
      PushAll(s.(io := r.0), r.1)
    case AddUserTimer(id, recurring) => s.(timers := s.timers + [Some(PendingTimer(UserCode(id), recurring))])
    case CancelUserTimer(t) => s.(timers := s.timers[t := None])
    case NewSemaphore(n) => s.(sems := s.sems + [NewSem(n)])
    case SemNotify(k) =>
      PushAll(s.(sems := s.sems[k := Notify(s.sems[k]).0]), Woken(s.sems[k]))
    case SemTryWait(k) => s.(sems := s.sems[k := Acquire(s.sems[k], 0, false).0])
    case RequestStop => s.(stopRequested := true)
  }

  predicate IdleEnabled(s: State, w: nat, st: IdleStep) {
    w < |s.workers| && s.workers[w].pc.Idling? &&
    match st
    case Expire(t) =>
      s.workers[w].pc.Idling? && t < |s.timers| && s.timers[t].Some?
    case Flush => s.workers[w].pc.Idling?
    case DispatchFd(_, _, _) => IdleEmpty(s, w)
    case LeaveIdle => IdleEmpty(s, w)
    case EndIdle => IdleEmpty(s, w) && Stopping(s)
  }

  function IdleApply(s: State, w: nat, st: IdleStep): State
    requires IdleEnabled(s, w, st)
  {
    match st
    case Expire(t) =>
      var p := s.timers[t].value;
      SetPc(s, w, Idling(s.workers[w].pc.hand + [p.cb]))
        .(timers := if p.recurring then s.timers else s.timers[t := None])
    case Flush => PushAll(SetPc(s, w, Idling([])), AsCallbacks(s.workers[w].pc.hand))
    case DispatchFd(fd, rep, ok) =>
      var r := Dispatch(s.io, fd, rep, ok);
      PushAll(s.(io := r.0), r.1)
    case LeaveIdle => SetPc(s, w, Loop).(idle := s.idle - 1)
    case EndIdle =>
      s.(workers := s.workers[w := s.workers[w].(pc := Loop, idleEnded := true)], idle := s.idle - 1)
  }

  predicate Enabled(s: State, st: Step) {
    match st
    case Work(w, a) => WorkerEnabled(s, w, a)
    case Act(w, a) => FiberEnabled(s, w, a)
    case Open(a) => OpenEnabled(s, a)
    case Idle(w, a) => IdleEnabled(s, w, a)
  }

  function Apply(s: State, st: Step): State
    requires Enabled(s, st)
  {
    match st
    case Work(w, a) => WorkerApply(s, w, a)
    case Act(w, a) => FiberApply(s, w, a)
    case Open(a) => OpenApply(s, a)
    case Idle(w, a) => IdleApply(s, w, a)
  }

  /** Done with the fiber; cb_fiber is dropped when the fiber went on living elsewhere. */
  function LetGo(w: Worker, viaCb: bool): Worker {
    w.(pc := Loop, cbFiber := if viaCb then None else w.cbFiber)
  }

  ghost predicate Initial(s: State) {
    && s.queue == [] && s.active == 0 && s.idle == 0 && !s.stopRequested
    && (forall i :: 0 <= i < |s.workers| ==> s.workers[i] == Worker(Loop, None, false))
    && s.fibers == [] && Fresh(s.io) && s.timers == [] && s.infos == [] && s.sems == []
    && s.accepted == multiset{} && s.consumed == multiset{}
  }

  ghost predicate Run(ss: seq<State>, steps: seq<Step>) {
    && |ss| == |steps| + 1
    && Initial(ss[0])
    && forall i {:trigger steps[i]} :: 0 <= i < |steps| ==>
         Enabled(ss[i], steps[i]) && ss[i + 1] == Apply(ss[i], steps[i])
  }

  lemma RunStep(ss: seq<State>, steps: seq<Step>, i: nat)
    requires Run(ss, steps) && i < |steps|
    ensures Enabled(ss[i], steps[i]) && ss[i + 1] == Apply(ss[i], steps[i])
  {
  }
}
