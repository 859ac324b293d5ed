/** What every step of the runtime keeps, whatever user code does: the scheduler's books.
    Accepted entries are queued, in hand or consumed; the active and idle counts count workers; the fd-event table
    and the semaphores stay consistent. */
module RuntimeBooks {
  import opened Folds
  import opened Tasks
  import opened FdTable
  import opened Semaphores
  import opened Runtime

  /** The worker holds an entry between the dequeue and the decrement of m_activeThreadCount. */
  predicate InWindow(w: Worker) {
    w.pc.Picked? || w.pc.Running? || w.pc.Back?
  }

  predicate IsIdling(w: Worker) {
    w.pc.Idling?
  }

  ghost function HandEntry(w: Worker): multiset<Entry> {
    if w.pc.Picked? then multiset{w.pc.entry} else multiset{}
  }

  /** Every entry ever accepted is on the list, in one worker's hand, or consumed. */
  ghost predicate LedgerOk(s: State) {
    s.accepted == multiset(s.queue) + Sum(s.workers, HandEntry) + s.consumed
  }

  ghost predicate CountersOk(s: State) {
    s.active == Count(s.workers, InWindow) && s.idle == Count(s.workers, IsIdling)
  }

  ghost predicate ResourcesOk(s: State) {
    TableOk(s.io) && forall k :: 0 <= k < |s.sems| ==> SemOk(s.sems[k])
  }

  ghost predicate BooksOk(s: State) {
    LedgerOk(s) && CountersOk(s) && ResourcesOk(s)
  }

  lemma WorkerBooks(ws: seq<Worker>, w: nat, nw: Worker)
    requires w < |ws|
    ensures HandEntry(nw) == HandEntry(ws[w]) ==> Sum(ws[w := nw], HandEntry) == Sum(ws, HandEntry)
    ensures HandEntry(ws[w]) == multiset{} ==> Sum(ws[w := nw], HandEntry) == Sum(ws, HandEntry) + HandEntry(nw)
    ensures HandEntry(nw) == multiset{} ==> Sum(ws[w := nw], HandEntry) + HandEntry(ws[w]) == Sum(ws, HandEntry)
    ensures Count(ws[w := nw], InWindow) ==
            Count(ws, InWindow) - (if InWindow(ws[w]) then 1 else 0) + (if InWindow(nw) then 1 else 0)
    ensures Count(ws[w := nw], IsIdling) ==
            Count(ws, IsIdling) - (if IsIdling(ws[w]) then 1 else 0) + (if IsIdling(nw) then 1 else 0)
  {
    SumUpdate(ws, w, nw, HandEntry);
    CountUpdate(ws, w, nw, InWindow);
    CountUpdate(ws, w, nw, IsIdling);
  }

  /** Putting entries on the list keeps the ledger. */
  lemma PushKeepsLedger(s: State, t: State, es: seq<Entry>)
    requires LedgerOk(s)
    requires t.queue == s.queue + es && t.accepted == s.accepted + multiset(es) && t.consumed == s.consumed
    requires Sum(t.workers, HandEntry) == Sum(s.workers, HandEntry)
    ensures LedgerOk(t)
  {
    assert multiset(t.queue) == multiset(s.queue) + multiset(es);
  }

  /** A step that moves worker w without touching what it has in hand, and pushes es. */
  lemma MoveKeepsBooks(s: State, t: State, w: nat, es: seq<Entry>)
    requires BooksOk(s) && w < |s.workers| && |t.workers| == |s.workers| && t.workers == s.workers[w := t.workers[w]]
    requires HandEntry(t.workers[w]) == HandEntry(s.workers[w])
    requires t.queue == s.queue + es && t.accepted == s.accepted + multiset(es) && t.consumed == s.consumed
    requires t.active == s.active - (if InWindow(s.workers[w]) then 1 else 0) +
                         (if InWindow(t.workers[w]) then 1 else 0)
    requires t.idle == s.idle - (if IsIdling(s.workers[w]) then 1 else 0) + (if IsIdling(t.workers[w]) then 1 else 0)
    requires ResourcesOk(t)
    ensures BooksOk(t)
  {
    WorkerBooks(s.workers, w, t.workers[w]);
    PushKeepsLedger(s, t, es);
  }

  /** A step that leaves the workers alone and pushes es. */
  lemma PushKeepsBooks(s: State, t: State, es: seq<Entry>)
    requires BooksOk(s)
    requires t.queue == s.queue + es && t.accepted == s.accepted + multiset(es) && t.consumed == s.consumed
    requires t.workers == s.workers && t.active == s.active && t.idle == s.idle
    requires ResourcesOk(t)
    ensures BooksOk(t)
  {
    PushKeepsLedger(s, t, es);
  }

  lemma TakeKeepsBooks(s: State, w: nat)
    requires BooksOk(s) && WorkerEnabled(s, w, Take)
    ensures BooksOk(WorkerApply(s, w, Take))
  {
    var i, t := PickIndex(s, w), WorkerApply(s, w, Take);
    assert t.queue == s.queue[..i] + s.queue[i + 1..];
    TakenOut(s.queue, i);
    TakenKeepsLedger(s, t, w, s.queue[i]);
    TakenKeepsCounters(s, t, w, s.queue[i]);
  }

  lemma TakenOut(q: seq<Entry>, i: nat)
    requires i < |q|
    ensures multiset(q) == multiset(q[..i] + q[i + 1..]) + multiset{q[i]}
  {
    assert q == q[..i] + [q[i]] + q[i + 1..];
  }

  ghost predicate TakenBy(s: State, t: State, w: nat, e: Entry) {
    && w < |s.workers| && s.workers[w].pc == Loop && t.workers == s.workers[w := s.workers[w].(pc := Picked(e))]
    && multiset(s.queue) == multiset(t.queue) + multiset{e} && t.active == s.active + 1 && t.idle == s.idle
    && t.accepted == s.accepted && t.consumed == s.consumed
  }

  lemma TakenKeepsLedger(s: State, t: State, w: nat, e: Entry)
    requires LedgerOk(s) && TakenBy(s, t, w, e)
    ensures LedgerOk(t)
  {
    SumUpdate(s.workers, w, s.workers[w].(pc := Picked(e)), HandEntry);
    assert Sum(t.workers, HandEntry) == Sum(s.workers, HandEntry) + multiset{e};
  }

  lemma TakenKeepsCounters(s: State, t: State, w: nat, e: Entry)
    requires CountersOk(s) && TakenBy(s, t, w, e)
    ensures CountersOk(t)
  {
    CountUpdate(s.workers, w, s.workers[w].(pc := Picked(e)), InWindow);
    CountUpdate(s.workers, w, s.workers[w].(pc := Picked(e)), IsIdling);
  }

  /** A step in which worker w acts on the entry it has in hand. */
  lemma ConsumeKeepsBooks(s: State, t: State, w: nat)
    requires BooksOk(s) && w < |s.workers| && s.workers[w].pc.Picked?
    requires |t.workers| == |s.workers| && t.workers == s.workers[w := t.workers[w]]
    requires !t.workers[w].pc.Picked? && !t.workers[w].pc.Idling?
    requires t.queue == s.queue && t.accepted == s.accepted && t.io == s.io && t.sems == s.sems && t.idle == s.idle
    requires t.consumed == s.consumed + multiset{s.workers[w].pc.entry}
    requires t.active == s.active - (if InWindow(t.workers[w]) then 0 else 1)
    ensures BooksOk(t)
  {
    WorkerBooks(s.workers, w, t.workers[w]);
    var e := s.workers[w].pc.entry;
    assert Sum(t.workers, HandEntry) + multiset{e} == Sum(s.workers, HandEntry);
  }

  /** A step that moves worker w and touches neither the list nor what it has in hand. */
  lemma QuietMove(s: State, t: State, w: nat)
    requires BooksOk(s) && w < |s.workers| && |t.workers| == |s.workers| && t.workers == s.workers[w := t.workers[w]]
    requires HandEntry(t.workers[w]) == HandEntry(s.workers[w])
    requires t.queue == s.queue && t.accepted == s.accepted && t.consumed == s.consumed
    requires t.active == s.active - (if InWindow(s.workers[w]) then 1 else 0) +
                         (if InWindow(t.workers[w]) then 1 else 0)
    requires t.idle == s.idle - (if IsIdling(s.workers[w]) then 1 else 0) + (if IsIdling(t.workers[w]) then 1 else 0)
    requires t.io == s.io && t.sems == s.sems
    ensures BooksOk(t)
  {
    WorkerBooks(s.workers, w, t.workers[w]);
  }

  lemma SwapInBooks(s: State, w: nat)
    requires BooksOk(s) && WorkerEnabled(s, w, SwapIn)
    ensures BooksOk(WorkerApply(s, w, SwapIn))
  {
    ConsumeKeepsBooks(s, WorkerApply(s, w, SwapIn), w);
  }

  lemma DropEndedBooks(s: State, w: nat)
    requires BooksOk(s) && WorkerEnabled(s, w, DropEnded)
    ensures BooksOk(WorkerApply(s, w, DropEnded))
  {
    ConsumeKeepsBooks(s, WorkerApply(s, w, DropEnded), w);
  }

  lemma StartCallbackBooks(s: State, w: nat)
    requires BooksOk(s) && WorkerEnabled(s, w, StartCallback)
    ensures BooksOk(WorkerApply(s, w, StartCallback))
  {
    ConsumeKeepsBooks(s, WorkerApply(s, w, StartCallback), w);
  }

  lemma GoIdleBooks(s: State, w: nat)
    requires BooksOk(s) && WorkerEnabled(s, w, GoIdle)
    ensures BooksOk(WorkerApply(s, w, GoIdle))
  {
    QuietMove(s, WorkerApply(s, w, GoIdle), w);
  }

  lemma ExitBooks(s: State, w: nat)
    requires BooksOk(s) && WorkerEnabled(s, w, Exit)
    ensures BooksOk(WorkerApply(s, w, Exit))
  {
    QuietMove(s, WorkerApply(s, w, Exit), w);
  }

  lemma SwapOutBooks(s: State, w: nat)
    requires BooksOk(s) && WorkerEnabled(s, w, SwapOut)
    ensures BooksOk(WorkerApply(s, w, SwapOut))
  {
    QuietMove(s, WorkerApply(s, w, SwapOut), w);
  }

  lemma DecrementBooks(s: State, w: nat)
    requires BooksOk(s) && WorkerEnabled(s, w, Decrement)
    ensures BooksOk(WorkerApply(s, w, Decrement))
  {
    QuietMove(s, WorkerApply(s, w, Decrement), w);
  }

  lemma DealWithShape(s: State, w: nat, f: FiberId, viaCb: bool)
    requires w < |s.workers| && f < |s.fibers|
    ensures var t := DealWith(s, w, f, viaCb);
            && t.queue == s.queue && t.accepted == s.accepted && t.consumed == s.consumed && t.active == s.active
            && t.idle == s.idle && t.io == s.io && t.sems == s.sems && |t.workers| == |s.workers|
            && t.workers == s.workers[w := s.workers[w].(pc := t.workers[w].pc)]
            && !InWindow(t.workers[w]) && !IsIdling(t.workers[w]) && HandEntry(t.workers[w]) == multiset{}
  {
  }

  lemma DealWithBooks(s: State, w: nat, f: FiberId, viaCb: bool)
    requires BooksOk(s) && w < |s.workers| && f < |s.fibers| && s.workers[w].pc.Released?
    ensures BooksOk(DealWith(s, w, f, viaCb))
  {
    DealWithShape(s, w, f, viaCb);
    QuietMove(s, DealWith(s, w, f, viaCb), w);
  }

  lemma InspectBooks(s: State, w: nat)
    requires BooksOk(s) && WorkerEnabled(s, w, Inspect)
    ensures BooksOk(WorkerApply(s, w, Inspect))
  {
    DealWithBooks(s, w, s.workers[w].pc.fiber, s.workers[w].pc.viaCb);
  }

  lemma WriteHoldBooks(s: State, w: nat)
    requires BooksOk(s) && WorkerEnabled(s, w, WriteHold)
    ensures BooksOk(WorkerApply(s, w, WriteHold))
  {
    QuietMove(s, WorkerApply(s, w, WriteHold), w);
  }

  lemma RequeueReadyBooks(s: State, w: nat)
    requires BooksOk(s) && WorkerEnabled(s, w, RequeueReady)
    ensures BooksOk(WorkerApply(s, w, RequeueReady))
  {
    MoveKeepsBooks(s, WorkerApply(s, w, RequeueReady), w, [Entry(RunFiber(s.workers[w].pc.fiber), -1)]);
  }

  lemma WorkerKeepsBooks(s: State, w: nat, st: WorkerStep)
    requires BooksOk(s) && WorkerEnabled(s, w, st)
    ensures BooksOk(WorkerApply(s, w, st))
  {
    match st
    case Take => TakeKeepsBooks(s, w);
    case GoIdle => GoIdleBooks(s, w);
    case Exit => ExitBooks(s, w);
    case SwapIn => SwapInBooks(s, w);
    case DropEnded => DropEndedBooks(s, w);
    case StartCallback => StartCallbackBooks(s, w);
    case SwapOut => SwapOutBooks(s, w);
    case Decrement => DecrementBooks(s, w);
    case Inspect => InspectBooks(s, w);
    case WriteHold => WriteHoldBooks(s, w);
    case RequeueReady => RequeueReadyBooks(s, w);
  }

  /** Steps of a fiber that touch only its own activity, timers and timer_info flags. */
  predicate Local(st: FiberStep) {
    !st.FireWake? && !st.FireCancel? && !st.SwitchTo? && !st.SemWait? && !st.IoRegister?
  }

  lemma LocalKeeps(s: State, f: FiberId, a: Activity, st: FiberStep)
    requires FiberCan(s, f, a, st) && Local(st)
    ensures var t := FiberDo(s, f, a, st);
            && t.queue == s.queue && t.accepted == s.accepted && t.consumed == s.consumed
            && t.io == s.io && t.sems == s.sems
            && t.workers == s.workers && t.active == s.active && t.idle == s.idle
  {
  }

  lemma FireWakeBooks(s: State, f: FiberId, a: Activity)
    requires BooksOk(s) && FiberCan(s, f, a, FireWake)
    ensures BooksOk(FiberDo(s, f, a, FireWake))
  {
    PushKeepsBooks(s, FiberDo(s, f, a, FireWake), [Entry(RunFiber(a.cb.fiber), -1)]);
  }

  lemma SwitchToBooks(s: State, f: FiberId, a: Activity, thread: int)
    requires BooksOk(s) && FiberCan(s, f, a, SwitchTo(thread))
    ensures BooksOk(FiberDo(s, f, a, SwitchTo(thread)))
  {
    PushKeepsBooks(s, FiberDo(s, f, a, SwitchTo(thread)), [Entry(RunFiber(f), thread)]);
  }

  lemma FireCancelBooks(s: State, f: FiberId, a: Activity, ok: bool)
    requires BooksOk(s) && FiberCan(s, f, a, FireCancel(ok))
    ensures BooksOk(FiberDo(s, f, a, FireCancel(ok)))
  {
    PerformKeepsTable(s.io, OpCancel(a.fd, a.event, ok));
    PushKeepsBooks(s, FiberDo(s, f, a, FireCancel(ok)), Entries(CancelEvent(s.io, a.fd, a.event, ok).1));
  }

  lemma SemWaitBooks(s: State, f: FiberId, a: Activity, k: nat)
    requires BooksOk(s) && FiberCan(s, f, a, SemWait(k))
    ensures BooksOk(FiberDo(s, f, a, SemWait(k)))
  {
    SemLaws(s.sems[k], f, true, 0);
  }

  lemma IoRegisterBooks(s: State, f: FiberId, a: Activity, ok: bool)
    requires BooksOk(s) && FiberCan(s, f, a, IoRegister(ok))
    ensures BooksOk(FiberDo(s, f, a, IoRegister(ok)))
  {
    AddEventKeepsTable(s.io, a.fd, a.event, RunFiber(f), ok);
  }

  lemma FiberKeepsBooks(s: State, f: FiberId, a: Activity, st: FiberStep)
    requires BooksOk(s) && FiberCan(s, f, a, st)
    ensures BooksOk(FiberDo(s, f, a, st))
  {
    match st
    case FireWake => FireWakeBooks(s, f, a);
    case SwitchTo(thread) => SwitchToBooks(s, f, a, thread);
    case FireCancel(ok) => FireCancelBooks(s, f, a, ok);
    case SemWait(k) => SemWaitBooks(s, f, a, k);
    case IoRegister(ok) => IoRegisterBooks(s, f, a, ok);
    case _ => LocalKeeps(s, f, a, st);
  }

  lemma SpawnBooks(s: State, thread: int)
    requires BooksOk(s) && OpenEnabled(s, Spawn(thread))
    ensures BooksOk(OpenApply(s, Spawn(thread)))
  {
    PushKeepsBooks(s, OpenApply(s, Spawn(thread)), [Entry(RunFiber(|s.fibers|), thread)]);
  }

  lemma SubmitBooks(s: State, id: nat, thread: int)
    requires BooksOk(s) && OpenEnabled(s, Submit(id, thread))
    ensures BooksOk(OpenApply(s, Submit(id, thread)))
  {
    PushKeepsBooks(s, OpenApply(s, Submit(id, thread)), [Entry(RunCallback(UserCode(id)), thread)]);
  }

  lemma RawScheduleBooks(s: State, f: FiberId, thread: int)
    requires BooksOk(s) && OpenEnabled(s, RawSchedule(f, thread))
    ensures BooksOk(OpenApply(s, RawSchedule(f, thread)))
  {
    PushKeepsBooks(s, OpenApply(s, RawSchedule(f, thread)), [Entry(RunFiber(f), thread)]);
  }

  lemma AddCallbackEventBooks(s: State, fd: nat, e: Event, id: nat, ok: bool)
    requires BooksOk(s) && OpenEnabled(s, AddCallbackEvent(fd, e, id, ok))
    ensures BooksOk(OpenApply(s, AddCallbackEvent(fd, e, id, ok)))
  {
    AddEventKeepsTable(s.io, fd, e, RunCallback(UserCode(id)), ok);
  }

  lemma DelFdEventBooks(s: State, fd: nat, e: Event, ok: bool)
    requires BooksOk(s) && OpenEnabled(s, DelFdEvent(fd, e, ok))
    ensures BooksOk(OpenApply(s, DelFdEvent(fd, e, ok)))
  {
    PerformKeepsTable(s.io, OpDel(fd, e, ok));
  }

  lemma CancelFdEventBooks(s: State, fd: nat, e: Event, ok: bool)
    requires BooksOk(s) && OpenEnabled(s, CancelFdEvent(fd, e, ok))
    ensures BooksOk(OpenApply(s, CancelFdEvent(fd, e, ok)))
  {
    PerformKeepsTable(s.io, OpCancel(fd, e, ok));
    PushKeepsBooks(s, OpenApply(s, CancelFdEvent(fd, e, ok)), Entries(CancelEvent(s.io, fd, e, ok).1));
  }

  lemma CancelFdBooks(s: State, fd: nat, ok: bool)
    requires BooksOk(s) && OpenEnabled(s, CancelFd(fd, ok))
    ensures BooksOk(OpenApply(s, CancelFd(fd, ok)))
  {
    PerformKeepsTable(s.io, OpCancelAll(fd, ok));
    PushKeepsBooks(s, OpenApply(s, CancelFd(fd, ok)), Entries(CancelAll(s.io, fd, ok).1));
  }

  lemma SemNotifyBooks(s: State, k: nat)
    requires BooksOk(s) && OpenEnabled(s, SemNotify(k))
    ensures BooksOk(OpenApply(s, SemNotify(k)))
  {
    SemLaws(s.sems[k], 0, false, 0);
    PushKeepsBooks(s, OpenApply(s, SemNotify(k)), Entries(Woken(s.sems[k])));
  }

  lemma SemTryWaitBooks(s: State, k: nat)
    requires BooksOk(s) && OpenEnabled(s, SemTryWait(k))
    ensures BooksOk(OpenApply(s, SemTryWait(k)))
  {
    SemLaws(s.sems[k], 0, false, 0);
  }

  lemma NewSemaphoreBooks(s: State, n: nat)
    requires BooksOk(s) && OpenEnabled(s, NewSemaphore(n))
    ensures BooksOk(OpenApply(s, NewSemaphore(n)))
  {
  }

  lemma OpenKeepsBooks(s: State, st: OpenStep)
    requires BooksOk(s) && OpenEnabled(s, st)
    ensures BooksOk(OpenApply(s, st))
  {
    match st
    case Spawn(thread) => SpawnBooks(s, thread);
    case Submit(id, thread) => SubmitBooks(s, id, thread);
    case RawSchedule(f, thread) => RawScheduleBooks(s, f, thread);
    case AddCallbackEvent(fd, e, id, ok) => AddCallbackEventBooks(s, fd, e, id, ok);
    case DelFdEvent(fd, e, ok) => DelFdEventBooks(s, fd, e, ok);
    case CancelFdEvent(fd, e, ok) => CancelFdEventBooks(s, fd, e, ok);
    case CancelFd(fd, ok) => CancelFdBooks(s, fd, ok);
    case SemNotify(k) => SemNotifyBooks(s, k);
    case SemTryWait(k) => SemTryWaitBooks(s, k);
    case NewSemaphore(n) => NewSemaphoreBooks(s, n);
    case _ =>
  }

  lemma FlushBooks(s: State, w: nat)
    requires BooksOk(s) && IdleEnabled(s, w, Flush)
    ensures BooksOk(IdleApply(s, w, Flush))
  {
    MoveKeepsBooks(s, IdleApply(s, w, Flush), w, Entries(AsCallbacks(s.workers[w].pc.hand)));
  }

  lemma DispatchFdBooks(s: State, w: nat, fd: nat, rep: Report, ok: bool)
    requires BooksOk(s) && IdleEnabled(s, w, DispatchFd(fd, rep, ok))
    ensures BooksOk(IdleApply(s, w, DispatchFd(fd, rep, ok)))
  {
    PerformKeepsTable(s.io, OpDispatch(fd, rep, ok));
    PushKeepsBooks(s, IdleApply(s, w, DispatchFd(fd, rep, ok)), Entries(Dispatch(s.io, fd, rep, ok).1));
  }

  lemma ExpireBooks(s: State, w: nat, k: nat)
    requires BooksOk(s) && IdleEnabled(s, w, Expire(k))
    ensures BooksOk(IdleApply(s, w, Expire(k)))
  {
    QuietMove(s, IdleApply(s, w, Expire(k)), w);
  }

  lemma LeaveIdleBooks(s: State, w: nat)
    requires BooksOk(s) && IdleEnabled(s, w, LeaveIdle)
    ensures BooksOk(IdleApply(s, w, LeaveIdle))
  {
    QuietMove(s, IdleApply(s, w, LeaveIdle), w);
  }

  lemma EndIdleBooks(s: State, w: nat)
    requires BooksOk(s) && IdleEnabled(s, w, EndIdle)
    ensures BooksOk(IdleApply(s, w, EndIdle))
  {
    QuietMove(s, IdleApply(s, w, EndIdle), w);
  }

  lemma IdleKeepsBooks(s: State, w: nat, st: IdleStep)
    requires BooksOk(s) && IdleEnabled(s, w, st)
    ensures BooksOk(IdleApply(s, w, st))
  {
    match st
    case Expire(k) => ExpireBooks(s, w, k);
    case Flush => FlushBooks(s, w);
    case DispatchFd(fd, rep, ok) => DispatchFdBooks(s, w, fd, rep, ok);
    case LeaveIdle => LeaveIdleBooks(s, w);
    case EndIdle => EndIdleBooks(s, w);
  }

  lemma StepKeepsBooks(s: State, st: Step)
    requires BooksOk(s) && Enabled(s, st)
    ensures BooksOk(Apply(s, st))
  {
    match st
    case Work(w, a) => WorkerKeepsBooks(s, w, a);
    case Act(w, a) => FiberKeepsBooks(s, s.workers[w].pc.fiber, s.fibers[s.workers[w].pc.fiber].act, a);
    case Open(a) => OpenKeepsBooks(s, a);
    case Idle(w, a) => IdleKeepsBooks(s, w, a);
  }

  lemma {:induction false} FreshWorkers(ws: seq<Worker>)
    requires forall i :: 0 <= i < |ws| ==> ws[i] == Worker(Loop, None, false)
    ensures Sum(ws, HandEntry) == multiset{} && Count(ws, InWindow) == 0 && Count(ws, IsIdling) == 0
  {
    if ws != [] {
      FreshWorkers(ws[..|ws| - 1]);
    }
  }

  lemma InitialBooks(s: State)
    requires Initial(s)
    ensures BooksOk(s)
  {
    FreshWorkers(s.workers);
    FreshOk(s.io);
  }

  /** Over every run: accepted = queued + in hand + consumed, and both thread counters count the workers. */
  lemma {:induction false} RunKeepsBooks(ss: seq<State>, steps: seq<Step>, n: nat)
    requires Run(ss, steps) && n <= |steps|
    ensures BooksOk(ss[n])
  {
    if n == 0 {
      InitialBooks(ss[0]);
    } else {
      RunKeepsBooks(ss, steps, n - 1);
      StepKeepsBooks(ss[n - 1], steps[n - 1]);
    }
  }

  /** Scheduler::stopping() returning true means, at that instant, an empty list and no worker between its dequeue
      and its decrement; and the active count can never be decremented below zero. */
  lemma StoppingMeansQuiet(s: State)
    requires BooksOk(s)
    ensures s.active >= 0 && s.idle >= 0
    ensures Stopping(s) <==>
            s.stopRequested && s.queue == [] && forall i :: 0 <= i < |s.workers| ==> !InWindow(s.workers[i])
    ensures forall i :: 0 <= i < |s.workers| && InWindow(s.workers[i]) ==> s.active >= 1
  {
    CountZero(s.workers, InWindow);
  }

  /** An entry pinned to a thread is only taken by that thread, and the entry taken is the earliest one this thread
      may run: every entry before it is pinned elsewhere or is a fiber still in EXEC. */
  lemma TakeIsEarliestEligible(s: State, w: nat)
    requires WorkerEnabled(s, w, Take)
    ensures exists i :: 0 <= i < |s.queue| &&
              WorkerApply(s, w, Take).workers[w].pc == Picked(s.queue[i]) &&
              WorkerApply(s, w, Take).queue == s.queue[..i] + s.queue[i + 1..] &&
              (s.queue[i].thread == -1 || s.queue[i].thread == w) &&
              forall j :: 0 <= j < i ==>
                (s.queue[j].thread != -1 && s.queue[j].thread != w) ||
                (s.queue[j].task.RunFiber? &&
                 (s.queue[j].task.fiber >= |s.fibers| || s.fibers[s.queue[j].task.fiber].state == EXEC))
  {
    var i := PickIndex(s, w);
    assert Eligible(s.queue[i], w, s.fibers);
    assert WorkerApply(s, w, Take).workers[w].pc == Picked(s.queue[i]);
  }
}
