/** No fiber is ever executed by two threads at once. Theorem `DisciplinedRunIsSafe` covers every interleaving in which
    each hand-over to the scheduler is one that may be made (`MayHand`): there is no other since the last swap-in, the
    fiber is not on its way back to the list by YieldToReady, and it is not a callback fiber that has ended and is kept
    for reuse. Fibers that have ended for good may be handed over at will. Only calls
    of schedule() count; timers, fd events and semaphores that may call it later do not. `StepKeepsInv` shows the
    discipline to be exactly what keeps the invariant. */
module WakeSafety {
  import opened Folds
  import opened Tasks
  import opened FdTable
  import opened Runtime
  import opened RuntimeBooks
  import opened HandOvers

  // ----------------------------------------------------------------------------------------------------------
  // Invariant

  /** The fiber has ended and nobody keeps it for reuse: entries of it are dropped, however many there are. */
  ghost predicate Retired(s: State, f: FiberId) {
    f < |s.fibers| && Ended(s.fibers[f].state) && Cached(s, f) == 0
  }

  ghost predicate FiberOk(s: State, f: FiberId) {
    if f < |s.fibers| then
      var st := s.fibers[f].state;
      && (Handed(s, f) <= 1 || Retired(s, f)) && Held(s, f) <= 1 && Cached(s, f) <= 1
      && (st == EXEC ==> Held(s, f) == 1 && InHand(s, f) == 0)
      && (Held(s, f) == 1 ==> st == EXEC || st == READY || Ended(st))
      // yielded READY: its worker is about to put it on the list, or it is there
      && (st == READY ==> Handed(s, f) + Held(s, f) == 1)
      && (Cached(s, f) == 1 && Held(s, f) == 0 ==> st == INIT && Handed(s, f) == 0)
    else Handed(s, f) == 0 && Held(s, f) == 0 && Cached(s, f) == 0
  }

  ghost predicate HeldOk(s: State, w: Worker, f: FiberId, viaCb: bool) {
    f < |s.fibers| &&
    if viaCb then w.cbFiber == Some(f) && (Ended(s.fibers[f].state) ==> Handed(s, f) == 0)
    else Cached(s, f) == 0
  }

  ghost predicate WorkerOk(s: State, w: Worker) {
    match w.pc
    case Running(f, c) => HeldOk(s, w, f, c)
    case Back(f, c) => HeldOk(s, w, f, c)
    case Released(f, c) => HeldOk(s, w, f, c)
    case MarkHold(f, c) => HeldOk(s, w, f, c) && s.fibers[f].state == EXEC
    case Requeue(f, c) => HeldOk(s, w, f, c) && s.fibers[f].state == READY
    case _ => true
  }

  ghost predicate WakeOk(s: State) {
    && (forall f: FiberId :: FiberOk(s, f))
    && (forall i :: 0 <= i < |s.workers| ==> WorkerOk(s, s.workers[i]))
  }

  ghost predicate Inv(s: State) {
    BooksOk(s) && WakeOk(s)
  }

  /** What the scheduler's code asserts and assumes about fibers, in every state. */
  ghost predicate Safe(s: State) {
    // swapIn: SYLAR_ASSERT(m_state != EXEC)
    && (forall i :: 0 <= i < |s.workers| && WorkerEnabled(s, i, SwapIn) ==>
          s.fibers[s.workers[i].pc.entry.task.fiber].state != EXEC)
    // Fiber::reset on the cached callback fiber: TERM, EXCEPT or INIT
    && (forall i :: 0 <= i < |s.workers| && WorkerEnabled(s, i, StartCallback) && s.workers[i].cbFiber.Some? ==>
          s.fibers[s.workers[i].cbFiber.value].state == INIT)
    // one worker per fiber, from swapIn until its state has been dealt with
    && (forall i, j, f | 0 <= i < |s.workers| && 0 <= j < |s.workers| ::
          f in HeldBy(s.workers[i]) && f in HeldBy(s.workers[j]) ==> i == j)
  }

  // ----------------------------------------------------------------------------------------------------------
  // Discipline

  /** The fiber may be handed to schedule(): it has retired; or no other hand-over is outstanding, it has not yielded
      READY, and if it is a worker's callback fiber then it is running and has not ended. */
  ghost predicate MayHand(s: State, f: FiberId) {
    || Retired(s, f)
    || (&& f < |s.fibers| && Handed(s, f) == 0 && s.fibers[f].state != READY
        && (Cached(s, f) == 1 ==> Held(s, f) == 1 && !Ended(s.fibers[f].state)))
  }

  /** Each fiber the entries hand over may be handed over, and none twice that has not retired. */
  ghost predicate MayHandAll(s: State, es: seq<Entry>) {
    forall f: FiberId :: Given(es, f) >= 1 ==> MayHand(s, f) && (Given(es, f) == 1 || Retired(s, f))
  }

  /** The entries that running code, other threads and idle dispatch put on the list in a step. */
  ghost function PutOn(s: State, st: Step): seq<Entry>
    requires Enabled(s, st)
  {
    match st
    case Work(_, _) => []
    case Act(w, a) => PutOnByFiber(s, s.workers[w].pc.fiber, s.fibers[s.workers[w].pc.fiber].act, a)
    case Open(a) => PutOnByOthers(s, a)
    case Idle(w, a) => PutOnByIdle(s, w, a)
  }

  ghost function PutOnByFiber(s: State, f: FiberId, a: Activity, st: FiberStep): seq<Entry>
    requires FiberCan(s, f, a, st)
  {
    match st
    case FireWake => [Entry(RunFiber(a.cb.fiber), -1)]
    case FireCancel(ok) => Entries(CancelEvent(s.io, a.fd, a.event, ok).1)
    case SwitchTo(thread) => [Entry(RunFiber(f), thread)]
    case _ => []
  }

  ghost function PutOnByOthers(s: State, st: OpenStep): seq<Entry>
    requires OpenEnabled(s, st)
  {
    match st
    case Submit(id, thread) => [Entry(RunCallback(UserCode(id)), thread)]
    case RawSchedule(f, thread) => [Entry(RunFiber(f), thread)]
    case CancelFdEvent(fd, e, ok) => Entries(CancelEvent(s.io, fd, e, ok).1)
    case CancelFd(fd, ok) => Entries(CancelAll(s.io, fd, ok).1)
    case SemNotify(k) => Entries(Woken(s.sems[k]))
    case _ => []
  }

  ghost function PutOnByIdle(s: State, w: nat, st: IdleStep): seq<Entry>
    requires IdleEnabled(s, w, st)
  {
    match st
    case Flush => Entries(AsCallbacks(s.workers[w].pc.hand))
    case DispatchFd(fd, rep, ok) => Entries(Dispatch(s.io, fd, rep, ok).1)
    case _ => []
  }

  /** Every hand-over of the step may be made. A fiber that yields READY announces the hand-over its worker will make,
      so there must be no other; nor may there be one when a callback fiber ends. */
  ghost predicate Disciplined(s: State, st: Step)
    requires Enabled(s, st)
  {
    && MayHandAll(s, PutOn(s, st))
    && (st.Act? && st.act.YieldToReady? ==> Handed(s, s.workers[st.w].pc.fiber) == 0)
    && (st.Act? && st.act.Finish? && s.workers[st.w].pc.viaCb ==> Handed(s, s.workers[st.w].pc.fiber) == 0)
  }

  // ----------------------------------------------------------------------------------------------------------
  // Framing

  lemma OthersDoNotHold(s: State, w: nat, f: FiberId)
    requires w < |s.workers| && Held(s, f) <= HeldBy(s.workers[w])[f]
    ensures forall i :: 0 <= i < |s.workers| && i != w ==> HeldBy(s.workers[i])[f] == 0
  {
    forall i | 0 <= i < |s.workers| && i != w ensures HeldBy(s.workers[i])[f] == 0 {
      SumPair(s.workers, i, w, HeldBy);
      assert (HeldBy(s.workers[i]) + HeldBy(s.workers[w]))[f] <= Held(s, f);
    }
  }

  /** A fiber keeps its part when its state and its counts stay and no more of it is in hand. */
  lemma FiberFrame(s: State, t: State, g: FiberId)
    requires FiberOk(s, g) && (g < |s.fibers| <==> g < |t.fibers|)
    requires g < |s.fibers| ==> t.fibers[g].state == s.fibers[g].state
    requires Handed(t, g) == Handed(s, g) && Held(t, g) == Held(s, g) && Cached(t, g) == Cached(s, g)
    requires InHand(t, g) <= InHand(s, g) || (g < |s.fibers| && s.fibers[g].state != EXEC)
    ensures FiberOk(t, g)
  {
  }

  /** A worker keeps its part when the fibers it knows keep their state and their counts. */
  lemma WorkerFrame(s: State, t: State, wk: Worker)
    requires WorkerOk(s, wk) && |s.fibers| <= |t.fibers|
    requires forall g :: g in HeldBy(wk) && g < |s.fibers| ==>
               t.fibers[g].state == s.fibers[g].state && Cached(t, g) <= Cached(s, g) && Handed(t, g) <= Handed(s, g)
    ensures WorkerOk(t, wk)
  {
  }

  /** The workers other than w keep their part when only fiber f, which none of them holds, changed. */
  lemma WorkersFrame(s: State, t: State, w: nat, nw: Worker, f: FiberId)
    requires WakeOk(s) && OneWorker(s, t, w, nw) && |s.fibers| <= |t.fibers|
    requires Held(s, f) <= HeldBy(s.workers[w])[f]
    requires forall g :: 0 <= g < |s.fibers| && g != f ==>
               t.fibers[g].state == s.fibers[g].state && Handed(t, g) <= Handed(s, g) && Cached(t, g) <= Cached(s, g)
    requires WorkerOk(t, nw)
    ensures forall i :: 0 <= i < |t.workers| ==> WorkerOk(t, t.workers[i])
  {
    OthersDoNotHold(s, w, f);
    forall i | 0 <= i < |t.workers| ensures WorkerOk(t, t.workers[i]) {
      if i != w {
        assert WorkerOk(s, s.workers[i]);
        assert HeldBy(s.workers[i])[f] == 0;
        WorkerFrame(s, t, s.workers[i]);
      }
    }
  }

  /** A cached callback fiber is held by nobody while its worker does something else. */
  lemma CachedIsIdle(s: State, w: nat)
    requires WakeOk(s) && w < |s.workers| && s.workers[w].cbFiber.Some? && HeldBy(s.workers[w]) == multiset{}
    ensures var f := s.workers[w].cbFiber.value;
            f < |s.fibers| && Held(s, f) == 0 && Cached(s, f) == 1 && s.fibers[f].state == INIT && Handed(s, f) == 0
  {
    var f := s.workers[w].cbFiber.value;
    SumMember(s.workers, w, CachedBy);
    assert CachedBy(s.workers[w])[f] == 1;
    assert FiberOk(s, f);
    if Held(s, f) > 0 {
      var i := SumWitness(s.workers, f, HeldBy);
      assert WorkerOk(s, s.workers[i]);
      SumPair(s.workers, i, w, CachedBy);
      assert false;
    }
  }

  /** The worker that holds f is its only holder, and the state is what the worker may see. */
  lemma HolderSees(s: State, w: nat, f: FiberId)
    requires WakeOk(s) && w < |s.workers| && HeldBy(s.workers[w]) == multiset{f}
    ensures f < |s.fibers| && Held(s, f) == 1 && FiberOk(s, f) && WorkerOk(s, s.workers[w])
    ensures s.fibers[f].state == EXEC || Ended(s.fibers[f].state) || (s.fibers[f].state == READY && Handed(s, f) == 0)
    ensures if s.workers[w].pc.viaCb then s.workers[w].cbFiber == Some(f)
            else s.workers[w].cbFiber != Some(f) && Cached(s, f) == 0
  {
    SumMember(s.workers, w, CachedBy);
    SumMember(s.workers, w, HeldBy);
    assert HeldBy(s.workers[w])[f] == 1;
    assert FiberOk(s, f);
    assert WorkerOk(s, s.workers[w]);
  }

  // ----------------------------------------------------------------------------------------------------------
  // Hand-overs

  ghost predicate SameStates(s: State, t: State) {
    |t.fibers| == |s.fibers| && forall g :: 0 <= g < |s.fibers| ==> t.fibers[g].state == s.fibers[g].state
  }

  /** For one fiber: the list grew by c entries of it. */
  ghost predicate GrewBy(s: State, t: State, g: FiberId, c: nat) {
    && SameStates(s, t) && Handed(t, g) == Handed(s, g) + c
    && Held(t, g) == Held(s, g) && InHand(t, g) == InHand(s, g) && Cached(t, g) == Cached(s, g)
  }

  lemma HandOverFiber(s: State, t: State, g: FiberId, c: nat)
    requires FiberOk(s, g) && GrewBy(s, t, g, c) && (c > 0 ==> MayHand(s, g) && (c == 1 || Retired(s, g)))
    ensures FiberOk(t, g)
  {
  }

  lemma HandOverNeeds(s: State, t: State, g: FiberId, c: nat)
    requires FiberOk(s, g) && FiberOk(t, g) && GrewBy(s, t, g, c) && c > 0
    requires !(g < |s.fibers| && Cached(s, g) == 1 && Held(s, g) == 1 && Ended(s.fibers[g].state))
    ensures MayHand(s, g) && (c == 1 || Retired(s, g))
  {
  }

  /** A callback fiber that ended while held has no outstanding hand-over in a sound state. */
  lemma EndedHeldCallback(t: State, g: FiberId)
    requires WakeOk(t) && g < |t.fibers| && Cached(t, g) == 1 && Held(t, g) == 1 && Ended(t.fibers[g].state)
    ensures Handed(t, g) == 0
  {
    var i := SumWitness(t.workers, g, HeldBy);
    assert WorkerOk(t, t.workers[i]);
  }

  /** Putting entries on the list keeps the invariant exactly when each hand-over may be made. */
  lemma HandOverExact(s: State, t: State, es: seq<Entry>)
    requires WakeOk(s) && t.workers == s.workers && SameStates(s, t) && t.queue == s.queue + es
    ensures WakeOk(t) <==> MayHandAll(s, es)
  {
    if MayHandAll(s, es) {
      HandOverKeeps(s, t, es);
    }
    if WakeOk(t) {
      forall g: FiberId | Given(es, g) >= 1 ensures MayHand(s, g) && (Given(es, g) == 1 || Retired(s, g)) {
        HandOverWasAllowed(s, t, es, g);
      }
    }
  }

  lemma HandOverWasAllowed(s: State, t: State, es: seq<Entry>, g: FiberId)
    requires WakeOk(s) && WakeOk(t) && t.workers == s.workers && SameStates(s, t) && t.queue == s.queue + es
    requires Given(es, g) >= 1
    ensures MayHand(s, g) && (Given(es, g) == 1 || Retired(s, g))
  {
    HandedMore(s, t, es, g);
    assert FiberOk(s, g) && FiberOk(t, g);
    if g < |s.fibers| && Cached(s, g) == 1 && Held(s, g) == 1 && Ended(s.fibers[g].state) {
      EndedHeldCallback(t, g);
      assert false;
    }
    HandOverNeeds(s, t, g, Given(es, g));
  }

  lemma HandOverKeeps(s: State, t: State, es: seq<Entry>)
    requires WakeOk(s) && t.workers == s.workers && SameStates(s, t) && t.queue == s.queue + es && MayHandAll(s, es)
    ensures WakeOk(t)
  {
    forall g: FiberId ensures FiberOk(t, g) {
      assert FiberOk(s, g);
      HandedMore(s, t, es, g);
      HandOverFiber(s, t, g, Given(es, g));
    }
    forall i | 0 <= i < |t.workers| ensures WorkerOk(t, t.workers[i]) {
      HandOverWorker(s, t, es, i);
    }
  }

  lemma HandOverWorker(s: State, t: State, es: seq<Entry>, i: nat)
    requires WakeOk(s) && i < |s.workers| && t.workers == s.workers && SameStates(s, t)
    requires t.queue == s.queue + es && MayHandAll(s, es)
    ensures WorkerOk(t, s.workers[i])
  {
    var wk := s.workers[i];
    assert WorkerOk(s, wk);
    if HeldBy(wk) != multiset{} {
      var f := wk.pc.fiber;
      HolderSees(s, i, f);
      HandedMore(s, t, es, f);
      SumMember(s.workers, i, CachedBy);
      if Ended(s.fibers[f].state) && wk.pc.viaCb {
        assert CachedBy(wk)[f] == 1;
        EndedIsNotGiven(s, es, f);
      }
      SameHolding(s, t, wk, f);
    }
  }

  lemma SameHolding(s: State, t: State, wk: Worker, f: FiberId)
    requires WorkerOk(s, wk) && HeldBy(wk) == multiset{f} && SameStates(s, t) && Cached(t, f) == Cached(s, f)
    requires f < |s.fibers| && (Ended(s.fibers[f].state) && wk.pc.viaCb ==> Handed(t, f) == Handed(s, f))
    ensures WorkerOk(t, wk)
  {
  }

  lemma EndedIsNotGiven(s: State, es: seq<Entry>, f: FiberId)
    requires MayHandAll(s, es) && f < |s.fibers| && Ended(s.fibers[f].state) && Cached(s, f) == 1
    ensures Given(es, f) == 0
  {
  }

  // ----------------------------------------------------------------------------------------------------------
  // Worker steps

  /** A worker that holds no fiber before or after. */
  ghost predicate EmptyHanded(s: State, t: State, w: nat, nw: Worker) {
    && OneWorker(s, t, w, nw) && nw.cbFiber == s.workers[w].cbFiber && t.fibers == s.fibers
    && HeldBy(s.workers[w]) == multiset{} && HeldBy(nw) == multiset{}
  }

  lemma EmptyHandedFiber(s: State, t: State, w: nat, nw: Worker, g: FiberId)
    requires FiberOk(s, g) && EmptyHanded(s, t, w, nw)
    requires Handed(t, g) == Handed(s, g) || (Handed(t, g) < Handed(s, g) && g < |s.fibers| && Ended(s.fibers[g].state))
    requires InHandOf(nw)[g] > InHandOf(s.workers[w])[g] ==> g < |s.fibers| && s.fibers[g].state != EXEC
    ensures FiberOk(t, g) && Cached(t, g) == Cached(s, g)
  {
    HeldAfter(s, t, w, nw, g);
    InHandAfter(s, t, w, nw, g);
    CachedAfter(s, t, w, nw, g);
  }

  lemma EmptyHandedMove(s: State, t: State, w: nat, nw: Worker)
    requires WakeOk(s) && EmptyHanded(s, t, w, nw)
    requires forall g: FiberId ::
               || Handed(t, g) == Handed(s, g)
               || (Handed(t, g) < Handed(s, g) && g < |s.fibers| && Ended(s.fibers[g].state))
    requires forall g :: InHandOf(nw)[g] > InHandOf(s.workers[w])[g] ==> g < |s.fibers| && s.fibers[g].state != EXEC
    ensures WakeOk(t)
  {
    forall g: FiberId ensures FiberOk(t, g) && Cached(t, g) == Cached(s, g) {
      assert FiberOk(s, g);
      EmptyHandedFiber(s, t, w, nw, g);
    }
    forall i | 0 <= i < |t.workers| ensures WorkerOk(t, t.workers[i]) {
      assert WorkerOk(s, s.workers[i]);
      if i != w {
        WorkerFrame(s, t, s.workers[i]);
      }
    }
  }

  lemma TakeWake(s: State, w: nat)
    requires WakeOk(s) && WorkerEnabled(s, w, Take)
    ensures WakeOk(WorkerApply(s, w, Take))
  {
    var t := WorkerApply(s, w, Take);
    var e := s.queue[PickIndex(s, w)];
    assert Eligible(e, w, s.fibers);
    forall g ensures Handed(t, g) == Handed(s, g) { HandedByTake(s, w, g); }
    EmptyHandedMove(s, t, w, s.workers[w].(pc := Picked(e)));
  }

  /** A move of a worker that has no fiber entry in hand, with callbacks put on the list or nothing. */
  lemma EmptyHandedStep(s: State, t: State, w: nat, nw: Worker, es: seq<Entry>)
    requires WakeOk(s) && EmptyHanded(s, t, w, nw) && t.queue == s.queue + es
    requires InHandOf(s.workers[w]) == multiset{} && InHandOf(nw) == multiset{} && forall g :: Given(es, g) == 0
    ensures WakeOk(t)
  {
    forall g ensures Handed(t, g) == Handed(s, g) { HandedAfter(s, t, w, nw, es, g); }
    EmptyHandedMove(s, t, w, nw);
  }

  lemma PlainMove(s: State, t: State, w: nat, nw: Worker)
    requires WakeOk(s) && EmptyHanded(s, t, w, nw) && t.queue == s.queue
    requires InHandOf(s.workers[w]) == multiset{} && InHandOf(nw) == multiset{}
    ensures WakeOk(t)
  {
    assert s.queue == s.queue + [];
    EmptyHandedStep(s, t, w, nw, []);
  }

  lemma GoIdleWake(s: State, w: nat)
    requires WakeOk(s) && WorkerEnabled(s, w, GoIdle)
    ensures WakeOk(WorkerApply(s, w, GoIdle))
  {
    PlainMove(s, WorkerApply(s, w, GoIdle), w, s.workers[w].(pc := Idling([])));
  }

  lemma ExitWake(s: State, w: nat)
    requires WakeOk(s) && WorkerEnabled(s, w, Exit)
    ensures WakeOk(WorkerApply(s, w, Exit))
  {
    PlainMove(s, WorkerApply(s, w, Exit), w, s.workers[w].(pc := Exited));
  }

  lemma DropEndedWake(s: State, w: nat)
    requires WakeOk(s) && WorkerEnabled(s, w, DropEnded)
    ensures WakeOk(WorkerApply(s, w, DropEnded))
  {
    var t, nw := WorkerApply(s, w, DropEnded), s.workers[w].(pc := Loop);
    var f := s.workers[w].pc.entry.task.fiber;
    forall g ensures Handed(t, g) == Handed(s, g) || (Handed(t, g) < Handed(s, g) && g == f) {
      HandedMoved(s, t, w, nw, g);
    }
    EmptyHandedMove(s, t, w, nw);
  }

  /** What being in a worker's hand tells about a fiber. */
  lemma PickedFiber(s: State, w: nat)
    requires WakeOk(s) && w < |s.workers| && s.workers[w].pc.Picked? && s.workers[w].pc.entry.task.RunFiber?
    ensures var f := s.workers[w].pc.entry.task.fiber;
            && f < |s.fibers| && s.fibers[f].state != EXEC && Handed(s, f) >= 1
            && (!Retired(s, f) ==> Handed(s, f) == 1 && InHand(s, f) == 1)
            && (!Ended(s.fibers[f].state) ==> Held(s, f) == 0 && Cached(s, f) == 0)
  {
    var f := s.workers[w].pc.entry.task.fiber;
    SumMember(s.workers, w, InHandOf);
    assert InHandOf(s.workers[w])[f] == 1;
    assert FiberOk(s, f);
  }

  /** s with worker w executing fiber f (an old one or a new one). */
  ghost predicate Starts(s: State, t: State, w: nat, nw: Worker, f: FiberId, viaCb: bool) {
    && OneWorker(s, t, w, nw) && HeldBy(s.workers[w]) == multiset{} && nw.pc == Running(f, viaCb)
    && t.queue == s.queue && f < |t.fibers| && t.fibers[f].state == EXEC
    && (|| (f < |s.fibers| && t.fibers == s.fibers[f := t.fibers[f]])
        || (f == |s.fibers| && t.fibers == s.fibers + [t.fibers[f]]))
    && (s.workers[w].cbFiber == nw.cbFiber || (s.workers[w].cbFiber == None && nw.cbFiber == Some(f)))
    && (forall g :: InHandOf(s.workers[w])[g] > 0 ==> g == f)
  }

  lemma StartingCounts(s: State, t: State, w: nat, nw: Worker, f: FiberId, viaCb: bool, g: FiberId)
    requires Starts(s, t, w, nw, f, viaCb)
    ensures Held(t, g) == Held(s, g) + (if g == f then 1 else 0)
    ensures Handed(t, g) + InHandOf(s.workers[w])[g] == Handed(s, g)
    ensures InHand(t, g) + InHandOf(s.workers[w])[g] == InHand(s, g)
    ensures g != f ==> Cached(t, g) == Cached(s, g)
  {
    HeldAfter(s, t, w, nw, g);
    HandedMoved(s, t, w, nw, g);
    CachedAfter(s, t, w, nw, g);
  }

  lemma StartingFiber(s: State, t: State, w: nat, nw: Worker, f: FiberId, viaCb: bool, g: FiberId)
    requires Starts(s, t, w, nw, f, viaCb) && FiberOk(s, g) && Held(s, f) == 0 && Handed(t, f) == 0 && Cached(t, f) <= 1
    ensures FiberOk(t, g) && (g != f ==> Cached(t, g) == Cached(s, g) && Handed(t, g) == Handed(s, g))
  {
    StartingCounts(s, t, w, nw, f, viaCb, g);
    if g != f {
      FiberFrame(s, t, g);
    }
  }

  /** Worker w starts executing fiber f: it was held by nobody, and no hand-over of it is left. */
  lemma Starting(s: State, t: State, w: nat, nw: Worker, f: FiberId, viaCb: bool)
    requires WakeOk(s) && Starts(s, t, w, nw, f, viaCb) && Held(s, f) == 0 && Handed(t, f) == 0
    requires if viaCb then nw.cbFiber == Some(f) && Cached(t, f) == 1 else Cached(t, f) == 0
    ensures WakeOk(t)
  {
    forall g: FiberId
      ensures FiberOk(t, g) && (g != f ==> Cached(t, g) == Cached(s, g) && Handed(t, g) == Handed(s, g))
    {
      assert FiberOk(s, g);
      StartingFiber(s, t, w, nw, f, viaCb, g);
    }
    WorkersFrame(s, t, w, nw, f);
  }

  lemma SwapInWake(s: State, w: nat)
    requires WakeOk(s) && WorkerEnabled(s, w, SwapIn)
    ensures WakeOk(WorkerApply(s, w, SwapIn))
  {
    var t := WorkerApply(s, w, SwapIn);
    var f := s.workers[w].pc.entry.task.fiber;
    var nw := s.workers[w].(pc := Running(f, false));
    PickedFiber(s, w);
    StartingCounts(s, t, w, nw, f, false, f);
    CachedAfter(s, t, w, nw, f);
    Starting(s, t, w, nw, f, false);
  }

  ghost predicate CallbackStarts(s: State, t: State, w: nat, f: FiberId) {
    && w < |s.workers| && s.workers[w].pc.Picked? && s.workers[w].pc.entry.task.RunCallback?
    && (s.workers[w].cbFiber == Some(f) || (s.workers[w].cbFiber == None && f == |s.fibers|))
    && t.workers == s.workers[w := s.workers[w].(pc := Running(f, true), cbFiber := Some(f))]
    && var nf := Fiber(EXEC, Entering(s.workers[w].pc.entry.task.cb));
       if f < |s.fibers| then t.fibers == s.fibers[f := nf] else f == |s.fibers| && t.fibers == s.fibers + [nf]
  }

  /** Nothing besides workers and fibers that matters to wake-ups changed. */
  ghost predicate SameRest(s: State, t: State) {
    t.queue == s.queue && t.io == s.io && t.timers == s.timers && t.sems == s.sems
  }

  /** A callback starts on fiber f: the cached one, or a new one. */
  lemma StartCallbackShape(s: State, w: nat)
    requires WorkerEnabled(s, w, StartCallback)
    ensures s.workers[w].cbFiber.Some? ==>
              CallbackStarts(s, StartOnCached(s, w), w, s.workers[w].cbFiber.value) && SameRest(s, StartOnCached(s, w))
    ensures s.workers[w].cbFiber.None? ==>
              CallbackStarts(s, StartOnFresh(s, w), w, |s.fibers|) && SameRest(s, StartOnFresh(s, w))
  {
  }

  lemma CallbackWake(s: State, t: State, w: nat, f: FiberId)
    requires WakeOk(s) && CallbackStarts(s, t, w, f) && SameRest(s, t)
    ensures WakeOk(t)
  {
    var nw := s.workers[w].(pc := Running(f, true), cbFiber := Some(f));
    assert FiberOk(s, f);
    if s.workers[w].cbFiber.Some? {
      CachedIsIdle(s, w);
    }
    StartingCounts(s, t, w, nw, f, true, f);
    CachedAfter(s, t, w, nw, f);
    Starting(s, t, w, nw, f, true);
  }

  /** Worker w goes on holding the same fiber. */
  ghost predicate GoesOn(s: State, t: State, w: nat, pc: Pc, f: FiberId) {
    && w < |s.workers| && OneWorker(s, t, w, s.workers[w].(pc := pc)) && t.queue == s.queue && t.fibers == s.fibers
    && HeldBy(s.workers[w]) == multiset{f} && f < |s.fibers|
    && var viaCb := s.workers[w].pc.viaCb;
       || pc == Back(f, viaCb) || pc == Released(f, viaCb)
       || (pc == MarkHold(f, viaCb) && s.fibers[f].state == EXEC)
       || (pc == Requeue(f, viaCb) && s.fibers[f].state == READY)
  }

  lemma GoesOnFiber(s: State, t: State, w: nat, pc: Pc, f: FiberId, g: FiberId)
    requires FiberOk(s, g) && GoesOn(s, t, w, pc, f)
    ensures FiberOk(t, g) && Cached(t, g) == Cached(s, g) && Handed(t, g) == Handed(s, g)
  {
    var nw := s.workers[w].(pc := pc);
    HeldAfter(s, t, w, nw, g);
    HandedMoved(s, t, w, nw, g);
    CachedAfter(s, t, w, nw, g);
    FiberFrame(s, t, g);
  }

  lemma GoesOnWorker(s: State, t: State, w: nat, pc: Pc, f: FiberId)
    requires w < |s.workers| && WorkerOk(s, s.workers[w]) && GoesOn(s, t, w, pc, f)
    requires Cached(t, f) == Cached(s, f) && Handed(t, f) == Handed(s, f)
    ensures WorkerOk(t, t.workers[w])
  {
  }

  lemma KeepHolding(s: State, t: State, w: nat, pc: Pc, f: FiberId)
    requires WakeOk(s) && GoesOn(s, t, w, pc, f)
    ensures WakeOk(t)
  {
    forall g: FiberId
      ensures FiberOk(t, g) && Cached(t, g) == Cached(s, g) && Handed(t, g) == Handed(s, g)
    {
      assert FiberOk(s, g);
      GoesOnFiber(s, t, w, pc, f, g);
    }
    forall i | 0 <= i < |t.workers| ensures WorkerOk(t, t.workers[i]) {
      assert WorkerOk(s, s.workers[i]);
      if i == w {
        GoesOnWorker(s, t, w, pc, f);
      } else {
        WorkerFrame(s, t, s.workers[i]);
      }
    }
  }

  lemma SwapOutWake(s: State, w: nat)
    requires WakeOk(s) && WorkerEnabled(s, w, SwapOut)
    ensures WakeOk(WorkerApply(s, w, SwapOut))
  {
    var pc := s.workers[w].pc;
    KeepHolding(s, WorkerApply(s, w, SwapOut), w, Back(pc.fiber, pc.viaCb), pc.fiber);
  }

  lemma DecrementWake(s: State, w: nat)
    requires WakeOk(s) && WorkerEnabled(s, w, Decrement)
    ensures WakeOk(WorkerApply(s, w, Decrement))
  {
    var pc := s.workers[w].pc;
    KeepHolding(s, WorkerApply(s, w, Decrement), w, Released(pc.fiber, pc.viaCb), pc.fiber);
  }

  /** s with worker w back at the top of its loop, having let go of f and put es on the list. */
  ghost predicate LetsGo(s: State, t: State, w: nat, nw: Worker, f: FiberId, nf: Fiber, es: seq<Entry>) {
    && OneWorker(s, t, w, nw) && HeldBy(s.workers[w]) == multiset{f} && nw.pc == Loop && t.queue == s.queue + es
    && (nw.cbFiber == s.workers[w].cbFiber || nw.cbFiber == None)
    && f < |s.fibers| && t.fibers == s.fibers[f := nf] && nf.state != EXEC
  }

  lemma LettingGoFiber(s: State, t: State, w: nat, nw: Worker, f: FiberId, nf: Fiber, es: seq<Entry>, g: FiberId)
    requires LetsGo(s, t, w, nw, f, nf, es) && FiberOk(s, g) && Held(s, f) == 1 && (g != f ==> Given(es, g) == 0)
    requires Handed(t, f) <= 1 || (Ended(nf.state) && Cached(t, f) == 0)
    requires nf.state == READY ==> Handed(t, f) == 1
    requires Cached(t, f) >= 1 ==> nf.state == INIT && Handed(t, f) == 0
    ensures FiberOk(t, g) && Cached(t, g) <= Cached(s, g) && (g != f ==> Handed(t, g) == Handed(s, g))
  {
    HeldAfter(s, t, w, nw, g);
    HandedAfter(s, t, w, nw, es, g);
    CachedAfter(s, t, w, nw, g);
  }

  lemma LettingGo(s: State, t: State, w: nat, nw: Worker, f: FiberId, nf: Fiber, es: seq<Entry>)
    requires WakeOk(s) && LetsGo(s, t, w, nw, f, nf, es) && forall g :: g != f ==> Given(es, g) == 0
    requires Handed(s, f) + Given(es, f) <= 1 || (Ended(nf.state) && nw.cbFiber != Some(f))
    requires nf.state == READY ==> Handed(s, f) + Given(es, f) == 1
    requires nw.cbFiber == Some(f) ==> nf.state == INIT && Handed(s, f) + Given(es, f) == 0
    ensures WakeOk(t)
  {
    HolderSees(s, w, f);
    forall g: FiberId
      ensures FiberOk(t, g) && Cached(t, g) <= Cached(s, g) && (g != f ==> Handed(t, g) == Handed(s, g))
    {
      LettingGoAny(s, t, w, nw, f, nf, es, g);
    }
    WorkersFrame(s, t, w, nw, f);
  }

  lemma LettingGoAny(s: State, t: State, w: nat, nw: Worker, f: FiberId, nf: Fiber, es: seq<Entry>, g: FiberId)
    requires WakeOk(s) && LetsGo(s, t, w, nw, f, nf, es) && (g != f ==> Given(es, g) == 0)
    requires Handed(s, f) + Given(es, f) <= 1 || (Ended(nf.state) && nw.cbFiber != Some(f))
    requires nf.state == READY ==> Handed(s, f) + Given(es, f) == 1
    requires nw.cbFiber == Some(f) ==> nf.state == INIT && Handed(s, f) + Given(es, f) == 0
    ensures FiberOk(t, g) && Cached(t, g) <= Cached(s, g) && (g != f ==> Handed(t, g) == Handed(s, g))
  {
    HolderSees(s, w, f);
    LettingGoSelf(s, t, w, nw, f, nf, es);
    assert FiberOk(s, g);
    LettingGoFiber(s, t, w, nw, f, nf, es, g);
  }

  lemma LettingGoSelf(s: State, t: State, w: nat, nw: Worker, f: FiberId, nf: Fiber, es: seq<Entry>)
    requires WakeOk(s) && LetsGo(s, t, w, nw, f, nf, es)
    ensures Handed(t, f) == Handed(s, f) + Given(es, f)
    ensures Cached(t, f) == if nw.cbFiber == Some(f) then 1 else 0
  {
    HolderSees(s, w, f);
    SumMember(s.workers, w, CachedBy);
    CachedAfter(s, t, w, nw, f);
    HandedAfter(s, t, w, nw, es, f);
  }

  /** What a worker does with the fiber once it has looked at its state. */
  ghost predicate Inspected(s: State, t: State, w: nat, f: FiberId, viaCb: bool)
    requires w < |s.workers| && f < |s.fibers|
  {
    if Ended(s.fibers[f].state) then
      LetsGo(s, t, w, s.workers[w].(pc := Loop), f, if viaCb then Fiber(INIT, Body) else s.fibers[f], [])
    else
      && OneWorker(s, t, w, s.workers[w].(pc := if s.fibers[f].state == READY then Requeue(f, viaCb)
                                                else MarkHold(f, viaCb)))
      && t.fibers == s.fibers && t.queue == s.queue
  }

  lemma InspectShape(s: State, w: nat, f: FiberId, viaCb: bool)
    requires w < |s.workers| && s.workers[w].pc == Released(f, viaCb) && f < |s.fibers|
    ensures Inspected(s, DealWith(s, w, f, viaCb), w, f, viaCb) && SameRest(s, DealWith(s, w, f, viaCb))
  {
    assert s.fibers == s.fibers[f := s.fibers[f]];
    assert s.queue == s.queue + [];
  }

  lemma InspectWake(s: State, t: State, w: nat, f: FiberId, viaCb: bool)
    requires WakeOk(s) && w < |s.workers| && s.workers[w].pc == Released(f, viaCb) && f < |s.fibers|
    requires Inspected(s, t, w, f, viaCb)
    ensures WakeOk(t)
  {
    HolderSees(s, w, f);
    if Ended(s.fibers[f].state) {
      LettingGo(s, t, w, s.workers[w].(pc := Loop), f, if viaCb then Fiber(INIT, Body) else s.fibers[f], []);
    } else {
      KeepHolding(s, t, w, if s.fibers[f].state == READY then Requeue(f, viaCb) else MarkHold(f, viaCb), f);
    }
  }

  lemma WriteHoldWake(s: State, w: nat)
    requires WakeOk(s) && WorkerEnabled(s, w, WriteHold)
    ensures WakeOk(WorkerApply(s, w, WriteHold))
  {
    var f := s.workers[w].pc.fiber;
    HolderSees(s, w, f);
    assert s.queue == s.queue + [];
    LettingGo(s, WorkerApply(s, w, WriteHold), w, LetGo(s.workers[w], s.workers[w].pc.viaCb), f,
              s.fibers[f].(state := HOLD), []);
  }

  lemma RequeueShape(s: State, w: nat)
    requires WorkerEnabled(s, w, RequeueReady)
    ensures var t, f := WorkerApply(s, w, RequeueReady), s.workers[w].pc.fiber;
            && SameRest(s.(queue := t.queue), t) && t.queue == s.queue + [Entry(RunFiber(f), -1)]
            && (s.fibers[f].state != EXEC ==>
                  LetsGo(s, t, w, LetGo(s.workers[w], s.workers[w].pc.viaCb), f, s.fibers[f], [Entry(RunFiber(f), -1)]))
  {
    var f := s.workers[w].pc.fiber;
    assert s.fibers == s.fibers[f := s.fibers[f]];
  }

  lemma RequeueReadyWake(s: State, w: nat)
    requires WakeOk(s) && WorkerEnabled(s, w, RequeueReady)
    ensures WakeOk(WorkerApply(s, w, RequeueReady))
  {
    var f := s.workers[w].pc.fiber;
    var e := Entry(RunFiber(f), -1);
    HolderSees(s, w, f);
    RequeueShape(s, w);
    forall g ensures Given([e], g) == if g == f then 1 else 0 { GivenOne(e, g); }
    LettingGo(s, WorkerApply(s, w, RequeueReady), w, LetGo(s.workers[w], s.workers[w].pc.viaCb), f, s.fibers[f], [e]);
  }

  lemma WorkerKeepsWake(s: State, w: nat, st: WorkerStep)
    requires WakeOk(s) && WorkerEnabled(s, w, st)
    ensures WakeOk(WorkerApply(s, w, st))
  {
    match st
    case Take => TakeWake(s, w);
    case GoIdle => GoIdleWake(s, w);
    case Exit => ExitWake(s, w);
    case SwapIn => SwapInWake(s, w);
    case DropEnded => DropEndedWake(s, w);
    case StartCallback =>
      StartCallbackShape(s, w);
      CallbackWake(s, WorkerApply(s, w, st), w,
                   if s.workers[w].cbFiber.Some? then s.workers[w].cbFiber.value else |s.fibers|);
    case SwapOut => SwapOutWake(s, w);
    case Decrement => DecrementWake(s, w);
    case Inspect =>
      var f, viaCb := s.workers[w].pc.fiber, s.workers[w].pc.viaCb;
      InspectShape(s, w, f, viaCb);
      InspectWake(s, DealWith(s, w, f, viaCb), w, f, viaCb);
    case WriteHold => WriteHoldWake(s, w);
    case RequeueReady => RequeueReadyWake(s, w);
  }

  // ----------------------------------------------------------------------------------------------------------
  // Steps of the running fiber

  /** All steps of a fiber but its last ones and YieldToReady: no state changes, and the list grows as PutOn says. */
  lemma FiberStepShape(s: State, f: FiberId, a: Activity, st: FiberStep)
    requires FiberCan(s, f, a, st) && !st.YieldToReady? && !st.Finish?
    ensures var t := FiberDo(s, f, a, st);
            && t.workers == s.workers && SameStates(s, t) && t.queue == s.queue + PutOnByFiber(s, f, a, st)
  {
    assert s.queue == s.queue + [];
  }

  lemma OwnStateFiber(s: State, t: State, f: FiberId, nf: Fiber, g: FiberId)
    requires FiberOk(s, g) && Held(s, f) == 1 && f < |s.fibers| && s.fibers[f].state == EXEC
    requires t.workers == s.workers && t.queue == s.queue && t.fibers == s.fibers[f := nf]
    requires nf.state == READY || Ended(nf.state)
    ensures FiberOk(t, g) <==> (g == f && nf.state == READY ==> Handed(s, f) == 0)
    ensures Handed(t, g) == Handed(s, g) && Cached(t, g) == Cached(s, g)
  {
  }

  /** The running fiber f sets its own state: READY, TERM or EXCEPT. */
  lemma OwnStateExact(s: State, t: State, w: nat, f: FiberId, nf: Fiber)
    requires WakeOk(s) && Executes(s, w) && s.workers[w].pc.fiber == f
    requires t.workers == s.workers && t.queue == s.queue && t.fibers == s.fibers[f := nf]
    requires nf.state == READY || Ended(nf.state)
    ensures WakeOk(t) <==> (nf.state == READY || s.workers[w].pc.viaCb ==> Handed(s, f) == 0)
  {
    HolderSees(s, w, f);
    assert s.workers == s.workers[w := s.workers[w]];
    forall g: FiberId
      ensures FiberOk(t, g) <==> (g == f && nf.state == READY ==> Handed(s, f) == 0)
      ensures Handed(t, g) == Handed(s, g) && Cached(t, g) == Cached(s, g)
    {
      assert FiberOk(s, g);
      OwnStateFiber(s, t, f, nf, g);
    }
    if nf.state == READY || s.workers[w].pc.viaCb ==> Handed(s, f) == 0 {
      WorkersFrame(s, t, w, s.workers[w], f);
    }
    if WakeOk(t) {
      assert FiberOk(t, f) && WorkerOk(t, t.workers[w]);
    }
  }

  lemma OwnStepExact(s: State, w: nat, st: FiberStep)
    requires WakeOk(s) && FiberEnabled(s, w, st) && (st.YieldToReady? || st.Finish?)
    ensures WakeOk(FiberApply(s, w, st)) <==> Disciplined(s, Act(w, st))
  {
    var f := s.workers[w].pc.fiber;
    NothingPutOn(s);
    OwnStateExact(s, FiberApply(s, w, st), w, f,
                  Fiber(if st.YieldToReady? then READY else if st.threw then EXCEPT else TERM, Body));
  }

  lemma FiberStepExact(s: State, w: nat, st: FiberStep)
    requires WakeOk(s) && FiberEnabled(s, w, st)
    ensures WakeOk(FiberApply(s, w, st)) <==> Disciplined(s, Act(w, st))
  {
    var f := s.workers[w].pc.fiber;
    var a := s.fibers[f].act;
    var t := FiberDo(s, f, a, st);
    if st.YieldToReady? || st.Finish? {
      OwnStepExact(s, w, st);
    } else {
      FiberStepShape(s, f, a, st);
      HandOverExact(s, t, PutOnByFiber(s, f, a, st));
    }
  }

  lemma NothingPutOn(s: State)
    ensures MayHandAll(s, [])
  {
  }

  // ----------------------------------------------------------------------------------------------------------
  // Steps of any thread

  lemma OpenStepShape(s: State, st: OpenStep)
    requires OpenEnabled(s, st) && !st.Spawn? && !st.NewFiber?
    ensures var t := OpenApply(s, st);
            && t.workers == s.workers && SameStates(s, t) && t.queue == s.queue + PutOnByOthers(s, st)
  {
    assert s.queue == s.queue + [];
  }

  lemma NewFiberFiber(s: State, t: State, g: FiberId)
    requires FiberOk(s, g) && t.fibers == s.fibers + [Fiber(INIT, Body)] && t.workers == s.workers && t.queue == s.queue
    ensures FiberOk(t, g) && Handed(t, g) == Handed(s, g) && Cached(t, g) == Cached(s, g)
  {
  }

  lemma NewFiberWake(s: State, t: State)
    requires WakeOk(s) && t.fibers == s.fibers + [Fiber(INIT, Body)] && t.workers == s.workers && t.queue == s.queue
    ensures WakeOk(t) && MayHand(t, |s.fibers|)
  {
    forall g: FiberId ensures FiberOk(t, g) && Handed(t, g) == Handed(s, g) && Cached(t, g) == Cached(s, g) {
      assert FiberOk(s, g);
      NewFiberFiber(s, t, g);
    }
    forall i | 0 <= i < |t.workers| ensures WorkerOk(t, t.workers[i]) {
      assert WorkerOk(s, s.workers[i]);
      WorkerFrame(s, t, s.workers[i]);
    }
    assert FiberOk(s, |s.fibers|);
  }

  lemma SpawnWake(s: State, t: State, thread: int)
    requires WakeOk(s) && t.fibers == s.fibers + [Fiber(INIT, Body)] && t.workers == s.workers
    requires t.queue == s.queue + [Entry(RunFiber(|s.fibers|), thread)]
    ensures WakeOk(t)
  {
    var m := t.(queue := s.queue);
    var e := Entry(RunFiber(|s.fibers|), thread);
    NewFiberWake(s, m);
    forall g ensures Given([e], g) == if g == |s.fibers| then 1 else 0 { GivenOne(e, g); }
    HandOverKeeps(m, t, [e]);
  }

  lemma OpenStepExact(s: State, st: OpenStep)
    requires WakeOk(s) && OpenEnabled(s, st)
    ensures WakeOk(OpenApply(s, st)) <==> Disciplined(s, Open(st))
  {
    var t := OpenApply(s, st);
    match st
    case Spawn(thread) => NothingPutOn(s); SpawnWake(s, t, thread);
    case NewFiber => NothingPutOn(s); NewFiberWake(s, t);
    case _ => PutOnExact(s, st);
  }

  lemma PutOnExact(s: State, st: OpenStep)
    requires WakeOk(s) && OpenEnabled(s, st) && !st.Spawn? && !st.NewFiber?
    ensures WakeOk(OpenApply(s, st)) <==> MayHandAll(s, PutOnByOthers(s, st))
  {
    OpenStepShape(s, st);
    HandOverExact(s, OpenApply(s, st), PutOnByOthers(s, st));
  }

  // ----------------------------------------------------------------------------------------------------------
  // Steps of the idle fiber

  lemma FlushWake(s: State, t: State, w: nat)
    requires WakeOk(s) && w < |s.workers| && s.workers[w].pc.Idling? && t.fibers == s.fibers
    requires OneWorker(s, t, w, s.workers[w].(pc := Idling([])))
    requires t.queue == s.queue + Entries(AsCallbacks(s.workers[w].pc.hand))
    ensures WakeOk(t) && MayHandAll(s, Entries(AsCallbacks(s.workers[w].pc.hand)))
  {
    var es := Entries(AsCallbacks(s.workers[w].pc.hand));
    forall g ensures Given(es, g) == 0 { CallbacksGiveNothing(s.workers[w].pc.hand, g); }
    EmptyHandedStep(s, t, w, s.workers[w].(pc := Idling([])), es);
  }

  lemma IdleStepExact(s: State, w: nat, st: IdleStep)
    requires WakeOk(s) && IdleEnabled(s, w, st)
    ensures WakeOk(IdleApply(s, w, st)) <==> Disciplined(s, Idle(w, st))
  {
    var t := IdleApply(s, w, st);
    match st
    case Flush => FlushWake(s, t, w);
    case DispatchFd(fd, rep, ok) => HandOverExact(s, t, Entries(Dispatch(s.io, fd, rep, ok).1));
    case _ => NothingPutOn(s); IdleMoveWake(s, w, st);
  }

  lemma IdleMoveWake(s: State, w: nat, st: IdleStep)
    requires WakeOk(s) && IdleEnabled(s, w, st) && (st.Expire? || st.LeaveIdle? || st.EndIdle?)
    ensures WakeOk(IdleApply(s, w, st))
  {
    var t := IdleApply(s, w, st);
    PlainMove(s, t, w, t.workers[w]);
  }

  // ----------------------------------------------------------------------------------------------------------
  // Runs

  /** The discipline is exactly what keeps the invariant: a step keeps it if and only if the step is disciplined. */
  lemma StepKeepsInv(s: State, st: Step)
    requires Inv(s) && Enabled(s, st)
    ensures Inv(Apply(s, st)) <==> Disciplined(s, st)
  {
    StepKeepsBooks(s, st);
    match st
    case Work(w, a) => NothingPutOn(s); WorkerKeepsWake(s, w, a);
    case Act(w, a) => FiberStepExact(s, w, a);
    case Open(a) => OpenStepExact(s, a);
    case Idle(w, a) => IdleStepExact(s, w, a);
  }

  lemma {:induction false} NothingHeld(ws: seq<Worker>, f: FiberId)
    requires forall i :: 0 <= i < |ws| ==> ws[i] == Worker(Loop, None, false)
    ensures Sum(ws, InHandOf)[f] == 0 && Sum(ws, HeldBy)[f] == 0 && Sum(ws, CachedBy)[f] == 0
  {
    if ws != [] {
      NothingHeld(ws[..|ws| - 1], f);
    }
  }

  lemma InitialInv(s: State)
    requires Initial(s)
    ensures Inv(s)
  {
    InitialBooks(s);
    forall f: FiberId ensures FiberOk(s, f) {
      NothingHeld(s.workers, f);
    }
  }

  lemma InvIsSafe(s: State)
    requires Inv(s)
    ensures Safe(s)
  {
    forall i | 0 <= i < |s.workers| && WorkerEnabled(s, i, SwapIn)
      ensures s.fibers[s.workers[i].pc.entry.task.fiber].state != EXEC
    {
      PickedFiber(s, i);
    }
    forall i | 0 <= i < |s.workers| && WorkerEnabled(s, i, StartCallback) && s.workers[i].cbFiber.Some?
      ensures s.fibers[s.workers[i].cbFiber.value].state == INIT
    {
      CachedIsIdle(s, i);
    }
    forall i, j, f | && 0 <= i < |s.workers| && 0 <= j < |s.workers|
                     && f in HeldBy(s.workers[i]) && f in HeldBy(s.workers[j])
      ensures i == j
    {
      assert FiberOk(s, f);
      if i != j {
        SumPair(s.workers, i, j, HeldBy);
        assert false;
      }
    }
  }

  ghost function InvAt(ss: seq<State>): nat -> bool {
    (i: nat) => i < |ss| && Inv(ss[i])
  }

  ghost function DisciplinedAt(ss: seq<State>, steps: seq<Step>): nat -> bool {
    (i: nat) => i < |steps| && i < |ss| && Enabled(ss[i], steps[i]) && Disciplined(ss[i], steps[i])
  }

  /** The first n steps of the run are disciplined. */
  ghost predicate AllDisciplined(ss: seq<State>, steps: seq<Step>, n: nat) {
    Always(DisciplinedAt(ss, steps), n)
  }

  /** The invariant holds in the first n + 1 states. */
  ghost predicate AllInv(ss: seq<State>, n: nat) {
    Always(InvAt(ss), n + 1)
  }

  lemma DisciplineCarries(ss: seq<State>, steps: seq<Step>, i: nat)
    requires Run(ss, steps) && i < |steps|
    ensures InvAt(ss)(i) ==> (InvAt(ss)(i + 1) <==> DisciplinedAt(ss, steps)(i))
  {
    RunStep(ss, steps, i);
    if Inv(ss[i]) {
      StepKeepsInv(ss[i], steps[i]);
    }
  }

  /** Over whole runs, the invariant holds all along exactly when every step is disciplined. */
  lemma DisciplineIsExact(ss: seq<State>, steps: seq<Step>, n: nat)
    requires Run(ss, steps) && n <= |steps|
    ensures AllInv(ss, n) <==> AllDisciplined(ss, steps, n)
  {
    InitialInv(ss[0]);
    var p, q := InvAt(ss), DisciplinedAt(ss, steps);
    forall i | 0 <= i < n ensures p(i) ==> (p(i + 1) <==> q(i)) {
      DisciplineCarries(ss, steps, i);
    }
    AlwaysExact(p, q, n);
  }

  lemma InvCounts(s: State)
    requires Inv(s)
    ensures forall f :: Held(s, f) <= 1 && (Handed(s, f) <= 1 || Retired(s, f))
  {
    forall f: FiberId ensures Held(s, f) <= 1 && (Handed(s, f) <= 1 || Retired(s, f)) {
      assert FiberOk(s, f);
    }
  }

  /** In every interleaving, as long as each hand-over is one that may be made: no fiber is executed by two threads at
      once, the assertions in swapIn and in reset never fail, and no fiber has two hand-overs outstanding. */
  lemma DisciplinedRunIsSafe(ss: seq<State>, steps: seq<Step>, n: nat)
    requires Run(ss, steps) && n <= |steps| && AllDisciplined(ss, steps, n)
    ensures Inv(ss[n]) && Safe(ss[n])
    ensures forall f :: Held(ss[n], f) <= 1 && (Handed(ss[n], f) <= 1 || Retired(ss[n], f))
  {
    DisciplineIsExact(ss, steps, n);
    AlwaysAt(InvAt(ss), n + 1, n);
    InvIsSafe(ss[n]);
    InvCounts(ss[n]);
  }
}
