/** What the steps of the runtime do for those who ask for them: where a handed-over fiber runs next, how a fiber
    ends, how callbacks and timers run, how a hooked call begins and ends, and how a worker stops. */
module RuntimeSteps {
  import opened Folds
  import opened Tasks
  import opened Runtime
  import opened HandOvers
  import opened TokenMoves
  import opened LibraryWakeups
  import opened RuntimeRuns

  // ----------------------------------------------------------------------------------------------------------
  // Where a fiber runs

  /** Every worker has only entries in hand that it may run. */
  ghost predicate OwnEntries(s: State) {
    forall w :: 0 <= w < |s.workers| && s.workers[w].pc.Picked? ==>
      s.workers[w].pc.entry.thread == -1 || s.workers[w].pc.entry.thread == w
  }

  /** The entry e is on the list, or in the hand of a worker. */
  ghost predicate Pending(s: State, e: Entry) {
    e in s.queue || exists w :: 0 <= w < |s.workers| && s.workers[w].pc == Picked(e)
  }

  lemma WorkersStay(s: State, st: Step, v: nat)
    requires Enabled(s, st) && v < |s.workers| && !(st.Work? && st.w == v) && !(st.Idle? && st.w == v)
    ensures v < |Apply(s, st).workers| == |s.workers| && Apply(s, st).workers[v] == s.workers[v]
  {
    match st
    case Work(w, a) => OthersAtWork(s, w, a, v);
    case Act(w, a) => FiberHasNoWorkers(s, s.workers[w].pc.fiber, s.fibers[s.workers[w].pc.fiber].act, a);
    case Open(a) =>
    case Idle(w, a) =>
  }

  lemma OthersAtWork(s: State, w: nat, st: WorkerStep, v: nat)
    requires WorkerEnabled(s, w, st) && v < |s.workers| && v != w
    ensures v < |WorkerApply(s, w, st).workers| == |s.workers| && WorkerApply(s, w, st).workers[v] == s.workers[v]
  {
  }

  lemma FiberHasNoWorkers(s: State, f: FiberId, a: Activity, st: FiberStep)
    requires FiberCan(s, f, a, st)
    ensures FiberDo(s, f, a, st).workers == s.workers
  {
  }

  /** A worker gets an entry in hand only by taking it. */
  lemma PicksByTake(s: State, w: nat, st: WorkerStep)
    requires WorkerEnabled(s, w, st) && WorkerApply(s, w, st).workers[w].pc.Picked?
    ensures st.Take?
  {
  }

  lemma TakesOwn(s: State, w: nat)
    requires WorkerEnabled(s, w, Take)
    ensures var e := WorkerApply(s, w, Take).workers[w].pc.entry;
            WorkerApply(s, w, Take).workers[w].pc.Picked? && (e.thread == -1 || e.thread == w)
  {
    assert Eligible(s.queue[PickIndex(s, w)], w, s.fibers);
  }

  lemma StepKeepsOwn(s: State, st: Step)
    requires OwnEntries(s) && Enabled(s, st)
    ensures OwnEntries(Apply(s, st))
  {
    var t := Apply(s, st);
    forall v | 0 <= v < |t.workers| && t.workers[v].pc.Picked?
      ensures t.workers[v].pc.entry.thread == -1 || t.workers[v].pc.entry.thread == v
    {
      SameWorkers(s, st);
      if st.Work? && st.w == v {
        PicksByTake(s, v, st.work);
        TakesOwn(s, v);
      } else if st.Idle? && st.w == v {
        IdleHasNoEntry(s, v, st.idling);
      } else {
        WorkersStay(s, st, v);
      }
    }
  }

  lemma SameWorkers(s: State, st: Step)
    requires Enabled(s, st)
    ensures |Apply(s, st).workers| == |s.workers|
  {
    if st.Act? {
      FiberHasNoWorkers(s, s.workers[st.w].pc.fiber, s.fibers[s.workers[st.w].pc.fiber].act, st.act);
    }
  }

  lemma IdleHasNoEntry(s: State, w: nat, st: IdleStep)
    requires IdleEnabled(s, w, st)
    ensures w < |IdleApply(s, w, st).workers| && !IdleApply(s, w, st).workers[w].pc.Picked?
  {
  }

  lemma {:induction false} EveryRunKeepsOwn(ss: seq<State>, steps: seq<Step>, n: nat)
    requires Run(ss, steps) && n <= |steps|
    ensures OwnEntries(ss[n])
  {
    if n > 0 {
      EveryRunKeepsOwn(ss, steps, n - 1);
      RunStep(ss, steps, n - 1);
      StepKeepsOwn(ss[n - 1], steps[n - 1]);
    }
  }

  /** An entry of a fiber is pending until the fiber is swapped in or dropped. */
  lemma StaysPending(s: State, st: Step, e: Entry)
    requires Enabled(s, st) && e.task.RunFiber? && Pending(s, e) && !Uses(s, st, e.task.fiber)
    ensures Pending(Apply(s, st), e)
  {
    var t := Apply(s, st);
    SameWorkers(s, st);
    if e in s.queue {
      EntryLeavesOnlyByTake(s, st, e);
    } else {
      var v :| 0 <= v < |s.workers| && s.workers[v].pc == Picked(e);
      HandKept(s, st, v, e);
      assert t.workers[v].pc == Picked(e);
    }
  }

  lemma HandKept(s: State, st: Step, v: nat, e: Entry)
    requires Enabled(s, st) && e.task.RunFiber? && v < |s.workers| && s.workers[v].pc == Picked(e)
    requires !Uses(s, st, e.task.fiber)
    ensures v < |Apply(s, st).workers| && Apply(s, st).workers[v].pc == Picked(e)
  {
    if !(st.Work? && st.w == v) {
      WorkersStay(s, st, v);
    }
  }

  /** With one hand-over at a time, the worker that swaps the fiber in has the pending entry in hand. */
  lemma PendingIsInHand(s: State, w: nat, e: Entry)
    requires w < |s.workers| && s.workers[w].pc.Picked? && s.workers[w].pc.entry.task == e.task && e.task.RunFiber?
    requires Pending(s, e) && Handed(s, e.task.fiber) <= 1
    ensures s.workers[w].pc.entry == e
  {
    if e in s.queue {
      var i :| 0 <= i < |s.queue| && s.queue[i] == e;
      ListAndHand(s, i, w, e.task.fiber);
      assert false;
    } else {
      var v :| 0 <= v < |s.workers| && s.workers[v].pc == Picked(e);
      if v != w {
        TwoHands(s, v, w, e.task.fiber);
        assert false;
      }
    }
  }

  lemma ListAndHand(s: State, i: nat, w: nat, f: FiberId)
    requires i < |s.queue| && s.queue[i].task == RunFiber(f)
    requires w < |s.workers| && s.workers[w].pc.Picked? && s.workers[w].pc.entry.task == RunFiber(f)
    ensures Handed(s, f) >= 2
  {
    SumMember(s.workers, w, InHandOf);
    SumMember(s.queue, i, HandTok);
    assert InHandOf(s.workers[w])[f] == 1 && HandTok(s.queue[i])[f] == 1;
  }

  lemma TwoHands(s: State, v: nat, w: nat, f: FiberId)
    requires v < |s.workers| && s.workers[v].pc.Picked? && s.workers[v].pc.entry.task == RunFiber(f)
    requires w < |s.workers| && s.workers[w].pc.Picked? && s.workers[w].pc.entry.task == RunFiber(f) && v != w
    ensures Handed(s, f) >= 2
  {
    SumPair(s.workers, v, w, InHandOf);
    assert (InHandOf(s.workers[v]) + InHandOf(s.workers[w]))[f] == 2;
  }

  lemma {:induction false} PendingUntilUsed(ss: seq<State>, steps: seq<Step>, i: nat, n: nat, e: Entry)
    requires Run(ss, steps) && i <= n <= |steps| && e.task.RunFiber? && e in ss[i].queue
    requires forall j {:trigger steps[j]} :: i <= j < n ==>
               Enabled(ss[j], steps[j]) && !Uses(ss[j], steps[j], e.task.fiber)
    ensures Pending(ss[n], e)
  {
    if i < n {
      PendingUntilUsed(ss, steps, i, n - 1, e);
      RunStep(ss, steps, n - 1);
      StaysPending(ss[n - 1], steps[n - 1], e);
    }
  }

  /** In library runs a fiber that is handed over for a thread runs next on that thread: whatever happens in
      between, the first worker that swaps it in (or finds it ended) is the one its entry names. */
  lemma HandedRunsThere(ss: seq<State>, steps: seq<Step>, i: nat, n: nat, e: Entry)
    requires Run(ss, steps) && AllByLibrary(steps) && i <= n < |steps| && e.task.RunFiber? && e in ss[i].queue
    requires forall j {:trigger steps[j]} :: i <= j < n ==>
               Enabled(ss[j], steps[j]) && !Uses(ss[j], steps[j], e.task.fiber)
    requires Enabled(ss[n], steps[n]) && Uses(ss[n], steps[n], e.task.fiber)
    ensures e.thread == -1 || steps[n].w == e.thread
  {
    PendingUntilUsed(ss, steps, i, n, e);
    EveryRunKeepsOwn(ss, steps, n);
    LibraryRunIsSafe(ss, steps, n);
    HandedIsBounded(ss[n], e.task.fiber);
    PendingIsInHand(ss[n], steps[n].w, e);
  }

  /** switchTo(thread), and a fiber spawned for a thread, hand over the fiber for that thread. */
  lemma HandsToThread(s: State, w: nat, thread: int)
    ensures FiberEnabled(s, w, SwitchTo(thread)) ==>
              var t := FiberApply(s, w, SwitchTo(thread));
              && t.queue == s.queue + [Entry(RunFiber(s.workers[w].pc.fiber), thread)]
              && t.fibers[s.workers[w].pc.fiber].act == Parked
    ensures var t := OpenApply(s, Spawn(thread));
            && t.queue == s.queue + [Entry(RunFiber(|s.fibers|), thread)]
            && t.fibers == s.fibers + [Fiber(INIT, Body)]
    ensures forall id :: OpenApply(s, Submit(id, thread)).queue == s.queue + [Entry(RunCallback(UserCode(id)), thread)]
    ensures forall f: FiberId :: f < |s.fibers| ==>
              OpenApply(s, RawSchedule(f, thread)) == Push(s, Entry(RunFiber(f), thread))
  {
  }

  /** A fiber that yielded READY is put back for any thread, and its worker is free again. */
  lemma RequeuedForAny(s: State, w: nat)
    requires WorkerEnabled(s, w, RequeueReady)
    ensures var t := WorkerApply(s, w, RequeueReady);
            && t.queue == s.queue + [Entry(RunFiber(s.workers[w].pc.fiber), -1)] && t.fibers == s.fibers
            && w < |t.workers| && t.workers[w].pc == Loop
            && t.workers[w].cbFiber == (if s.workers[w].pc.viaCb then None else s.workers[w].cbFiber)
  {
  }

  // ----------------------------------------------------------------------------------------------------------
  // Callbacks, timers and ends

  /** A callback entry is run as it is: the worker's fiber, kept or new, executes exactly that callback. */
  lemma CallbackRuns(s: State, w: nat)
    requires WorkerEnabled(s, w, StartCallback)
    ensures var t := WorkerApply(s, w, StartCallback);
            && w < |t.workers| && t.workers[w].pc.Running? && t.workers[w].pc.viaCb
            && t.workers[w].cbFiber == Some(t.workers[w].pc.fiber) && t.workers[w].pc.fiber < |t.fibers|
            && t.fibers[t.workers[w].pc.fiber] == Fiber(EXEC, Entering(s.workers[w].pc.entry.task.cb))
            && (s.workers[w].cbFiber.Some? ==> t.workers[w].cbFiber == s.workers[w].cbFiber)
  {
  }

  /** An expired timer's callback joins the others in hand and is gone from the timers unless it recurs; the hand
      goes on the list as it is, in order, for any thread. */
  lemma TimersRun(s: State, w: nat, k: nat)
    requires IdleEnabled(s, w, Expire(k))
    ensures var t, p := IdleApply(s, w, Expire(k)), s.timers[k].value;
            && w < |t.workers| && t.workers[w].pc == Idling(s.workers[w].pc.hand + [p.cb]) && IdleEnabled(t, w, Flush)
            && |t.timers| == |s.timers| && t.timers[k] == (if p.recurring then s.timers[k] else None)
            && (forall j :: 0 <= j < |s.timers| && j != k ==> t.timers[j] == s.timers[j])
            && var u := IdleApply(t, w, Flush);
               && u.workers[w].pc == Idling([]) && |u.queue| == |s.queue| + |s.workers[w].pc.hand| + 1
               && u.queue[..|s.queue|] == s.queue && u.queue[|u.queue| - 1] == Entry(RunCallback(p.cb), -1)
               && (forall j :: 0 <= j < |s.workers[w].pc.hand| ==>
                     u.queue[|s.queue| + j] == Entry(RunCallback(s.workers[w].pc.hand[j]), -1))
  {
  }

  /** User timers come and go one at a time. */
  lemma UserTimers(s: State, id: nat, recurring: bool, k: nat)
    ensures OpenApply(s, AddUserTimer(id, recurring)).timers ==
            s.timers + [Some(PendingTimer(UserCode(id), recurring))]
    ensures OpenEnabled(s, CancelUserTimer(k)) ==>
              var t := OpenApply(s, CancelUserTimer(k));
              |t.timers| == |s.timers| && forall j :: 0 <= j < |s.timers| ==>
                t.timers[j] == if j == k then None else s.timers[j]
  {
  }

  /** A fiber ends in EXCEPT exactly when its function threw. */
  lemma FiberEnds(s: State, w: nat, threw: bool)
    requires FiberEnabled(s, w, Finish(threw))
    ensures var f, t := s.workers[w].pc.fiber, FiberApply(s, w, Finish(threw));
            && t.fibers == s.fibers[f := t.fibers[f]]
            && (t.fibers[f].state == EXCEPT <==> threw) && (t.fibers[f].state == TERM <==> !threw)
  {
  }

  // ----------------------------------------------------------------------------------------------------------
  // Hooked calls

  /** A call begins with its own timer_info, reachable and not cancelled. */
  lemma CallBegins(s: State, f: FiberId)
    requires f < |s.fibers| && s.fibers[f].act == Body
    ensures var t := FiberDo(s, f, Body, IoBegin);
            && t.fibers == s.fibers[f := s.fibers[f].(act := IoCall(|s.infos|))]
            && |t.infos| == |s.infos| + 1 && t.infos[..|s.infos|] == s.infos
            && t.infos[|s.infos|].alive && !t.infos[|s.infos|].cancelled
  {
  }

  /** A call that returns, or that could not register, leaves its timer_info unreachable, and its timer is gone. */
  lemma CallEnds(s: State, f: FiberId)
    requires f < |s.fibers| && (s.fibers[f].act.IoCall? || s.fibers[f].act.IoRefused?)
    requires s.fibers[f].act.info < |s.infos|
    ensures var a := s.fibers[f].act;
            var t := FiberDo(s, f, a, if a.IoCall? then IoReturn else IoGiveUp);
            && t.fibers == s.fibers[f := s.fibers[f].(act := Body)] && t.io == s.io && t.queue == s.queue
            && |t.infos| == |s.infos| && !t.infos[a.info].alive
            && (forall i :: 0 <= i < |s.infos| && i != a.info ==> t.infos[i] == s.infos[i])
            && |t.timers| == |s.timers|
            && (forall k :: 0 <= k < |s.timers| ==>
                  t.timers[k] == if a.IoRefused? && a.timer == Some(k) then None else s.timers[k])
  {
  }

  // ----------------------------------------------------------------------------------------------------------
  // Stopping

  /** A worker whose idle fiber has ended, or that has exited, was asked to. */
  ghost predicate AskedToStop(s: State) {
    forall w :: 0 <= w < |s.workers| && (s.workers[w].idleEnded || s.workers[w].pc.Exited?) ==> s.stopRequested
  }

  lemma StepKeepsAsked(s: State, st: Step)
    requires AskedToStop(s) && Enabled(s, st)
    ensures AskedToStop(Apply(s, st)) && (s.stopRequested ==> Apply(s, st).stopRequested)
  {
    var t := Apply(s, st);
    StopStays(s, st);
    SameWorkers(s, st);
    forall v | 0 <= v < |t.workers| && (t.workers[v].idleEnded || t.workers[v].pc.Exited?) ensures t.stopRequested {
      if (st.Work? || st.Idle?) && st.w == v {
        EndsOnlyWhenStopping(s, st);
      } else {
        WorkersStay(s, st, v);
      }
    }
  }

  lemma StopStays(s: State, st: Step)
    requires Enabled(s, st)
    ensures s.stopRequested ==> Apply(s, st).stopRequested
  {
    if st.Act? {
      FiberKeepsStop(s, s.workers[st.w].pc.fiber, s.fibers[s.workers[st.w].pc.fiber].act, st.act);
    }
  }

  lemma FiberKeepsStop(s: State, f: FiberId, a: Activity, st: FiberStep)
    requires FiberCan(s, f, a, st)
    ensures FiberDo(s, f, a, st).stopRequested == s.stopRequested
  {
  }

  lemma EndsOnlyWhenStopping(s: State, st: Step)
    requires Enabled(s, st) && (st.Work? || st.Idle?)
    ensures var t, w := Apply(s, st), st.w;
            w < |t.workers| && ((t.workers[w].idleEnded || t.workers[w].pc.Exited?) ==>
              s.workers[w].idleEnded || s.stopRequested)
  {
    match st
    case Work(w, a) => WorkEndsOnly(s, w, a);
    case Idle(w, a) => IdleEndsOnly(s, w, a);
  }

  lemma WorkEndsOnly(s: State, w: nat, st: WorkerStep)
    requires WorkerEnabled(s, w, st)
    ensures var t := WorkerApply(s, w, st);
            w < |t.workers| && (t.workers[w].idleEnded || t.workers[w].pc.Exited? ==> s.workers[w].idleEnded)
  {
  }

  lemma IdleEndsOnly(s: State, w: nat, st: IdleStep)
    requires IdleEnabled(s, w, st)
    ensures var t := IdleApply(s, w, st);
            w < |t.workers| &&
            (t.workers[w].idleEnded || t.workers[w].pc.Exited? ==> s.workers[w].idleEnded || s.stopRequested)
  {
  }

  lemma {:induction false} WorkersStopWhenAsked(ss: seq<State>, steps: seq<Step>, n: nat)
    requires Run(ss, steps) && n <= |steps|
    ensures AskedToStop(ss[n])
  {
    if n > 0 {
      WorkersStopWhenAsked(ss, steps, n - 1);
      RunStep(ss, steps, n - 1);
      StepKeepsAsked(ss[n - 1], steps[n - 1]);
    }
  }

  /** An idle worker that finds stopping() true, and no entry it may run, exits in two steps. */
  lemma IdleWorkerExits(s: State, w: nat)
    requires IdleEmpty(s, w) && Stopping(s)
    ensures IdleEnabled(s, w, EndIdle)
    ensures var t := IdleApply(s, w, EndIdle);
            WorkerEnabled(t, w, Exit) && WorkerApply(t, w, Exit).workers[w].pc == Exited
  {
  }

  /** After a request to stop, stopping() depends on the list and the active count alone. */
  lemma StopRequested(s: State)
    ensures var t := OpenApply(s, RequestStop);
            (Stopping(t) <==> s.queue == [] && s.active == 0) && t == s.(stopRequested := t.stopRequested)
  {
  }
}
