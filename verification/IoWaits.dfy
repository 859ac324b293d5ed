/** The life of a hooked I/O call (do_io in sylar/hook.cc): what it arms and registers, that it stays registered
    until it has been woken, which registration its timeout cancels, and what it does when it comes back. */
module IoWaits {
  import opened Folds
  import opened Tasks
  import opened FdTable
  import opened FdMeaning
  import opened Runtime
  import opened RuntimeBooks
  import opened HandOvers
  import opened WakeTokens
  import opened WakeSafety
  import opened TokenMoves
  import opened LibraryWakeups

  // ----------------------------------------------------------------------------------------------------------
  // Going to wait

  /** A call that finds its event free and epoll in agreement waits afterwards: it is the waiter of that event, and its
      timeout, if it has one, is pending and names this event and this call. */
  lemma WaitBegins(s: State, f: FiberId, timed: bool, fd: nat, e: Event)
    requires f < |s.fibers| && s.fibers[f].act.IoCall? && TableOk(s.io) && Agrees(s.io) && Waiter(s.io, fd, e) == None
    ensures FiberCan(s, f, s.fibers[f].act, IoArm(timed, fd, e))
    ensures var s1 := FiberDo(s, f, s.fibers[f].act, IoArm(timed, fd, e));
            && f < |s1.fibers| && FiberCan(s1, f, s1.fibers[f].act, IoRegister(true))
            && var s2 := FiberDo(s1, f, s1.fibers[f].act, IoRegister(true));
               var info, timer := s.fibers[f].act.info, if timed then Some(|s.timers|) else None;
               && f < |s2.fibers| && s2.fibers[f] == s.fibers[f].(act := IoParked(info, timer, fd, e))
               && Waiter(s2.io, fd, e) == Some(RunFiber(f)) && SameElsewhere(s.io, s2.io, fd)
               && Waiter(s2.io, fd, Other(e)) == Waiter(s.io, fd, Other(e)) && Watches(s2.io, fd, e)
               && s2.timers == s.timers + (if timed then [Some(PendingTimer(IoTimeout(fd, e, info), false))] else [])
               && s2.queue == s.queue && s2.infos == s.infos
  {
    AddMeans(s.io, fd, e, RunFiber(f), true);
    assert s.timers == s.timers + [];
  }

  /** addEvent with a callback registers that callback. */
  lemma CallbackRegistered(s: State, fd: nat, e: Event, id: nat)
    requires TableOk(s.io) && Agrees(s.io) && Waiter(s.io, fd, e) == None
    ensures OpenEnabled(s, AddCallbackEvent(fd, e, id, true))
    ensures var t := OpenApply(s, AddCallbackEvent(fd, e, id, true));
            && Waiter(t.io, fd, e) == Some(RunCallback(UserCode(id))) && Watches(t.io, fd, e)
            && SameElsewhere(s.io, t.io, fd) && t == s.(io := t.io)
  {
    AddMeans(s.io, fd, e, RunCallback(UserCode(id)), true);
  }

  // ----------------------------------------------------------------------------------------------------------
  // Waiting

  /** A call that waits is the waiter of its event, or has already been woken. */
  ghost predicate Registered(s: State, f: FiberId) {
    f < |s.fibers| && s.fibers[f].act.IoParked? ==>
      Waiter(s.io, s.fibers[f].act.fd, s.fibers[f].act.event) == Some(RunFiber(f)) || Handed(s, f) >= 1
  }

  /** f lost its place in the table only by being put on the list. */
  ghost predicate KeptOrGiven(io: Table, io1: Table, tasks: seq<Task>, f: FiberId) {
    forall fd: nat, e: Event :: Waiter(io, fd, e) == Some(RunFiber(f)) ==>
      Waiter(io1, fd, e) == Some(RunFiber(f)) || RunFiber(f) in tasks
  }

  lemma AddKeepsWaiter(t: Table, fd: nat, e: Event, waiter: Task, ok: bool, f: FiberId)
    requires TableOk(t)
    ensures fd < |Grown(t.contexts, fd)| && KeptOrGiven(t, AddEvent(t, fd, e, waiter, ok).0, [], f)
  {
    AddMeans(t, fd, e, waiter, ok);
    OnlyHere(t, AddEvent(t, fd, e, waiter, ok).0, fd, e, [], f);
  }

  /** A change at one fd, where the waiter of e leaves only for the list and the other one stays. */
  lemma OnlyHere(t: Table, u: Table, fd: nat, e: Event, tasks: seq<Task>, f: FiberId)
    requires SameElsewhere(t, u, fd) && Waiter(u, fd, Other(e)) == Waiter(t, fd, Other(e))
    requires Waiter(t, fd, e) == Some(RunFiber(f)) ==> Waiter(u, fd, e) == Waiter(t, fd, e) || RunFiber(f) in tasks
    ensures KeptOrGiven(t, u, tasks, f)
  {
    forall g: nat, d: Event | Waiter(t, g, d) == Some(RunFiber(f))
      ensures Waiter(u, g, d) == Some(RunFiber(f)) || RunFiber(f) in tasks
    {
      assert d == e || d == Other(e);
    }
  }

  lemma CancelKeepsWaiter(t: Table, fd: nat, e: Event, ok: bool, f: FiberId)
    requires TableOk(t)
    ensures var r := CancelEvent(t, fd, e, ok); KeptOrGiven(t, r.0, r.1, f)
  {
    var r := CancelEvent(t, fd, e, ok);
    RemoveMeans(t, fd, e, ok);
    OnlyHere(t, r.0, fd, e, r.1, f);
  }

  /** A change at one fd after which both its waiters are on the list. */
  lemma AllGiven(t: Table, u: Table, fd: nat, tasks: seq<Task>, f: FiberId)
    requires SameElsewhere(t, u, fd) && tasks == Waiters(t, fd)
    ensures KeptOrGiven(t, u, tasks, f)
  {
    forall g: nat, d: Event | Waiter(t, g, d) == Some(RunFiber(f))
      ensures Waiter(u, g, d) == Some(RunFiber(f)) || RunFiber(f) in tasks
    {
      match d
      case READ =>
      case WRITE =>
    }
  }

  lemma CancelAllKeepsWaiter(t: Table, fd: nat, ok: bool, f: FiberId)
    requires TableOk(t)
    ensures var r := CancelAll(t, fd, ok); KeptOrGiven(t, r.0, r.1, f)
  {
    var r := CancelAll(t, fd, ok);
    CancelAllMeans(t, fd, ok);
    if r != (t, []) {
      AllGiven(t, r.0, fd, r.1, f);
    }
  }

  lemma DispatchKeepsWaiter(t: Table, fd: nat, rep: Report, ok: bool, f: FiberId)
    requires TableOk(t)
    ensures var r := Dispatch(t, fd, rep, ok); KeptOrGiven(t, r.0, r.1, f)
  {
    var r := Dispatch(t, fd, rep, ok);
    DispatchMeans(t, fd, rep, ok);
    if r != (t, []) {
      AllGiven(t, r.0, fd, r.1, f);
    }
  }

  lemma DelKeepsWaiter(t: Table, fd: nat, e: Event, ok: bool, f: FiberId)
    requires TableOk(t) && f !in Deleted(t, fd, e, ok)
    ensures KeptOrGiven(t, DelEvent(t, fd, e, ok).0, [], f)
  {
    RemoveMeans(t, fd, e, ok);
    if DelEvent(t, fd, e, ok).1 {
      SlotIsWaiter(t, fd, e);
      OnlyHere(t, DelEvent(t, fd, e, ok).0, fd, e, [], f);
    }
  }

  /** The tasks a step takes out of the table and puts on the list. */
  lemma {:induction false} GivenIfThere(tasks: seq<Task>, f: FiberId)
    requires RunFiber(f) in tasks
    ensures Given(Entries(tasks), f) >= 1
  {
    var n := |tasks| - 1;
    GivenByTasks(tasks);
    if tasks[n] != RunFiber(f) {
      assert RunFiber(f) in tasks[..n];
      GivenIfThere(tasks[..n], f);
      GivenByTasks(tasks[..n]);
    }
  }

  lemma FiberKeepsWaiter(s: State, f: FiberId, a: Activity, st: FiberStep, g: FiberId)
    requires TableOk(s.io) && FiberCan(s, f, a, st)
    ensures var t := FiberDo(s, f, a, st);
            KeptOrGiven(s.io, t.io, if st.FireCancel? then CancelEvent(s.io, a.fd, a.event, st.ok).1 else [], g)
  {
    if st.FireCancel? {
      CancelKeepsWaiter(s.io, a.fd, a.event, st.ok, g);
    } else if st.IoRegister? {
      AddKeepsWaiter(s.io, a.fd, a.event, RunFiber(f), st.ok, g);
    } else {
      FiberKeepsTable(s, f, a, st);
    }
  }

  lemma FiberKeepsTable(s: State, f: FiberId, a: Activity, st: FiberStep)
    requires FiberCan(s, f, a, st) && !st.FireCancel? && !st.IoRegister?
    ensures FiberDo(s, f, a, st).io == s.io
  {
  }

  lemma OpenKeepsWaiter(s: State, st: OpenStep, g: FiberId)
    requires TableOk(s.io) && OpenEnabled(s, st) && g !in Dropped(s, Open(st))
    ensures var tasks := match st case CancelFdEvent(fd, e, ok) => CancelEvent(s.io, fd, e, ok).1
                                  case CancelFd(fd, ok) => CancelAll(s.io, fd, ok).1
                                  case _ => [];
            KeptOrGiven(s.io, OpenApply(s, st).io, tasks, g)
  {
    match st
    case AddCallbackEvent(fd, e, id, ok) => AddKeepsWaiter(s.io, fd, e, RunCallback(UserCode(id)), ok, g);
    case DelFdEvent(fd, e, ok) => DelKeepsWaiter(s.io, fd, e, ok, g);
    case CancelFdEvent(fd, e, ok) => CancelKeepsWaiter(s.io, fd, e, ok, g);
    case CancelFd(fd, ok) => CancelAllKeepsWaiter(s.io, fd, ok, g);
    case _ => OpenKeepsTable(s, st);
  }

  lemma OpenKeepsTable(s: State, st: OpenStep)
    requires OpenEnabled(s, st)
    requires !st.AddCallbackEvent? && !st.DelFdEvent? && !st.CancelFdEvent? && !st.CancelFd?
    ensures OpenApply(s, st).io == s.io
  {
  }

  /** Whoever leaves the table in a step goes on the list in that step. */
  lemma StepKeepsWaiter(s: State, st: Step, g: FiberId, fd: nat, e: Event)
    requires TableOk(s.io) && Enabled(s, st) && g !in Dropped(s, st) && Waiter(s.io, fd, e) == Some(RunFiber(g))
    ensures Waiter(Apply(s, st).io, fd, e) == Some(RunFiber(g)) || Given(PutOn(s, st), g) >= 1
  {
    match st
    case Work(w, a) => WorkKeepsTable(s, w, a);
    case Act(w, a) => ActKeepsWaiter(s, w, a, g, fd, e);
    case Open(a) => OpenGives(s, a, g, fd, e);
    case Idle(w, a) => IdleGives(s, w, a, g, fd, e);
  }

  lemma WorkKeepsTable(s: State, w: nat, st: WorkerStep)
    requires WorkerEnabled(s, w, st)
    ensures WorkerApply(s, w, st).io == s.io
  {
  }

  lemma ActKeepsWaiter(s: State, w: nat, st: FiberStep, g: FiberId, fd: nat, e: Event)
    requires TableOk(s.io) && FiberEnabled(s, w, st) && Waiter(s.io, fd, e) == Some(RunFiber(g))
    ensures Waiter(FiberApply(s, w, st).io, fd, e) == Some(RunFiber(g)) || Given(PutOn(s, Act(w, st)), g) >= 1
  {
    var f := s.workers[w].pc.fiber;
    var a := s.fibers[f].act;
    FiberKeepsWaiter(s, f, a, st, g);
    if st.FireCancel? && RunFiber(g) in CancelEvent(s.io, a.fd, a.event, st.ok).1 {
      GivenIfThere(CancelEvent(s.io, a.fd, a.event, st.ok).1, g);
    }
  }

  lemma OpenGives(s: State, st: OpenStep, g: FiberId, fd: nat, e: Event)
    requires TableOk(s.io) && OpenEnabled(s, st) && g !in Dropped(s, Open(st))
    requires Waiter(s.io, fd, e) == Some(RunFiber(g))
    ensures Waiter(OpenApply(s, st).io, fd, e) == Some(RunFiber(g)) || Given(PutOnByOthers(s, st), g) >= 1
  {
    OpenKeepsWaiter(s, st, g);
    match st
    case CancelFdEvent(fd1, e1, ok) =>
      if RunFiber(g) in CancelEvent(s.io, fd1, e1, ok).1 { GivenIfThere(CancelEvent(s.io, fd1, e1, ok).1, g); }
    case CancelFd(fd1, ok) =>
      if RunFiber(g) in CancelAll(s.io, fd1, ok).1 { GivenIfThere(CancelAll(s.io, fd1, ok).1, g); }
    case _ =>
  }

  lemma IdleGives(s: State, w: nat, st: IdleStep, g: FiberId, fd: nat, e: Event)
    requires TableOk(s.io) && IdleEnabled(s, w, st) && Waiter(s.io, fd, e) == Some(RunFiber(g))
    ensures Waiter(IdleApply(s, w, st).io, fd, e) == Some(RunFiber(g)) || Given(PutOnByIdle(s, w, st), g) >= 1
  {
    if st.DispatchFd? {
      var tasks := Dispatch(s.io, st.fd, st.rep, st.ok).1;
      DispatchKeepsWaiter(s.io, st.fd, st.rep, st.ok, g);
      if RunFiber(g) in tasks {
        GivenIfThere(tasks, g);
      }
    }
  }

  /** A fiber is inside a waiting call because it was before, or because it has just registered. */
  lemma WhoWaitsInCall(s: State, st: Step, f: FiberId)
    requires Enabled(s, st) && f < |Apply(s, st).fibers| && Apply(s, st).fibers[f].act.IoParked?
    ensures || (f < |s.fibers| && s.fibers[f].act == Apply(s, st).fibers[f].act)
            || (st.Act? && st.act.IoRegister? && f == s.workers[st.w].pc.fiber)
  {
    match st
    case Work(w, a) => WorkerRecords(s, w, a, f);
    case Act(w, a) =>
      FiberRecords(s, s.workers[w].pc.fiber, s.fibers[s.workers[w].pc.fiber].act, a);
      RegistersOnly(s, s.workers[w].pc.fiber, s.fibers[s.workers[w].pc.fiber].act, a);
    case Open(a) => OpenRecords(s, a);
    case Idle(w, a) => LibraryWakeups.IdleRecords(s, w, a);
  }

  lemma RegistersOnly(s: State, f: FiberId, a: Activity, st: FiberStep)
    requires FiberCan(s, f, a, st)
    ensures var t := FiberDo(s, f, a, st);
            f < |t.fibers| && (t.fibers[f].act.IoParked? ==> st.IoRegister?)
  {
  }

  lemma JustRegistered(s: State, f: FiberId, ok: bool)
    requires TableOk(s.io) && f < |s.fibers| && FiberCan(s, f, s.fibers[f].act, IoRegister(ok))
    ensures Registered(FiberDo(s, f, s.fibers[f].act, IoRegister(ok)), f)
  {
    AddMeans(s.io, s.fibers[f].act.fd, s.fibers[f].act.event, RunFiber(f), ok);
  }

  /** Whatever happens, a call that waits stays registered until it is put on the list; only delEvent can forget it. */
  lemma StaysRegistered(s: State, st: Step, f: FiberId)
    requires TableOk(s.io) && Orderly(s) && Enabled(s, st) && Registered(s, f) && f !in Dropped(s, st)
    ensures Registered(Apply(s, st), f)
  {
    var t := Apply(s, st);
    if f < |t.fibers| && t.fibers[f].act.IoParked? {
      WhoWaitsInCall(s, st, f);
      if st.Act? && st.act.IoRegister? && f == s.workers[st.w].pc.fiber {
        JustRegistered(s, f, st.act.ok);
      } else {
        WaiterGoesOn(s, st, f);
      }
    }
  }

  lemma WaiterGoesOn(s: State, st: Step, f: FiberId)
    requires TableOk(s.io) && Orderly(s) && Enabled(s, st) && Registered(s, f) && f !in Dropped(s, st)
    requires f < |s.fibers| && s.fibers[f].act.IoParked?
    requires f < |Apply(s, st).fibers| && Apply(s, st).fibers[f].act == s.fibers[f].act
    ensures Registered(Apply(s, st), f)
  {
    NotUsed(s, st, f);
    StepHands(s, st, f);
    var fd, e := s.fibers[f].act.fd, s.fibers[f].act.event;
    if Waiter(s.io, fd, e) == Some(RunFiber(f)) {
      StepKeepsWaiter(s, st, f, fd, e);
    }
  }

  lemma NotUsed(s: State, st: Step, f: FiberId)
    requires Orderly(s) && Enabled(s, st) && f < |s.fibers| && s.fibers[f].act.IoParked?
    requires f < |Apply(s, st).fibers| && Apply(s, st).fibers[f].act == s.fibers[f].act
    ensures !Uses(s, st, f)
  {
    assert FiberOrderly(s, s.fibers[f]);
  }

  lemma {:induction false} EveryRunIsOrderly(ss: seq<State>, steps: seq<Step>, n: nat)
    requires Run(ss, steps) && n <= |steps|
    ensures Orderly(ss[n])
  {
    if n > 0 {
      EveryRunIsOrderly(ss, steps, n - 1);
      RunStep(ss, steps, n - 1);
      StepKeepsOrder(ss[n - 1], steps[n - 1]);
    }
  }

  ghost function RegisteredAt(ss: seq<State>, f: FiberId): nat -> bool {
    (i: nat) => i < |ss| && Registered(ss[i], f)
  }

  ghost function KeptAt(ss: seq<State>, steps: seq<Step>, f: FiberId): nat -> bool {
    (i: nat) => i < |ss| && i < |steps| && f !in Dropped(ss[i], steps[i])
  }

  /** None of the first n steps deletes a registration of f. */
  ghost predicate NeverDeleted(ss: seq<State>, steps: seq<Step>, n: nat, f: FiberId) {
    Always(KeptAt(ss, steps, f), n)
  }

  lemma StaysRegisteredAt(ss: seq<State>, steps: seq<Step>, i: nat, f: FiberId)
    requires Run(ss, steps) && i < |steps|
    ensures RegisteredAt(ss, f)(i) && KeptAt(ss, steps, f)(i) ==> RegisteredAt(ss, f)(i + 1)
  {
    if Registered(ss[i], f) && f !in Dropped(ss[i], steps[i]) {
      RunKeepsBooks(ss, steps, i);
      EveryRunIsOrderly(ss, steps, i);
      RunStep(ss, steps, i);
      StaysRegistered(ss[i], steps[i], f);
    }
  }

  /** In every run, library or not: a call that waits is registered for exactly its event or has been put on the list,
      and its timer, if there is one and it is still pending, is the timeout of exactly this call on exactly this
      event. */
  lemma CallsStayRegistered(ss: seq<State>, steps: seq<Step>, n: nat, f: FiberId)
    requires Run(ss, steps) && n <= |steps| && NeverDeleted(ss, steps, n, f)
    ensures Orderly(ss[n]) && Registered(ss[n], f)
  {
    EveryRunIsOrderly(ss, steps, n);
    var p, q := RegisteredAt(ss, f), KeptAt(ss, steps, f);
    forall i | 0 <= i < n ensures p(i) && q(i) ==> p(i + 1) {
      StaysRegisteredAt(ss, steps, i, f);
    }
    AlwaysCarries(p, q, n);
  }

  // ----------------------------------------------------------------------------------------------------------
  // The timeout

  /** The call is still going on and has not timed out. */
  predicate Live(s: State, info: nat) {
    info < |s.infos| && s.infos[info].alive && !s.infos[info].cancelled
  }

  /** When the timeout of a call runs on fiber g while the call waits on fiber f, it marks the call and cancels
      exactly the registration of the call: f, and nobody else, goes on the list, and the event is free again. */
  lemma TimeoutWakes(s: State, g: FiberId, f: FiberId)
    requires g < |s.fibers| && f < |s.fibers| && f != g && s.fibers[f].act.IoParked? && TableOk(s.io) && Agrees(s.io)
    requires var p := s.fibers[f].act;
             && Waiter(s.io, p.fd, p.event) == Some(RunFiber(f)) && Live(s, p.info)
             && s.fibers[g].act == Entering(IoTimeout(p.fd, p.event, p.info))
    ensures FiberCan(s, g, s.fibers[g].act, FireTimeout)
    ensures var p, s1 := s.fibers[f].act, FiberDo(s, g, s.fibers[g].act, FireTimeout);
            && g < |s1.fibers| && FiberCan(s1, g, s1.fibers[g].act, FireCancel(true))
            && var s2 := FiberDo(s1, g, s1.fibers[g].act, FireCancel(true));
               && s2.queue == s.queue + [Entry(RunFiber(f), -1)] && Removed(s.io, s2.io, p.fd, p.event)
               && s2.infos == s.infos[p.info := s.infos[p.info].(cancelled := true)]
               && s2.fibers == s.fibers[g := s.fibers[g].(act := Body)] && s2.timers == s.timers
  {
    var p := s.fibers[f].act;
    RemoveMeans(s.io, p.fd, p.event, true);
    assert Entries([RunFiber(f)]) == [Entry(RunFiber(f), -1)];
  }

  /** In every run: if a call waits and has not been woken, its timeout wakes it. */
  lemma TimeoutEndsWait(ss: seq<State>, steps: seq<Step>, n: nat, g: FiberId, f: FiberId)
    requires Run(ss, steps) && n <= |steps| && NeverDeleted(ss, steps, n, f) && Agrees(ss[n].io)
    requires var s := ss[n];
             && f < |s.fibers| && g < |s.fibers| && s.fibers[f].act.IoParked? && Handed(s, f) == 0
             && Live(s, s.fibers[f].act.info)
             && var p := s.fibers[f].act; s.fibers[g].act == Entering(IoTimeout(p.fd, p.event, p.info))
    ensures var s := ss[n];
            var s1 := FiberDo(s, g, s.fibers[g].act, FireTimeout);
            && g < |s1.fibers| && FiberCan(s1, g, s1.fibers[g].act, FireCancel(true))
            && FiberDo(s1, g, s1.fibers[g].act, FireCancel(true)).queue == s.queue + [Entry(RunFiber(f), -1)]
  {
    CallsStayRegistered(ss, steps, n, f);
    RunKeepsBooks(ss, steps, n);
    TimeoutWakes(ss[n], g, f);
  }

  /** The timeout of a call that is over, or has timed out before, does nothing. */
  lemma LateTimeoutIsIdle(s: State, g: FiberId)
    requires g < |s.fibers| && s.fibers[g].act.Entering? && s.fibers[g].act.cb.IoTimeout?
    requires !Live(s, s.fibers[g].act.cb.info)
    ensures FiberDo(s, g, s.fibers[g].act, FireTimeout) == s.(fibers := s.fibers[g := s.fibers[g].(act := Body)])
  {
  }

  // ----------------------------------------------------------------------------------------------------------
  // Coming back

  /** A call that was woken cancels its timer; it returns to user code, and is over, if and only if it timed out,
      and tries again otherwise. */
  lemma WokenCall(s: State, f: FiberId)
    requires f < |s.fibers| && s.fibers[f].act.IoResumed? && s.fibers[f].act.info < |s.infos|
    ensures var info, timer := s.fibers[f].act.info, s.fibers[f].act.timer;
            var t := FiberDo(s, f, s.fibers[f].act, IoWoken);
            && t.queue == s.queue && t.io == s.io && t.fibers == s.fibers[f := t.fibers[f]]
            && t.fibers[f].state == s.fibers[f].state
            && (if s.infos[info].cancelled then t.fibers[f].act == Body && !t.infos[info].alive
                else t.fibers[f].act == IoCall(info) && t.infos == s.infos)
            && (forall k :: 0 <= k < |s.timers| ==>
                  |t.timers| == |s.timers| && t.timers[k] == if timer == Some(k) then None else s.timers[k])
  {
  }
}
