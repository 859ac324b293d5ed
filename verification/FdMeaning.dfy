/** What the operations of the fd table mean, in terms of who waits for what: `Waiter` is what is registered for an
    event of an fd, `Watches` what epoll would report. Each law names the exact condition under which the operation
    acts, in the caller's terms, what it wakes, and what it leaves alone. */
module FdMeaning {
  import opened Tasks
  import opened FdTable

  function Other(e: Event): Event {
    match e case READ => WRITE case WRITE => READ
  }

  /** Who is registered for this event. */
  function Waiter(t: Table, fd: nat, e: Event): Option<Task> {
    if fd < |t.contexts| && e in t.contexts[fd].events then
      var x := match e case READ => t.contexts[fd].read case WRITE => t.contexts[fd].write;
      match (x.fiber, x.cb)
      case (None, Some(cb)) => Some(RunCallback(cb))
      case (Some(f), None) => Some(RunFiber(f))
      case _ => None
    else None
  }

  function Watches(t: Table, fd: nat, e: Event): bool {
    fd in t.kernel && e in t.kernel[fd]
  }

  function AsList(w: Option<Task>): seq<Task> {
    match w case None => [] case Some(x) => [x]
  }

  /** Nothing changed for other fds. */
  ghost predicate SameElsewhere(t: Table, u: Table, fd: nat) {
    && (forall g: nat, e: Event | g != fd :: Waiter(u, g, e) == Waiter(t, g, e))
    && (forall g: nat | g != fd :: g in u.kernel <==> g in t.kernel)
    && (forall g: nat | g != fd && g in t.kernel :: u.kernel[g] == t.kernel[g])
  }

  /** In a consistent table, an event is registered exactly when somebody waits for it. */
  lemma WaiterExists(t: Table, fd: nat, e: Event)
    requires TableOk(t)
    ensures Waiter(t, fd, e).Some? <==> fd < |t.contexts| && e in t.contexts[fd].events
  {
    if fd < |t.contexts| {
      assert ContextOk(t.contexts[fd]);
      match e case READ => case WRITE =>
    }
  }

  /** When the kernel agrees, epoll has exactly the fds somebody waits for, and would report exactly those events. */
  lemma AgreementMeans(t: Table, fd: nat, e: Event)
    requires TableOk(t) && Agrees(t)
    ensures Watches(t, fd, e) <==> Waiter(t, fd, e).Some?
    ensures fd in t.kernel <==> Waiter(t, fd, READ).Some? || Waiter(t, fd, WRITE).Some?
  {
    assert AgreesAt(t, fd);
    WaiterExists(t, fd, READ);
    WaiterExists(t, fd, WRITE);
    if fd < |t.contexts| {
      EventsAre(t.contexts[fd].events);
    }
  }

  /** A change of one context, of the pending count and of the kernel at that fd. */
  lemma OneContextChanged(t: Table, u: Table, fd: nat, c: FdContext)
    requires fd < |t.contexts| && u.contexts == t.contexts[fd := c]
    requires forall g: nat | g != fd :: g in u.kernel <==> g in t.kernel
    requires forall g: nat | g != fd && g in t.kernel :: u.kernel[g] == t.kernel[g]
    ensures SameElsewhere(t, u, fd)
  {
  }

  // ----------------------------------------------------------------------------------------------------------
  // addEvent

  /** addEvent registers exactly the waiter it was given, for exactly that event, and tells epoll. */
  lemma AddMeans(t: Table, fd: nat, e: Event, waiter: Task, ok: bool)
    requires TableOk(t)
    ensures fd < |Grown(t.contexts, fd)|
    ensures var r := AddEvent(t, fd, e, waiter, ok);
            && SameElsewhere(t, r.0, fd)
            && Waiter(r.0, fd, Other(e)) == Waiter(t, fd, Other(e))
            && (r.1 == AlreadyRegistered <==> Waiter(t, fd, e).Some?)
            && (Agrees(t) ==> (r.1 == Added <==> ok && Waiter(t, fd, e).None?))
            && (if r.1 == Added then
                  && Waiter(r.0, fd, e) == Some(waiter) && r.0.pending == t.pending + 1
                  && Watches(r.0, fd, e) && (Watches(r.0, fd, Other(e)) <==> Waiter(t, fd, Other(e)).Some?)
                else Waiter(r.0, fd, e) == Waiter(t, fd, e) && r.0.pending == t.pending && r.0.kernel == t.kernel)
  {
    AddEventKeepsTable(t, fd, e, waiter, ok);
    WaiterExists(t, fd, e);
    WaiterExists(t, fd, Other(e));
    GrownMeans(t, fd);
    var m := t.(contexts := Grown(t.contexts, fd));
    var r := AddEvent(t, fd, e, waiter, ok);
    if Agrees(t) {
      assert AgreesAt(t, fd);
    }
    if r.1 == Added {
      OneContextChanged(m, r.0, fd, r.0.contexts[fd]);
      FilledSlot(m.contexts[fd], e, waiter);
    }
  }

  /** Growing the table registers nobody. */
  lemma GrownMeans(t: Table, fd: nat)
    requires TableOk(t)
    ensures var m := t.(contexts := Grown(t.contexts, fd));
            fd < |m.contexts| && forall g: nat, e: Event :: Waiter(m, g, e) == Waiter(t, g, e)
  {
    GrownCovers(t, fd);
  }

  /** A table that is too short grows to one and a half times the fd. */
  lemma GrowsByHalf(t: Table, fd: nat)
    requires TableOk(t)
    ensures |Grown(t.contexts, fd)| == if fd < |t.contexts| then |t.contexts| else fd + fd / 2
    ensures t.contexts <= Grown(t.contexts, fd)
  {
    GrownCovers(t, fd);
  }

  lemma FilledSlot(c: FdContext, e: Event, waiter: Task)
    ensures var d := c.(events := c.events + {e}).Put(e, WaiterContext(waiter));
            && d.events == c.events + {e} && d.Get(Other(e)) == c.Get(Other(e))
            && d.Get(e) == (match waiter case RunFiber(f) => EventContext(true, Some(f), None)
                                         case RunCallback(b) => EventContext(true, None, Some(b)))
  {
  }

  // ----------------------------------------------------------------------------------------------------------
  // delEvent and cancelEvent

  /** Exactly event e of fd is gone from the table and from epoll. */
  ghost predicate Removed(t: Table, u: Table, fd: nat, e: Event) {
    && SameElsewhere(t, u, fd) && u.pending == t.pending - 1
    && Waiter(u, fd, e) == None && Waiter(u, fd, Other(e)) == Waiter(t, fd, Other(e))
    && !Watches(u, fd, e) && (Watches(u, fd, Other(e)) <==> Waiter(t, fd, Other(e)).Some?)
  }

  /** A removal works: somebody is registered, epoll has the fd and lets it go. */
  predicate Removable(t: Table, fd: nat, e: Event, ok: bool) {
    ok && fd in t.kernel && Waiter(t, fd, e).Some?
  }

  /** Both remove exactly a registered event, when epoll_ctl works: delEvent forgets the waiter, cancelEvent wakes that
      one and nobody else. Otherwise nothing changes. */
  lemma RemoveMeans(t: Table, fd: nat, e: Event, ok: bool)
    requires TableOk(t)
    ensures Agrees(t) && Waiter(t, fd, e).Some? ==> fd in t.kernel
    ensures var d, c := DelEvent(t, fd, e, ok), CancelEvent(t, fd, e, ok);
            && (d.1 <==> Removable(t, fd, e, ok))
            && c.1 == (if Removable(t, fd, e, ok) then [Waiter(t, fd, e).value] else [])
            && (if Removable(t, fd, e, ok) then Removed(t, d.0, fd, e) && Removed(t, c.0, fd, e)
                else d.0 == t && c.0 == t)
  {
    WaiterExists(t, fd, e);
    WaiterExists(t, fd, Other(e));
    if Agrees(t) {
      assert AgreesAt(t, fd);
    }
    if RemovalWorks(t, fd, e, ok) {
      var c := t.contexts[fd];
      assert ContextOk(c);
      EventsAre(c.events);
      TriggerMeans(c, e);
      EmptiedSlot(c, e);
      var d := DelEvent(t, fd, e, ok).0;
      OneContextChanged(t, d, fd, d.contexts[fd]);
      RemovedHere(t, d, fd, e);
      var u := CancelEvent(t, fd, e, ok).0;
      OneContextChanged(t, u, fd, u.contexts[fd]);
      RemovedHere(t, u, fd, e);
    }
  }

  lemma RemovedHere(t: Table, u: Table, fd: nat, e: Event)
    requires TableOk(t) && fd < |t.contexts| && e in t.contexts[fd].events && SameElsewhere(t, u, fd)
    requires |u.contexts| == |t.contexts| && u.contexts[fd].events == t.contexts[fd].events - {e}
    requires u.contexts[fd].Get(Other(e)) == t.contexts[fd].Get(Other(e)) && u.pending == t.pending - 1
    requires u.kernel == KernelWithout(t, fd, e)
    ensures Removed(t, u, fd, e)
  {
    EventsAre(t.contexts[fd].events);
    WaiterExists(t, fd, Other(e));
  }

  lemma EmptiedSlot(c: FdContext, e: Event)
    ensures var d := c.(events := c.events - {e}).Put(e, EMPTY_CONTEXT);
            d.events == c.events - {e} && d.Get(Other(e)) == c.Get(Other(e))
  {
  }

  /** triggerEvent wakes the one waiter of the event and clears its bit. */
  lemma TriggerMeans(c: FdContext, e: Event)
    requires ContextOk(c) && e in c.events
    ensures var r := Trigger(c, e);
            && r.0.events == c.events - {e} && r.0.Get(Other(e)) == c.Get(Other(e))
            && r.1 == [SlotTask(c, e)]
  {
  }

  /** What waits in the slot of a registered event. */
  function SlotTask(c: FdContext, e: Event): Task
    requires ContextOk(c) && e in c.events
  {
    var x := match e case READ => c.read case WRITE => c.write;
    if x.cb.None? then RunFiber(x.fiber.value) else RunCallback(x.cb.value)
  }

  lemma SlotIsWaiter(t: Table, fd: nat, e: Event)
    requires TableOk(t) && fd < |t.contexts| && e in t.contexts[fd].events
    ensures ContextOk(t.contexts[fd]) && Waiter(t, fd, e) == Some(SlotTask(t.contexts[fd], e))
  {
    assert ContextOk(t.contexts[fd]);
  }

  // ----------------------------------------------------------------------------------------------------------
  // cancelAll and idle dispatch

  /** Nobody waits on fd any more. */
  ghost predicate AllRemoved(t: Table, u: Table, fd: nat) {
    && SameElsewhere(t, u, fd) && Waiter(u, fd, READ) == None && Waiter(u, fd, WRITE) == None
    && u.pending == t.pending - |Waiters(t, fd)|
  }

  /** Firing whatever is registered wakes its waiters, READ's first. */
  lemma TriggerAllMeans(t: Table, fd: nat)
    requires TableOk(t) && fd < |t.contexts|
    ensures var r := TriggerAll(t.contexts[fd]);
            && r.0 == UNUSED_FD && r.1 == Waiters(t, fd)
            && |t.contexts[fd].events| == |r.1|
  {
    var c := t.contexts[fd];
    assert ContextOk(c);
    TriggerAllEmpties(c);
    WaiterExists(t, fd, READ);
    WaiterExists(t, fd, WRITE);
    if READ in c.events {
      SlotIsWaiter(t, fd, READ);
      TriggerMeans(c, READ);
      if WRITE in c.events {
        SlotIsWaiter(t, fd, WRITE);
        TriggerKeepsContext(c, READ);
        TriggerMeans(Trigger(c, READ).0, WRITE);
      }
    } else if WRITE in c.events {
      SlotIsWaiter(t, fd, WRITE);
      TriggerMeans(c, WRITE);
    }
  }

  /** Everybody who waits on fd, READ's waiter first. */
  function Waiters(t: Table, fd: nat): seq<Task> {
    AsList(Waiter(t, fd, READ)) + AsList(Waiter(t, fd, WRITE))
  }

  /** cancelAll wakes everybody who waits on fd, READ's waiter first, and takes fd out of epoll. */
  lemma CancelAllMeans(t: Table, fd: nat, ok: bool)
    requires TableOk(t)
    ensures var r := CancelAll(t, fd, ok);
            && (Agrees(t) && Waiters(t, fd) != [] ==> fd in t.kernel)
            && (if ok && fd in t.kernel && Waiters(t, fd) != []
                then AllRemoved(t, r.0, fd) && fd !in r.0.kernel && r.1 == Waiters(t, fd)
                else r == (t, []))
  {
    AnyWaiter(t, fd);
    if CancelAll(t, fd, ok) != (t, []) {
      TriggerAllMeans(t, fd);
      OneContextChanged(t, CancelAll(t, fd, ok).0, fd, UNUSED_FD);
    }
    if fd < |t.contexts| && t.contexts[fd].events != {} {
      TriggerAllMeans(t, fd);
    }
  }

  lemma AnyWaiter(t: Table, fd: nat)
    requires TableOk(t)
    ensures Waiters(t, fd) != [] <==>
            fd < |t.contexts| && t.contexts[fd].events != {}
    ensures Agrees(t) && fd < |t.contexts| && t.contexts[fd].events != {} ==> fd in t.kernel
  {
    WaiterExists(t, fd, READ);
    WaiterExists(t, fd, WRITE);
    if Agrees(t) {
      assert AgreesAt(t, fd);
    }
    if fd < |t.contexts| {
      EventsAre(t.contexts[fd].events);
    }
  }

  /** EPOLLIN concerns READ, EPOLLOUT concerns WRITE, and an error or a hang-up whatever is registered. */
  predicate Concerns(rep: Report, e: Event) {
    rep.broken || match e case READ => rep.readable case WRITE => rep.writable
  }

  predicate ConcernsSomebody(t: Table, fd: nat, rep: Report) {
    (Waiter(t, fd, READ).Some? && Concerns(rep, READ)) || (Waiter(t, fd, WRITE).Some? && Concerns(rep, WRITE))
  }

  /** A report wakes everybody who waits on fd, READ's waiter first, exactly when it concerns one of them and epoll_ctl
      works; epoll keeps the registered events it does not concern. */
  lemma DispatchMeans(t: Table, fd: nat, rep: Report, ok: bool)
    requires TableOk(t)
    ensures var r := Dispatch(t, fd, rep, ok);
            && (Agrees(t) && ConcernsSomebody(t, fd, rep) ==> fd in t.kernel)
            && (if ok && fd in t.kernel && ConcernsSomebody(t, fd, rep) then
                  && AllRemoved(t, r.0, fd) && r.1 == Waiters(t, fd)
                  && (forall e: Event :: Watches(r.0, fd, e) <==> Waiter(t, fd, e).Some? && !Concerns(rep, e))
                else r == (t, []))
  {
    AnyWaiter(t, fd);
    WaiterExists(t, fd, READ);
    WaiterExists(t, fd, WRITE);
    if fd < |t.contexts| {
      ReportMeans(t.contexts[fd], rep);
    }
    if Dispatches(t, fd, rep, ok) {
      var u := Dispatch(t, fd, rep, ok).0;
      TriggerAllMeans(t, fd);
      OneContextChanged(t, u, fd, UNUSED_FD);
    }
  }

  lemma ReportMeans(c: FdContext, rep: Report)
    ensures c.events * RealEvents(c, rep) != {} <==>
            (READ in c.events && Concerns(rep, READ)) || (WRITE in c.events && Concerns(rep, WRITE))
    ensures forall e: Event :: e in c.events - RealEvents(c, rep) <==> e in c.events && !Concerns(rep, e)
  {
    EventsAre(c.events);
    EventsAre(RealEvents(c, rep));
    forall e: Event ensures e in c.events - RealEvents(c, rep) <==> e in c.events && !Concerns(rep, e) {
      match e case READ => case WRITE =>
    }
  }
}
