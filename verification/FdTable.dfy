/** The fd-event table of sylar/iomanager.cc: contexts, the pending-event count and the epoll interest list.

    An epoll_ctl call is given its outcome by the environment: it succeeds only when the operation is legal for
    what the kernel holds (ADD an absent fd, MOD or DEL a present one) and the environment lets it. */
module FdTable {
  import opened Tasks

  datatype EventContext = EventContext(scheduler: bool, fiber: Option<FiberId>, cb: Option<Callback>)

  const EMPTY_CONTEXT := EventContext(false, None, None)

  datatype FdContext = FdContext(events: set<Event>, read: EventContext, write: EventContext) {
    function Get(e: Event): EventContext {
      if e == READ then read else write
    }

    function Put(e: Event, c: EventContext): (r: FdContext)
      ensures r.Get(e) == c && r.events == events
      ensures forall d :: d != e ==> r.Get(d) == Get(d)
    {
      if e == READ then this.(read := c) else this.(write := c)
    }
  }

  const UNUSED_FD := FdContext({}, EMPTY_CONTEXT, EMPTY_CONTEXT)

  datatype CtlOp = ADD | MOD | DEL

  type Interest = map<nat, set<Event>>

  datatype Table = Table(contexts: seq<FdContext>, pending: int, kernel: Interest)

  predicate Legal(kernel: Interest, op: CtlOp, fd: nat) {
    (op == ADD) == (fd !in kernel)
  }

  function CtlResult(kernel: Interest, op: CtlOp, fd: nat, mask: set<Event>): Interest {
    if op == DEL then kernel - {fd} else kernel[fd := mask]
  }

  /** FdContext::triggerEvent: the bit goes, the waiter is swapped out into a scheduler entry, the scheduler pointer
      is cleared. A null fiber would be swapped out as nothing. */
  function Trigger(c: FdContext, e: Event): (r: (FdContext, seq<Task>)) {
    var x := c.Get(e);
    var d := c.(events := c.events - {e});
    if x.cb.Some? then
      (d.Put(e, x.(cb := None, scheduler := false)), [RunCallback(x.cb.value)])
    else
      (d.Put(e, x.(fiber := None, scheduler := false)), if x.fiber.Some? then [RunFiber(x.fiber.value)] else [])
  }

  /** Fire READ if set, then WRITE if set. */
  function TriggerAll(c: FdContext): (r: (FdContext, seq<Task>)) {
    var r1 := if READ in c.events then Trigger(c, READ) else (c, []);
    var r2 := if WRITE in r1.0.events then Trigger(r1.0, WRITE) else (r1.0, []);
    (r2.0, r1.1 + r2.1)
  }

  /** contextResize(fd * 1.5) for an fd beyond the table. */
  function Grown(contexts: seq<FdContext>, fd: nat): (r: seq<FdContext>) {
    if fd < |contexts| then contexts
    else contexts + seq(if fd * 3 / 2 > |contexts| then fd * 3 / 2 - |contexts| else 0, i => UNUSED_FD)
  }

  datatype AddOutcome = Added | CtlFailed | AlreadyRegistered

  /** The slot addEvent fills. */
  function WaiterContext(waiter: Task): EventContext {
    match waiter
    case RunFiber(f) => EventContext(true, Some(f), None)
    case RunCallback(b) => EventContext(true, None, Some(b))
  }

  function AddEvent(t: Table, fd: nat, e: Event, waiter: Task, ok: bool): (r: (Table, AddOutcome))
    requires fd < |Grown(t.contexts, fd)|
  {
    var cs := Grown(t.contexts, fd);
    var c := cs[fd];
    var op := if c.events != {} then MOD else ADD;
    if e in c.events then (t.(contexts := cs), AlreadyRegistered)
    else if !(ok && Legal(t.kernel, op, fd)) then (t.(contexts := cs), CtlFailed)
    else
      (Table(cs[fd := c.(events := c.events + {e}).Put(e, WaiterContext(waiter))], t.pending + 1,
             CtlResult(t.kernel, op, fd, c.events + {e})), Added)
  }

  /** What delEvent and cancelEvent ask of the kernel when `e` is registered. */
  predicate RemovalWorks(t: Table, fd: nat, e: Event, ok: bool) {
    fd < |t.contexts| && e in t.contexts[fd].events && ok &&
    Legal(t.kernel, if t.contexts[fd].events - {e} != {} then MOD else DEL, fd)
  }

  function KernelWithout(t: Table, fd: nat, e: Event): Interest
    requires fd < |t.contexts|
  {
    var left := t.contexts[fd].events - {e};
    CtlResult(t.kernel, if left != {} then MOD else DEL, fd, left)
  }

  function DelEvent(t: Table, fd: nat, e: Event, ok: bool): (r: (Table, bool)) {
    if !RemovalWorks(t, fd, e, ok) then (t, false)
    else
      var c := t.contexts[fd];
      (Table(t.contexts[fd := c.(events := c.events - {e}).Put(e, EMPTY_CONTEXT)], t.pending - 1,
             KernelWithout(t, fd, e)), true)
  }

  function CancelEvent(t: Table, fd: nat, e: Event, ok: bool): (r: (Table, seq<Task>)) {
    if !RemovalWorks(t, fd, e, ok) then (t, [])
    else
      var fired := Trigger(t.contexts[fd], e);
      (Table(t.contexts[fd := fired.0], t.pending - 1, KernelWithout(t, fd, e)), fired.1)
  }

  function CancelAll(t: Table, fd: nat, ok: bool): (r: (Table, seq<Task>)) {
    if fd >= |t.contexts| || t.contexts[fd].events == {} || !(ok && Legal(t.kernel, DEL, fd)) then (t, [])
    else
      var fired := TriggerAll(t.contexts[fd]);
      (Table(t.contexts[fd := fired.0], t.pending - |t.contexts[fd].events|, t.kernel - {fd}), fired.1)
  }

  /** One epoll_event handed to idle(): EPOLLIN, EPOLLOUT, and EPOLLERR or EPOLLHUP. */
  datatype Report = Report(readable: bool, writable: bool, broken: bool)

  function RealEvents(c: FdContext, rep: Report): (r: set<Event>) {
    set e | e in {READ, WRITE} &&
            ((if e == READ then rep.readable else rep.writable) || (rep.broken && e in c.events))
  }

  predicate Dispatches(t: Table, fd: nat, rep: Report, ok: bool) {
    fd < |t.contexts| &&
    var c := t.contexts[fd];
    var reported := RealEvents(c, rep);
    c.events * reported != {} && ok && Legal(t.kernel, if c.events - reported != {} then MOD else DEL, fd)
  }

  /** The dispatch loop body of idle(). The kernel keeps what was not reported, yet everything registered is fired. */
  function Dispatch(t: Table, fd: nat, rep: Report, ok: bool): (r: (Table, seq<Task>)) {
    if !Dispatches(t, fd, rep, ok) then (t, [])
    else
      var c := t.contexts[fd];
      var left := c.events - RealEvents(c, rep);
      var fired := TriggerAll(c);
      (Table(t.contexts[fd := fired.0], t.pending - |c.events|,
             CtlResult(t.kernel, if left != {} then MOD else DEL, fd, left)), fired.1)
  }

  // ----------------------------------------------------------------------------------------------------------
  // Table invariant

  predicate SlotOk(c: FdContext, e: Event) {
    var x := c.Get(e);
    if e in c.events then x.scheduler && (x.fiber.Some? != x.cb.Some?) else x == EMPTY_CONTEXT
  }

  predicate ContextOk(c: FdContext) {
    SlotOk(c, READ) && SlotOk(c, WRITE)
  }

  ghost function BitCount(cs: seq<FdContext>): nat {
    if cs == [] then 0 else BitCount(cs[..|cs| - 1]) + |cs[|cs| - 1].events|
  }

  ghost predicate TableOk(t: Table) {
    && |t.contexts| >= 32
    && (forall i :: 0 <= i < |t.contexts| ==> ContextOk(t.contexts[i]))
    && t.pending == BitCount(t.contexts)
  }

  lemma {:induction false} BitCountUpdate(cs: seq<FdContext>, i: nat, c: FdContext)
    requires i < |cs|
    ensures BitCount(cs[i := c]) == BitCount(cs) - |cs[i].events| + |c.events|
  {
    var n := |cs| - 1;
    if i == n {
      assert cs[i := c][..n] == cs[..n];
    } else {
      assert cs[i := c][..n] == cs[..n][i := c];
      BitCountUpdate(cs[..n], i, c);
    }
  }

  lemma {:induction false} BitCountUnused(cs: seq<FdContext>, k: nat)
    ensures BitCount(cs + seq(k, i => UNUSED_FD)) == BitCount(cs)
  {
    var ext := cs + seq(k, i => UNUSED_FD);
    if k == 0 {
      assert ext == cs;
    } else {
      assert ext[..|ext| - 1] == cs + seq(k - 1, i => UNUSED_FD);
      BitCountUnused(cs, k - 1);
    }
  }

  lemma GrownCovers(t: Table, fd: nat)
    requires TableOk(t)
    ensures fd < |Grown(t.contexts, fd)| && TableOk(t.(contexts := Grown(t.contexts, fd)))
    ensures t.contexts <= Grown(t.contexts, fd)
    ensures forall i :: |t.contexts| <= i < |Grown(t.contexts, fd)| ==> Grown(t.contexts, fd)[i] == UNUSED_FD
  {
    if fd >= |t.contexts| {
      BitCountUnused(t.contexts, fd * 3 / 2 - |t.contexts|);
    }
  }

  lemma AddEventKeepsTable(t: Table, fd: nat, e: Event, waiter: Task, ok: bool)
    requires TableOk(t)
    ensures fd < |Grown(t.contexts, fd)| && TableOk(AddEvent(t, fd, e, waiter, ok).0)
    // the slot addEvent asserts to be empty is empty whenever it gets that far
    ensures AddEvent(t, fd, e, waiter, ok).1 == Added ==> Grown(t.contexts, fd)[fd].Get(e) == EMPTY_CONTEXT
    // refusals: a registered event, or else an epoll_ctl that fails or is illegal for the kernel
    ensures AddEvent(t, fd, e, waiter, ok).1 == AlreadyRegistered <==>
              fd < |t.contexts| && e in t.contexts[fd].events
    ensures AddEvent(t, fd, e, waiter, ok).1 == CtlFailed <==>
              !(fd < |t.contexts| && e in t.contexts[fd].events) &&
              !(ok && (fd in t.kernel <==> fd < |t.contexts| && t.contexts[fd].events != {}))
  {
    GrownCovers(t, fd);
    AddRefusals(t, fd, e, waiter, ok);
    var r := AddEvent(t, fd, e, waiter, ok);
    if r.1 == Added {
      AddedKeepsTable(t.(contexts := Grown(t.contexts, fd)), fd, e, waiter, r.0.kernel);
    }
  }

  lemma AddRefusals(t: Table, fd: nat, e: Event, waiter: Task, ok: bool)
    requires fd < |Grown(t.contexts, fd)|
    requires fd >= |t.contexts| ==> Grown(t.contexts, fd)[fd] == UNUSED_FD
    ensures AddEvent(t, fd, e, waiter, ok).1 == AlreadyRegistered <==>
              fd < |t.contexts| && e in t.contexts[fd].events
    ensures AddEvent(t, fd, e, waiter, ok).1 == CtlFailed <==>
              !(fd < |t.contexts| && e in t.contexts[fd].events) &&
              !(ok && (fd in t.kernel <==> fd < |t.contexts| && t.contexts[fd].events != {}))
  {
  }

  lemma AddedKeepsTable(t: Table, fd: nat, e: Event, waiter: Task, kernel: Interest)
    requires TableOk(t) && fd < |t.contexts| && e !in t.contexts[fd].events
    ensures t.contexts[fd].Get(e) == EMPTY_CONTEXT
    ensures var c := t.contexts[fd].(events := t.contexts[fd].events + {e}).Put(e, WaiterContext(waiter));
            TableOk(Table(t.contexts[fd := c], t.pending + 1, kernel))
  {
    assert ContextOk(t.contexts[fd]);
    var c := t.contexts[fd].(events := t.contexts[fd].events + {e}).Put(e, WaiterContext(waiter));
    assert ContextOk(c);
    ContextChangeKeepsTable(t, fd, c, kernel);
  }

  lemma TriggerKeepsContext(c: FdContext, e: Event)
    requires ContextOk(c) && e in c.events
    ensures ContextOk(Trigger(c, e).0)
    ensures Trigger(c, e).0.events == c.events - {e}
    ensures |Trigger(c, e).1| == 1
  {
  }

  lemma TriggerAllEmpties(c: FdContext)
    requires ContextOk(c)
    ensures TriggerAll(c).0 == UNUSED_FD
    ensures |TriggerAll(c).1| == |c.events|
  {
    EventsAre(c.events);
    if READ in c.events {
      TriggerKeepsContext(c, READ);
      var d := Trigger(c, READ).0;
      if WRITE in d.events {
        TriggerKeepsContext(d, WRITE);
      }
    } else if WRITE in c.events {
      TriggerKeepsContext(c, WRITE);
    }
  }

  lemma EventsAre(es: set<Event>)
    ensures es == (if READ in es then {READ} else {}) + (if WRITE in es then {WRITE} else {})
  {
    forall e | e in es ensures e == READ || e == WRITE {
      match e case READ => case WRITE =>
    }
  }

  /** Every operation of the table, with the environment's choices. */
  datatype Op =
    | OpAdd(fd: nat, event: Event, waiter: Task, ok: bool)
    | OpDel(fd: nat, event: Event, ok: bool)
    | OpCancel(fd: nat, event: Event, ok: bool)
    | OpCancelAll(fd: nat, ok: bool)
    | OpDispatch(fd: nat, rep: Report, ok: bool)

  function Perform(t: Table, op: Op): (r: Table) {
    match op
    case OpAdd(fd, e, waiter, ok) => if fd < |Grown(t.contexts, fd)| then AddEvent(t, fd, e, waiter, ok).0 else t
    case OpDel(fd, e, ok) => DelEvent(t, fd, e, ok).0
    case OpCancel(fd, e, ok) => CancelEvent(t, fd, e, ok).0
    case OpCancelAll(fd, ok) => CancelAll(t, fd, ok).0
    case OpDispatch(fd, rep, ok) => Dispatch(t, fd, rep, ok).0
  }

  lemma ContextChangeKeepsTable(t: Table, fd: nat, c: FdContext, kernel: Interest)
    requires TableOk(t) && fd < |t.contexts| && ContextOk(c)
    ensures TableOk(Table(t.contexts[fd := c], t.pending - |t.contexts[fd].events| + |c.events|, kernel))
  {
    BitCountUpdate(t.contexts, fd, c);
  }

  lemma DelEventKeepsTable(t: Table, fd: nat, e: Event, ok: bool)
    requires TableOk(t)
    ensures TableOk(DelEvent(t, fd, e, ok).0)
  {
    if RemovalWorks(t, fd, e, ok) {
      assert ContextOk(t.contexts[fd]);
      ContextChangeKeepsTable(t, fd, DelEvent(t, fd, e, ok).0.contexts[fd], KernelWithout(t, fd, e));
    }
  }

  lemma CancelEventKeepsTable(t: Table, fd: nat, e: Event, ok: bool)
    requires TableOk(t)
    ensures TableOk(CancelEvent(t, fd, e, ok).0)
  {
    if RemovalWorks(t, fd, e, ok) {
      assert ContextOk(t.contexts[fd]);
      TriggerKeepsContext(t.contexts[fd], e);
      ContextChangeKeepsTable(t, fd, Trigger(t.contexts[fd], e).0, KernelWithout(t, fd, e));
    }
  }

  /** An event bit is set exactly when its context has a scheduler and one of fiber or callback, and the pending
      count is the number of set bits (so it never underflows): kept by every operation, whatever epoll_ctl does. */
  lemma PerformKeepsTable(t: Table, op: Op)
    requires TableOk(t)
    ensures TableOk(Perform(t, op)) && Perform(t, op).pending >= 0
  {
    match op
    case OpAdd(fd, e, waiter, ok) => AddEventKeepsTable(t, fd, e, waiter, ok);
    case OpDel(fd, e, ok) => DelEventKeepsTable(t, fd, e, ok);
    case OpCancel(fd, e, ok) => CancelEventKeepsTable(t, fd, e, ok);
    case OpCancelAll(fd, ok) =>
      if Perform(t, op) != t {
        assert ContextOk(t.contexts[fd]);
        TriggerAllEmpties(t.contexts[fd]);
        ContextChangeKeepsTable(t, fd, UNUSED_FD, Perform(t, op).kernel);
      }
    case OpDispatch(fd, rep, ok) =>
      if Dispatches(t, fd, rep, ok) {
        assert ContextOk(t.contexts[fd]);
        TriggerAllEmpties(t.contexts[fd]);
        ContextChangeKeepsTable(t, fd, UNUSED_FD, Perform(t, op).kernel);
      }
  }

  ghost predicate Performs(ts: seq<Table>, ops: seq<Op>) {
    |ts| == |ops| + 1 && forall i {:trigger ops[i]} :: 0 <= i < |ops| ==> ts[i + 1] == Perform(ts[i], ops[i])
  }

  /** An IOManager starts with 32 unused contexts and nothing in epoll. */
  ghost predicate Fresh(t: Table) {
    t == Table(seq(32, i => UNUSED_FD), 0, map[])
  }

  lemma UnusedOk(cs: seq<FdContext>, n: nat)
    requires cs == seq(n, i => UNUSED_FD)
    ensures BitCount(cs) == 0 && forall i :: 0 <= i < |cs| ==> cs[i] == UNUSED_FD
  {
    BitCountUnused([], n);
    assert [] + seq(n, i => UNUSED_FD) == cs;
  }

  lemma FreshOk(t: Table)
    requires Fresh(t)
    ensures TableOk(t) && Agrees(t)
  {
    UnusedOk(t.contexts, 32);
  }

  // ----------------------------------------------------------------------------------------------------------
  // Agreement with the kernel

  ghost predicate AgreesAt(t: Table, fd: nat) {
    if fd < |t.contexts| && t.contexts[fd].events != {}
    then fd in t.kernel && t.kernel[fd] == t.contexts[fd].events
    else fd !in t.kernel
  }

  ghost predicate Agrees(t: Table) {
    forall fd: nat :: AgreesAt(t, fd)
  }

  /** The operation, as the code chooses it, is the one the kernel accepts. */
  ghost predicate ChoosesLegalOp(t: Table, op: Op)
    requires TableOk(t)
  {
    match op
    case OpAdd(fd, e, _, _) =>
      GrownCovers(t, fd);
      Legal(t.kernel, if Grown(t.contexts, fd)[fd].events != {} then MOD else ADD, fd)
    case OpDel(fd, e, _) =>
      fd < |t.contexts| && e in t.contexts[fd].events ==>
        Legal(t.kernel, if t.contexts[fd].events - {e} != {} then MOD else DEL, fd)
    case OpCancel(fd, e, _) =>
      fd < |t.contexts| && e in t.contexts[fd].events ==>
        Legal(t.kernel, if t.contexts[fd].events - {e} != {} then MOD else DEL, fd)
    case OpCancelAll(fd, _) =>
      fd < |t.contexts| && t.contexts[fd].events != {} ==> Legal(t.kernel, DEL, fd)
    case OpDispatch(fd, rep, _) =>
      fd < |t.contexts| && t.contexts[fd].events * RealEvents(t.contexts[fd], rep) != {} ==>
        Legal(t.kernel, if t.contexts[fd].events - RealEvents(t.contexts[fd], rep) != {} then MOD else DEL, fd)
  }

  /** A dispatch that fires while some registered event was not reported. */
  ghost predicate FiresUnreported(t: Table, op: Op) {
    op.OpDispatch? && Dispatches(t, op.fd, op.rep, op.ok) &&
    !(t.contexts[op.fd].events <= RealEvents(t.contexts[op.fd], op.rep))
  }

  lemma AgreementIsLocal(t: Table, u: Table, fd: nat)
    requires Agrees(t) && AgreesAt(u, fd)
    requires forall g: nat :: g != fd && g < |t.contexts| ==>
               g < |u.contexts| && u.contexts[g].events == t.contexts[g].events
    requires forall g: nat :: g != fd && |t.contexts| <= g < |u.contexts| ==> u.contexts[g].events == {}
    requires forall g: nat :: g != fd ==> (g in u.kernel <==> g in t.kernel)
    requires forall g: nat :: g != fd && g in t.kernel ==> u.kernel[g] == t.kernel[g]
    ensures Agrees(u)
  {
    forall g: nat ensures AgreesAt(u, g) {
      if g != fd {
        assert AgreesAt(t, g);
      }
    }
  }

  lemma AddKeepsAgreement(t: Table, op: Op)
    requires TableOk(t) && Agrees(t) && op.OpAdd?
    ensures ChoosesLegalOp(t, op) && Agrees(Perform(t, op))
  {
    var fd := op.fd;
    assert AgreesAt(t, fd);
    GrownCovers(t, fd);
    AddAgreesHere(t, op);
    AddChangesOne(t, op);
    AgreementIsLocal(t, Perform(t, op), fd);
  }

  lemma AddAgreesHere(t: Table, op: Op)
    requires TableOk(t) && op.OpAdd? && AgreesAt(t, op.fd)
    ensures AgreesAt(Perform(t, op), op.fd)
  {
    GrownCovers(t, op.fd);
  }

  lemma AddChangesOne(t: Table, op: Op)
    requires TableOk(t) && op.OpAdd?
    ensures var u := Perform(t, op);
            && (forall g: nat :: g != op.fd && g < |t.contexts| ==> g < |u.contexts| && u.contexts[g] == t.contexts[g])
            && (forall g: nat :: g != op.fd && |t.contexts| <= g < |u.contexts| ==> u.contexts[g] == UNUSED_FD)
            && (forall g: nat :: g != op.fd ==> (g in u.kernel <==> g in t.kernel))
            && (forall g: nat :: g != op.fd && g in t.kernel ==> u.kernel[g] == t.kernel[g])
  {
    GrownCovers(t, op.fd);
  }

  lemma RemovalKeepsAgreement(t: Table, op: Op)
    requires TableOk(t) && Agrees(t) && (op.OpDel? || op.OpCancel?)
    ensures ChoosesLegalOp(t, op) && Agrees(Perform(t, op))
  {
    var fd := op.fd;
    assert AgreesAt(t, fd);
    if RemovalWorks(t, fd, op.event, op.ok) {
      var u := Perform(t, op);
      assert u.contexts[fd].events == t.contexts[fd].events - {op.event};
      assert AgreesAt(u, fd);
      AgreementIsLocal(t, u, fd);
    }
  }

  lemma CancelAllKeepsAgreement(t: Table, op: Op)
    requires TableOk(t) && Agrees(t) && op.OpCancelAll?
    ensures ChoosesLegalOp(t, op) && Agrees(Perform(t, op))
  {
    var fd := op.fd;
    assert AgreesAt(t, fd);
    var u := Perform(t, op);
    if u != t {
      assert ContextOk(t.contexts[fd]);
      TriggerAllEmpties(t.contexts[fd]);
      assert AgreesAt(u, fd);
      AgreementIsLocal(t, u, fd);
    }
  }

  lemma DispatchAgreement(t: Table, op: Op)
    requires TableOk(t) && Agrees(t) && op.OpDispatch?
    ensures ChoosesLegalOp(t, op)
    ensures Agrees(Perform(t, op)) <==> !FiresUnreported(t, op)
  {
    var fd := op.fd;
    assert AgreesAt(t, fd);
    if Dispatches(t, fd, op.rep, op.ok) {
      var u := Perform(t, op);
      assert ContextOk(t.contexts[fd]);
      TriggerAllEmpties(t.contexts[fd]);
      var left := t.contexts[fd].events - RealEvents(t.contexts[fd], op.rep);
      if FiresUnreported(t, op) {
        var e :| e in t.contexts[fd].events && e !in RealEvents(t.contexts[fd], op.rep);
        assert e in left;
        assert !AgreesAt(u, fd);
      } else {
        assert left == {};
        assert AgreesAt(u, fd);
        AgreementIsLocal(t, u, fd);
      }
    }
  }

  /** From agreement every operation asks the kernel for a legal change, and agreement is kept by everything except
      exactly those dispatches that fire an event the kernel did not report. */
  lemma PerformKeepsAgreement(t: Table, op: Op)
    requires TableOk(t) && Agrees(t)
    ensures ChoosesLegalOp(t, op)
    ensures Agrees(Perform(t, op)) <==> !FiresUnreported(t, op)
  {
    match op
    case OpAdd(_, _, _, _) => AddKeepsAgreement(t, op);
    case OpDel(_, _, _) => RemovalKeepsAgreement(t, op);
    case OpCancel(_, _, _) => RemovalKeepsAgreement(t, op);
    case OpCancelAll(_, _) => CancelAllKeepsAgreement(t, op);
    case OpDispatch(_, _, _) => DispatchAgreement(t, op);
  }

  /** An fd that is in epoll although none of its events is registered. */
  ghost predicate Orphaned(t: Table, fd: nat) {
    fd < |t.contexts| && t.contexts[fd].events == {} && fd in t.kernel
  }

  /** What the disagreement is: a dispatch that fires unreported events orphans its fd. */
  lemma UnreportedFiringOrphans(t: Table, op: Op)
    requires TableOk(t) && FiresUnreported(t, op)
    ensures Orphaned(Perform(t, op), op.fd)
  {
    assert ContextOk(t.contexts[op.fd]);
    TriggerAllEmpties(t.contexts[op.fd]);
    var missed :| missed in t.contexts[op.fd].events && missed !in RealEvents(t.contexts[op.fd], op.rep);
    assert missed in t.contexts[op.fd].events - RealEvents(t.contexts[op.fd], op.rep);
  }

  /** What it costs: an orphan stays one whatever is done, is never registered again because epoll refuses the ADD, and
      agreement never comes back. */
  lemma OrphansStay(t: Table, op: Op, fd: nat, e: Event, waiter: Task, ok: bool)
    requires Orphaned(t, fd)
    ensures Orphaned(Perform(t, op), fd) && !Agrees(t)
    ensures AddEvent(t, fd, e, waiter, ok).1 == CtlFailed
  {
    assert !AgreesAt(t, fd);
    if op.OpAdd? && fd < |t.contexts| {
      assert op.fd != fd ==> Grown(t.contexts, op.fd)[fd] == t.contexts[fd];
    }
  }

  /** Over whole runs from a new IOManager, whatever epoll_ctl does: the table is always consistent. */
  lemma {:induction false} RunsKeepTable(ts: seq<Table>, ops: seq<Op>, n: nat)
    requires Performs(ts, ops) && Fresh(ts[0]) && n <= |ops|
    ensures TableOk(ts[n])
    decreases n
  {
    if n == 0 {
      FreshOk(ts[0]);
    } else {
      RunsKeepTable(ts, ops, n - 1);
      PerformKeepsTable(ts[n - 1], ops[n - 1]);
    }
  }

  /** Once a dispatch has fired unreported events, every registration on that fd fails for the rest of the run. */
  lemma {:induction false} UnreportedFiringBlocksRegistration(ts: seq<Table>, ops: seq<Op>, i: nat, n: nat, e: Event,
                                                              waiter: Task, ok: bool)
    requires Performs(ts, ops) && Fresh(ts[0]) && i < n <= |ops| && FiresUnreported(ts[i], ops[i])
    ensures Orphaned(ts[n], ops[i].fd) && !Agrees(ts[n])
    ensures AddEvent(ts[n], ops[i].fd, e, waiter, ok).1 == CtlFailed
    decreases n
  {
    var fd := ops[i].fd;
    if n == i + 1 {
      RunsKeepTable(ts, ops, i);
      UnreportedFiringOrphans(ts[i], ops[i]);
    } else {
      UnreportedFiringBlocksRegistration(ts, ops, i, n - 1, e, waiter, ok);
      OrphansStay(ts[n - 1], ops[n - 1], fd, e, waiter, ok);
    }
    OrphansStay(ts[n], OpCancelAll(fd, false), fd, e, waiter, ok);
  }

  ghost predicate AllReported(ts: seq<Table>, ops: seq<Op>, n: nat)
    requires n <= |ops| < |ts|
  {
    forall i {:trigger ops[i]} :: 0 <= i < n ==> !FiresUnreported(ts[i], ops[i])
  }

  /** The kernel's interest agrees with the table after a run exactly when no dispatch of the run fired an event that
      was not reported. */
  lemma {:induction false} RunsAgree(ts: seq<Table>, ops: seq<Op>, n: nat)
    requires Performs(ts, ops) && Fresh(ts[0]) && n <= |ops|
    ensures Agrees(ts[n]) <==> AllReported(ts, ops, n)
    decreases n
  {
    if n == 0 {
      FreshOk(ts[0]);
    } else if AllReported(ts, ops, n - 1) {
      RunsAgree(ts, ops, n - 1);
      RunsKeepTable(ts, ops, n - 1);
      PerformKeepsAgreement(ts[n - 1], ops[n - 1]);
    } else {
      var i :| 0 <= i < n - 1 && FiresUnreported(ts[i], ops[i]);
      UnreportedFiringBlocksRegistration(ts, ops, i, n, READ, RunFiber(0), true);
    }
  }
}
