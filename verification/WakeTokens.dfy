/** Wake-up tokens. A token for a fiber is anything that can still put the fiber on the scheduler's list, or already
    has: a list entry, an entry in a worker's hand, a sleep callback anywhere on its way, a registered fd event, a
    pending sleep timer, a place in a semaphore's queue. */
module WakeTokens {
  import opened Folds
  import opened Tasks
  import opened FdTable
  import opened Semaphores
  import opened Runtime
  import opened HandOvers

  ghost function CbTok(cb: Callback): multiset<FiberId> {
    if cb.WakeUp? then multiset{cb.fiber} else multiset{}
  }

  ghost function TaskTok(t: Task): multiset<FiberId> {
    if t.RunFiber? then multiset{t.fiber} else CbTok(t.cb)
  }

  ghost function EntryTok(e: Entry): multiset<FiberId> {
    TaskTok(e.task)
  }

  ghost function WorkerTok(w: Worker): multiset<FiberId> {
    match w.pc
    case Picked(e) => EntryTok(e)
    case Idling(hand) => Sum(hand, CbTok)
    case _ => multiset{}
  }

  ghost function FiberTok(fb: Fiber): multiset<FiberId> {
    if fb.act.Entering? then CbTok(fb.act.cb) else multiset{}
  }

  ghost function SlotTok(c: EventContext): multiset<FiberId> {
    (if c.fiber.Some? then multiset{c.fiber.value} else multiset{}) +
    (if c.cb.Some? then CbTok(c.cb.value) else multiset{})
  }

  ghost function ContextTok(c: FdContext): multiset<FiberId> {
    SlotTok(c.read) + SlotTok(c.write)
  }

  ghost function TimerTok(t: Option<PendingTimer>): multiset<FiberId> {
    if t.Some? then CbTok(t.value.cb) else multiset{}
  }

  ghost function SemTok(s: Sem): multiset<FiberId> {
    multiset(s.waiters)
  }

  ghost function Tokens(s: State, f: FiberId): nat {
    Sum(s.queue, EntryTok)[f] + Sum(s.workers, WorkerTok)[f] + Sum(s.fibers, FiberTok)[f] +
    Sum(s.io.contexts, ContextTok)[f] + Sum(s.timers, TimerTok)[f] + Sum(s.sems, SemTok)[f]
  }

  // ----------------------------------------------------------------------------------------------------------
  // How the pieces move tokens

  lemma {:induction false} TasksAndEntries(tasks: seq<Task>)
    ensures Sum(Entries(tasks), EntryTok) == Sum(tasks, TaskTok)
  {
    if tasks != [] {
      var n := |tasks| - 1;
      assert Entries(tasks)[..n] == Entries(tasks[..n]);
      TasksAndEntries(tasks[..n]);
    }
  }

  lemma {:induction false} HandAndTasks(hand: seq<Callback>)
    ensures Sum(AsCallbacks(hand), TaskTok) == Sum(hand, CbTok)
  {
    if hand != [] {
      var n := |hand| - 1;
      assert AsCallbacks(hand)[..n] == AsCallbacks(hand[..n]);
      HandAndTasks(hand[..n]);
    }
  }

  lemma QueueGrows(q: seq<Entry>, tasks: seq<Task>, g: FiberId)
    ensures Sum(q + Entries(tasks), EntryTok)[g] == Sum(q, EntryTok)[g] + Sum(tasks, TaskTok)[g]
  {
    SumConcat(q, Entries(tasks), EntryTok);
    TasksAndEntries(tasks);
  }

  lemma TriggerMoves(c: FdContext, e: Event, g: FiberId)
    ensures ContextTok(Trigger(c, e).0)[g] + Sum(Trigger(c, e).1, TaskTok)[g] == ContextTok(c)[g]
  {
    match e
    case READ => ReadTriggerMoves(c, g);
    case WRITE => WriteTriggerMoves(c, g);
  }

  lemma ReadTriggerMoves(c: FdContext, g: FiberId)
    ensures ContextTok(Trigger(c, READ).0)[g] + Sum(Trigger(c, READ).1, TaskTok)[g] == ContextTok(c)[g]
  {
    var x := c.Get(READ);
    if x.cb.Some? {
      SumOne(RunCallback(x.cb.value), TaskTok);
    } else if x.fiber.Some? {
      SumOne(RunFiber(x.fiber.value), TaskTok);
    }
  }

  lemma WriteTriggerMoves(c: FdContext, g: FiberId)
    ensures ContextTok(Trigger(c, WRITE).0)[g] + Sum(Trigger(c, WRITE).1, TaskTok)[g] == ContextTok(c)[g]
  {
    var x := c.Get(WRITE);
    if x.cb.Some? {
      SumOne(RunCallback(x.cb.value), TaskTok);
    } else if x.fiber.Some? {
      SumOne(RunFiber(x.fiber.value), TaskTok);
    }
  }

  lemma TriggerAllMoves(c: FdContext, g: FiberId)
    ensures ContextTok(TriggerAll(c).0)[g] + Sum(TriggerAll(c).1, TaskTok)[g] == ContextTok(c)[g]
  {
    var r1 := if READ in c.events then Trigger(c, READ) else (c, []);
    var r2 := if WRITE in r1.0.events then Trigger(r1.0, WRITE) else (r1.0, []);
    TriggerMoves(c, READ, g);
    TriggerMoves(r1.0, WRITE, g);
    SumConcat(r1.1, r2.1, TaskTok);
  }

  lemma ContextReplaced(cs: seq<FdContext>, fd: nat, c: FdContext, tasks: seq<Task>, g: FiberId)
    requires fd < |cs|
    requires ContextTok(c)[g] + Sum(tasks, TaskTok)[g] == ContextTok(cs[fd])[g]
    ensures Sum(cs[fd := c], ContextTok)[g] + Sum(tasks, TaskTok)[g] == Sum(cs, ContextTok)[g]
  {
    SumShift(cs, fd, c, ContextTok, g);
  }

  lemma CancelEventMoves(t: Table, fd: nat, e: Event, ok: bool, g: FiberId)
    ensures var r := CancelEvent(t, fd, e, ok);
            Sum(r.0.contexts, ContextTok)[g] + Sum(r.1, TaskTok)[g] == Sum(t.contexts, ContextTok)[g]
  {
    if RemovalWorks(t, fd, e, ok) {
      TriggerMoves(t.contexts[fd], e, g);
      ContextReplaced(t.contexts, fd, Trigger(t.contexts[fd], e).0, Trigger(t.contexts[fd], e).1, g);
    }
  }

  lemma CancelAllMoves(t: Table, fd: nat, ok: bool, g: FiberId)
    ensures var r := CancelAll(t, fd, ok);
            Sum(r.0.contexts, ContextTok)[g] + Sum(r.1, TaskTok)[g] == Sum(t.contexts, ContextTok)[g]
  {
    if CancelAll(t, fd, ok) != (t, []) {
      TriggerAllMoves(t.contexts[fd], g);
      ContextReplaced(t.contexts, fd, TriggerAll(t.contexts[fd]).0, TriggerAll(t.contexts[fd]).1, g);
    }
  }

  lemma DispatchMoves(t: Table, fd: nat, rep: Report, ok: bool, g: FiberId)
    ensures var r := Dispatch(t, fd, rep, ok);
            Sum(r.0.contexts, ContextTok)[g] + Sum(r.1, TaskTok)[g] == Sum(t.contexts, ContextTok)[g]
  {
    if Dispatches(t, fd, rep, ok) {
      TriggerAllMoves(t.contexts[fd], g);
      ContextReplaced(t.contexts, fd, TriggerAll(t.contexts[fd]).0, TriggerAll(t.contexts[fd]).1, g);
    }
  }

  /** What delEvent throws away. */
  ghost function Deleted(t: Table, fd: nat, e: Event, ok: bool): multiset<FiberId> {
    if RemovalWorks(t, fd, e, ok) then SlotTok(t.contexts[fd].Get(e)) else multiset{}
  }

  lemma SlotEmptied(c: FdContext, events: set<Event>, e: Event, g: FiberId)
    ensures ContextTok(c.(events := events).Put(e, EMPTY_CONTEXT))[g] + SlotTok(c.Get(e))[g] == ContextTok(c)[g]
  {
    match e case READ => case WRITE =>
  }

  lemma DelEventDrops(t: Table, fd: nat, e: Event, ok: bool, g: FiberId)
    ensures Sum(DelEvent(t, fd, e, ok).0.contexts, ContextTok)[g] + Deleted(t, fd, e, ok)[g] ==
            Sum(t.contexts, ContextTok)[g]
  {
    if RemovalWorks(t, fd, e, ok) {
      SlotEmptied(t.contexts[fd], t.contexts[fd].events - {e}, e, g);
      SumShift(t.contexts, fd, DelEvent(t, fd, e, ok).0.contexts[fd], ContextTok, g);
    }
  }

  lemma {:induction false} UnusedCarryNothing(cs: seq<FdContext>, ext: seq<FdContext>)
    requires cs <= ext && forall i :: |cs| <= i < |ext| ==> ext[i] == UNUSED_FD
    ensures Sum(ext, ContextTok) == Sum(cs, ContextTok)
  {
    if |cs| < |ext| {
      UnusedCarryNothing(cs, ext[..|ext| - 1]);
    } else {
      assert ext == cs;
    }
  }

  lemma SlotFilled(c: FdContext, events: set<Event>, e: Event, x: EventContext, g: FiberId)
    requires c.Get(e) == EMPTY_CONTEXT
    ensures ContextTok(c.(events := events).Put(e, x))[g] == ContextTok(c)[g] + SlotTok(x)[g]
  {
    match e case READ => case WRITE =>
  }

  /** Registering adds the waiter's token, and nothing when epoll_ctl fails. */
  lemma AddEventAdds(t: Table, fd: nat, e: Event, waiter: Task, ok: bool, g: FiberId)
    requires TableOk(t) && fd < |Grown(t.contexts, fd)|
    ensures var r := AddEvent(t, fd, e, waiter, ok);
            Sum(r.0.contexts, ContextTok)[g] ==
                        Sum(t.contexts, ContextTok)[g] + (if r.1 == Added then TaskTok(waiter)[g] else 0)
  {
    var cs := Grown(t.contexts, fd);
    GrownCovers(t, fd);
    UnusedCarryNothing(t.contexts, cs);
    if AddEvent(t, fd, e, waiter, ok).1 == Added {
      AddEventKeepsTable(t, fd, e, waiter, ok);
      RegisteredAdds(cs, fd, e, waiter, g);
    }
  }

  lemma RegisteredAdds(cs: seq<FdContext>, fd: nat, e: Event, waiter: Task, g: FiberId)
    requires fd < |cs| && cs[fd].Get(e) == EMPTY_CONTEXT
    ensures var c := cs[fd].(events := cs[fd].events + {e}).Put(e, WaiterContext(waiter));
            Sum(cs[fd := c], ContextTok)[g] == Sum(cs, ContextTok)[g] + TaskTok(waiter)[g]
  {
    var c := cs[fd].(events := cs[fd].events + {e}).Put(e, WaiterContext(waiter));
    SlotFilled(cs[fd], cs[fd].events + {e}, e, WaiterContext(waiter), g);
    SumShift(cs, fd, c, ContextTok, g);
  }

  lemma WaitersSum(sems: seq<Sem>, k: nat, sem: Sem, g: FiberId)
    requires k < |sems|
    ensures Sum(sems[k := sem], SemTok)[g] + multiset(sems[k].waiters)[g] ==
                        Sum(sems, SemTok)[g] + multiset(sem.waiters)[g]
  {
    SumShift(sems, k, sem, SemTok, g);
  }

  /** notify moves the front waiter's token onto the list. */
  lemma NotifyMoves(sems: seq<Sem>, k: nat, g: FiberId)
    requires k < |sems|
    ensures Sum(sems[k := Notify(sems[k]).0], SemTok)[g] + Sum(Woken(sems[k]), TaskTok)[g] ==
                        Sum(sems, SemTok)[g]
  {
    var sem := sems[k];
    WaitersSum(sems, k, Notify(sem).0, g);
    if sem.waiters != [] {
      assert sem.waiters == [sem.waiters[0]] + sem.waiters[1..];
      SumOne(RunFiber(sem.waiters[0]), TaskTok);
    }
  }

  // ----------------------------------------------------------------------------------------------------------
  // Changes of one component

  lemma TokensAfter(s: State, t: State, w: nat, nw: Worker, g: FiberId)
    requires OneWorker(s, t, w, nw)
    requires t.queue == s.queue && t.fibers == s.fibers && t.io == s.io && t.timers == s.timers && t.sems == s.sems
    ensures Tokens(t, g) + WorkerTok(s.workers[w])[g] == Tokens(s, g) + WorkerTok(nw)[g]
  {
    SumShift(s.workers, w, nw, WorkerTok, g);
  }

  lemma TokensAfterFiber(s: State, t: State, f: FiberId, nf: Fiber, g: FiberId)
    requires f < |s.fibers| && t.fibers == s.fibers[f := nf] && t.workers == s.workers
    requires t.queue == s.queue && t.io == s.io && t.timers == s.timers && t.sems == s.sems
    ensures Tokens(t, g) + FiberTok(s.fibers[f])[g] == Tokens(s, g) + FiberTok(nf)[g]
  {
    SumShift(s.fibers, f, nf, FiberTok, g);
  }

  /** Hand-overs are tokens; what is left of the tokens is in the fibers, the fd table, the timers and the semaphores,
      or callbacks on their way. */
  lemma HandedIsToken(s: State, g: FiberId)
    ensures Handed(s, g) + Sum(s.fibers, FiberTok)[g] + Sum(s.io.contexts, ContextTok)[g] +
            Sum(s.timers, TimerTok)[g] + Sum(s.sems, SemTok)[g] <= Tokens(s, g)
  {
    SumMonotone(s.queue, HandTok, EntryTok, g);
    SumMonotone(s.workers, InHandOf, WorkerTok, g);
  }
}
