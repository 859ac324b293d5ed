/** Single wake-ups and single runs: a notified or triggered fiber stays on the list until a worker takes it;
    stopping() overlooks a fiber that yielded READY exactly while its worker is about to requeue it; and the runs that
    show each part of the discipline to be needed. */
module RuntimeRuns {
  import opened Folds
  import opened Tasks
  import opened FdTable
  import opened Runtime
  import opened RuntimeBooks
  import opened HandOvers
  import opened WakeSafety

  // ----------------------------------------------------------------------------------------------------------
  // A wake-up on the list is not lost

  lemma WorkerQueue(s: State, w: nat, st: WorkerStep)
    requires WorkerEnabled(s, w, st) && !st.Take?
    ensures s.queue <= WorkerApply(s, w, st).queue
  {
  }

  lemma FiberQueue(s: State, f: FiberId, a: Activity, st: FiberStep)
    requires FiberCan(s, f, a, st)
    ensures s.queue <= FiberDo(s, f, a, st).queue
  {
    if Local(st) {
      LocalKeeps(s, f, a, st);
    }
  }

  lemma OpenQueue(s: State, st: OpenStep)
    requires OpenEnabled(s, st)
    ensures s.queue <= OpenApply(s, st).queue
  {
  }

  lemma IdleQueue(s: State, w: nat, st: IdleStep)
    requires IdleEnabled(s, w, st)
    ensures s.queue <= IdleApply(s, w, st).queue
  {
  }

  /** Step st took entry e off the list, leading to t. */
  ghost predicate Takes(st: Step, t: State, e: Entry) {
    st.Work? && st.work.Take? && st.w < |t.workers| && t.workers[st.w].pc == Picked(e)
  }

  lemma TakeRemovesOne(s: State, w: nat, e: Entry)
    requires WorkerEnabled(s, w, Take) && e in s.queue
    ensures var t := WorkerApply(s, w, Take);
            e in t.queue || (t.workers[w].pc == Picked(e) && Eligible(e, w, s.fibers))
  {
    var i := PickIndex(s, w);
    var j :| 0 <= j < |s.queue| && s.queue[j] == e;
    assert Eligible(s.queue[i], w, s.fibers);
    var q := s.queue[..i] + s.queue[i + 1..];
    if j < i { assert q[j] == e; }
    if j > i { assert q[j - 1] == e; }
  }

  /** An entry leaves the list only by being taken, and a fiber is only taken once it is out of EXEC. */
  lemma EntryLeavesOnlyByTake(s: State, st: Step, e: Entry)
    requires Enabled(s, st) && e in s.queue
    ensures e in Apply(s, st).queue || Takes(st, Apply(s, st), e)
    ensures e !in Apply(s, st).queue && e.task.RunFiber? ==>
              e.task.fiber < |s.fibers| && s.fibers[e.task.fiber].state != EXEC
  {
    match st
    case Work(w, Take) => TakeRemovesOne(s, w, e);
    case Work(w, a) => WorkerQueue(s, w, a);
    case Act(w, a) => FiberQueue(s, s.workers[w].pc.fiber, s.fibers[s.workers[w].pc.fiber].act, a);
    case Open(a) => OpenQueue(s, a);
    case Idle(w, a) => IdleQueue(s, w, a);
  }

  lemma StepKeepsEntry(s: State, st: Step, t: State, e: Entry)
    requires Enabled(s, st) && t == Apply(s, st) && e in s.queue && !Takes(st, t, e)
    ensures e in t.queue
  {
    EntryLeavesOnlyByTake(s, st, e);
  }

  lemma {:induction false} EntryStaysQueued(ss: seq<State>, steps: seq<Step>, e: Entry, i: nat, n: nat)
    requires Run(ss, steps) && i <= n <= |steps| && e in ss[i].queue
    requires forall j {:trigger steps[j]} :: i <= j < n ==> !Takes(steps[j], ss[j + 1], e)
    ensures e in ss[n].queue
  {
    if i < n {
      EntryStaysQueued(ss, steps, e, i, n - 1);
      RunStep(ss, steps, n - 1);
      StepKeepsEntry(ss[n - 1], steps[n - 1], ss[n], e);
    }
  }

  lemma NotifyQueues(s: State, k: nat)
    requires k < |s.sems| && s.sems[k].waiters != []
    ensures Entry(RunFiber(s.sems[k].waiters[0]), -1) in OpenApply(s, SemNotify(k)).queue
  {
    var t := OpenApply(s, SemNotify(k));
    assert Entries(Woken(s.sems[k]))[0] == Entry(RunFiber(s.sems[k].waiters[0]), -1);
    assert t.queue[|s.queue|] == Entry(RunFiber(s.sems[k].waiters[0]), -1);
  }

  /** notify on a semaphore with waiters puts the first one on the list, also when that fiber has queued up and not
      yielded yet (it is still EXEC), and from then on it stays there until some worker takes it. */
  lemma NotifiedFiberStaysQueued(ss: seq<State>, steps: seq<Step>, i: nat, k: nat, n: nat)
    requires Run(ss, steps) && i < n <= |steps| && steps[i] == Open(SemNotify(k))
    requires k < |ss[i].sems| && ss[i].sems[k].waiters != []
    requires forall j {:trigger steps[j]} :: i < j < n ==>
               !Takes(steps[j], ss[j + 1], Entry(RunFiber(ss[i].sems[k].waiters[0]), -1))
    ensures Entry(RunFiber(ss[i].sems[k].waiters[0]), -1) in ss[n].queue
  {
    NotifyQueues(ss[i], k);
    EntryStaysQueued(ss, steps, Entry(RunFiber(ss[i].sems[k].waiters[0]), -1), i + 1, n);
  }

  // ----------------------------------------------------------------------------------------------------------
  // What stopping() overlooks

  ghost predicate Ready(s: State, f: FiberId) {
    f < |s.fibers| && s.fibers[f].state == READY
  }

  /** Worker w has given up its place in the active count, and is still to put a READY fiber back on the list. */
  ghost predicate OwesRequeue(s: State, w: nat) {
    w < |s.workers| && (s.workers[w].pc.Released? || s.workers[w].pc.Requeue?) && Ready(s, s.workers[w].pc.fiber)
  }

  /** A fiber that yielded READY is held by one worker, or there is one entry of it on the list or in a hand. */
  lemma ReadyIsHeldOrHanded(s: State, f: FiberId)
    requires Inv(s) && Ready(s, f)
    ensures Held(s, f) + Handed(s, f) == 1
  {
    assert FiberOk(s, f);
  }

  lemma QuietHandsNothing(s: State, f: FiberId)
    requires s.queue == [] && forall i :: 0 <= i < |s.workers| ==> !InWindow(s.workers[i])
    ensures Handed(s, f) == 0
  {
    if InHand(s, f) > 0 {
      var w := SumWitness(s.workers, f, InHandOf);
      assert false;
    }
  }

  lemma ReadyIsOwed(s: State, f: FiberId) returns (w: nat)
    requires Inv(s) && Stopping(s) && Ready(s, f)
    ensures OwesRequeue(s, w) && s.workers[w].pc.fiber == f
  {
    StoppingMeansQuiet(s);
    ReadyIsHeldOrHanded(s, f);
    QuietHandsNothing(s, f);
    w := SumWitness(s.workers, f, HeldBy);
    assert !InWindow(s.workers[w]) && WorkerOk(s, s.workers[w]);
  }

  /** In every reachable state of a disciplined run in which stopping() answers true: some fiber is READY if and only if
      some worker has decremented the active count and not yet put its READY fiber back on the list. */
  lemma StoppingMissesExactly(ss: seq<State>, steps: seq<Step>, n: nat)
    requires Run(ss, steps) && n <= |steps| && AllDisciplined(ss, steps, n) && Stopping(ss[n])
    ensures (exists f :: Ready(ss[n], f)) <==> (exists w: nat :: OwesRequeue(ss[n], w))
  {
    DisciplinedRunIsSafe(ss, steps, n);
    OverlooksExactly(ss[n]);
  }

  lemma OverlooksExactly(s: State)
    requires Inv(s) && Stopping(s)
    ensures (exists f :: Ready(s, f)) <==> (exists w: nat :: OwesRequeue(s, w))
  {
    if f :| Ready(s, f) {
      var w := ReadyIsOwed(s, f);
    }
    if w: nat :| OwesRequeue(s, w) {
      assert Ready(s, s.workers[w].pc.fiber);
    }
  }

  // ----------------------------------------------------------------------------------------------------------
  // Concrete runs

  function Start(workers: nat): State {
    State([], 0, 0, false, seq(workers, i => Worker(Loop, None, false)), [],
          Table(seq(32, i => UNUSED_FD), 0, map[]), [], [], [], multiset{}, multiset{})
  }

  ghost predicate Reaches(steps: seq<Step>, t: State) {
    exists ss :: Run(ss, steps) && ss[|steps|] == t
  }

  lemma ReachStart(workers: nat)
    ensures Reaches([], Start(workers))
  {
    assert Run([Start(workers)], []);
  }

  lemma ReachNext(steps: seq<Step>, s: State, st: Step)
    requires Reaches(steps, s) && Enabled(s, st)
    ensures Reaches(steps + [st], Apply(s, st))
  {
    var ss :| Run(ss, steps) && ss[|steps|] == s;
    var tt := ss + [Apply(s, st)];
    var more := steps + [st];
    assert Run(tt, more);
    assert tt[|more|] == Apply(s, st);
  }

  const IDLE_WORKER := Worker(Loop, None, false)
  const FIRST := Entry(RunFiber(0), -1)

  /** A reachable state with the fields a concrete run needs to follow. */
  ghost predicate Shows(steps: seq<Step>, s: State, queue: seq<Entry>, workers: seq<Worker>, fibers: seq<Fiber>) {
    Reaches(steps, s) && s.queue == queue && s.workers == workers && s.fibers == fibers
  }

  lemma ShowNewFiber(steps: seq<Step>, s: State, ws: seq<Worker>) returns (t: State)
    requires Shows(steps, s, [], ws, [])
    ensures Shows(steps + [Open(NewFiber)], t, [], ws, [Fiber(INIT, Body)])
  {
    t := Apply(s, Open(NewFiber));
    ReachNext(steps, s, Open(NewFiber));
  }

  lemma ShowHand(steps: seq<Step>, s: State, q: seq<Entry>, ws: seq<Worker>, fs: seq<Fiber>) returns (t: State)
    requires Shows(steps, s, q, ws, fs) && |fs| > 0
    ensures Shows(steps + [Open(RawSchedule(0, -1))], t, q + [FIRST], ws, fs)
  {
    t := Apply(s, Open(RawSchedule(0, -1)));
    ReachNext(steps, s, Open(RawSchedule(0, -1)));
  }

  lemma ShowSubmit(steps: seq<Step>, s: State, q: seq<Entry>, ws: seq<Worker>, fs: seq<Fiber>) returns (t: State)
    requires Shows(steps, s, q, ws, fs)
    ensures Shows(steps + [Open(Submit(0, -1))], t, q + [Entry(RunCallback(UserCode(0)), -1)], ws, fs)
  {
    t := Apply(s, Open(Submit(0, -1)));
    ReachNext(steps, s, Open(Submit(0, -1)));
  }

  /** Worker w takes the head of the list. */
  lemma ShowTake(steps: seq<Step>, s: State, w: nat, e: Entry, rest: seq<Entry>, ws: seq<Worker>, fs: seq<Fiber>)
    returns (t: State)
    requires Shows(steps, s, [e] + rest, ws, fs) && w < |ws| && ws[w].pc == Loop && Eligible(e, w, fs)
    ensures Shows(steps + [Work(w, Take)], t, rest, ws[w := ws[w].(pc := Picked(e))], fs)
  {
    assert s.queue[0] == e;
    assert PickIndex(s, w) == 0;
    assert s.queue[..0] + s.queue[1..] == rest;
    t := Apply(s, Work(w, Take));
    ReachNext(steps, s, Work(w, Take));
  }

  lemma ShowSwapIn(steps: seq<Step>, s: State, w: nat, q: seq<Entry>, ws: seq<Worker>, fs: seq<Fiber>)
    returns (t: State)
    requires Shows(steps, s, q, ws, fs) && w < |ws| && ws[w].pc == Picked(FIRST) && |fs| > 0 && !Ended(fs[0].state)
    ensures Shows(steps + [Work(w, SwapIn)], t, q, ws[w := ws[w].(pc := Running(0, false))],
                  fs[0 := Fiber(EXEC, Resumed(fs[0].act))])
  {
    t := Apply(s, Work(w, SwapIn));
    ReachNext(steps, s, Work(w, SwapIn));
  }

  lemma SwapInPendingIsUnsafe(s: State, w: nat)
    requires w < |s.workers| && s.workers[w].pc == Picked(FIRST) && |s.fibers| > 0 && s.fibers[0].state == EXEC
    ensures !Safe(s)
  {
    assert WorkerEnabled(s, w, SwapIn);
  }

  /** Handing a fiber over twice is enough to break the runtime: both entries can be picked before either worker swaps
      the fiber in, and then the assertion in swapIn fails. */
  lemma HandedTwiceBreaks() returns (steps: seq<Step>, s: State)
    ensures Reaches(steps, s) && !Safe(s)
    ensures steps == [Open(NewFiber), Open(RawSchedule(0, -1)), Open(RawSchedule(0, -1)),
                      Work(0, Take), Work(1, Take), Work(0, SwapIn)]
  {
    var picked := Worker(Picked(FIRST), None, false);
    steps, s := ShowHandedTwice();
    s := ShowBothTake(steps, s);
    steps := steps + [Work(0, Take)] + [Work(1, Take)];
    s := ShowSwapIn(steps, s, 0, [], [picked, picked], [Fiber(INIT, Body)]);
    steps := steps + [Work(0, SwapIn)];
    SwapInPendingIsUnsafe(s, 1);
  }

  lemma ShowHandedTwice() returns (steps: seq<Step>, s: State)
    ensures steps == [Open(NewFiber), Open(RawSchedule(0, -1)), Open(RawSchedule(0, -1))]
    ensures Shows(steps, s, [FIRST, FIRST], [IDLE_WORKER, IDLE_WORKER], [Fiber(INIT, Body)])
  {
    var idle, untouched := IDLE_WORKER, [Fiber(INIT, Body)];
    ReachStart(2);
    assert Start(2).workers == [idle, idle];
    s := ShowNewFiber([], Start(2), [idle, idle]);
    steps := [] + [Open(NewFiber)];
    s := ShowHand(steps, s, [], [idle, idle], untouched);
    steps := steps + [Open(RawSchedule(0, -1))];
    assert [] + [FIRST] == [FIRST] && [FIRST] + [FIRST] == [FIRST, FIRST];
    s := ShowHand(steps, s, [FIRST], [idle, idle], untouched);
    steps := steps + [Open(RawSchedule(0, -1))];
  }

  lemma ShowBothTake(steps: seq<Step>, s: State) returns (t: State)
    requires Shows(steps, s, [FIRST, FIRST], [IDLE_WORKER, IDLE_WORKER], [Fiber(INIT, Body)])
    ensures Shows(steps + [Work(0, Take)] + [Work(1, Take)], t, [],
                  [Worker(Picked(FIRST), None, false), Worker(Picked(FIRST), None, false)], [Fiber(INIT, Body)])
  {
    var idle, picked, untouched := IDLE_WORKER, Worker(Picked(FIRST), None, false), [Fiber(INIT, Body)];
    assert [FIRST, FIRST] == [FIRST] + [FIRST];
    t := ShowTake(steps, s, 0, FIRST, [FIRST], [idle, idle], untouched);
    assert [idle, idle][0 := picked] == [picked, idle] && [FIRST] == [FIRST] + [];
    t := ShowTake(steps + [Work(0, Take)], t, 1, FIRST, [], [picked, idle], untouched);
    assert [picked, idle][1 := picked] == [picked, picked];
  }

  const CALL := Entry(RunCallback(UserCode(0)), -1)

  lemma ShowStart(steps: seq<Step>, s: State, w: nat, f: FiberId, q: seq<Entry>, ws: seq<Worker>, fs: seq<Fiber>)
    returns (t: State)
    requires Shows(steps, s, q, ws, fs) && w < |ws| && ws[w].pc == Picked(CALL)
    requires if ws[w].cbFiber.Some? then f == ws[w].cbFiber.value < |fs| else f == |fs|
    ensures Shows(steps + [Work(w, StartCallback)], t, q,
                  ws[w := ws[w].(pc := Running(f, true), cbFiber := Some(f))],
                  if f < |fs| then fs[f := Fiber(EXEC, Entering(UserCode(0)))]
                  else fs + [Fiber(EXEC, Entering(UserCode(0)))])
  {
    t := Apply(s, Work(w, StartCallback));
    ReachNext(steps, s, Work(w, StartCallback));
    assert t == if ws[w].cbFiber.Some? then StartOnCached(s, w) else StartOnFresh(s, w);
  }

  lemma ShowAct(steps: seq<Step>, s: State, st: FiberStep, c: bool, q: seq<Entry>, wk: Worker, ws: seq<Worker>,
                a: Activity)
    returns (t: State)
    requires Shows(steps, s, q, [wk] + ws, [Fiber(EXEC, a)]) && wk.pc == Running(0, c)
    requires || (st == EnterUser && a == Entering(UserCode(0)))
             || ((st == Finish(false) || st == YieldToReady) && a == Body)
    ensures Shows(steps + [Act(0, st)], t, q, [wk] + ws,
                  [Fiber(if st == EnterUser then EXEC else if st == YieldToReady then READY else TERM, Body)])
  {
    assert s.workers[0] == wk && s.fibers[0] == Fiber(EXEC, a);
    t := Apply(s, Act(0, st));
    ReachNext(steps, s, Act(0, st));
    assert t == FiberDo(s, 0, a, st);
  }

  lemma ShowMove(steps: seq<Step>, s: State, st: WorkerStep, q: seq<Entry>, wk: Worker, ws: seq<Worker>, fb: Fiber)
    returns (t: State)
    requires Shows(steps, s, q, [wk] + ws, [fb]) && fb.state != EXEC
    requires || (st == SwapOut && wk.pc.Running? && wk.pc.fiber == 0 && (fb.state == READY || fb.state == TERM))
             || (st == Decrement && wk.pc.Back? && wk.pc.fiber == 0)
    ensures Shows(steps + [Work(0, st)], t, q,
                  [wk.(pc := if st == SwapOut then Back(0, wk.pc.viaCb) else Released(0, wk.pc.viaCb))] + ws, [fb])
  {
    assert s.workers[0] == wk;
    t := Apply(s, Work(0, st));
    ReachNext(steps, s, Work(0, st));
  }

  lemma ShowInspect(steps: seq<Step>, s: State, q: seq<Entry>, wk: Worker, ws: seq<Worker>, fb: Fiber)
    returns (t: State)
    requires Shows(steps, s, q, [wk] + ws, [fb]) && wk.pc.Released? && wk.pc.fiber == 0
    requires fb.state == READY || (fb.state == TERM && wk.pc.viaCb)
    ensures if fb.state == READY
            then Shows(steps + [Work(0, Inspect)], t, q, [wk.(pc := Requeue(0, wk.pc.viaCb))] + ws, [fb])
            else Shows(steps + [Work(0, Inspect)], t, q, [wk.(pc := Loop)] + ws, [Fiber(INIT, Body)])
  {
    assert s.workers[0] == wk;
    t := Apply(s, Work(0, Inspect));
    ReachNext(steps, s, Work(0, Inspect));
    assert t == DealWith(s, 0, 0, wk.pc.viaCb);
  }

  const CALLBACK_START := [Open(Submit(0, -1)), Work(0, Take), Work(0, StartCallback)]

  /** The steps of a callback that runs to its end on worker 0. */
  const CALLBACK_RUN := CALLBACK_START + [Act(0, EnterUser)] + [Act(0, Finish(false))] +
                        [Work(0, SwapOut)] + [Work(0, Decrement)] + [Work(0, Inspect)]

  lemma ShowCallbackStart() returns (s: State)
    ensures Shows(CALLBACK_START, s, [], [Worker(Running(0, true), Some(0), false)] + [IDLE_WORKER],
                  [Fiber(EXEC, Entering(UserCode(0)))])
  {
    var idle := IDLE_WORKER;
    ReachStart(2);
    assert Start(2).workers == [idle, idle];
    s := ShowSubmit([], Start(2), [], [idle, idle], []);
    var steps := [] + [Open(Submit(0, -1))];
    assert [] + [CALL] == [CALL] + [];
    s := ShowTake(steps, s, 0, CALL, [], [idle, idle], []);
    steps := steps + [Work(0, Take)];
    s := ShowStart(steps, s, 0, 0, [], [idle.(pc := Picked(CALL)), idle], []);
    assert steps + [Work(0, StartCallback)] == CALLBACK_START;
  }

  lemma ShowCallbackRun() returns (s: State)
    ensures Shows(CALLBACK_RUN, s, [], [Worker(Loop, Some(0), false)] + [IDLE_WORKER], [Fiber(INIT, Body)])
  {
    var running := Worker(Running(0, true), Some(0), false);
    s := ShowCallbackStart();
    s := ShowAct(CALLBACK_START, s, EnterUser, true, [], running, [IDLE_WORKER], Entering(UserCode(0)));
    s := ShowAct(CALLBACK_START + [Act(0, EnterUser)], s, Finish(false), true, [], running, [IDLE_WORKER], Body);
    s := ShowCallbackEnds(CALLBACK_START + [Act(0, EnterUser)] + [Act(0, Finish(false))], s, [], running);
  }

  lemma ShowCallbackEnds(steps: seq<Step>, s0: State, q: seq<Entry>, running: Worker) returns (s: State)
    requires running == Worker(Running(0, true), Some(0), false)
    requires Shows(steps, s0, q, [running] + [IDLE_WORKER], [Fiber(TERM, Body)])
    ensures Shows(steps + [Work(0, SwapOut)] + [Work(0, Decrement)] + [Work(0, Inspect)],
                  s, q, [Worker(Loop, Some(0), false)] + [IDLE_WORKER], [Fiber(INIT, Body)])
  {
    s := ShowMove(steps, s0, SwapOut, q, running, [IDLE_WORKER], Fiber(TERM, Body));
    s := ShowMove(steps + [Work(0, SwapOut)], s, Decrement, q, running.(pc := Back(0, true)), [IDLE_WORKER],
                  Fiber(TERM, Body));
    s := ShowInspect(steps + [Work(0, SwapOut)] + [Work(0, Decrement)], s, q, running.(pc := Released(0, true)),
                     [IDLE_WORKER], Fiber(TERM, Body));
  }

  const REUSE := [Open(Submit(0, -1)), Work(1, Take), Work(0, Take), Work(0, StartCallback)]

  /** An entry of a cached callback fiber is taken by one worker, while the other starts the next callback on it. */
  lemma ReuseBreaks(before: seq<Step>, s0: State) returns (s: State)
    requires Shows(before, s0, [FIRST], [Worker(Loop, Some(0), false)] + [IDLE_WORKER], [Fiber(INIT, Body)])
    ensures Reaches(before + REUSE, s) && !Safe(s)
  {
    var idle, kept, picked := IDLE_WORKER, Worker(Loop, Some(0), false), Worker(Picked(FIRST), None, false);
    var untouched, steps := [Fiber(INIT, Body)], before;
    assert [kept] + [idle] == [kept, idle];
    s := ShowSubmit(steps, s0, [FIRST], [kept, idle], untouched);
    steps := steps + [Open(Submit(0, -1))];
    s := ShowTake(steps, s, 1, FIRST, [CALL], [kept, idle], untouched);
    steps := steps + [Work(1, Take)];
    assert [kept, idle][1 := picked] == [kept, picked] && [CALL] == [CALL] + [];
    s := ShowTake(steps, s, 0, CALL, [], [kept, picked], untouched);
    steps := steps + [Work(0, Take)];
    s := ShowStart(steps, s, 0, 0, [], [kept.(pc := Picked(CALL)), picked], untouched);
    assert steps + [Work(0, StartCallback)] == before + REUSE;
    SwapInPendingIsUnsafe(s, 1);
  }

  /** Handed over only once, but after it ended: the worker keeps a finished callback fiber for reuse, in state INIT,
      so a late entry for it is picked by another worker while the first one starts the next callback on it. */
  lemma EndedCallbackFiberHandedBreaks() returns (steps: seq<Step>, s: State)
    ensures Reaches(steps, s) && !Safe(s)
    ensures steps == CALLBACK_RUN + [Open(RawSchedule(0, -1))] + REUSE
  {
    s := ShowCallbackRun();
    s := ShowHand(CALLBACK_RUN, s, [], [Worker(Loop, Some(0), false)] + [IDLE_WORKER], [Fiber(INIT, Body)]);
    assert [] + [FIRST] == [FIRST];
    s := ReuseBreaks(CALLBACK_RUN + [Open(RawSchedule(0, -1))], s);
    steps := CALLBACK_RUN + [Open(RawSchedule(0, -1))] + REUSE;
  }

  const CALLBACK_HANDED := CALLBACK_START + [Act(0, EnterUser)] + [Open(RawSchedule(0, -1))] + [Act(0, Finish(false))] +
                           [Work(0, SwapOut)] + [Work(0, Decrement)] + [Work(0, Inspect)]

  /** Handed over only once, while it runs, and then it ends: the same. */
  lemma HandedCallbackFiberEndsBreaks() returns (steps: seq<Step>, s: State)
    ensures Reaches(steps, s) && !Safe(s)
    ensures steps == CALLBACK_HANDED + REUSE
  {
    var running := Worker(Running(0, true), Some(0), false);
    s := ShowCallbackStart();
    s := ShowAct(CALLBACK_START, s, EnterUser, true, [], running, [IDLE_WORKER], Entering(UserCode(0)));
    steps := CALLBACK_START + [Act(0, EnterUser)];
    s := ShowHand(steps, s, [], [running] + [IDLE_WORKER], [Fiber(EXEC, Body)]);
    steps := steps + [Open(RawSchedule(0, -1))];
    assert [] + [FIRST] == [FIRST];
    s := ShowAct(steps, s, Finish(false), true, [FIRST], running, [IDLE_WORKER], Body);
    s := ShowCallbackEnds(steps + [Act(0, Finish(false))], s, [FIRST], running);
    s := ReuseBreaks(CALLBACK_HANDED, s);
    steps := CALLBACK_HANDED + REUSE;
  }

  lemma ShowSpawn(steps: seq<Step>, s: State, ws: seq<Worker>) returns (t: State)
    requires Shows(steps, s, [], ws, [])
    ensures Shows(steps + [Open(Spawn(-1))], t, [FIRST], ws, [Fiber(INIT, Body)])
  {
    t := Apply(s, Open(Spawn(-1)));
    ReachNext(steps, s, Open(Spawn(-1)));
  }

  lemma HeldTwiceIsUnsafe(s: State)
    requires |s.workers| == 2 && HeldBy(s.workers[0]) == multiset{0} && HeldBy(s.workers[1]) == multiset{0}
    ensures !Safe(s)
  {
    assert 0 in HeldBy(s.workers[0]) && 0 in HeldBy(s.workers[1]);
  }

  const YIELD_START := [Open(Spawn(-1)), Work(0, Take), Work(0, SwapIn)]

  lemma ShowRunning() returns (s: State)
    ensures Shows(YIELD_START, s, [], [Worker(Running(0, false), None, false)] + [IDLE_WORKER], [Fiber(EXEC, Body)])
  {
    var idle := IDLE_WORKER;
    ReachStart(2);
    assert Start(2).workers == [idle, idle];
    s := ShowSpawn([], Start(2), [idle, idle]);
    var steps := [] + [Open(Spawn(-1))];
    assert [FIRST] == [FIRST] + [];
    s := ShowTake(steps, s, 0, FIRST, [], [idle, idle], [Fiber(INIT, Body)]);
    steps := steps + [Work(0, Take)];
    s := ShowSwapIn(steps, s, 0, [], [idle.(pc := Picked(FIRST)), idle], [Fiber(INIT, Body)]);
    assert steps + [Work(0, SwapIn)] == YIELD_START;
  }

  /** The entry of a READY fiber is taken and the fiber swapped in while its worker has not come back from it. */
  lemma SecondSwapInBreaks(before: seq<Step>, s0: State) returns (s: State)
    requires Shows(before, s0, [FIRST], [Worker(Running(0, false), None, false)] + [IDLE_WORKER], [Fiber(READY, Body)])
    ensures Reaches(before + [Work(1, Take), Work(1, SwapIn)], s) && !Safe(s)
  {
    var idle, running := IDLE_WORKER, Worker(Running(0, false), None, false);
    assert [running] + [idle] == [running, idle] && [FIRST] == [FIRST] + [];
    s := ShowTake(before, s0, 1, FIRST, [], [running, idle], [Fiber(READY, Body)]);
    s := ShowSwapIn(before + [Work(1, Take)], s, 1, [], [running, idle.(pc := Picked(FIRST))], [Fiber(READY, Body)]);
    assert before + [Work(1, Take)] + [Work(1, SwapIn)] == before + [Work(1, Take), Work(1, SwapIn)];
    HeldTwiceIsUnsafe(s);
  }

  /** Handed over only once, but after it yielded READY: the fiber is runnable while its worker has not come back from
      it yet, so another worker swaps it in and two threads are inside it. */
  lemma YieldedFiberHandedBreaks() returns (steps: seq<Step>, s: State)
    ensures Reaches(steps, s) && !Safe(s)
    ensures steps == [Open(Spawn(-1)), Work(0, Take), Work(0, SwapIn), Act(0, YieldToReady), Open(RawSchedule(0, -1)),
                      Work(1, Take), Work(1, SwapIn)]
  {
    var running := Worker(Running(0, false), None, false);
    s := ShowRunning();
    s := ShowAct(YIELD_START, s, YieldToReady, false, [], running, [IDLE_WORKER], Body);
    steps := YIELD_START + [Act(0, YieldToReady)];
    s := ShowHand(steps, s, [], [running] + [IDLE_WORKER], [Fiber(READY, Body)]);
    steps := steps + [Open(RawSchedule(0, -1))];
    assert [] + [FIRST] == [FIRST];
    s := SecondSwapInBreaks(steps, s);
    steps := steps + [Work(1, Take), Work(1, SwapIn)];
  }

  /** Handed over only once, before it yields READY: the same. */
  lemma HandedFiberYieldsBreaks() returns (steps: seq<Step>, s: State)
    ensures Reaches(steps, s) && !Safe(s)
    ensures steps == [Open(Spawn(-1)), Work(0, Take), Work(0, SwapIn), Open(RawSchedule(0, -1)), Act(0, YieldToReady),
                      Work(1, Take), Work(1, SwapIn)]
  {
    var running := Worker(Running(0, false), None, false);
    s := ShowRunning();
    s := ShowHand(YIELD_START, s, [], [running] + [IDLE_WORKER], [Fiber(EXEC, Body)]);
    steps := YIELD_START + [Open(RawSchedule(0, -1))];
    assert [] + [FIRST] == [FIRST];
    s := ShowAct(steps, s, YieldToReady, false, [FIRST], running, [IDLE_WORKER], Body);
    steps := steps + [Act(0, YieldToReady)];
    s := SecondSwapInBreaks(steps, s);
    steps := steps + [Work(1, Take), Work(1, SwapIn)];
  }

  lemma ReachedBooks(steps: seq<Step>, s: State)
    requires Reaches(steps, s)
    ensures BooksOk(s)
  {
    var ss :| Run(ss, steps) && ss[|steps|] == s;
    RunKeepsBooks(ss, steps, |steps|);
  }

  lemma ShowReadyFiber() returns (steps: seq<Step>, s: State)
    ensures Shows(steps, s, [], [Worker(Released(0, false), None, false)], [Fiber(READY, Body)])
  {
    var idle := IDLE_WORKER;
    var running := idle.(pc := Running(0, false));
    ReachStart(1);
    assert Start(1).workers == [idle];
    steps := [];
    s := ShowSpawn(steps, Start(1), [idle]);
    steps := steps + [Open(Spawn(-1))];
    assert [FIRST] == [FIRST] + [];
    s := ShowTake(steps, s, 0, FIRST, [], [idle], [Fiber(INIT, Body)]);
    steps := steps + [Work(0, Take)];
    s := ShowSwapIn(steps, s, 0, [], [idle.(pc := Picked(FIRST))], [Fiber(INIT, Body)]);
    steps := steps + [Work(0, SwapIn)];
    assert [running] == [running] + [];
    s := ShowAct(steps, s, YieldToReady, false, [], running, [], Body);
    steps := steps + [Act(0, YieldToReady)];
    s := ShowMove(steps, s, SwapOut, [], running, [], Fiber(READY, Body));
    steps := steps + [Work(0, SwapOut)];
    s := ShowMove(steps, s, Decrement, [], running.(pc := Back(0, false)), [], Fiber(READY, Body));
    steps := steps + [Work(0, Decrement)];
    assert [running.(pc := Released(0, false))] + [] == [Worker(Released(0, false), None, false)];
  }

  lemma ShowRequeue(steps: seq<Step>, s: State) returns (t: State)
    requires Shows(steps, s, [], [Worker(Requeue(0, false), None, false)], [Fiber(READY, Body)])
    ensures Shows(steps + [Work(0, RequeueReady)], t, [FIRST], [IDLE_WORKER], [Fiber(READY, Body)])
  {
    t := Apply(s, Work(0, RequeueReady));
    ReachNext(steps, s, Work(0, RequeueReady));
    assert s.queue + [FIRST] == [FIRST];
  }

  /** stopping() can answer true while a fiber that yielded READY is not on the list yet: the requeue comes after the
      active count was decremented. Two steps later there is work again. */
  lemma StoppingMissesRequeue() returns (steps: seq<Step>, s: State, t: State)
    ensures Reaches(steps, s) && Stopping(s)
    ensures Reaches(steps + [Work(0, Inspect), Work(0, RequeueReady)], t) && t.queue == [FIRST] && !Stopping(t)
  {
    steps, s := ShowReadyFiber();
    ReachNext(steps, s, Open(RequestStop));
    steps := steps + [Open(RequestStop)];
    s := Apply(s, Open(RequestStop));
    var released := Worker(Released(0, false), None, false);
    assert Shows(steps, s, [], [released], [Fiber(READY, Body)]);
    ReachedBooks(steps, s);
    StoppingMeansQuiet(s);
    assert [released] == [released] + [];
    var m := ShowInspect(steps, s, [], released, [], Fiber(READY, Body));
    assert [released.(pc := Requeue(0, false))] + [] == [Worker(Requeue(0, false), None, false)];
    t := ShowRequeue(steps + [Work(0, Inspect)], m);
    assert steps + [Work(0, Inspect)] + [Work(0, RequeueReady)] == steps + [Work(0, Inspect), Work(0, RequeueReady)];
  }
}
