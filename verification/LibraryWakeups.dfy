/** The discipline is kept by construction when fibers park only through the library: do_io, the sleep hooks,
    FiberSemaphore::wait and switchTo. However timeouts, cancelEvent, cancelAll, close and idle dispatch race, a fiber
    has at most one outstanding wake-up, so every hand-over is one that may be made. And none is lost: unless a
    registration is deleted or a fiber yields without arranging for its return, a parked fiber has exactly one. */
module LibraryWakeups {
  import opened Folds
  import opened Tasks
  import opened FdTable
  import opened Runtime
  import opened HandOvers
  import opened WakeTokens
  import opened WakeSafety
  import opened TokenMoves

  /** Nobody calls schedule() on a fiber by hand. */
  predicate ByLibrary(st: Step) {
    !(st.Open? && st.open.RawSchedule?)
  }

  predicate AllByLibrary(steps: seq<Step>) {
    forall i :: 0 <= i < |steps| ==> ByLibrary(steps[i])
  }

  /** The fiber has parked, and its worker may or may not have marked it HOLD yet. */
  predicate Waiting(fb: Fiber) {
    ParkedAct(fb.act) && (fb.state == EXEC || fb.state == HOLD)
  }

  predicate RunsOrEnded(fb: Fiber) {
    (fb.state == EXEC && !ParkedAct(fb.act)) || Ended(fb.state)
  }

  /** A fiber has at most one wake-up. One that has not reached the scheduler yet belongs to a fiber that waits, and a
      fiber that runs without having parked has none, nor has one that ended. */
  ghost predicate TidyFiber(s: State, f: FiberId) {
    TidyCounts(s, f, Tokens(s, f), Handed(s, f))
  }

  predicate TidyCounts(s: State, f: FiberId, tokens: nat, handed: nat) {
    if f < |s.fibers| then
      && tokens <= 1 && (tokens == 1 && handed == 0 ==> Waiting(s.fibers[f]))
      && (RunsOrEnded(s.fibers[f]) ==> tokens == 0)
    else tokens == 0
  }

  ghost predicate Tidy(s: State) {
    Orderly(s) && forall f: FiberId :: TidyFiber(s, f)
  }

  // ----------------------------------------------------------------------------------------------------------
  // Outstanding hand-overs after a step

  lemma TakeHands(s: State, w: nat, g: FiberId)
    requires WorkerEnabled(s, w, Take)
    ensures Handed(WorkerApply(s, w, Take), g) >= Handed(s, g)
  {
    HandedByTake(s, w, g);
  }

  lemma RequeueHands(s: State, w: nat, g: FiberId)
    requires WorkerEnabled(s, w, RequeueReady)
    ensures Handed(WorkerApply(s, w, RequeueReady), g) >= Handed(s, g) + (if g == s.workers[w].pc.fiber then 1 else 0)
  {
    var e := Entry(RunFiber(s.workers[w].pc.fiber), -1);
    GivenOne(e, g);
    HandedAfter(s, WorkerApply(s, w, RequeueReady), w, LetGo(s.workers[w], s.workers[w].pc.viaCb), [e], g);
  }

  /** One worker moved and the list stayed: only the entry in its hand can go. */
  lemma MoveHands(s: State, t: State, w: nat, g: FiberId)
    requires w < |s.workers| && w < |t.workers| && OneWorker(s, t, w, t.workers[w]) && t.queue == s.queue
    requires InHandOf(s.workers[w])[g] == 0
    ensures Handed(t, g) >= Handed(s, g)
  {
    HandedMoved(s, t, w, t.workers[w], g);
  }

  lemma WorkerMoves(s: State, w: nat, st: WorkerStep, g: FiberId)
    requires WorkerEnabled(s, w, st) && !st.Take? && !st.RequeueReady?
    ensures var t := WorkerApply(s, w, st);
            && w < |t.workers| && OneWorker(s, t, w, t.workers[w]) && t.queue == s.queue
            && (InHandOf(s.workers[w])[g] > 0 ==> Uses(s, Work(w, st), g))
  {
  }

  /** Hand-overs go only by the swap-in or the drop that uses them. */
  lemma WorkerHands(s: State, w: nat, st: WorkerStep, g: FiberId)
    requires WorkerEnabled(s, w, st) && !Uses(s, Work(w, st), g)
    ensures Handed(WorkerApply(s, w, st), g) >= Handed(s, g) + (if Gains(s, Work(w, st), g) then 1 else 0)
  {
    match st
    case Take => TakeHands(s, w, g);
    case RequeueReady => RequeueHands(s, w, g);
    case _ =>
      WorkerMoves(s, w, st, g);
      MoveHands(s, WorkerApply(s, w, st), w, g);
  }

  lemma FiberHands(s: State, f: FiberId, a: Activity, st: FiberStep, g: FiberId)
    requires FiberCan(s, f, a, st)
    ensures Handed(FiberDo(s, f, a, st), g) >= Handed(s, g) + Given(PutOnByFiber(s, f, a, st), g)
  {
    if st.YieldToReady? || st.Finish? {
      OwnStepKeepsList(s, f, a, st);
    } else {
      FiberStepShape(s, f, a, st);
    }
    HandedMore(s, FiberDo(s, f, a, st), PutOnByFiber(s, f, a, st), g);
  }

  lemma OwnStepKeepsList(s: State, f: FiberId, a: Activity, st: FiberStep)
    requires FiberCan(s, f, a, st) && (st.YieldToReady? || st.Finish?)
    ensures FiberDo(s, f, a, st).workers == s.workers
    ensures FiberDo(s, f, a, st).queue == s.queue + PutOnByFiber(s, f, a, st)
  {
    assert s.queue == s.queue + [];
  }

  lemma OpenHands(s: State, st: OpenStep, g: FiberId)
    requires OpenEnabled(s, st)
    ensures Handed(OpenApply(s, st), g) >= Handed(s, g) + Given(PutOnByOthers(s, st), g)
    ensures st.Spawn? && g == |s.fibers| ==> Handed(OpenApply(s, st), g) >= 1
  {
    match st
    case Spawn(thread) =>
      var e := Entry(RunFiber(|s.fibers|), thread);
      GivenOne(e, g);
      HandedMore(s, OpenApply(s, st), [e], g);
    case NewFiber => assert s.queue == s.queue + []; HandedMore(s, OpenApply(s, st), [], g);
    case _ =>
      OpenStepShape(s, st);
      HandedMore(s, OpenApply(s, st), PutOnByOthers(s, st), g);
  }

  lemma IdleHands(s: State, w: nat, st: IdleStep, g: FiberId)
    requires IdleEnabled(s, w, st)
    ensures Handed(IdleApply(s, w, st), g) >= Handed(s, g) + Given(PutOnByIdle(s, w, st), g)
  {
    match st
    case Flush => FlushHands(s, w, g);
    case DispatchFd(fd, rep, ok) => DispatchHands(s, w, fd, rep, ok, g);
    case _ => QuietIdleHands(s, w, st, g);
  }

  lemma DispatchHands(s: State, w: nat, fd: nat, rep: Report, ok: bool, g: FiberId)
    requires IdleEnabled(s, w, DispatchFd(fd, rep, ok))
    ensures var es := Entries(Dispatch(s.io, fd, rep, ok).1);
            Handed(IdleApply(s, w, DispatchFd(fd, rep, ok)), g) >= Handed(s, g) + Given(es, g)
  {
    HandedMore(s, IdleApply(s, w, DispatchFd(fd, rep, ok)), Entries(Dispatch(s.io, fd, rep, ok).1), g);
  }

  lemma QuietIdleHands(s: State, w: nat, st: IdleStep, g: FiberId)
    requires IdleEnabled(s, w, st) && (st.Expire? || st.LeaveIdle? || st.EndIdle?)
    ensures Handed(IdleApply(s, w, st), g) >= Handed(s, g)
    ensures Given(PutOnByIdle(s, w, st), g) == 0
  {
    IdleMoves(s, w, st);
    MoveHands(s, IdleApply(s, w, st), w, g);
    GivenNothing(g);
  }

  lemma FlushHands(s: State, w: nat, g: FiberId)
    requires IdleEnabled(s, w, Flush)
    ensures var es := Entries(AsCallbacks(s.workers[w].pc.hand));
            Handed(IdleApply(s, w, Flush), g) >= Handed(s, g) + Given(es, g)
  {
    var es := Entries(AsCallbacks(s.workers[w].pc.hand));
    HandedAfter(s, IdleApply(s, w, Flush), w, s.workers[w].(pc := Idling([])), es, g);
  }

  lemma IdleMoves(s: State, w: nat, st: IdleStep)
    requires IdleEnabled(s, w, st) && (st.Expire? || st.LeaveIdle? || st.EndIdle?)
    ensures var t := IdleApply(s, w, st);
            w < |t.workers| && OneWorker(s, t, w, t.workers[w]) && t.queue == s.queue && PutOnByIdle(s, w, st) == []
  {
  }

  lemma StepHands(s: State, st: Step, g: FiberId)
    requires Enabled(s, st) && !Uses(s, st, g)
    ensures Handed(Apply(s, st), g) >= Handed(s, g) + Given(PutOn(s, st), g)
    ensures Gains(s, st, g) && !st.Act? && ByLibrary(st) ==> Handed(Apply(s, st), g) >= 1
  {
    match st
    case Work(w, a) => WorkerHands(s, w, a, g);
    case Act(w, a) => FiberHands(s, s.workers[w].pc.fiber, s.fibers[s.workers[w].pc.fiber].act, a, g);
    case Open(a) => OpenHands(s, a, g);
    case Idle(w, a) => IdleHands(s, w, a, g);
  }

  // ----------------------------------------------------------------------------------------------------------
  // Tidy states allow only disciplined steps

  lemma HandedIsBounded(s: State, g: FiberId)
    ensures Handed(s, g) <= Tokens(s, g)
  {
    HandedIsToken(s, g);
  }

  lemma PutOnGainsNothing(s: State, st: Step, g: FiberId)
    requires Enabled(s, st) && ByLibrary(st) && Given(PutOn(s, st), g) > 0 && Gains(s, st, g)
    ensures st.Act? && st.act.SwitchTo?
  {
    GivenNothing(g);
  }

  lemma GivenNothing(g: FiberId)
    ensures Given([], g) == 0
  {
  }

  /** What a library step hands over was a wake-up before, except that switchTo hands over the running fiber. */
  lemma GivenWasToken(s: State, st: Step, g: FiberId)
    requires Inv(s) && Orderly(s) && Enabled(s, st) && ByLibrary(st) && !(st.Act? && st.act.SwitchTo?)
    requires Given(PutOn(s, st), g) > 0
    ensures Handed(s, g) + Given(PutOn(s, st), g) <= Tokens(s, g)
  {
    GivenNothing(g);
    if Gains(s, st, g) {
      PutOnGainsNothing(s, st, g);
    }
    StepTokens(s, st, g);
    StepHands(s, st, g);
    HandedIsBounded(Apply(s, st), g);
  }

  lemma WaitingMayBeHanded(s: State, g: FiberId)
    requires FiberOk(s, g) && TidyFiber(s, g) && Handed(s, g) + 1 <= Tokens(s, g)
    ensures MayHand(s, g)
  {
  }

  lemma ActorIsNotParked(s: State, f: FiberId, a: Activity, st: FiberStep)
    requires FiberCan(s, f, a, st)
    ensures !ParkedAct(a)
  {
  }

  lemma ActorHasNoToken(s: State, w: nat, st: FiberStep)
    requires WakeOk(s) && Tidy(s) && FiberEnabled(s, w, st)
    ensures var f := s.workers[w].pc.fiber;
            Tokens(s, f) == 0 && Handed(s, f) == 0 && MayHand(s, f)
  {
    var f := s.workers[w].pc.fiber;
    ActorIsNotParked(s, f, s.fibers[f].act, st);
    assert TidyFiber(s, f) && FiberOk(s, f);
    HandedIsBounded(s, f);
  }

  lemma SwitcherMayBeHanded(s: State, w: nat, thread: int, g: FiberId)
    requires Inv(s) && Tidy(s) && FiberEnabled(s, w, SwitchTo(thread))
    requires Given(PutOn(s, Act(w, SwitchTo(thread))), g) >= 1
    ensures Given(PutOn(s, Act(w, SwitchTo(thread))), g) == 1 && MayHand(s, g)
  {
    GivenOne(Entry(RunFiber(s.workers[w].pc.fiber), thread), g);
    ActorHasNoToken(s, w, SwitchTo(thread));
  }

  lemma HandsOnlyTokens(s: State, st: Step, g: FiberId)
    requires Inv(s) && Tidy(s) && Enabled(s, st) && ByLibrary(st) && Given(PutOn(s, st), g) >= 1
    ensures Given(PutOn(s, st), g) == 1 && MayHand(s, g)
  {
    if st.Act? && st.act.SwitchTo? {
      SwitcherMayBeHanded(s, st.w, st.act.thread, g);
    } else {
      assert TidyFiber(s, g) && FiberOk(s, g);
      GivenWasToken(s, st, g);
      WaitingMayBeHanded(s, g);
    }
  }

  lemma TidyIsDisciplined(s: State, st: Step)
    requires Inv(s) && Tidy(s) && Enabled(s, st) && ByLibrary(st)
    ensures Disciplined(s, st)
  {
    forall g: FiberId | Given(PutOn(s, st), g) >= 1
      ensures MayHand(s, g) && (Given(PutOn(s, st), g) == 1 || Retired(s, g))
    {
      HandsOnlyTokens(s, st, g);
    }
    if st.Act? {
      ActorHasNoToken(s, st.w, st.act);
    }
  }

  // ----------------------------------------------------------------------------------------------------------
  // Tidiness is kept

  /** Whoever gains a wake-up had none. */
  lemma GainerHasNone(s: State, st: Step, g: FiberId)
    requires Inv(s) && Tidy(s) && Enabled(s, st) && ByLibrary(st) && Gains(s, st, g)
    ensures Tokens(s, g) == 0
  {
    match st
    case Work(w, a) => RequeuedHasNone(s, w);
    case Act(w, a) => ActorHasNoToken(s, w, a);
    case Open(a) => assert TidyFiber(s, g);
    case Idle(w, a) =>
  }

  /** A fiber that does not wait and is not handed over has no wake-up. */
  lemma IdleHasNone(s: State, f: FiberId)
    requires TidyFiber(s, f) && f < |s.fibers| && !Waiting(s.fibers[f]) && Handed(s, f) == 0
    ensures Tokens(s, f) == 0
  {
  }

  lemma RequeuedHasNone(s: State, w: nat)
    requires WakeOk(s) && Tidy(s) && WorkerEnabled(s, w, RequeueReady)
    ensures Tokens(s, s.workers[w].pc.fiber) == 0
  {
    var f := s.workers[w].pc.fiber;
    HolderSees(s, w, f);
    assert TidyFiber(s, f);
    IdleHasNone(s, f);
  }

  /** Whoever is swapped in or dropped had exactly one. */
  lemma UserHasOne(s: State, st: Step, g: FiberId)
    requires Inv(s) && Tidy(s) && Enabled(s, st) && Uses(s, st, g)
    ensures Tokens(s, g) == 1 && !Gains(s, st, g)
  {
    assert TidyFiber(s, g);
    PickedFiber(s, st.w);
    HandedIsBounded(s, g);
  }

  /** How the record of fiber g may change in a library step. */
  predicate RecordMoves(s: State, t: State, g: FiberId, tokens: nat, gains: bool, uses: bool) {
    g < |t.fibers| ==>
      || (g < |s.fibers| && t.fibers[g] == s.fibers[g] && (gains ==> s.fibers[g].state == READY))
      // it comes to run, or goes on running
      || uses
      || (tokens == 0 && !gains)
      // it parks
      || (gains && Waiting(t.fibers[g]))
      // its worker marks it HOLD
      || (g < |s.fibers| && !gains && s.fibers[g].state == EXEC && t.fibers[g] == s.fibers[g].(state := HOLD))
      // it is new
      || (g == |s.fibers| && t.fibers[g] == Fiber(INIT, Body))
  }

  lemma StaysTidy(s: State, t: State, g: FiberId, gains: bool, uses: bool)
    requires TidyFiber(s, g) && RecordMoves(s, t, g, Tokens(s, g), gains, uses) && Handed(s, g) <= Tokens(s, g)
    requires |s.fibers| <= |t.fibers|
    requires gains && !uses ==> Handed(t, g) >= 1 || (g < |t.fibers| && Waiting(t.fibers[g]))
    requires Tokens(t, g) + (if uses then 1 else 0) <= Tokens(s, g) + (if gains then 1 else 0)
    requires (gains ==> Tokens(s, g) == 0) && (uses ==> !gains)
    requires !uses ==> Handed(t, g) >= Handed(s, g)
    requires g >= |t.fibers| ==> !gains
    ensures TidyFiber(t, g)
  {
    CountsStayTidy(s, t, g, Tokens(s, g), Tokens(t, g), Handed(s, g), Handed(t, g), gains, uses);
  }

  lemma CountsStayTidy(s: State, t: State, g: FiberId, tokens: nat, tokens1: nat, handed: nat, handed1: nat,
                       gains: bool, uses: bool)
    requires TidyCounts(s, g, tokens, handed) && RecordMoves(s, t, g, tokens, gains, uses) && handed <= tokens
    requires |s.fibers| <= |t.fibers|
    requires gains && !uses ==> handed1 >= 1 || (g < |t.fibers| && Waiting(t.fibers[g]))
    requires tokens1 + (if uses then 1 else 0) <= tokens + (if gains then 1 else 0)
    requires (gains ==> tokens == 0) && (uses ==> !gains) && (!uses ==> handed1 >= handed)
    requires g >= |t.fibers| ==> !gains
    ensures TidyCounts(t, g, tokens1, handed1)
  {
  }

  lemma WorkerRecordMoves(s: State, w: nat, st: WorkerStep, g: FiberId)
    requires Inv(s) && Tidy(s) && WorkerEnabled(s, w, st)
    ensures RecordMoves(s, WorkerApply(s, w, st), g, Tokens(s, g), Gains(s, Work(w, st), g), Uses(s, Work(w, st), g))
  {
    var t := WorkerApply(s, w, st);
    if g < |t.fibers| {
      WorkerRecords(s, w, st, g);
      assert TidyFiber(s, g) && FiberOk(s, g);
      if st.StartCallback? && s.workers[w].cbFiber == Some(g) {
        CachedIsIdle(s, w);
        IdleHasNone(s, g);
      }
      if st.RequeueReady? || st.WriteHold? {
        HolderSees(s, w, s.workers[w].pc.fiber);
      }
    }
  }

  /** What a step of the running fiber f leaves of it. */
  lemma ActorRecord(s: State, f: FiberId, a: Activity, st: FiberStep)
    requires FiberCan(s, f, a, st) && s.fibers[f].state == EXEC && a == s.fibers[f].act
    ensures var t := FiberDo(s, f, a, st);
            && f < |t.fibers|
            && (ParksBy(s, f, a, st) ==> Waiting(t.fibers[f]))
            && (!ParksBy(s, f, a, st) && !st.YieldBare? ==> t.fibers[f].state != HOLD && !ParkedAct(t.fibers[f].act))
  {
  }

  lemma FiberRecordMoves(s: State, w: nat, st: FiberStep, g: FiberId)
    requires Inv(s) && Tidy(s) && FiberEnabled(s, w, st)
    ensures RecordMoves(s, FiberApply(s, w, st), g, Tokens(s, g), Gains(s, Act(w, st), g), false)
    ensures |FiberApply(s, w, st).fibers| == |s.fibers|
    ensures Gains(s, Act(w, st), g) ==> g < |s.fibers| && Waiting(FiberApply(s, w, st).fibers[g])
  {
    var f := s.workers[w].pc.fiber;
    FiberRecords(s, f, s.fibers[f].act, st);
    ActorRecord(s, f, s.fibers[f].act, st);
    ActorHasNoToken(s, w, st);
  }

  lemma StepRecordMoves(s: State, st: Step, g: FiberId)
    requires Inv(s) && Tidy(s) && Enabled(s, st) && ByLibrary(st)
    ensures RecordMoves(s, Apply(s, st), g, Tokens(s, g), Gains(s, st, g), Uses(s, st, g))
    ensures |s.fibers| <= |Apply(s, st).fibers| && (g >= |Apply(s, st).fibers| ==> !Gains(s, st, g))
    ensures Gains(s, st, g) && st.Act? ==> g < |s.fibers| && Waiting(Apply(s, st).fibers[g])
  {
    match st
    case Work(w, a) => WorkerRecordMoves(s, w, a, g); WorkerLists(s, w, a);
    case Act(w, a) => FiberRecordMoves(s, w, a, g);
    case Open(a) => OpenRecords(s, a);
    case Idle(w, a) => IdleRecords(s, w, a);
  }

  lemma IdleRecords(s: State, w: nat, st: IdleStep)
    requires IdleEnabled(s, w, st)
    ensures IdleApply(s, w, st).fibers == s.fibers
  {
  }

  lemma FiberStaysTidy(s: State, st: Step, g: FiberId)
    requires Inv(s) && Tidy(s) && Enabled(s, st) && ByLibrary(st)
    ensures TidyFiber(Apply(s, st), g)
  {
    assert TidyFiber(s, g);
    StepRecordMoves(s, st, g);
    StepTokens(s, st, g);
    HandedIsBounded(s, g);
    if Uses(s, st, g) {
      UserHasOne(s, st, g);
    } else {
      StepHands(s, st, g);
    }
    if Gains(s, st, g) {
      GainerHasNone(s, st, g);
    }
    StaysTidy(s, Apply(s, st), g, Gains(s, st, g), Uses(s, st, g));
  }

  lemma StepKeepsTidy(s: State, st: Step)
    requires Inv(s) && Tidy(s) && Enabled(s, st) && ByLibrary(st)
    ensures Tidy(Apply(s, st))
  {
    StepKeepsOrder(s, st);
    forall g: FiberId ensures TidyFiber(Apply(s, st), g) {
      FiberStaysTidy(s, st, g);
    }
  }

  lemma TidyStep(s: State, st: Step, t: State)
    requires Inv(s) && Tidy(s) && Enabled(s, st) && ByLibrary(st) && t == Apply(s, st)
    ensures Disciplined(s, st) && Inv(t) && Tidy(t)
  {
    TidyIsDisciplined(s, st);
    StepKeepsInv(s, st);
    StepKeepsTidy(s, st);
  }

  lemma TidyIsSafe(s: State)
    requires Inv(s) && Tidy(s)
    ensures Safe(s) && forall f :: Tokens(s, f) <= 1
  {
    InvIsSafe(s);
    forall f: FiberId ensures Tokens(s, f) <= 1 {
      assert TidyFiber(s, f);
    }
  }

  lemma {:induction false} NoTokensYet(ws: seq<Worker>, f: FiberId)
    requires forall i :: 0 <= i < |ws| ==> ws[i] == Worker(Loop, None, false)
    ensures Sum(ws, WorkerTok)[f] == 0
  {
    if ws != [] {
      NoTokensYet(ws[..|ws| - 1], f);
    }
  }

  lemma {:induction false} NoWaitersYet(cs: seq<FdContext>, f: FiberId)
    requires forall i :: 0 <= i < |cs| ==> cs[i] == UNUSED_FD
    ensures Sum(cs, ContextTok)[f] == 0
  {
    if cs != [] {
      NoWaitersYet(cs[..|cs| - 1], f);
    }
  }

  lemma InitialTidy(s: State)
    requires Initial(s)
    ensures Tidy(s)
  {
    forall f: FiberId ensures TidyFiber(s, f) {
      NoTokensYet(s.workers, f);
      NoWaitersYet(s.io.contexts, f);
    }
  }

  lemma {:induction false} LibraryRunIsTidy(ss: seq<State>, steps: seq<Step>, n: nat)
    requires Run(ss, steps) && n <= |steps| && AllByLibrary(steps)
    ensures AllInv(ss, n) && Tidy(ss[n])
  {
    if n == 0 {
      InitialInv(ss[0]);
      InitialTidy(ss[0]);
    } else {
      LibraryRunIsTidy(ss, steps, n - 1);
      AlwaysAt(InvAt(ss), n, n - 1);
      RunStep(ss, steps, n - 1);
      TidyStep(ss[n - 1], steps[n - 1], ss[n]);
    }
  }

  lemma LibraryRunIsSafe(ss: seq<State>, steps: seq<Step>, n: nat)
    requires Run(ss, steps) && n <= |steps| && AllByLibrary(steps)
    ensures Inv(ss[n]) && Tidy(ss[n]) && Safe(ss[n])
    ensures forall f :: Tokens(ss[n], f) <= 1
  {
    LibraryRunIsTidy(ss, steps, n);
    AlwaysAt(InvAt(ss), n + 1, n);
    TidyIsSafe(ss[n]);
  }

  /** Every run in which fibers park only through the library is disciplined, hence safe, and no fiber ever has two
      outstanding wake-ups. */
  lemma LibraryRunIsDisciplined(ss: seq<State>, steps: seq<Step>, n: nat)
    requires Run(ss, steps) && n <= |steps| && AllByLibrary(steps)
    ensures AllDisciplined(ss, steps, n) && Inv(ss[n]) && Tidy(ss[n]) && Safe(ss[n])
    ensures forall f :: Tokens(ss[n], f) <= 1
  {
    assert AllDisciplined(ss, steps, n) by {
      LibraryRunIsTidy(ss, steps, n);
      DisciplineIsExact(ss, steps, n);
    }
    LibraryRunIsSafe(ss, steps, n);
  }

  // ----------------------------------------------------------------------------------------------------------
  // No wake-up is lost

  /** The step throws no wake-up away and parks nobody without one. */
  ghost predicate Careful(s: State, st: Step) {
    Dropped(s, st) == multiset{} && !(st.Act? && st.act.YieldBare?)
  }

  ghost predicate Expected(s: State, f: FiberId) {
    f < |s.fibers| && Waiting(s.fibers[f]) ==> Tokens(s, f) == 1
  }

  /** Every fiber that waits has exactly one wake-up on its way. */
  ghost predicate NoneLost(s: State) {
    forall f: FiberId :: Expected(s, f)
  }

  /** A fiber waits after the step because it parks in it, or because it waited before and is not swapped in. */
  lemma WhoWaits(s: State, st: Step, g: FiberId)
    requires Inv(s) && Enabled(s, st) && !(st.Act? && st.act.YieldBare?)
    requires g < |Apply(s, st).fibers| && Waiting(Apply(s, st).fibers[g])
    ensures Gains(s, st, g) || (g < |s.fibers| && Waiting(s.fibers[g]))
    ensures !Uses(s, st, g)
  {
    match st
    case Work(w, a) => WhoWaitsAtWork(s, w, a, g);
    case Act(w, a) => WhoWaitsAtAct(s, w, a, g);
    case Open(a) => OpenRecords(s, a);
    case Idle(w, a) => IdleRecords(s, w, a);
  }

  lemma WhoWaitsAtAct(s: State, w: nat, st: FiberStep, g: FiberId)
    requires FiberEnabled(s, w, st) && !st.YieldBare?
    requires g < |FiberApply(s, w, st).fibers| && Waiting(FiberApply(s, w, st).fibers[g])
    ensures Gains(s, Act(w, st), g) || (g < |s.fibers| && Waiting(s.fibers[g]))
  {
    var f := s.workers[w].pc.fiber;
    FiberRecords(s, f, s.fibers[f].act, st);
    ActorRecord(s, f, s.fibers[f].act, st);
  }

  lemma WhoWaitsAtWork(s: State, w: nat, st: WorkerStep, g: FiberId)
    requires Inv(s) && WorkerEnabled(s, w, st)
    requires g < |WorkerApply(s, w, st).fibers| && Waiting(WorkerApply(s, w, st).fibers[g])
    ensures g < |s.fibers| && Waiting(s.fibers[g]) && !Uses(s, Work(w, st), g)
  {
    WorkerRecords(s, w, st, g);
    if st.WriteHold? {
      HolderSees(s, w, s.workers[w].pc.fiber);
    }
    if st.SwapIn? {
      SwappedInRuns(s, w);
    }
  }

  lemma SwappedInRuns(s: State, w: nat)
    requires WorkerEnabled(s, w, SwapIn)
    ensures !Waiting(WorkerApply(s, w, SwapIn).fibers[s.workers[w].pc.entry.task.fiber])
  {
  }

  lemma StaysExpected(s: State, st: Step, g: FiberId)
    requires Inv(s) && Tidy(s) && Expected(s, g) && Enabled(s, st) && ByLibrary(st) && Careful(s, st)
    ensures Expected(Apply(s, st), g)
  {
    var t := Apply(s, st);
    if g < |t.fibers| && Waiting(t.fibers[g]) {
      WhoWaits(s, st, g);
      StepTokens(s, st, g);
      FiberStaysTidy(s, st, g);
    }
  }

  /** A fiber that yields bare waits for nothing. */
  lemma BareYieldStrands(s: State, w: nat)
    requires Inv(s) && Tidy(s) && FiberEnabled(s, w, YieldBare)
    ensures !Expected(FiberApply(s, w, YieldBare), s.workers[w].pc.fiber)
  {
    var f := s.workers[w].pc.fiber;
    ActorHasNoToken(s, w, YieldBare);
    var t := FiberApply(s, w, YieldBare);
    assert t == SetAct(s, f, Parked);
    TokensAfterFiber(s, t, f, s.fibers[f].(act := Parked), f);
  }

  /** The fiber whose registration is deleted was waiting, for that alone. */
  lemma DeletionStrands(s: State, fd: nat, e: Event, ok: bool, g: FiberId)
    requires Inv(s) && Tidy(s) && g in Deleted(s.io, fd, e, ok)
    ensures !Expected(OpenApply(s, DelFdEvent(fd, e, ok)), g)
  {
    WasWaiting(s, fd, e, ok, g);
    DeletionTokens(s, OpenApply(s, DelFdEvent(fd, e, ok)), fd, e, ok, g);
  }

  lemma WasWaiting(s: State, fd: nat, e: Event, ok: bool, g: FiberId)
    requires Tidy(s) && g in Deleted(s.io, fd, e, ok)
    ensures g < |s.fibers| && Waiting(s.fibers[g]) && Tokens(s, g) == 1
  {
    assert TidyFiber(s, g);
    DelEventDrops(s.io, fd, e, ok, g);
    HandedIsToken(s, g);
  }

  /** A library step loses no wake-up exactly when it is careful. */
  lemma LosesNoneExactly(s: State, st: Step, t: State)
    requires Inv(s) && Tidy(s) && NoneLost(s) && Enabled(s, st) && ByLibrary(st) && t == Apply(s, st)
    ensures NoneLost(t) <==> Careful(s, st)
  {
    if Careful(s, st) {
      forall g: FiberId ensures Expected(t, g) {
        assert Expected(s, g);
        StaysExpected(s, st, g);
      }
    } else if st.Act? {
      BareYieldStrands(s, st.w);
    } else {
      var g :| g in Dropped(s, st);
      DeletionStrands(s, st.open.fd, st.open.event, st.open.ok, g);
    }
  }

  lemma LosesNoneAt(ss: seq<State>, steps: seq<Step>, n: nat)
    requires Run(ss, steps) && n < |steps| && NoneLost(ss[n]) && AllByLibrary(steps)
    ensures NoneLost(ss[n + 1]) <==> Careful(ss[n], steps[n])
  {
    LibraryRunIsTidy(ss, steps, n);
    AlwaysAt(InvAt(ss), n + 1, n);
    RunStep(ss, steps, n);
    LosesNoneExactly(ss[n], steps[n], ss[n + 1]);
  }

  lemma NobodyWaitsYet(s: State)
    requires Initial(s)
    ensures NoneLost(s)
  {
  }

  ghost function NoneLostAt(ss: seq<State>): nat -> bool {
    (i: nat) => i < |ss| && NoneLost(ss[i])
  }

  ghost function CarefulAt(ss: seq<State>, steps: seq<Step>): nat -> bool {
    (i: nat) => i < |steps| && i < |ss| && Careful(ss[i], steps[i])
  }

  lemma CareCarries(ss: seq<State>, steps: seq<Step>, i: nat)
    requires Run(ss, steps) && i < |steps| && AllByLibrary(steps)
    ensures NoneLostAt(ss)(i) ==> (NoneLostAt(ss)(i + 1) <==> CarefulAt(ss, steps)(i))
  {
    if NoneLost(ss[i]) {
      LosesNoneAt(ss, steps, i);
    }
  }

  /** In library runs no wake-up is ever lost exactly when no registration is deleted under a waiting fiber and no fiber
      yields bare: then a fiber that waits has exactly one wake-up on its way, in every state. */
  lemma NoWakeupIsLost(ss: seq<State>, steps: seq<Step>, n: nat)
    requires Run(ss, steps) && n <= |steps| && AllByLibrary(steps)
    ensures Always(NoneLostAt(ss), n + 1) <==> Always(CarefulAt(ss, steps), n)
  {
    NobodyWaitsYet(ss[0]);
    var p, q := NoneLostAt(ss), CarefulAt(ss, steps);
    forall i | 0 <= i < n ensures p(i) ==> (p(i + 1) <==> q(i)) {
      CareCarries(ss, steps, i);
    }
    AlwaysExact(p, q, n);
  }
}
