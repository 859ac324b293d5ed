/** Is `MayHand` needed for safety itself, and not only for the invariant? In a quiet moment it is exactly that: with
    all workers, at least two, at the top of their loops and nothing on the list but entries of the fiber, one hand-over
    of it can be followed by an assertion failure or by two threads in one fiber if and only if it may not be made. What
    follows are the workers' own steps and submitted callbacks, so the hand-over alone is to blame. */
module SafetyExact {
  import opened Folds
  import opened Tasks
  import opened Runtime
  import opened HandOvers
  import opened WakeSafety

  /** The steps lead from s to t. */
  ghost predicate Leads(s: State, steps: seq<Step>, t: State)
    decreases |steps|
  {
    if steps == [] then t == s else Enabled(s, steps[0]) && Leads(Apply(s, steps[0]), steps[1..], t)
  }

  /** Workers go on, and callbacks are submitted: no fiber is handed over from outside. */
  predicate Innocent(st: Step) {
    st.Work? || (st.Open? && st.open.Submit?)
  }

  predicate AllInnocent(steps: seq<Step>) {
    forall i :: 0 <= i < |steps| ==> Innocent(steps[i])
  }

  ghost predicate Quiet(s: State, f: FiberId) {
    && |s.workers| >= 2 && (forall i :: 0 <= i < |s.workers| ==> s.workers[i].pc == Loop)
    && forall i :: 0 <= i < |s.queue| ==> s.queue[i] == Entry(RunFiber(f), -1)
  }

  function HandOver(f: FiberId): Step {
    Open(RawSchedule(f, -1))
  }

  // ----------------------------------------------------------------------------------------------------------
  // Allowed hand-overs

  lemma InnocentIsDisciplined(s: State, st: Step)
    requires Enabled(s, st) && Innocent(st)
    ensures Disciplined(s, st)
  {
    if st.Open? {
      forall g: FiberId ensures Given(PutOn(s, st), g) == 0 {
        GivenOne(Entry(RunCallback(UserCode(st.open.id)), st.open.thread), g);
      }
    } else {
      NothingPutOn(s);
    }
  }

  lemma {:induction false} InnocentKeepsInv(s: State, steps: seq<Step>, t: State)
    requires Inv(s) && AllInnocent(steps) && Leads(s, steps, t)
    ensures Inv(t)
    decreases |steps|
  {
    if steps != [] {
      assert Innocent(steps[0]);
      InnocentIsDisciplined(s, steps[0]);
      StepKeepsInv(s, steps[0]);
      InnocentKeepsInv(Apply(s, steps[0]), steps[1..], t);
    }
  }

  lemma AllowedIsDisciplined(s: State, f: FiberId)
    requires f < |s.fibers| && MayHand(s, f)
    ensures Disciplined(s, HandOver(f))
  {
    var e := Entry(RunFiber(f), -1);
    forall g: FiberId ensures Given([e], g) == if g == f then 1 else 0 { GivenOne(e, g); }
  }

  // ----------------------------------------------------------------------------------------------------------
  // Forbidden hand-overs

  /** Worker w takes the first entry. */
  lemma TakeFirst(s: State, w: nat)
    requires w < |s.workers| && s.workers[w].pc == Loop && s.queue != [] && Eligible(s.queue[0], w, s.fibers)
    ensures Enabled(s, Work(w, Take))
    ensures var t := Apply(s, Work(w, Take));
            && t.queue == s.queue[1..] && t.fibers == s.fibers
            && t.workers == s.workers[w := s.workers[w].(pc := Picked(s.queue[0]))]
  {
    assert PickIndex(s, w) == 0;
  }

  lemma SwapInFails(s: State, w: nat, f: FiberId)
    requires w < |s.workers| && s.workers[w].pc == Picked(Entry(RunFiber(f), -1))
    requires f < |s.fibers| && s.fibers[f].state == EXEC
    ensures !Safe(s)
  {
    assert WorkerEnabled(s, w, SwapIn);
  }

  lemma LeadsOne(s: State, st: Step, steps: seq<Step>, t: State)
    requires Enabled(s, st) && Leads(Apply(s, st), steps, t)
    ensures Leads(s, [st] + steps, t)
  {
    assert ([st] + steps)[1..] == steps;
  }

  lemma LeadsNowhere(s: State)
    ensures Leads(s, [], s)
  {
  }

  /** Both entries are taken before either worker swaps the fiber in. */
  lemma TwoEntriesBreak(s: State, f: FiberId) returns (steps: seq<Step>, t: State)
    requires |s.workers| >= 2 && s.workers[0].pc == Loop && s.workers[1].pc == Loop
    requires s.queue == [Entry(RunFiber(f), -1), Entry(RunFiber(f), -1)]
    requires f < |s.fibers| && s.fibers[f].state != EXEC && !Ended(s.fibers[f].state)
    ensures AllInnocent(steps) && Leads(s, steps, t) && !Safe(t)
  {
    TakeFirst(s, 0);
    var s1 := Apply(s, Work(0, Take));
    assert s1.queue == [Entry(RunFiber(f), -1)];
    steps, t := OneTakenBreaks(s1, f);
    LeadsOne(s, Work(0, Take), steps, t);
    steps := [Work(0, Take)] + steps;
  }

  lemma OneTakenBreaks(s: State, f: FiberId) returns (steps: seq<Step>, t: State)
    requires |s.workers| >= 2 && s.workers[0].pc == Picked(Entry(RunFiber(f), -1)) && s.workers[1].pc == Loop
    requires s.queue == [Entry(RunFiber(f), -1)]
    requires f < |s.fibers| && s.fibers[f].state != EXEC && !Ended(s.fibers[f].state)
    ensures AllInnocent(steps) && Leads(s, steps, t) && !Safe(t)
  {
    TakeFirst(s, 1);
    var s1 := Apply(s, Work(1, Take));
    t := SwapInNow(s1, 0, f);
    SwapInFails(t, 1, f);
    LeadsNowhere(t);
    LeadsOne(s1, Work(0, SwapIn), [], t);
    LeadsOne(s, Work(1, Take), [Work(0, SwapIn)] + [], t);
    steps := [Work(1, Take)] + ([Work(0, SwapIn)] + []);
  }

  lemma SwapInNow(s: State, w: nat, f: FiberId) returns (t: State)
    requires w < |s.workers| && s.workers[w].pc == Picked(Entry(RunFiber(f), -1))
    requires f < |s.fibers| && !Ended(s.fibers[f].state)
    ensures Enabled(s, Work(w, SwapIn)) && t == Apply(s, Work(w, SwapIn))
    ensures t.workers == s.workers[w := s.workers[w].(pc := Running(f, false))]
    ensures f < |t.fibers| && t.fibers[f].state == EXEC
  {
    t := Apply(s, Work(w, SwapIn));
  }

  lemma SubmitNow(s: State) returns (t: State)
    ensures Enabled(s, Open(Submit(0, -1))) && t == Apply(s, Open(Submit(0, -1)))
    ensures t.workers == s.workers && t.fibers == s.fibers
    ensures t.queue == s.queue + [Entry(RunCallback(UserCode(0)), -1)]
  {
    t := Apply(s, Open(Submit(0, -1)));
  }

  lemma StartNow(s: State, w: nat, f: FiberId) returns (t: State)
    requires w < |s.workers| && s.workers[w].pc == Picked(Entry(RunCallback(UserCode(0)), -1))
    requires s.workers[w].cbFiber == Some(f) && f < |s.fibers|
    ensures Enabled(s, Work(w, StartCallback)) && t == Apply(s, Work(w, StartCallback))
    ensures |t.workers| == |s.workers| && forall i :: 0 <= i < |s.workers| && i != w ==> t.workers[i] == s.workers[i]
    ensures f < |t.fibers| && t.fibers[f].state == EXEC
  {
    t := Apply(s, Work(w, StartCallback));
    assert t == StartOnCached(s, w);
  }

  /** The entry of a cached callback fiber is taken by one worker, then the other starts a callback on the fiber. */
  lemma CachedEntryBreaks(s: State, f: FiberId, w: nat, c: nat) returns (steps: seq<Step>, t: State)
    requires w < |s.workers| && c < |s.workers| && w != c && s.workers[w].pc == Loop && s.workers[c].pc == Loop
    requires s.workers[c].cbFiber == Some(f) && s.queue == [Entry(RunFiber(f), -1)]
    requires f < |s.fibers| && s.fibers[f].state == INIT
    ensures AllInnocent(steps) && Leads(s, steps, t) && !Safe(t)
  {
    TakeFirst(s, w);
    var s1 := Apply(s, Work(w, Take));
    var s2 := SubmitNow(s1);
    assert s2.queue == [Entry(RunCallback(UserCode(0)), -1)];
    steps, t := ReuseBreaks(s2, f, w, c);
    LeadsOne(s1, Open(Submit(0, -1)), steps, t);
    LeadsOne(s, Work(w, Take), [Open(Submit(0, -1))] + steps, t);
    steps := [Work(w, Take)] + ([Open(Submit(0, -1))] + steps);
  }

  lemma ReuseBreaks(s: State, f: FiberId, w: nat, c: nat) returns (steps: seq<Step>, t: State)
    requires w < |s.workers| && c < |s.workers| && w != c && s.workers[c].pc == Loop
    requires s.workers[w].pc == Picked(Entry(RunFiber(f), -1)) && s.workers[c].cbFiber == Some(f) && f < |s.fibers|
    requires s.queue == [Entry(RunCallback(UserCode(0)), -1)]
    ensures AllInnocent(steps) && Leads(s, steps, t) && !Safe(t)
  {
    TakeFirst(s, c);
    var s1 := Apply(s, Work(c, Take));
    t := StartNow(s1, c, f);
    SwapInFails(t, w, f);
    LeadsNowhere(t);
    LeadsOne(s1, Work(c, StartCallback), [], t);
    LeadsOne(s, Work(c, Take), [Work(c, StartCallback)] + [], t);
    steps := [Work(c, Take)] + ([Work(c, StartCallback)] + []);
  }

  // ----------------------------------------------------------------------------------------------------------
  // What a quiet state looks like

  lemma {:induction false} NobodyHolds(ws: seq<Worker>, g: FiberId)
    requires forall i :: 0 <= i < |ws| ==> ws[i].pc == Loop
    ensures Sum(ws, HeldBy)[g] == 0 && Sum(ws, InHandOf)[g] == 0
  {
    if ws != [] {
      NobodyHolds(ws[..|ws| - 1], g);
    }
  }

  lemma {:induction false} EntriesCount(q: seq<Entry>, f: FiberId)
    requires forall i :: 0 <= i < |q| ==> q[i] == Entry(RunFiber(f), -1)
    ensures Sum(q, HandTok)[f] == |q|
  {
    if q != [] {
      EntriesCount(q[..|q| - 1], f);
    }
  }

  /** The two ways in which a quiet state forbids a hand-over. */
  lemma QuietForbids(s: State, f: FiberId)
    requires Inv(s) && Quiet(s, f) && f < |s.fibers| && !MayHand(s, f)
    ensures s.fibers[f].state != EXEC && !Ended(s.fibers[f].state)
    ensures || s.queue == [Entry(RunFiber(f), -1)]
            || (s.queue == [] && Cached(s, f) == 1 && s.fibers[f].state == INIT)
  {
    assert FiberOk(s, f);
    QuietCounts(s, f);
  }

  lemma QuietCounts(s: State, f: FiberId)
    requires Quiet(s, f)
    ensures Held(s, f) == 0 && InHand(s, f) == 0 && Handed(s, f) == |s.queue|
  {
    NobodyHolds(s.workers, f);
    EntriesCount(s.queue, f);
  }

  lemma Cacher(s: State, f: FiberId) returns (c: nat)
    requires Cached(s, f) == 1
    ensures c < |s.workers| && s.workers[c].cbFiber == Some(f)
  {
    c := SumWitness(s.workers, f, CachedBy);
  }

  lemma HandOverShape(s: State, f: FiberId)
    requires f < |s.fibers|
    ensures var t := Apply(s, HandOver(f));
            && t.workers == s.workers && t.fibers == s.fibers && t.queue == s.queue + [Entry(RunFiber(f), -1)]
            && (s.queue == [] ==> t.queue == [Entry(RunFiber(f), -1)])
  {
  }

  lemma ForbiddenBreaks(s: State, f: FiberId) returns (steps: seq<Step>, t: State)
    requires Inv(s) && Quiet(s, f) && f < |s.fibers| && !MayHand(s, f)
    ensures AllInnocent(steps) && Leads(Apply(s, HandOver(f)), steps, t) && !Safe(t)
  {
    QuietForbids(s, f);
    var s1 := Apply(s, HandOver(f));
    HandOverShape(s, f);
    if s.queue != [] {
      steps, t := TwoEntriesBreak(s1, f);
    } else {
      var c := Cacher(s, f);
      steps, t := CachedEntryBreaks(s1, f, if c == 0 then 1 else 0, c);
    }
  }

  /** However the workers go on, only safe states follow. */
  ghost predicate StaysSafe(s: State) {
    forall steps, t :: AllInnocent(steps) && Leads(s, steps, t) ==> Safe(t)
  }

  lemma InvStaysSafe(s: State)
    requires Inv(s)
    ensures StaysSafe(s)
  {
    forall steps, t | AllInnocent(steps) && Leads(s, steps, t) ensures Safe(t) {
      InnocentKeepsInv(s, steps, t);
      InvIsSafe(t);
    }
  }

  lemma NotStaysSafe(s: State, steps: seq<Step>, t: State)
    requires AllInnocent(steps) && Leads(s, steps, t) && !Safe(t)
    ensures !StaysSafe(s)
  {
  }

  lemma AllowedKeepsInv(s: State, f: FiberId)
    requires Inv(s) && f < |s.fibers| && MayHand(s, f)
    ensures Inv(Apply(s, HandOver(f)))
  {
    AllowedIsDisciplined(s, f);
    StepKeepsInv(s, HandOver(f));
  }

  /** In a quiet state, a hand-over is followed only by safe states, however the workers go on, if and only if it may be
      made. */
  lemma SafeExactly(s: State, f: FiberId)
    requires Inv(s) && Quiet(s, f) && f < |s.fibers|
    ensures StaysSafe(Apply(s, HandOver(f))) <==> MayHand(s, f)
  {
    if MayHand(s, f) {
      AllowedKeepsInv(s, f);
      InvStaysSafe(Apply(s, HandOver(f)));
    } else {
      var steps, t := ForbiddenBreaks(s, f);
      NotStaysSafe(Apply(s, HandOver(f)), steps, t);
    }
  }
}
