/** Who has a fiber. A hand-over is a call of schedule() with the fiber; it is outstanding as an entry on the list or in
    a worker's hand until the fiber is swapped in (or found ended and dropped). A fiber is held from swap-in until its
    worker has dealt with the state it left, and cached while it is some worker's cb_fiber. */
module HandOvers {
  import opened Folds
  import opened Tasks
  import opened Runtime

  ghost function HandTok(e: Entry): multiset<FiberId> {
    TaskHand(e.task)
  }

  ghost function TaskHand(t: Task): multiset<FiberId> {
    if t.RunFiber? then multiset{t.fiber} else multiset{}
  }

  ghost function HeldBy(w: Worker): multiset<FiberId> {
    match w.pc
    case Running(f, _) => multiset{f}
    case Back(f, _) => multiset{f}
    case Released(f, _) => multiset{f}
    case MarkHold(f, _) => multiset{f}
    case Requeue(f, _) => multiset{f}
    case _ => multiset{}
  }

  /** Taken off the list as a fiber entry, not yet swapped in. */
  ghost function InHandOf(w: Worker): multiset<FiberId> {
    if w.pc.Picked? then HandTok(w.pc.entry) else multiset{}
  }

  ghost function CachedBy(w: Worker): multiset<FiberId> {
    if w.cbFiber.Some? then multiset{w.cbFiber.value} else multiset{}
  }

  ghost function Held(s: State, f: FiberId): nat { Sum(s.workers, HeldBy)[f] }
  ghost function InHand(s: State, f: FiberId): nat { Sum(s.workers, InHandOf)[f] }
  ghost function Cached(s: State, f: FiberId): nat { Sum(s.workers, CachedBy)[f] }

  /** Outstanding hand-overs of f. */
  ghost function Handed(s: State, f: FiberId): nat { Sum(s.queue, HandTok)[f] + InHand(s, f) }

  /** How often a batch of entries hands over f. */
  ghost function Given(es: seq<Entry>, f: FiberId): nat { Sum(es, HandTok)[f] }

  lemma {:induction false} GivenByTasks(tasks: seq<Task>)
    ensures Sum(Entries(tasks), HandTok) == Sum(tasks, TaskHand)
  {
    if tasks != [] {
      var n := |tasks| - 1;
      assert Entries(tasks)[..n] == Entries(tasks[..n]);
      GivenByTasks(tasks[..n]);
    }
  }

  lemma GivenOne(e: Entry, f: FiberId)
    ensures Given([e], f) == HandTok(e)[f] && Given([], f) == 0
  {
    SumOne(e, HandTok);
  }

  lemma {:induction false} CallbacksGiveNothing(hand: seq<Callback>, f: FiberId)
    ensures Given(Entries(AsCallbacks(hand)), f) == 0
  {
    GivenByTasks(AsCallbacks(hand));
    if hand != [] {
      var n := |hand| - 1;
      assert AsCallbacks(hand)[..n] == AsCallbacks(hand[..n]);
      CallbacksGiveNothing(hand[..n], f);
      GivenByTasks(AsCallbacks(hand[..n]));
    }
  }

  // ----------------------------------------------------------------------------------------------------------
  // The counts after a change

  /** t has the workers of s, except that worker w became nw. */
  ghost predicate OneWorker(s: State, t: State, w: nat, nw: Worker) {
    w < |s.workers| && t.workers == s.workers[w := nw]
  }

  lemma HeldAfter(s: State, t: State, w: nat, nw: Worker, g: FiberId)
    requires OneWorker(s, t, w, nw)
    ensures Held(t, g) + HeldBy(s.workers[w])[g] == Held(s, g) + HeldBy(nw)[g]
  {
    SumShift(s.workers, w, nw, HeldBy, g);
  }

  lemma CachedAfter(s: State, t: State, w: nat, nw: Worker, g: FiberId)
    requires OneWorker(s, t, w, nw)
    ensures Cached(t, g) + CachedBy(s.workers[w])[g] == Cached(s, g) + CachedBy(nw)[g]
  {
    SumShift(s.workers, w, nw, CachedBy, g);
  }

  lemma InHandAfter(s: State, t: State, w: nat, nw: Worker, g: FiberId)
    requires OneWorker(s, t, w, nw)
    ensures InHand(t, g) + InHandOf(s.workers[w])[g] == InHand(s, g) + InHandOf(nw)[g]
  {
    SumShift(s.workers, w, nw, InHandOf, g);
  }

  /** One worker moved and the list grew by es. */
  lemma HandedAfter(s: State, t: State, w: nat, nw: Worker, es: seq<Entry>, g: FiberId)
    requires OneWorker(s, t, w, nw) && t.queue == s.queue + es
    ensures InHand(t, g) + InHandOf(s.workers[w])[g] == InHand(s, g) + InHandOf(nw)[g]
    ensures Handed(t, g) + InHandOf(s.workers[w])[g] == Handed(s, g) + InHandOf(nw)[g] + Given(es, g)
  {
    InHandAfter(s, t, w, nw, g);
    SumConcat(s.queue, es, HandTok);
  }

  /** One worker moved and the list stayed. */
  lemma HandedMoved(s: State, t: State, w: nat, nw: Worker, g: FiberId)
    requires OneWorker(s, t, w, nw) && t.queue == s.queue
    ensures InHand(t, g) + InHandOf(s.workers[w])[g] == InHand(s, g) + InHandOf(nw)[g]
    ensures Handed(t, g) + InHandOf(s.workers[w])[g] == Handed(s, g) + InHandOf(nw)[g]
  {
    InHandAfter(s, t, w, nw, g);
  }

  /** Only the list grew. */
  lemma HandedMore(s: State, t: State, es: seq<Entry>, g: FiberId)
    requires t.workers == s.workers && t.queue == s.queue + es
    ensures Handed(t, g) == Handed(s, g) + Given(es, g)
    ensures Held(t, g) == Held(s, g) && InHand(t, g) == InHand(s, g) && Cached(t, g) == Cached(s, g)
  {
    SumConcat(s.queue, es, HandTok);
  }

  /** Taking an entry moves it from the list into the hand. */
  lemma HandedByTake(s: State, w: nat, g: FiberId)
    requires WorkerEnabled(s, w, Take)
    ensures Handed(WorkerApply(s, w, Take), g) == Handed(s, g)
  {
    var t := WorkerApply(s, w, Take);
    var i := PickIndex(s, w);
    SumRemove(s.queue, i, HandTok, g);
    InHandAfter(s, t, w, s.workers[w].(pc := Picked(s.queue[i])), g);
  }
}
