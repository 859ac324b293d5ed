/** Runs of the timer manager (sylar/timer.cc): when does the set hold exactly the timers with a callback, and is the
    thread that sleeps for the wait computed by getNextTimer always woken in time?

    Only addTimer and reset call the wake-up hook; refresh and the re-insertion of recurring timers do not, and a
    second insertion at the front is silent until the next getNextTimer. */
module TimerRuns {
  import opened Bits
  import opened Folds
  import opened Tasks
  import opened Timers

  /** `issued`: the hook was called since the last getNextTimer. `deadline`: the moment that call told its caller to
      wait for, None when there was no timer. */
  datatype Sys = Sys(m: Manager, now: nat, issued: bool, deadline: Option<nat>)

  /** Readings taken before the lock (`start`, `reading`) need not be those of the clock when the lock is held. */
  datatype Step =
    | Tick(to: nat)
    | Add(addr: nat, ms: nat, cb: Option<nat>, recurring: bool, start: nat)
    | CancelOne(a: nat)
    | RefreshOne(a: nat)
    | ResetOne(a: nat, ms: nat, fromNow: bool)
    | NextWait
    | Expire(reading: nat, probe: nat)

  /** A new timer is not at the address of a pending one, and the others act on a timer that exists. */
  predicate Possible(s: Sys, step: Step) {
    match step
    case Add(addr, _, _, _, _) => addr !in s.m.order
    case CancelOne(a) => a in s.m.objs
    case RefreshOne(a) => a in s.m.objs
    case ResetOne(a, _, _) => a in s.m.objs
    case _ => true
  }

  function Apply(s: Sys, step: Step): Sys {
    if !Known(s.m.objs, s.m.order) || !Possible(s, step) then s else ApplyKnown(s, step)
  }

  function ApplyKnown(s: Sys, step: Step): Sys
    requires Known(s.m.objs, s.m.order) && Possible(s, step)
  {
    match step
    case Tick(to) => s.(now := to)
    case Add(addr, ms, cb, recurring, start) =>
      var r := AddTimer(s.m, addr, ms, cb, recurring, start);
      s.(m := r.0, issued := s.issued || r.1)
    case CancelOne(a) => s.(m := Cancel(s.m, a).0)
    case RefreshOne(a) => s.(m := Refresh(s.m, a, s.now).0)
    case ResetOne(a, ms, fromNow) =>
      var r := Reset(s.m, a, ms, fromNow, s.now);
      s.(m := r.0, issued := s.issued || r.2)
    case NextWait =>
      s.(m := GetNextTimer(s.m, s.now).0, issued := false,
         deadline := if s.m.order == [] then None else Some(s.m.objs[s.m.order[0]].next))
    case Expire(reading, probe) => s.(m := ListExpired(s.m, reading, probe).0)
  }

  /** A fresh manager. */
  predicate Initial(s: Sys) {
    s.m.objs == map[] && s.m.order == [] && !s.m.tickled && !s.issued && s.deadline == None
  }

  /** Any sequence of operations, with any clock, readings and intervals. */
  ghost predicate Run(ss: seq<Sys>, steps: seq<Step>) {
    && |ss| == |steps| + 1
    && Initial(ss[0])
    && forall i {:trigger steps[i]} :: 0 <= i < |steps| ==>
         Possible(ss[i], steps[i]) && ss[i + 1] == Apply(ss[i], steps[i])
  }

  // ----------------------------------------------------------------------------------------------------------
  // The set

  ghost predicate SetOk(s: Sys) {
    Ordered(s.m) && s.issued == s.m.tickled
  }

  lemma FrontIsEarliest(m: Manager)
    requires Ordered(m) && m.order != []
    ensures forall a :: a in m.order ==> m.objs[m.order[0]].next <= m.objs[a].next
  {
    forall a | a in m.order ensures m.objs[m.order[0]].next <= m.objs[a].next {
      var i :| 0 <= i < |m.order| && m.order[i] == a;
      if i > 0 {
        assert Less(KeyOf(m.objs, m.order[0]), KeyOf(m.objs, m.order[i]));
      }
    }
  }

  /** What addTimer(timer, lock) does to the manager: `timer` is put in at address a, and the hook is called when it
      comes to the front of an untickled set. */
  ghost predicate Inserted(s: Sys, t: Sys, a: nat, timer: Timer) {
    && t.now == s.now && t.deadline == s.deadline
    && t.m.objs == s.m.objs[a := timer] && Ordered(t.m) && a in t.m.order
    && t.issued == t.m.tickled == (s.issued || t.m.order[0] == a)
    && (forall x :: x in t.m.order && x != a ==> x in s.m.order)
  }

  function NewTimer(step: Step): Timer
    requires step.Add?
  {
    Timer(step.recurring, step.ms, Wrap(step.start + step.ms), step.cb)
  }

  lemma AddShape(s: Sys, step: Step)
    requires SetOk(s) && step.Add? && Possible(s, step)
    ensures Inserted(s, Apply(s, step), step.addr, NewTimer(step))
  {
    var r := AddTimer(s.m, step.addr, step.ms, step.cb, step.recurring, step.start);
    assert Apply(s, step) == s.(m := r.0, issued := s.issued || r.1);
    AddTimerShape(s.m, step.addr, step.ms, step.cb, step.recurring, step.start);
    InsertedShape(s, r.0, r.1, step.addr, NewTimer(step));
  }

  lemma InsertedShape(s: Sys, m: Manager, woke: bool, a: nat, timer: Timer)
    requires SetOk(s) && Ordered(m) && m.objs == s.m.objs[a := timer]
    requires (forall x :: x in m.order <==> x in s.m.order || x == a) && m.order != []
    requires (woke <==> !s.m.tickled && m.order[0] == a) && (m.tickled <==> s.m.tickled || woke)
    ensures Inserted(s, s.(m := m, issued := s.issued || woke), a, timer)
  {
  }

  lemma ResetEffect(s: Sys, step: Step)
    requires SetOk(s) && step.ResetOne? && Possible(s, step)
    ensures Apply(s, step) == s
            || Inserted(s, Apply(s, step), step.a, ResetTo(s.m.objs[step.a], step.ms, step.fromNow, s.now))
  {
    ResetKeeps(s.m, step.a, step.ms, step.fromNow, s.now);
    ResetShape(s.m, step.a, step.ms, step.fromNow, s.now);
  }

  /** Timers are moved or dropped without the hook being called. */
  ghost predicate Silently(s: Sys, t: Sys) {
    t == s.(m := t.m) && t.m.tickled == s.m.tickled && Ordered(t.m) && forall x :: x in t.m.order ==> x in s.m.order
  }

  lemma CancelShape(s: Sys, step: Step)
    requires SetOk(s) && step.CancelOne? && Possible(s, step)
    ensures Silently(s, Apply(s, step)) && Apply(s, step).m.objs.Keys == s.m.objs.Keys
    ensures forall x :: x in s.m.objs ==>
              Apply(s, step).m.objs[x].next == s.m.objs[x].next && Apply(s, step).m.objs[x].ms == s.m.objs[x].ms
  {
    CancelKeeps(s.m, step.a);
  }

  lemma ExpireShape(s: Sys, step: Step)
    requires SetOk(s) && step.Expire?
    ensures var t := Apply(s, step);
            && Silently(s, t) && t.m.objs.Keys == s.m.objs.Keys
            && (forall x :: x in t.m.order <==> x in s.m.order && (!Due(s.m, x, step.reading) || s.m.objs[x].recurring))
            && (forall x :: x in s.m.objs ==>
                  t.m.objs[x] ==
                  AfterExpiry(s.m.objs[x], x in s.m.order && Due(s.m, x, step.reading), step.reading))
  {
    ListExpiredExact(s.m, step.reading, step.probe);
  }

  lemma StepKeepsSet(s: Sys, step: Step)
    requires SetOk(s) && Possible(s, step)
    ensures SetOk(Apply(s, step))
  {
    match step {
      case Tick(_) =>
      case Add(_, _, _, _, _) => AddShape(s, step);
      case CancelOne(_) => CancelShape(s, step);
      case RefreshOne(a) => RefreshKeeps(s.m, a, s.now);
      case ResetOne(_, _, _) => ResetEffect(s, step);
      case NextWait =>
      case Expire(_, _) => ExpireShape(s, step);
    }
  }

  /** In every reachable state, whatever the clock, the readings, the intervals, overflowing or not, and the callbacks,
      null or not: the set is in order and holds every timer that has a callback, and the flag tells whether a wake-up
      was issued. */
  lemma {:induction false} EveryRunKeepsSet(ss: seq<Sys>, steps: seq<Step>, i: nat)
    requires Run(ss, steps) && i < |ss|
    ensures Ordered(ss[i].m) && ss[i].issued == ss[i].m.tickled && SetOk(ss[i])
    decreases i
  {
    if i > 0 {
      EveryRunKeepsSet(ss, steps, i - 1);
      assert Possible(ss[i - 1], steps[i - 1]);
      StepKeepsSet(ss[i - 1], steps[i - 1]);
    }
  }

  // ----------------------------------------------------------------------------------------------------------
  // Null callbacks

  /** From a state in which the set holds exactly the timers with a callback, only adding a null one leads out. */
  lemma AgreementExact(s: Sys, step: Step)
    requires SetOk(s) && Valid(s.m) && Possible(s, step)
    ensures Valid(Apply(s, step).m) <==> !(step.Add? && step.cb.None?)
  {
    match step {
      case Tick(_) =>
      case Add(addr, ms, cb, recurring, start) => AddTimerKeeps(s.m, addr, ms, cb, recurring, start);
      case CancelOne(a) => CancelKeeps(s.m, a);
      case RefreshOne(a) => RefreshKeeps(s.m, a, s.now);
      case ResetOne(a, ms, fromNow) => ResetKeeps(s.m, a, ms, fromNow, s.now);
      case NextWait =>
      case Expire(reading, probe) => ListExpiredExact(s.m, reading, probe);
    }
  }

  ghost function ValidAt(ss: seq<Sys>): nat -> bool {
    (i: nat) => i < |ss| && Valid(ss[i].m)
  }

  ghost function NotNullAt(steps: seq<Step>): nat -> bool {
    (i: nat) => i < |steps| && !(steps[i].Add? && steps[i].cb.None?)
  }

  lemma RunStep(ss: seq<Sys>, steps: seq<Step>, i: nat)
    requires Run(ss, steps) && i < |steps|
    ensures Possible(ss[i], steps[i]) && ss[i + 1] == Apply(ss[i], steps[i]) && SetOk(ss[i])
  {
    EveryRunKeepsSet(ss, steps, i);
  }

  lemma AgreementCarries(ss: seq<Sys>, steps: seq<Step>, i: nat)
    requires Run(ss, steps) && i < |steps|
    ensures ValidAt(ss)(i) ==> (ValidAt(ss)(i + 1) <==> NotNullAt(steps)(i))
  {
    RunStep(ss, steps, i);
    if Valid(ss[i].m) {
      AgreementExact(ss[i], steps[i]);
    }
  }

  /** In every run the set holds exactly the timers with a callback all along if and only if no null callback is ever
      added. */
  lemma AgreesExactly(ss: seq<Sys>, steps: seq<Step>, n: nat)
    requires Run(ss, steps) && n <= |steps|
    ensures Always(ValidAt(ss), n + 1) <==> Always(NotNullAt(steps), n)
  {
    var p, q := ValidAt(ss), NotNullAt(steps);
    forall i | 0 <= i < n ensures p(i) ==> (p(i + 1) <==> q(i)) {
      AgreementCarries(ss, steps, i);
    }
    AlwaysExact(p, q, n);
  }

  /** Timer a is in the set without a callback. */
  ghost predicate Null(s: Sys, a: nat) {
    a in s.m.order && a in s.m.objs && s.m.objs[a].cb.None?
  }

  /** The step lists a as expired for the last time. */
  ghost predicate Retires(s: Sys, step: Step, a: nat)
    requires a in s.m.objs
  {
    step.Expire? && Due(s.m, a, step.reading) && !s.m.objs[a].recurring
  }

  /** A timer with a null callback cannot be cancelled, refreshed or moved: it leaves the set only by expiring, and if
      it is recurring, never. */
  lemma NullStaysExactly(s: Sys, step: Step, a: nat)
    requires SetOk(s) && Possible(s, step) && Null(s, a)
    ensures Null(Apply(s, step), a) <==> !Retires(s, step, a)
    ensures a in Apply(s, step).m.objs && Apply(s, step).m.objs[a].recurring == s.m.objs[a].recurring
    ensures Cancel(s.m, a) == (s.m, false) && Refresh(s.m, a, s.now) == (s.m, false)
  {
    match step {
      case Tick(_) =>
      case Add(_, _, _, _, _) => AddKeepsMembers(s, step);
      case CancelOne(b) => CancelKeeps(s.m, b);
      case RefreshOne(b) => RefreshKeeps(s.m, b, s.now);
      case ResetOne(_, _, _) => ResetKeepsNull(s, step, a);
      case NextWait =>
      case Expire(reading, probe) => ListExpiredExact(s.m, reading, probe);
    }
  }

  lemma ResetKeepsNull(s: Sys, step: Step, a: nat)
    requires SetOk(s) && step.ResetOne? && Possible(s, step) && Null(s, a)
    ensures Null(Apply(s, step), a) && Apply(s, step).m.objs[a].recurring == s.m.objs[a].recurring
  {
    ResetKeeps(s.m, step.a, step.ms, step.fromNow, s.now);
    ResetShape(s.m, step.a, step.ms, step.fromNow, s.now);
  }

  lemma AddKeepsMembers(s: Sys, step: Step)
    requires SetOk(s) && step.Add? && Possible(s, step)
    ensures forall x :: x in s.m.order ==> x in Apply(s, step).m.order
    ensures Apply(s, step).m.objs == s.m.objs[step.addr := NewTimer(step)]
  {
    AddTimerShape(s.m, step.addr, step.ms, step.cb, step.recurring, step.start);
  }

  /** Over runs: a recurring timer with a null callback is in the set for ever. */
  lemma {:induction false} RecurringNullIsForever(ss: seq<Sys>, steps: seq<Step>, a: nat, i: nat, n: nat)
    requires Run(ss, steps) && i <= n < |ss| && Null(ss[i], a) && ss[i].m.objs[a].recurring
    ensures Null(ss[n], a) && ss[n].m.objs[a].recurring
    decreases n
  {
    if i < n {
      RecurringNullIsForever(ss, steps, a, i, n - 1);
      EveryRunKeepsSet(ss, steps, n - 1);
      assert Possible(ss[n - 1], steps[n - 1]);
      NullStaysExactly(ss[n - 1], steps[n - 1], a);
    }
  }

  // ----------------------------------------------------------------------------------------------------------
  // Wake-ups

  /** Nobody sleeps too long: a wake-up is under way, or every pending timer is due no earlier than the deadline. */
  ghost predicate Covered(s: Sys) {
    s.issued || forall a :: a in s.m.order && a in s.m.objs ==> NotBefore(s, s.m.objs[a].next)
  }

  predicate NotBefore(s: Sys, time: nat) {
    s.deadline.Some? && s.deadline.value <= time
  }

  /** The timers this step moves without telling anybody are not moved before the deadline. */
  ghost predicate Harmless(s: Sys, step: Step) {
    s.issued ||
    match step
    case RefreshOne(a) => a in s.m.objs && s.m.objs[a].cb.Some? ==> NotBefore(s, Wrap(s.now + s.m.objs[a].ms))
    case Expire(reading, _) =>
      forall a :: a in s.m.order && a in s.m.objs && s.m.objs[a].recurring && Due(s.m, a, reading) ==>
        NotBefore(s, Wrap(reading + s.m.objs[a].ms))
    case _ => true
  }

  /** The wait getNextTimer returns ends at the deadline, or at once when that has passed. */
  lemma WaitEndsAtDeadline(s: Sys)
    requires SetOk(s)
    ensures var wait := GetNextTimer(s.m, s.now).1;
            var deadline := Apply(s, NextWait).deadline;
            && (wait.None? <==> s.m.order == []) && (deadline.None? <==> s.m.order == [])
            && (wait.Some? ==>
                  && s.now + wait.value == (if deadline.value <= s.now then s.now else deadline.value)
                  && (exists a :: a in s.m.order && s.m.objs[a].next == deadline.value)
                  && (forall a :: a in s.m.order ==> deadline.value <= s.m.objs[a].next))
  {
    if s.m.order != [] {
      FrontIsEarliest(s.m);
      assert s.m.order[0] in s.m.order;
    }
  }

  /** An insertion that calls the hook when it lands at the front of an untickled set keeps everyone covered. */
  lemma InsertionCovers(s: Sys, t: Sys, a: nat, timer: Timer)
    requires Covered(s) && SetOk(s) && Inserted(s, t, a, timer)
    ensures Covered(t)
  {
    if !t.issued {
      FrontIsEarliest(t.m);
      var f := t.m.order[0];
      assert f in t.m.order;
      assert NotBefore(s, s.m.objs[f].next);
    }
  }

  lemma RefreshCovers(s: Sys, a: nat, m: Manager)
    requires SetOk(s) && Covered(s) && a in s.m.objs && Known(m.objs, m.order)
    requires forall x :: x in m.order <==> x in s.m.order
    requires forall x :: x in s.m.order ==>
               m.objs[x].next ==
               if x == a && s.m.objs[a].cb.Some? then Wrap(s.now + s.m.objs[a].ms) else s.m.objs[x].next
    ensures Covered(s.(m := m)) <==> Harmless(s, RefreshOne(a))
  {
    if Covered(s.(m := m)) && !s.issued && s.m.objs[a].cb.Some? {
      assert a in m.order && NotBefore(s.(m := m), m.objs[a].next);
    }
  }

  lemma RefreshCoverage(s: Sys, a: nat)
    requires SetOk(s) && Covered(s) && a in s.m.objs
    ensures Covered(Apply(s, RefreshOne(a))) <==> Harmless(s, RefreshOne(a))
  {
    RefreshKeeps(s.m, a, s.now);
    RefreshCovers(s, a, Refresh(s.m, a, s.now).0);
  }

  lemma AddCovers(s: Sys, step: Step)
    requires SetOk(s) && Covered(s) && step.Add? && Possible(s, step)
    ensures Covered(Apply(s, step))
  {
    AddShape(s, step);
    InsertionCovers(s, Apply(s, step), step.addr, NewTimer(step));
  }

  lemma CancelCovers(s: Sys, step: Step)
    requires SetOk(s) && Covered(s) && step.CancelOne? && Possible(s, step)
    ensures Covered(Apply(s, step))
  {
    CancelShape(s, step);
  }

  lemma NextCovers(s: Sys)
    requires SetOk(s)
    ensures Covered(Apply(s, NextWait))
  {
    WaitEndsAtDeadline(s);
  }

  /** m is what expiry makes of s.m. */
  ghost predicate Expired(s: Sys, m: Manager, reading: nat) {
    && m.objs.Keys == s.m.objs.Keys
    && Known(s.m.objs, s.m.order)
    && (forall x :: x in m.order <==> x in s.m.order && (!Due(s.m, x, reading) || s.m.objs[x].recurring))
    && (forall x :: x in s.m.objs ==>
          m.objs[x] == AfterExpiry(s.m.objs[x], x in s.m.order && Due(s.m, x, reading), reading))
  }

  lemma ExpiryCovers(s: Sys, m: Manager, reading: nat, probe: nat)
    requires Covered(s) && !s.issued && Expired(s, m, reading) && Harmless(s, Expire(reading, probe))
    ensures Covered(s.(m := m))
  {
    forall a | a in m.order && a in m.objs ensures NotBefore(s, m.objs[a].next) {
      assert a in s.m.order && NotBefore(s, s.m.objs[a].next);
    }
  }

  lemma ExpiryUncovers(s: Sys, m: Manager, reading: nat, probe: nat)
    requires !s.issued && Expired(s, m, reading) && Covered(s.(m := m))
    ensures Harmless(s, Expire(reading, probe))
  {
    forall a | a in s.m.order && a in s.m.objs && s.m.objs[a].recurring && Due(s.m, a, reading)
      ensures NotBefore(s, Wrap(reading + s.m.objs[a].ms))
    {
      assert a in m.order && NotBefore(s.(m := m), m.objs[a].next);
    }
  }

  lemma ExpireCoverage(s: Sys, reading: nat, probe: nat)
    requires SetOk(s) && Covered(s)
    ensures Covered(Apply(s, Expire(reading, probe))) <==> Harmless(s, Expire(reading, probe))
  {
    var m := ListExpired(s.m, reading, probe).0;
    ListExpiredExact(s.m, reading, probe);
    if !s.issued {
      if Harmless(s, Expire(reading, probe)) {
        ExpiryCovers(s, m, reading, probe);
      }
      if Covered(s.(m := m)) {
        ExpiryUncovers(s, m, reading, probe);
      }
    }
  }

  /** From a covered state, a step leads to a covered state exactly when it is harmless: no assumption on the clock. */
  lemma CoverageExact(s: Sys, step: Step)
    requires SetOk(s) && Covered(s) && Possible(s, step)
    ensures Covered(Apply(s, step)) <==> Harmless(s, step)
  {
    match step {
      case Tick(_) =>
      case Add(_, _, _, _, _) => AddCovers(s, step);
      case CancelOne(_) => CancelCovers(s, step);
      case RefreshOne(a) => RefreshCoverage(s, a);
      case ResetOne(_, _, _) => ResetCovers(s, step);
      case NextWait => NextCovers(s);
      case Expire(reading, probe) => ExpireCoverage(s, reading, probe);
    }
  }

  lemma ResetCovers(s: Sys, step: Step)
    requires SetOk(s) && Covered(s) && step.ResetOne? && Possible(s, step)
    ensures Covered(Apply(s, step))
  {
    ResetEffect(s, step);
    var t := Apply(s, step);
    if t != s {
      InsertionCovers(s, t, step.a, ResetTo(s.m.objs[step.a], step.ms, step.fromNow, s.now));
    }
  }

  ghost function CoveredAt(ss: seq<Sys>): nat -> bool {
    (i: nat) => i < |ss| && Covered(ss[i])
  }

  ghost function HarmlessAt(ss: seq<Sys>, steps: seq<Step>): nat -> bool {
    (i: nat) => i < |ss| && i < |steps| && Harmless(ss[i], steps[i])
  }

  lemma CoverageCarries(ss: seq<Sys>, steps: seq<Step>, i: nat)
    requires Run(ss, steps) && i < |steps|
    ensures CoveredAt(ss)(i) ==> (CoveredAt(ss)(i + 1) <==> HarmlessAt(ss, steps)(i))
  {
    RunStep(ss, steps, i);
    if Covered(ss[i]) {
      CoverageExact(ss[i], steps[i]);
    }
  }

  /** A run is covered all along exactly when all its steps are harmless. */
  lemma CoveredExactly(ss: seq<Sys>, steps: seq<Step>, n: nat)
    requires Run(ss, steps) && n <= |steps|
    ensures Always(CoveredAt(ss), n + 1) <==> Always(HarmlessAt(ss, steps), n)
  {
    var p, q := CoveredAt(ss), HarmlessAt(ss, steps);
    forall i | 0 <= i < n ensures p(i) ==> (p(i + 1) <==> q(i)) {
      CoverageCarries(ss, steps, i);
    }
    AlwaysExact(p, q, n);
  }

  // ----------------------------------------------------------------------------------------------------------
  // A clock that never goes back

  /** Clock readings stay within the horizon, and adding an interval to one does not overflow. */
  predicate Fits(ms: nat, horizon: nat) {
    horizon + ms < U64
  }

  /** The clock never goes back, readings are not from the future, and a reading that is taken for a rollover, if there
      is one, comes when it does no harm. */
  ghost predicate Steady(s: Sys, step: Step, horizon: nat) {
    match step
    case Tick(to) => s.now <= to <= horizon
    case Add(_, ms, _, _, start) => start <= s.now && Fits(ms, horizon)
    case ResetOne(_, ms, _) => Fits(ms, horizon)
    case Expire(reading, _) => reading <= s.now && (Rollover(s.m, reading) ==> Harmless(s, step))
    case _ => true
  }

  /** A timer is never due later than its interval from now, which is why refresh can only postpone it. */
  ghost predicate Bounded(s: Sys, horizon: nat) {
    s.now <= horizon &&
    forall a :: a in s.m.objs ==>
      Fits(s.m.objs[a].ms, horizon) && s.m.objs[a].ms <= s.m.objs[a].next <= s.now + s.m.objs[a].ms
  }

  ghost predicate Inv(s: Sys, horizon: nat) {
    SetOk(s) && Bounded(s, horizon) && Covered(s)
  }

  /** Under such a clock refresh and expiry only postpone, so every step is harmless. */
  lemma SteadyIsHarmless(s: Sys, step: Step, horizon: nat)
    requires Inv(s, horizon) && Possible(s, step) && Steady(s, step, horizon)
    ensures Harmless(s, step)
  {
  }

  lemma ExpireKeepsBounds(s: Sys, step: Step, horizon: nat)
    requires SetOk(s) && Bounded(s, horizon) && step.Expire? && step.reading <= s.now
    ensures Bounded(Apply(s, step), horizon)
  {
    ExpireShape(s, step);
    var t := Apply(s, step);
    forall x | x in t.m.objs
      ensures Fits(t.m.objs[x].ms, horizon) && t.m.objs[x].ms <= t.m.objs[x].next <= t.now + t.m.objs[x].ms
    {
      assert x in s.m.objs;
    }
  }

  lemma InsertedKeepsBounds(s: Sys, t: Sys, a: nat, timer: Timer, horizon: nat)
    requires Bounded(s, horizon) && Inserted(s, t, a, timer)
    requires Fits(timer.ms, horizon) && timer.ms <= timer.next <= s.now + timer.ms
    ensures Bounded(t, horizon)
  {
  }

  lemma MovedKeepsBounds(s: Sys, m: Manager, horizon: nat)
    requires Bounded(s, horizon) && m.objs.Keys == s.m.objs.Keys
    requires forall x :: x in s.m.objs ==>
               && m.objs[x].ms == s.m.objs[x].ms
               && (m.objs[x].next == s.m.objs[x].next || m.objs[x].next == Wrap(s.now + m.objs[x].ms))
    ensures Bounded(s.(m := m), horizon)
  {
  }

  lemma AddKeepsBounds(s: Sys, step: Step, horizon: nat)
    requires SetOk(s) && Bounded(s, horizon) && step.Add? && Possible(s, step) && Steady(s, step, horizon)
    ensures Bounded(Apply(s, step), horizon)
  {
    AddShape(s, step);
    InsertedKeepsBounds(s, Apply(s, step), step.addr, NewTimer(step), horizon);
  }

  lemma CancelKeepsBounds(s: Sys, step: Step, horizon: nat)
    requires SetOk(s) && Bounded(s, horizon) && step.CancelOne? && Possible(s, step)
    ensures Bounded(Apply(s, step), horizon)
  {
    CancelShape(s, step);
    MovedKeepsBounds(s, Apply(s, step).m, horizon);
  }

  lemma RefreshKeepsBounds(s: Sys, a: nat, horizon: nat)
    requires SetOk(s) && Bounded(s, horizon) && a in s.m.objs
    ensures Bounded(Apply(s, RefreshOne(a)), horizon)
  {
    RefreshedBounds(s, a, horizon);
  }

  lemma RefreshedBounds(s: Sys, a: nat, horizon: nat)
    requires SetOk(s) && Bounded(s, horizon) && a in s.m.objs
    ensures Bounded(s.(m := Refresh(s.m, a, s.now).0), horizon)
  {
    RefreshObjects(s.m, a, s.now);
    RefreshedKeepsBounds(s, Refresh(s.m, a, s.now).0, a, horizon);
  }

  lemma RefreshedKeepsBounds(s: Sys, m: Manager, a: nat, horizon: nat)
    requires Bounded(s, horizon) && a in s.m.objs
    requires m.objs == if s.m.objs[a].cb.Some? then s.m.objs[a := s.m.objs[a].(next := Wrap(s.now + s.m.objs[a].ms))]
                       else s.m.objs
    ensures Bounded(s.(m := m), horizon)
  {
  }

  lemma ResetKeepsBounds(s: Sys, step: Step, horizon: nat)
    requires SetOk(s) && Bounded(s, horizon) && step.ResetOne? && Possible(s, step) && Fits(step.ms, horizon)
    ensures Bounded(Apply(s, step), horizon)
  {
    ResetEffect(s, step);
    if Apply(s, step) != s {
      InsertedKeepsBounds(s, Apply(s, step), step.a, ResetTo(s.m.objs[step.a], step.ms, step.fromNow, s.now), horizon);
    }
  }

  lemma StepKeepsBounds(s: Sys, step: Step, horizon: nat)
    requires SetOk(s) && Bounded(s, horizon) && Possible(s, step) && Steady(s, step, horizon)
    ensures Bounded(Apply(s, step), horizon)
  {
    match step {
      case Tick(_) =>
      case Add(_, _, _, _, _) => AddKeepsBounds(s, step, horizon);
      case CancelOne(_) => CancelKeepsBounds(s, step, horizon);
      case RefreshOne(a) => RefreshKeepsBounds(s, a, horizon);
      case ResetOne(_, _, _) => ResetKeepsBounds(s, step, horizon);
      case NextWait =>
      case Expire(_, _) => ExpireKeepsBounds(s, step, horizon);
    }
  }

  lemma StepKeepsInv(s: Sys, step: Step, horizon: nat)
    requires Inv(s, horizon) && Possible(s, step) && Steady(s, step, horizon)
    ensures Inv(Apply(s, step), horizon)
  {
    StepKeepsSet(s, step);
    StepKeepsBounds(s, step, horizon);
    SteadyIsHarmless(s, step, horizon);
    CoverageExact(s, step);
  }

  /** Under a clock that never goes back, in every reachable state either a wake-up was issued since the last
      getNextTimer or no pending timer is due before the deadline computed then. */
  lemma {:induction false} EveryRunIsCovered(ss: seq<Sys>, steps: seq<Step>, horizon: nat, i: nat)
    requires Run(ss, steps) && i < |ss| && ss[0].now <= horizon
    requires forall j {:trigger steps[j]} :: 0 <= j < |steps| ==> Steady(ss[j], steps[j], horizon)
    ensures Bounded(ss[i], horizon) && Covered(ss[i]) && Inv(ss[i], horizon)
    decreases i
  {
    if i > 0 {
      EveryRunIsCovered(ss, steps, horizon, i - 1);
      assert Possible(ss[i - 1], steps[i - 1]);
      StepKeepsInv(ss[i - 1], steps[i - 1], horizon);
    }
  }

  /** Exactly when expiry at an old reading leaves somebody asleep: the reading is taken for a rollover, nobody has been
      woken, and some pending recurring timer would be due again before the deadline. */
  lemma RolloverCoverage(s: Sys, reading: nat, probe: nat, horizon: nat)
    requires Inv(s, horizon) && reading <= s.now
    ensures Covered(Apply(s, Expire(reading, probe))) <==>
            || !Rollover(s.m, reading) || s.issued
            || forall a :: a in s.m.order && s.m.objs[a].recurring ==> NotBefore(s, reading + s.m.objs[a].ms)
  {
    var step := Expire(reading, probe);
    CoverageExact(s, step);
    if !Rollover(s.m, reading) {
      SteadyIsHarmless(s, step, horizon);
    } else {
      assert forall a :: a in s.m.order ==> Due(s.m, a, reading);
      assert forall a :: a in s.m.order ==> Wrap(reading + s.m.objs[a].ms) == reading + s.m.objs[a].ms;
    }
  }

  const TWO_HOURS: nat := 2 * HOUR_MS

  const STALE_RUN: seq<Step> :=
    [Tick(TWO_HOURS), Add(7, 10, Some(1), true, TWO_HOURS), Expire(TWO_HOURS, 0), NextWait, Expire(5, 0)]

  const HELD_TIMER := Timer(true, 10, TWO_HOURS + 10, Some(1))

  /** After k of the first four steps. */
  function StaleState(k: nat): Sys {
    var m := if k < 2 then Manager(map[], [], false, 5)
             else Manager(map[7 := HELD_TIMER], [7], k < 4, if k < 3 then 5 else TWO_HOURS);
    Sys(m, if k == 0 then 5 else TWO_HOURS, k == 2 || k == 3, if k < 4 then None else Some(TWO_HOURS + 10))
  }

  lemma StaleSteps(k: nat)
    requires k < 4
    ensures Possible(StaleState(k), STALE_RUN[k]) && Apply(StaleState(k), STALE_RUN[k]) == StaleState(k + 1)
  {
  }

  lemma StaleEnd()
    ensures var s := StaleState(4); Inv(s, TWO_HOURS) && !Covered(Apply(s, Expire(5, 0)))
  {
    var s := StaleState(4);
    assert s.m.order[0] == 7;
    assert Ordered(s.m);
    RolloverCoverage(s, 5, 0, TWO_HOURS);
  }

  /** The condition on rollover readings is needed. A thread reads the clock and is held up for two hours; meanwhile a
      recurring timer is added, another thread lists expired timers and a third computes its wait. When the first goes
      on, its reading is taken for a rollover, the timer is rescheduled two hours into the past, and nobody is told. */
  lemma StaleReadingUncovers() returns (ss: seq<Sys>)
    ensures Run(ss, STALE_RUN) && ss[0].now == 5 && ss[0].m.previous == 5
    ensures Covered(ss[4]) && !Covered(ss[5])
  {
    ss := seq(5, k requires 0 <= k => StaleState(k)) + [Apply(StaleState(4), Expire(5, 0))];
    forall k | 0 <= k < 4 ensures Possible(ss[k], STALE_RUN[k]) && ss[k + 1] == Apply(ss[k], STALE_RUN[k]) {
      StaleSteps(k);
    }
    StaleEnd();
  }
}
