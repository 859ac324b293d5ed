/** FiberSemaphore (sylar/mutex.cc): a count and a queue of parked fibers, each operation under the lock. */
module Semaphores {
  import opened Tasks

  datatype Sem = Sem(count: nat, waiters: seq<FiberId>)

  function NewSem(n: nat): Sem {
    Sem(n, [])
  }

  /** wait() and tryWait() up to the unlock; false means that the fiber was queued (wait) or turned away (tryWait). */
  function Acquire(s: Sem, f: FiberId, queueUp: bool): (r: (Sem, bool)) {
    if s.count > 0 then (s.(count := s.count - 1), true)
    else if queueUp then (s.(waiters := s.waiters + [f]), false)
    else (s, false)
  }

  /** notify(); the second result is the fiber it hands to schedule(). */
  function Notify(s: Sem): (r: (Sem, Option<FiberId>)) {
    if s.waiters != [] then (s.(waiters := s.waiters[1..]), Some(s.waiters[0]))
    else (s.(count := s.count + 1), None)
  }

  /** Nobody waits while a permit is free. */
  predicate SemOk(s: Sem) {
    s.waiters != [] ==> s.count == 0
  }

  lemma SemLaws(s: Sem, f: FiberId, queueUp: bool, n: nat)
    requires SemOk(s)
    ensures SemOk(NewSem(n)) && SemOk(Acquire(s, f, queueUp).0) && SemOk(Notify(s).0)
    ensures Acquire(s, f, queueUp).1 <==> s.count > 0
    ensures Notify(s).1 == if s.waiters == [] then None else Some(s.waiters[0])
  {
  }

  // ----------------------------------------------------------------------------------------------------------
  // Runs, seen from outside

  datatype Call = CallWait(fiber: FiberId) | CallTryWait | CallNotify

  /** What a call came to: a permit or none for the caller, or the fiber a notify woke. */
  datatype Answer = Permit(granted: bool) | Woke(fiber: Option<FiberId>)

  function DoCall(s: Sem, c: Call): (Sem, Answer) {
    match c
    case CallWait(f) => var r := Acquire(s, f, true); (r.0, Permit(r.1))
    case CallTryWait => var r := Acquire(s, 0, false); (r.0, Permit(r.1))
    case CallNotify => var r := Notify(s); (r.0, Woke(r.1))
  }

  /** The answers to a list of calls, and the semaphore after it. */
  function AfterCalls(n: nat, calls: seq<Call>): (Sem, seq<Answer>) {
    if calls == [] then (NewSem(n), [])
    else
      var before := AfterCalls(n, calls[..|calls| - 1]);
      var r := DoCall(before.0, calls[|calls| - 1]);
      (r.0, before.1 + [r.1])
  }

  /** notify was called so often. */
  function Notifies(calls: seq<Call>): nat {
    if calls == [] then 0
    else Notifies(calls[..|calls| - 1]) + (if calls[|calls| - 1].CallNotify? then 1 else 0)
  }

  /** So many callers got a permit: at once, or by being woken. */
  function Grants(answers: seq<Answer>): nat {
    if answers == [] then 0
    else
      var a := answers[|answers| - 1];
      Grants(answers[..|answers| - 1]) +
      (if a == Permit(true) || (a.Woke? && a.fiber.Some?) then 1 else 0)
  }

  /** The fibers whose wait was not granted at once, in order. */
  function Queued(calls: seq<Call>, answers: seq<Answer>): seq<FiberId>
    requires |answers| == |calls|
  {
    if calls == [] then []
    else
      var n := |calls| - 1;
      Queued(calls[..n], answers[..n]) +
      (if calls[n].CallWait? && answers[n] == Permit(false) then [calls[n].fiber] else [])
  }

  /** The fibers that notify woke, in order. */
  function Served(answers: seq<Answer>): seq<FiberId> {
    if answers == [] then []
    else
      var a := answers[|answers| - 1];
      Served(answers[..|answers| - 1]) + (if a.Woke? && a.fiber.Some? then [a.fiber.value] else [])
  }

  /** For every list of calls on a semaphore built with n permits: the permits given out and those left are the n
      and one per notify; nobody waits while one is left; and the fibers that had to wait are woken in the order in
      which they came, the others still waiting in that order. */
  lemma {:induction false} PermitsConserved(n: nat, calls: seq<Call>)
    ensures var r := AfterCalls(n, calls);
            && |r.1| == |calls| && SemOk(r.0)
            && n + Notifies(calls) == r.0.count + Grants(r.1)
            && Queued(calls, r.1) == Served(r.1) + r.0.waiters
  {
    if calls != [] {
      var k := |calls| - 1;
      PermitsConserved(n, calls[..k]);
      var before := AfterCalls(n, calls[..k]);
      var r := DoCall(before.0, calls[k]);
      assert (before.1 + [r.1])[..k] == before.1;
      OrderKept(Queued(calls[..k], before.1), Served(before.1), before.0, calls[k]);
    }
  }

  lemma OrderKept(queued: seq<FiberId>, woken: seq<FiberId>, s: Sem, c: Call)
    requires queued == woken + s.waiters && SemOk(s)
    ensures var r := DoCall(s, c);
            queued + (if c.CallWait? && r.1 == Permit(false) then [c.fiber] else []) ==
            woken + (if r.1.Woke? && r.1.fiber.Some? then [r.1.fiber.value] else []) + r.0.waiters
  {
    if c.CallNotify? && s.waiters != [] {
      assert s.waiters == [s.waiters[0]] + s.waiters[1..];
    }
  }

  // ----------------------------------------------------------------------------------------------------------

  class FiberSemaphore {
    var concurrency: nat
    var waiters: seq<FiberId>

    function View(): Sem
      reads this
    {
      Sem(concurrency, waiters)
    }

    constructor (n: nat)
      ensures View() == NewSem(n)
    {
      concurrency, waiters := n, [];
    }

    method TryWait() returns (granted: bool)
      modifies this
      ensures (View(), granted) == Acquire(old(View()), 0, false)
      ensures granted <==> old(concurrency) > 0
    {
      if concurrency > 0 {
        concurrency := concurrency - 1;
        return true;
      }
      return false;
    }

    /** The locked part of wait(); when it returns false the caller yields to hold. */
    method Wait(self: FiberId) returns (granted: bool)
      modifies this
      ensures (View(), granted) == Acquire(old(View()), self, true)
      ensures granted <==> old(concurrency) > 0
      ensures waiters == old(waiters) + if granted then [] else [self]
    {
      if concurrency > 0 {
        concurrency := concurrency - 1;
        return true;
      }
      waiters := waiters + [self];
      return false;
    }

    /** The fiber handed to schedule(), if any. */
    method NotifyOne() returns (woken: Option<FiberId>)
      modifies this
      ensures (View(), woken) == Notify(old(View()))
      ensures if old(waiters) == [] then woken == None && concurrency == old(concurrency) + 1
              else woken == Some(old(waiters)[0]) && concurrency == old(concurrency)
    {
      if waiters != [] {
        woken := Some(waiters[0]);
        waiters := waiters[1..];
      } else {
        concurrency := concurrency + 1;
        woken := None;
      }
    }
  }
}
