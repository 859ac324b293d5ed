/** The echo client and server over two bounded channels (1_ttcp/echo/echo_client.cc, 1_ttcp/echo/echo_server.cc,
    util/util.cc). The client writes all of its message before it reads; the server reads what there is, at most 4096
    bytes, and writes it back before it reads again. When does that block?

    Every byte of the message is the same character, so the state only counts them. A blocked call moves nothing; any
    other moves between one byte and as many as asked for, available and accepted. */
module Echo {

  const BUFFER: nat := 4096

  /** The message length and the capacities from client to server and back. */
  datatype Setup = Setup(len: nat, c1: nat, c2: nat)

  predicate SetupOk(p: Setup) {
    p.c1 >= 1 && p.c2 >= 1
  }

  /** Where the bytes are: still to be written by the client, in the channel to the server, in the server's buffer, in
      the channel back, read by the client. */
  datatype State = State(unsent: nat, ch1: nat, buf: nat, ch2: nat, received: nat)

  datatype Step = ClientWrite(n: nat) | ServerRead(n: nat) | ServerWrite(n: nat) | ClientRead(n: nat)

  function Initial(p: Setup): State {
    State(p.len, 0, 0, 0, 0)
  }

  predicate Enabled(p: Setup, s: State, x: Step) {
    x.n >= 1 &&
    match x
    case ClientWrite(n) => n <= s.unsent && s.ch1 + n <= p.c1
    case ServerRead(n) => s.buf == 0 && n <= s.ch1 && n <= BUFFER
    case ServerWrite(n) => n <= s.buf && s.ch2 + n <= p.c2
    case ClientRead(n) => s.unsent == 0 && n <= s.ch2
  }

  function Apply(p: Setup, s: State, x: Step): State
    requires Enabled(p, s, x)
  {
    match x
    case ClientWrite(n) => s.(unsent := s.unsent - n, ch1 := s.ch1 + n)
    case ServerRead(n) => s.(ch1 := s.ch1 - n, buf := n)
    case ServerWrite(n) => s.(buf := s.buf - n, ch2 := s.ch2 + n)
    case ClientRead(n) => s.(ch2 := s.ch2 - n, received := s.received + n)
  }

  /** The state after a run, if it is one. */
  ghost function After(p: Setup, s: State, run: seq<Step>): Outcome
    decreases |run|
  {
    if run == [] then At(s)
    else if !Enabled(p, s, run[0]) then NoRun
    else After(p, Apply(p, s, run[0]), run[1..])
  }

  datatype Outcome = At(state: State) | NoRun

  ghost predicate Reachable(p: Setup, s: State) {
    exists run :: After(p, Initial(p), run) == At(s)
  }

  predicate Finished(p: Setup, s: State) {
    s.received == p.len
  }

  /** Nobody can move, and the client has not read everything. */
  ghost predicate Stuck(p: Setup, s: State) {
    !Finished(p, s) && forall x :: !Enabled(p, s, x)
  }

  // ----------------------------------------------------------------------------------------------------------
  // Safety

  function Smaller(a: nat, b: nat): nat {
    if a <= b then a else b
  }

  /** Conservation of bytes, the bounds, and nothing is read before everything is written. */
  predicate Inv(p: Setup, s: State) {
    && s.unsent + s.ch1 + s.buf + s.ch2 + s.received == p.len
    && s.ch1 <= p.c1 && s.buf <= Smaller(BUFFER, p.c1) && s.ch2 <= p.c2
    && (s.unsent > 0 ==> s.received == 0)
    && (s.received == 0 || p.len <= p.c1 + p.c2 + Smaller(BUFFER, p.c1))
  }

  lemma StepKeepsInv(p: Setup, s: State, x: Step)
    requires Inv(p, s) && Enabled(p, s, x)
    ensures Inv(p, Apply(p, s, x))
  {
  }

  /** Every step costs: a run is never longer than four times the message. */
  function Work(s: State): nat {
    4 * s.unsent + 3 * s.ch1 + 2 * s.buf + s.ch2
  }

  lemma StepWorks(p: Setup, s: State, x: Step)
    requires Enabled(p, s, x)
    ensures Work(Apply(p, s, x)) < Work(s)
  {
  }

  lemma {:induction false} RunKeepsInv(p: Setup, s: State, run: seq<Step>, t: State)
    requires Inv(p, s) && After(p, s, run) == At(t)
    ensures Inv(p, t) && |run| + Work(t) <= Work(s)
    decreases |run|
  {
    if run != [] {
      StepKeepsInv(p, s, run[0]);
      StepWorks(p, s, run[0]);
      RunKeepsInv(p, Apply(p, s, run[0]), run[1..], t);
    }
  }

  /** On every run the bytes are conserved, and no run is longer than 4 * len steps. */
  lemma Conservation(p: Setup, run: seq<Step>, t: State)
    requires After(p, Initial(p), run) == At(t)
    ensures t.unsent + t.ch1 + t.buf + t.ch2 + t.received == p.len && |run| <= 4 * p.len && Inv(p, t)
  {
    RunKeepsInv(p, Initial(p), run, t);
  }

  lemma ReachableInv(p: Setup, s: State)
    requires Reachable(p, s)
    ensures Inv(p, s)
  {
    var run :| After(p, Initial(p), run) == At(s);
    Conservation(p, run, s);
  }

  /** Exactly where it is stuck: the client still writing, both channels full and the server in the middle of a write.
      */
  lemma StuckShape(p: Setup, s: State)
    requires SetupOk(p) && Inv(p, s)
    ensures Stuck(p, s) <==> s.unsent > 0 && s.ch1 == p.c1 && s.buf > 0 && s.ch2 == p.c2
  {
    if Stuck(p, s) {
      assert !Enabled(p, s, ClientWrite(1));
      assert !Enabled(p, s, ServerRead(1));
      assert !Enabled(p, s, ServerWrite(1));
      assert !Enabled(p, s, ClientRead(1));
    }
  }

  // ----------------------------------------------------------------------------------------------------------
  // Runs one after the other

  lemma {:induction false} RunsJoin(p: Setup, s: State, run: seq<Step>, t: State, more: seq<Step>)
    requires After(p, s, run) == At(t)
    ensures After(p, s, run + more) == After(p, t, more)
    decreases |run|
  {
    if run == [] {
      assert run + more == more;
    } else {
      RunsJoin(p, Apply(p, s, run[0]), run[1..], t, more);
      assert (run + more)[1..] == run[1..] + more;
    }
  }

  lemma OneMore(p: Setup, s: State, run: seq<Step>, t: State, x: Step)
    requires After(p, s, run) == At(t) && Enabled(p, t, x)
    ensures After(p, s, run + [x]) == At(Apply(p, t, x))
  {
    RunsJoin(p, s, run, t, [x]);
    assert [x][1..] == [];
  }

  /** Bytes carried one by one from the client into the channel back. */
  lemma {:induction false} Carry(p: Setup, n: nat) returns (run: seq<Step>)
    requires SetupOk(p) && n <= p.c2 && n <= p.len
    ensures After(p, Initial(p), run) == At(State(p.len - n, 0, 0, n, 0))
    decreases n
  {
    if n == 0 {
      return [];
    }
    var s := Initial(p);
    run := Carry(p, n - 1);
    OneMore(p, s, run, State(p.len - n + 1, 0, 0, n - 1, 0), ClientWrite(1));
    run := run + [ClientWrite(1)];
    OneMore(p, s, run, State(p.len - n, 1, 0, n - 1, 0), ServerRead(1));
    run := run + [ServerRead(1)];
    OneMore(p, s, run, State(p.len - n, 0, 1, n - 1, 0), ServerWrite(1));
    run := run + [ServerWrite(1)];
  }

  /** Carry c2 bytes, let the server take m more, and fill the first channel with k. */
  lemma Fill(p: Setup, m: nat, k: nat) returns (run: seq<Step>)
    requires SetupOk(p) && 1 <= m <= Smaller(BUFFER, p.c1) && k <= p.c1 && p.c2 + m + k <= p.len
    ensures After(p, Initial(p), run) == At(State(p.len - p.c2 - m - k, k, m, p.c2, 0))
  {
    var s, left := Initial(p), p.len - p.c2;
    run := Carry(p, p.c2);
    OneMore(p, s, run, State(left, 0, 0, p.c2, 0), ClientWrite(m));
    run := run + [ClientWrite(m)];
    OneMore(p, s, run, State(left - m, m, 0, p.c2, 0), ServerRead(m));
    run := run + [ServerRead(m)];
    if k > 0 {
      OneMore(p, s, run, State(left - m, 0, m, p.c2, 0), ClientWrite(k));
      run := run + [ClientWrite(k)];
    }
  }

  /** Once everything is written, the rest can always be completed. */
  lemma {:induction false} Drain(p: Setup, s: State) returns (run: seq<Step>, t: State)
    requires SetupOk(p) && Inv(p, s) && s.unsent == 0
    ensures After(p, s, run) == At(t) && Finished(p, t)
    decreases Work(s)
  {
    if Finished(p, s) {
      return [], s;
    }
    StuckShape(p, s);
    var x :| Enabled(p, s, x);
    StepKeepsInv(p, s, x);
    StepWorks(p, s, x);
    run, t := Drain(p, Apply(p, s, x));
    assert ([x] + run)[1..] == run;
    run := [x] + run;
  }

  // ----------------------------------------------------------------------------------------------------------
  // Thresholds

  /** Some run gets stuck exactly when the message is longer than c1 + c2 + 1. */
  lemma DeadlockThreshold(p: Setup)
    requires SetupOk(p)
    ensures (exists s :: Reachable(p, s) && Stuck(p, s)) <==> p.len > p.c1 + p.c2 + 1
  {
    if s :| Reachable(p, s) && Stuck(p, s) {
      ReachableInv(p, s);
      StuckShape(p, s);
    }
    if p.len > p.c1 + p.c2 + 1 {
      var run := Fill(p, 1, p.c1);
      var s := State(p.len - p.c2 - 1 - p.c1, p.c1, 1, p.c2, 0);
      assert Reachable(p, s);
      ReachableInv(p, s);
      StuckShape(p, s);
    }
  }

  /** Some run completes exactly when the message is no longer than c1 + c2 and the server's buffer, which holds at most
      4096 bytes and at most what the first channel holds. */
  lemma CompletionThreshold(p: Setup)
    requires SetupOk(p)
    ensures (exists s :: Reachable(p, s) && Finished(p, s)) <==> p.len <= p.c1 + p.c2 + Smaller(4096, p.c1)
  {
    if s :| Reachable(p, s) && Finished(p, s) {
      ReachableInv(p, s);
    }
    if p.len <= p.c1 + p.c2 + Smaller(BUFFER, p.c1) {
      var run, s := WriteAll(p);
      assert Reachable(p, s);
      ReachableInv(p, s);
      var more, t := Drain(p, s);
      RunsJoin(p, Initial(p), run, s, more);
      assert Reachable(p, t);
    }
  }

  lemma WriteAll(p: Setup) returns (run: seq<Step>, s: State)
    requires SetupOk(p) && p.len <= p.c1 + p.c2 + Smaller(BUFFER, p.c1)
    ensures After(p, Initial(p), run) == At(s) && s.unsent == 0
  {
    if p.len <= p.c2 {
      run := Carry(p, p.len);
      s := State(0, 0, 0, p.len, 0);
    } else {
      var m := Smaller(p.len - p.c2, Smaller(BUFFER, p.c1));
      var k := p.len - p.c2 - m;
      run := Fill(p, m, k);
      s := State(0, k, m, p.c2, 0);
    }
  }

  /** A longer message never gets through: the client never finishes writing, and every run that cannot go on is
      stuck. */
  lemma LongMessageBlocks(p: Setup, s: State)
    requires SetupOk(p) && Reachable(p, s) && p.len > p.c1 + p.c2 + Smaller(BUFFER, p.c1)
    ensures s.unsent > 0 && s.received == 0
    ensures (forall x :: !Enabled(p, s, x)) ==> Stuck(p, s)
  {
    ReachableInv(p, s);
  }

  /** A short one always does: whatever has happened, someone can move until the client has read everything. */
  lemma ShortMessagePasses(p: Setup, s: State)
    requires SetupOk(p) && Reachable(p, s) && p.len <= p.c1 + p.c2 + 1
    ensures Finished(p, s) || exists x :: Enabled(p, s, x)
  {
    ReachableInv(p, s);
    StuckShape(p, s);
  }
}
