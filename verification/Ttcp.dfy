/** The blocking ttcp protocol (1_ttcp/ttcp_blocking.cc, util/util.cc): a session header, then payloads that are each
    acknowledged before the next is sent, over two bounded byte channels.

    A call of write or read that can move bytes moves between one and as many as asked for, available and accepted. The
    two ends may run on hosts of different byte order. */
module Ttcp {
  import opened Bits
  import opened Blocks
  import opened Codec

  /** The options, the channel capacities from transmitter to receiver and back, and the byte orders of the hosts. */
  datatype Setup = Setup(number: int, length: nat, c1: nat, c2: nat, hostT: bool, hostR: bool)

  /** number and length are int32_t. */
  predicate SetupOk(p: Setup) {
    -0x8000_0000 <= p.number < 0x8000_0000 && p.length < I31 && p.c1 >= 1 && p.c2 >= 1
  }

  /** total_len, the cast of sizeof(int32_t) + length to int, is not negative. */
  predicate Fits(p: Setup) {
    SetupOk(p) && 4 + p.length < I31
  }

  /** total_len is that sum exactly for lengths up to 2^31 - 5; beyond, it is negative. */
  lemma TotalLength(length: nat)
    requires length < I31
    ensures Narrow(4 + length) == 4 + length <==> 4 + length < I31
    ensures 4 + length >= I31 ==> Narrow(4 + length) < 0
  {
  }

  /** htonl as bytes in memory. */
  function Int32(v: int, host: bool): seq<byte>
    requires -0x8000_0000 <= v < 0x8000_0000
  {
    Wire(if v < 0 then v + U32 else v, 4, false, host)
  }

  /** ntohl of four bytes in memory. */
  function ReadInt32(s: seq<byte>, host: bool): int {
    Narrow(Unwire(s, false, host))
  }

  lemma Int32RoundTrip(v: int, writer: bool, reader: bool)
    requires -0x8000_0000 <= v < 0x8000_0000
    ensures |Int32(v, writer)| == 4 && ReadInt32(Int32(v, writer), reader) == v
  {
    var u := if v < 0 then v + U32 else v;
    Radix4();
    FixedRoundTrip(u, 4, false, writer, reader);
    assert Unwire(Int32(v, writer), false, reader) == u;
    NarrowSigned(v, u);
  }

  lemma NarrowSigned(v: int, u: nat)
    requires -0x8000_0000 <= v < 0x8000_0000 && u == if v < 0 then v + U32 else v
    ensures Narrow(u) == v
  {
  }

  lemma Radix4()
    ensures Radix(4) == U32
  {
    assert Radix(2) == 0x1_0000;
    assert Radix(3) == 0x100_0000;
  }

  // ----------------------------------------------------------------------------------------------------------
  // Messages

  /** The three messages as bytes on the wire. */
  datatype Messages = Messages(hello: seq<byte>, payload: seq<byte>, ack: seq<byte>)

  predicate Sized(m: Messages) {
    |m.hello| == 8 && 4 <= |m.payload| < I31 && |m.ack| == 4
  }

  function MessagesOf(p: Setup): Messages
    requires SetupOk(p)
  {
    Messages(Int32(p.number, p.hostT) + Int32(p.length, p.hostT), Int32(p.length, p.hostT) + Data(p),
             Int32(p.length, p.hostR))
  }

  /** The payload's characters, "0123456789ABCDEF" over and over. */
  function Data(p: Setup): (r: seq<byte>)
    ensures |r| == p.length
  {
    seq(p.length, i requires 0 <= i < p.length => var v := i % 16; if v < 10 then 48 + v else 55 + v)
  }

  /** What the messages say to the process that reads them. */
  predicate Meaning(p: Setup, m: Messages)
    requires SetupOk(p)
  {
    && Sized(m) && |m.payload| == 4 + p.length
    && ReadInt32(m.hello[..4], p.hostR) == p.number && ReadInt32(m.hello[4..], p.hostR) == p.length
    && ReadInt32(m.payload[..4], p.hostR) == p.length && m.payload[4..] == Data(p)
    && ReadInt32(m.ack, p.hostT) == p.length && m.ack == Int32(p.length, p.hostR)
  }

  lemma MessagesMean(p: Setup)
    requires Fits(p)
    ensures Meaning(p, MessagesOf(p))
  {
    Int32RoundTrip(p.number, p.hostT, p.hostR);
    Int32RoundTrip(p.length, p.hostT, p.hostR);
    Int32RoundTrip(p.length, p.hostR, p.hostT);
    var a, b := Int32(p.number, p.hostT), Int32(p.length, p.hostT);
    assert (a + b)[..4] == a && (a + b)[4..] == b;
    assert (b + Data(p))[..4] == b && (b + Data(p))[4..] == Data(p);
  }

  /** A number is four bytes, the most significant first. */
  lemma Int32Byte(v: int, host: bool, i: nat)
    requires -0x8000_0000 <= v < 0x8000_0000 && i < 4
    ensures |Int32(v, host)| == 4
    ensures Int32(v, host)[i] == (if v < 0 then v + U32 else v) / Radix(3 - i) % 256
  {
    Radix4();
    WireByte(if v < 0 then v + U32 else v, 4, false, host, i);
  }

  /** The messages in numbers: count before length, length before characters, length as acknowledgement. */
  lemma MessageLayout(p: Setup)
    requires SetupOk(p)
    ensures var m := MessagesOf(p);
            && |m.hello| == 8 && m.hello[..4] == Int32(p.number, p.hostT) && m.hello[4..] == Int32(p.length, p.hostT)
            && |m.payload| == 4 + p.length && m.payload[..4] == Int32(p.length, p.hostT)
            && m.payload[4..] == Data(p) && m.ack == Int32(p.length, p.hostR)
  {
    Int32RoundTrip(p.number, p.hostT, p.hostR);
    Int32RoundTrip(p.length, p.hostT, p.hostR);
  }

  const HEX := "0123456789ABCDEF"

  lemma DataIsHex(p: Setup, k: nat)
    requires k < p.length
    ensures Data(p)[k] == HEX[k % 16] as int
  {
  }

  function Repeat(m: seq<byte>, n: int): seq<byte>
    decreases n
  {
    if n <= 0 then [] else m + Repeat(m, n - 1)
  }

  // ----------------------------------------------------------------------------------------------------------
  // The two processes

  datatype Transmitter =
    | Greeting(sent: nat)
    | Sending(i: int, sent: nat)
    | Awaiting(i: int, got: seq<byte>)
    | TDone
    | TFailed

  datatype Receiver =
    | Greeted(got: seq<byte>)
    | Heading(i: int, got: seq<byte>)
    | Filling(i: int, got: seq<byte>)
    | Replying(i: int, sent: nat)
    | RDone
    | RFailed

  /** `to` and `back` are the channels; `number` and `length` what the receiver read from the session message;
      `received` the payloads it has got. */
  datatype State = State(t: Transmitter, r: Receiver, to: seq<byte>, back: seq<byte>, number: int, length: int,
                         received: seq<seq<byte>>)

  function Initial(): State {
    State(Greeting(0), Greeted([]), [], [], 0, 0, [])
  }

  datatype Step = TWrite(n: nat) | TRead(n: nat) | RRead(n: nat) | RWrite(n: nat)

  /** How many bytes the call a process is in still wants to write or read. */
  function TWants(m: Messages, t: Transmitter): int {
    match t
    case Greeting(sent) => 8 - sent
    case Sending(_, sent) => |m.payload| - sent
    case Awaiting(_, got) => 4 - |got|
    case _ => 0
  }

  function RWants(s: State): int {
    match s.r
    case Greeted(got) => 8 - |got|
    case Heading(_, got) => 4 - |got|
    case Filling(_, got) => s.length - |got|
    case Replying(_, sent) => 4 - sent
    case _ => 0
  }

  predicate Enabled(p: Setup, s: State, x: Step)
    requires SetupOk(p)
  {
    x.n >= 1 &&
    match x
    case TWrite(n) => (s.t.Greeting? || s.t.Sending?) && n <= TWants(MessagesOf(p), s.t) && |s.to| + n <= p.c1
    case TRead(n) => s.t.Awaiting? && n <= TWants(MessagesOf(p), s.t) && n <= |s.back|
    case RRead(n) => (s.r.Greeted? || s.r.Heading? || s.r.Filling?) && n <= RWants(s) && n <= |s.to|
    case RWrite(n) => s.r.Replying? && n <= RWants(s) && |s.back| + n <= p.c2
  }

  /** The head of the transmitter's loop. */
  function NextSend(number: int, i: int): Transmitter {
    if i < number then Sending(i, 0) else TDone
  }

  /** The head of the receiver's loop. */
  function NextHead(number: int, i: int): Receiver {
    if i < number then Heading(i, []) else RDone
  }

  /** After the session message: malloc(total_len) of a negative total_len, which is a huge size_t, gives no memory, and
      assert(payload) fails. */
  function StartSend(m: Messages, number: int): Transmitter {
    if Narrow(|m.payload|) < 0 then TFailed else NextSend(number, 0)
  }

  function StartReceive(number: int, length: int): Receiver {
    if length >= 0 && Narrow(4 + length) < 0 then RFailed else NextHead(number, 0)
  }

  /** What is written: the next n bytes of a message. */
  function Slice(m: seq<byte>, from: nat, n: nat): seq<byte> {
    if from + n <= |m| then m[from..from + n] else []
  }

  function AfterWrite(m: Messages, number: int, t: Transmitter, n: nat): (Transmitter, seq<byte>) {
    match t
    case Greeting(sent) =>
      (if sent + n == 8 then StartSend(m, number) else Greeting(sent + n), Slice(m.hello, sent, n))
    case Sending(i, sent) =>
      (if sent + n == |m.payload| then Awaiting(i, []) else Sending(i, sent + n), Slice(m.payload, sent, n))
    case _ => (t, [])
  }

  /** assert(ack == opt.length) */
  function AfterAck(p: Setup, i: int, got: seq<byte>): Transmitter {
    if |got| < 4 then Awaiting(i, got)
    else if ReadInt32(got, p.hostT) == p.length then NextSend(p.number, i + 1)
    else TFailed
  }

  /** assert(payload->length == session_msg.length); a payload of length 0 is complete at once. */
  function AfterRead(p: Setup, s: State, d: seq<byte>): State {
    match s.r
    case Greeted(got) =>
      var g := got + d;
      if |g| < 8 then s.(r := Greeted(g))
      else
        var number, length := ReadInt32(g[..4], p.hostR), ReadInt32(g[4..], p.hostR);
        s.(r := StartReceive(number, length), number := number, length := length)
    case Heading(i, got) =>
      var g := got + d;
      if |g| < 4 then s.(r := Heading(i, g))
      else if ReadInt32(g, p.hostR) != s.length then s.(r := RFailed)
      else if s.length == 0 then s.(r := Replying(i, 0), received := s.received + [[]])
      else s.(r := Filling(i, []))
    case Filling(i, got) =>
      var g := got + d;
      if |g| < s.length then s.(r := Filling(i, g))
      else s.(r := Replying(i, 0), received := s.received + [g])
    case _ => s
  }

  /** htonl(payload->length); the length came out of four bytes. */
  function Reply(p: Setup, length: int): seq<byte> {
    if -0x8000_0000 <= length < 0x8000_0000 then Int32(length, p.hostR) else []
  }

  function Apply(p: Setup, s: State, x: Step): State
    requires SetupOk(p) && Enabled(p, s, x)
  {
    match x
    case TWrite(n) => var w := AfterWrite(MessagesOf(p), p.number, s.t, n); s.(t := w.0, to := s.to + w.1)
    case TRead(n) => s.(t := AfterAck(p, s.t.i, s.t.got + s.back[..n]), back := s.back[n..])
    case RRead(n) => AfterRead(p, s.(to := s.to[n..]), s.to[..n])
    case RWrite(n) =>
      s.(r := AfterReply(s.number, s.r, n),
         back := s.back + Slice(Reply(p, s.length), s.r.sent, n))
  }

  // ----------------------------------------------------------------------------------------------------------
  // The invariant: what is in a channel and what is still to be written make what is still to be read

  function From(m: seq<byte>, k: nat): seq<byte> {
    if k <= |m| then m[k..] else []
  }

  /** What the transmitter has yet to write, and to read. */
  function TRest(m: Messages, number: int, t: Transmitter): seq<byte> {
    match t
    case Greeting(sent) => From(m.hello, sent) + Repeat(m.payload, number)
    case Sending(i, sent) => From(m.payload, sent) + Repeat(m.payload, number - i - 1)
    case Awaiting(i, _) => Repeat(m.payload, number - i - 1)
    case _ => []
  }

  function TNeed(m: Messages, number: int, t: Transmitter): seq<byte> {
    match t
    case Greeting(_) => Repeat(m.ack, number)
    case Sending(i, _) => Repeat(m.ack, number - i)
    case Awaiting(i, got) => From(m.ack, |got|) + Repeat(m.ack, number - i - 1)
    case _ => []
  }

  /** What the receiver has yet to read, and to write. */
  function RNeed(m: Messages, number: int, r: Receiver): seq<byte> {
    match r
    case Greeted(got) => From(m.hello, |got|) + Repeat(m.payload, number)
    case Heading(i, got) => From(m.payload, |got|) + Repeat(m.payload, number - i - 1)
    case Filling(i, got) => From(m.payload, 4 + |got|) + Repeat(m.payload, number - i - 1)
    case Replying(i, _) => Repeat(m.payload, number - i - 1)
    case _ => []
  }

  function RRest(m: Messages, number: int, r: Receiver): seq<byte> {
    match r
    case Greeted(_) => Repeat(m.ack, number)
    case Heading(i, _) => Repeat(m.ack, number - i)
    case Filling(i, _) => Repeat(m.ack, number - i)
    case Replying(i, sent) => From(m.ack, sent) + Repeat(m.ack, number - i - 1)
    case _ => []
  }

  predicate TOk(m: Messages, number: int, t: Transmitter) {
    match t
    case Greeting(sent) => sent < 8
    case Sending(i, sent) => 0 <= i < number && sent < |m.payload|
    case Awaiting(i, got) => 0 <= i < number && |got| < 4 && got <= m.ack
    case TDone => true
    case TFailed => false
  }

  predicate ROk(m: Messages, number: int, r: Receiver) {
    match r
    case Greeted(got) => |got| < 8 && got <= m.hello
    case Heading(i, got) => 0 <= i < number && |got| < 4 && got <= m.payload
    case Filling(i, got) => 0 <= i < number && 4 + |got| < |m.payload| && got <= m.payload[4..]
    case Replying(i, sent) => 0 <= i < number && sent < 4
    case RDone => true
    case RFailed => false
  }

  /** A process writes the head of what it has yet to write. */
  lemma TWriteStep(m: Messages, number: int, t: Transmitter, n: nat)
    requires Sized(m) && TOk(m, number, t) && (t.Greeting? || t.Sending?) && 1 <= n <= TWants(m, t)
    ensures var w := AfterWrite(m, number, t, n);
            && TOk(m, number, w.0)
            && w.1 + TRest(m, number, w.0) == TRest(m, number, t) && |w.1| == n
            && TNeed(m, number, w.0) == TNeed(m, number, t)
  {
    var w := AfterWrite(m, number, t, n);
    match t
    case Greeting(sent) =>
      NarrowSmall(|m.payload|);
      assert From(m.hello, sent) == w.1 + From(m.hello, sent + n);
    case Sending(i, sent) =>
      assert From(m.payload, sent) == w.1 + From(m.payload, sent + n);
  }

  /** Reading on in a message: what was got and what is read next are again a prefix of it. */
  lemma ReadOn(msg: seq<byte>, got: seq<byte>, d: seq<byte>, more: seq<byte>)
    requires got <= msg && |got| + |d| <= |msg| && d <= From(msg, |got|) + more
    ensures got + d <= msg && From(msg, |got|) == d + From(msg, |got| + |d|)
    ensures |got| + |d| == |msg| ==> got + d == msg
  {
    assert msg == got + From(msg, |got|);
    assert d == From(msg, |got|)[..|d|];
  }

  /** At the head of the loops, the rest is whole rounds. */
  lemma NextSendRest(m: Messages, number: int, i: int)
    requires Sized(m) && 0 <= i
    ensures var t := NextSend(number, i);
            && TOk(m, number, t)
            && TRest(m, number, t) == Repeat(m.payload, number - i) && TNeed(m, number, t) == Repeat(m.ack, number - i)
  {
    assert From(m.payload, 0) == m.payload;
  }

  lemma NextHeadRest(m: Messages, number: int, i: int)
    requires Sized(m) && 0 <= i
    ensures var r := NextHead(number, i);
            && ROk(m, number, r)
            && RNeed(m, number, r) == Repeat(m.payload, number - i) && RRest(m, number, r) == Repeat(m.ack, number - i)
  {
    assert From(m.payload, 0) == m.payload;
  }

  /** The acknowledgement says what it should, so the assertion on it holds. */
  lemma AckShape(p: Setup, m: Messages, i: int, got: seq<byte>)
    requires Fits(p) && Meaning(p, m) && got <= m.ack
    ensures AfterAck(p, i, got) == if |got| < 4 then Awaiting(i, got) else NextSend(p.number, i + 1)
  {
    if |got| == 4 {
      assert got == m.ack;
    }
  }

  lemma TReadStep(p: Setup, m: Messages, t: Transmitter, d: seq<byte>)
    requires Fits(p) && Meaning(p, m) && TOk(m, p.number, t) && t.Awaiting? && 1 <= |d| <= TWants(m, t)
    requires d <= TNeed(m, p.number, t)
    ensures var u := AfterAck(p, t.i, t.got + d);
            && TOk(m, p.number, u)
            && TRest(m, p.number, u) == TRest(m, p.number, t)
            && d + TNeed(m, p.number, u) == TNeed(m, p.number, t)
  {
    ReadOn(m.ack, t.got, d, Repeat(m.ack, p.number - t.i - 1));
    AckShape(p, m, t.i, t.got + d);
    AwaitOn(m, p.number, t.i, t.got, d);
  }

  lemma AwaitOn(m: Messages, number: int, i: int, got: seq<byte>, d: seq<byte>)
    requires Sized(m) && 0 <= i < number && |got| < 4 && got + d <= m.ack
    requires From(m.ack, |got|) == d + From(m.ack, |got| + |d|)
    ensures var t, u := Awaiting(i, got), if |got + d| < 4 then Awaiting(i, got + d) else NextSend(number, i + 1);
            && TOk(m, number, u) && TRest(m, number, u) == TRest(m, number, t)
            && d + TNeed(m, number, u) == TNeed(m, number, t)
  {
    NextSendRest(m, number, i + 1);
    if |got + d| == 4 {
      assert From(m.ack, 4) == [];
    }
  }

  /** How many payloads the receiver has. */
  function Count(number: int, r: Receiver): int {
    match r
    case Greeted(_) => 0
    case Heading(i, _) => i
    case Filling(i, _) => i
    case Replying(i, _) => i + 1
    case RDone => if number > 0 then number else 0
    case RFailed => 0
  }

  /** The receiver read the session right and has only payloads as they were sent. */
  predicate ReceiverOk(p: Setup, m: Messages, s: State) {
    && ROk(m, p.number, s.r)
    && (!s.r.Greeted? ==> s.number == p.number && s.length == p.length)
    && |s.received| == Count(p.number, s.r)
    && forall j :: 0 <= j < |s.received| ==> s.received[j] == Data(p)
  }

  /** The receiver learns number and length as they are. */
  lemma GreetedShape(p: Setup, m: Messages, s: State, d: seq<byte>)
    requires Fits(p) && Meaning(p, m) && s.r.Greeted? && s.r.got + d <= m.hello
    ensures AfterRead(p, s, d) ==
            if |s.r.got + d| < 8 then s.(r := Greeted(s.r.got + d))
            else s.(r := NextHead(p.number, 0), number := p.number, length := p.length)
  {
    if |s.r.got + d| == 8 {
      assert s.r.got + d == m.hello;
      NarrowSmall(4 + p.length);
    }
  }

  lemma GreetedReads(p: Setup, m: Messages, s: State, d: seq<byte>)
    requires Fits(p) && Meaning(p, m) && ReceiverOk(p, m, s) && s.r.Greeted? && 1 <= |d| <= RWants(s)
    requires d <= RNeed(m, p.number, s.r)
    ensures var t := AfterRead(p, s, d);
            && ReceiverOk(p, m, t) && t.t == s.t && t.to == s.to && t.back == s.back
            && d + RNeed(m, p.number, t.r) == RNeed(m, p.number, s.r)
            && RRest(m, p.number, t.r) == RRest(m, p.number, s.r)
  {
    var got := s.r.got;
    ReadOn(m.hello, got, d, Repeat(m.payload, p.number));
    GreetedShape(p, m, s, d);
    GreetOn(m, p.number, got, d);
  }

  lemma GreetOn(m: Messages, number: int, got: seq<byte>, d: seq<byte>)
    requires Sized(m) && |got| < 8 && got + d <= m.hello
    requires From(m.hello, |got|) == d + From(m.hello, |got| + |d|)
    ensures var r, q := Greeted(got), if |got + d| < 8 then Greeted(got + d) else NextHead(number, 0);
            && ROk(m, number, q) && RRest(m, number, q) == RRest(m, number, r)
            && d + RNeed(m, number, q) == RNeed(m, number, r)
  {
    NextHeadRest(m, number, 0);
    if |got + d| == 8 {
      assert From(m.hello, 8) == [];
    }
  }

  /** The assertion on the payload's length holds. */
  lemma HeadingShape(p: Setup, m: Messages, s: State, d: seq<byte>)
    requires Fits(p) && Meaning(p, m) && s.r.Heading? && s.length == p.length
    requires s.r.got + d <= m.payload && |s.r.got + d| <= 4
    ensures AfterRead(p, s, d) ==
            if |s.r.got + d| < 4 then s.(r := Heading(s.r.i, s.r.got + d))
            else if p.length == 0 then s.(r := Replying(s.r.i, 0), received := s.received + [[]])
            else s.(r := Filling(s.r.i, []))
  {
    if |s.r.got + d| == 4 {
      assert s.r.got + d == m.payload[..4];
    }
  }

  lemma HeadOn(m: Messages, number: int, i: int, got: seq<byte>, d: seq<byte>)
    requires Sized(m) && 0 <= i < number && |got| < 4 && |got + d| <= 4 && got + d <= m.payload
    requires From(m.payload, |got|) == d + From(m.payload, |got| + |d|)
    ensures var r := Heading(i, got);
            var q := if |got + d| < 4 then Heading(i, got + d)
                     else if |m.payload| == 4 then Replying(i, 0) else Filling(i, []);
            && ROk(m, number, q) && RRest(m, number, q) == RRest(m, number, r)
            && d + RNeed(m, number, q) == RNeed(m, number, r)
  {
    assert From(m.ack, 0) == m.ack;
    if |m.payload| == 4 {
      assert From(m.payload, 4) == [];
    }
  }

  lemma HeadingReads(p: Setup, m: Messages, s: State, d: seq<byte>)
    requires Fits(p) && Meaning(p, m) && ReceiverOk(p, m, s) && s.r.Heading? && 1 <= |d| <= RWants(s)
    requires d <= RNeed(m, p.number, s.r)
    ensures var t := AfterRead(p, s, d);
            && ReceiverOk(p, m, t) && t.t == s.t && t.to == s.to && t.back == s.back
            && d + RNeed(m, p.number, t.r) == RNeed(m, p.number, s.r)
            && RRest(m, p.number, t.r) == RRest(m, p.number, s.r)
  {
    var i, got := s.r.i, s.r.got;
    ReadOn(m.payload, got, d, Repeat(m.payload, p.number - i - 1));
    HeadingShape(p, m, s, d);
    HeadOn(m, p.number, i, got, d);
    HeadedOk(p, m, s, AfterRead(p, s, d));
  }

  lemma HeadedOk(p: Setup, m: Messages, s: State, t: State)
    requires ReceiverOk(p, m, s) && s.r.Heading? && ROk(m, p.number, t.r)
    requires t.number == s.number && t.length == s.length
    requires || ((t.r.Heading? || t.r.Filling?) && t.r.i == s.r.i && t.received == s.received)
             || (p.length == 0 && t.r.Replying? && t.r.i == s.r.i && t.received == s.received + [[]])
    ensures ReceiverOk(p, m, t)
  {
    assert p.length == 0 ==> Data(p) == [];
  }

  lemma BodyOn(m: Messages, number: int, i: int, got: seq<byte>, d: seq<byte>)
    requires Sized(m) && 0 <= i < number && 4 + |got + d| <= |m.payload| && got + d <= m.payload[4..]
    requires From(m.payload, 4 + |got|) == d + From(m.payload, 4 + |got| + |d|)
    ensures var r, q := Filling(i, got), if 4 + |got + d| < |m.payload| then Filling(i, got + d) else Replying(i, 0);
            && ROk(m, number, q) && RRest(m, number, q) == RRest(m, number, r)
            && d + RNeed(m, number, q) == RNeed(m, number, r)
  {
    assert From(m.ack, 0) == m.ack;
    assert 4 + |got + d| == |m.payload| ==> From(m.payload, 4 + |got + d|) == [];
  }

  lemma FillingReads(p: Setup, m: Messages, s: State, d: seq<byte>)
    requires Fits(p) && Meaning(p, m) && ReceiverOk(p, m, s) && s.r.Filling? && 1 <= |d| <= RWants(s)
    requires d <= RNeed(m, p.number, s.r)
    ensures var t := AfterRead(p, s, d);
            && ReceiverOk(p, m, t) && t.t == s.t && t.to == s.to && t.back == s.back
            && d + RNeed(m, p.number, t.r) == RNeed(m, p.number, s.r)
            && RRest(m, p.number, t.r) == RRest(m, p.number, s.r)
  {
    var i, got, body := s.r.i, s.r.got, m.payload[4..];
    assert From(body, |got|) == From(m.payload, 4 + |got|);
    assert From(body, |got| + |d|) == From(m.payload, 4 + |got| + |d|);
    ReadOn(body, got, d, Repeat(m.payload, p.number - i - 1));
    BodyOn(m, p.number, i, got, d);
  }

  lemma RReadStep(p: Setup, m: Messages, s: State, d: seq<byte>)
    requires Fits(p) && Meaning(p, m) && ReceiverOk(p, m, s) && (s.r.Greeted? || s.r.Heading? || s.r.Filling?)
    requires 1 <= |d| <= RWants(s) && d <= RNeed(m, p.number, s.r)
    ensures var t := AfterRead(p, s, d);
            && ReceiverOk(p, m, t) && t.t == s.t && t.to == s.to && t.back == s.back
            && d + RNeed(m, p.number, t.r) == RNeed(m, p.number, s.r)
            && RRest(m, p.number, t.r) == RRest(m, p.number, s.r)
  {
    match s.r
    case Greeted(_) => GreetedReads(p, m, s, d);
    case Heading(_, _) => HeadingReads(p, m, s, d);
    case Filling(_, _) => FillingReads(p, m, s, d);
  }

  function AfterReply(number: int, r: Receiver, n: nat): Receiver
    requires r.Replying?
  {
    if r.sent + n == 4 then NextHead(number, r.i + 1) else Replying(r.i, r.sent + n)
  }

  lemma RWriteStep(m: Messages, number: int, r: Receiver, n: nat)
    requires Sized(m) && ROk(m, number, r) && r.Replying? && 1 <= n <= 4 - r.sent
    ensures var q, w := AfterReply(number, r, n), Slice(m.ack, r.sent, n);
            && ROk(m, number, q) && Count(number, q) == Count(number, r) && |w| == n
            && w + RRest(m, number, q) == RRest(m, number, r)
            && RNeed(m, number, q) == RNeed(m, number, r)
  {
    NextHeadRest(m, number, r.i + 1);
    assert From(m.ack, r.sent) == Slice(m.ack, r.sent, n) + From(m.ack, r.sent + n);
  }

  // ----------------------------------------------------------------------------------------------------------
  // Every step

  predicate Inv(p: Setup, m: Messages, s: State) {
    && TOk(m, p.number, s.t) && ReceiverOk(p, m, s)
    && |s.to| <= p.c1 && |s.back| <= p.c2
    && s.to + TRest(m, p.number, s.t) == RNeed(m, p.number, s.r)
    && s.back + RRest(m, p.number, s.r) == TNeed(m, p.number, s.t)
  }

  /** The bytes still to be moved: each is written once and read once. */
  function Work(m: Messages, number: int, s: State): nat {
    2 * |TRest(m, number, s.t)| + |s.to| + 2 * |RRest(m, number, s.r)| + |s.back|
  }

  /** What is written goes into the channel, what is read comes from it. */
  lemma Written(ch: seq<byte>, w: seq<byte>, rest: seq<byte>, rest1: seq<byte>, need: seq<byte>)
    requires ch + rest == need && w + rest1 == rest
    ensures (ch + w) + rest1 == need
  {
  }

  lemma IsRead(ch: seq<byte>, n: nat, rest: seq<byte>, need: seq<byte>)
    requires n <= |ch| && ch + rest == need
    ensures ch[..n] <= need
    ensures forall need1 :: ch[..n] + need1 == need ==> ch[n..] + rest == need1
  {
    assert ch == ch[..n] + ch[n..];
    forall need1 | ch[..n] + need1 == need ensures ch[n..] + rest == need1 {
      assert need[n..] == need1 && need[n..] == ch[n..] + rest;
    }
  }

  lemma TWriteKeeps(p: Setup, m: Messages, s: State, x: Step)
    requires Fits(p) && m == MessagesOf(p) && Meaning(p, m) && Inv(p, m, s) && x.TWrite? && Enabled(p, s, x)
    ensures Inv(p, m, Apply(p, s, x))
    ensures Work(m, p.number, Apply(p, s, x)) < Work(m, p.number, s)
  {
    var w := AfterWrite(m, p.number, s.t, x.n);
    TWriteStep(m, p.number, s.t, x.n);
    Written(s.to, w.1, TRest(m, p.number, s.t), TRest(m, p.number, w.0), RNeed(m, p.number, s.r));
  }

  lemma TReadKeeps(p: Setup, m: Messages, s: State, x: Step)
    requires Fits(p) && m == MessagesOf(p) && Meaning(p, m) && Inv(p, m, s) && x.TRead? && Enabled(p, s, x)
    ensures Inv(p, m, Apply(p, s, x))
    ensures Work(m, p.number, Apply(p, s, x)) < Work(m, p.number, s)
  {
    IsRead(s.back, x.n, RRest(m, p.number, s.r), TNeed(m, p.number, s.t));
    TReadStep(p, m, s.t, s.back[..x.n]);
  }

  lemma RReadKeeps(p: Setup, m: Messages, s: State, x: Step)
    requires Fits(p) && m == MessagesOf(p) && Meaning(p, m) && Inv(p, m, s) && x.RRead? && Enabled(p, s, x)
    ensures Inv(p, m, Apply(p, s, x))
    ensures Work(m, p.number, Apply(p, s, x)) < Work(m, p.number, s)
  {
    IsRead(s.to, x.n, TRest(m, p.number, s.t), RNeed(m, p.number, s.r));
    RReadStep(p, m, s.(to := s.to[x.n..]), s.to[..x.n]);
  }

  lemma RWriteKeeps(p: Setup, m: Messages, s: State, x: Step)
    requires Fits(p) && m == MessagesOf(p) && Meaning(p, m) && Inv(p, m, s) && x.RWrite? && Enabled(p, s, x)
    ensures Inv(p, m, Apply(p, s, x))
    ensures Work(m, p.number, Apply(p, s, x)) < Work(m, p.number, s)
  {
    RWriteStep(m, p.number, s.r, x.n);
    var q, w := AfterReply(p.number, s.r, x.n), Slice(m.ack, s.r.sent, x.n);
    Written(s.back, w, RRest(m, p.number, s.r), RRest(m, p.number, q), TNeed(m, p.number, s.t));
  }

  lemma StepKeepsInv(p: Setup, s: State, x: Step)
    requires Fits(p) && Inv(p, MessagesOf(p), s) && Enabled(p, s, x)
    ensures var m, t := MessagesOf(p), Apply(p, s, x);
            Inv(p, m, t) && Work(m, p.number, t) < Work(m, p.number, s)
  {
    MessagesMean(p);
    var m := MessagesOf(p);
    match x
    case TWrite(_) => TWriteKeeps(p, m, s, x);
    case TRead(_) => TReadKeeps(p, m, s, x);
    case RRead(_) => RReadKeeps(p, m, s, x);
    case RWrite(_) => RWriteKeeps(p, m, s, x);
  }

  // ----------------------------------------------------------------------------------------------------------
  // Nobody waits for ever

  lemma {:induction false} RepeatLonger(w: seq<byte>, a: int, b: int)
    requires a < b && b > 0
    ensures |Repeat(w, a)| + |w| <= |Repeat(w, b)|
    decreases b
  {
    if 0 < a {
      RepeatLonger(w, a - 1, b - 1);
    } else if b > 1 {
      RepeatLonger(w, a, b - 1);
    }
  }

  /** Two loops with the same bytes left are in the same round. */
  lemma SameRound(w: seq<byte>, a: int, b: int)
    requires w != []
    ensures |Repeat(w, a)| < |Repeat(w, b)| ==> a < b
    ensures a < b && b > 0 ==> |Repeat(w, a)| + |w| <= |Repeat(w, b)|
  {
    if a < b && b > 0 {
      RepeatLonger(w, a, b);
    } else if b < a && a > 0 {
      RepeatLonger(w, b, a);
    }
  }

  /** A transmitter that cannot write finds a receiver that can move. */
  lemma WriterNotStuck(p: Setup, m: Messages, s: State)
    requires Fits(p) && m == MessagesOf(p) && Sized(m) && Inv(p, m, s)
    requires (s.t.Greeting? || s.t.Sending?) && |s.to| == p.c1
    ensures Enabled(p, s, RRead(1)) || Enabled(p, s, RWrite(1))
  {
    match s.r
    case Replying(i, sent) => ReplyHasRoom(p, m, s);
    case _ =>
  }

  /** A receiver that replies while the transmitter writes is a round behind: the channel is all free. */
  lemma ReplyHasRoom(p: Setup, m: Messages, s: State)
    requires Fits(p) && Sized(m) && Inv(p, m, s) && (s.t.Greeting? || s.t.Sending?) && s.r.Replying?
    ensures s.back == []
  {
    var i, j := s.r.i, if s.t.Greeting? then 0 else s.t.i;
    if |s.back| >= 1 {
      assert |TRest(m, p.number, s.t)| >= 1 + |Repeat(m.payload, p.number - j - 1)|;
      SameRound(m.payload, p.number - j - 1, p.number - i - 1);
      SameRound(m.ack, p.number - j, p.number - i - 1);
      SameRound(m.ack, p.number - i - 1, p.number - j);
      assert false;
    }
  }

  /** Nor does one that waits for an acknowledgement. */
  lemma WaiterNotStuck(p: Setup, m: Messages, s: State)
    requires Fits(p) && m == MessagesOf(p) && Sized(m) && Inv(p, m, s) && s.t.Awaiting? && s.back == []
    ensures Enabled(p, s, RRead(1)) || Enabled(p, s, RWrite(1))
  {
    var j := s.t.i;
    match s.r
    case Replying(_, _) =>
    case Greeted(_) =>
      SameRound(m.payload, p.number - j - 1, p.number);
    case Heading(i, got) => Behind(p, m, s, i, |got|);
    case Filling(i, got) => Behind(p, m, s, i, 4 + |got|);
    case _ =>
  }

  lemma Behind(p: Setup, m: Messages, s: State, i: int, k: nat)
    requires Fits(p) && Sized(m) && s.back == [] && s.t.Awaiting? && 0 <= i < p.number && k < |m.payload|
    requires TOk(m, p.number, s.t) && RRest(m, p.number, s.r) == Repeat(m.ack, p.number - i)
    requires RNeed(m, p.number, s.r) == From(m.payload, k) + Repeat(m.payload, p.number - i - 1)
    requires s.to + TRest(m, p.number, s.t) == RNeed(m, p.number, s.r)
    requires s.back + RRest(m, p.number, s.r) == TNeed(m, p.number, s.t)
    ensures s.to != []
  {
    var j := s.t.i;
    if s.to == [] {
      SameRound(m.payload, p.number - i - 1, p.number - j - 1);
      SameRound(m.ack, p.number - j - 1, p.number - i);
      assert false;
    }
  }

  predicate Final(s: State) {
    s.t.TDone? && s.r.RDone?
  }

  lemma Progress(p: Setup, m: Messages, s: State)
    requires Fits(p) && m == MessagesOf(p) && Sized(m) && Inv(p, m, s) && !Final(s)
    ensures exists x :: Enabled(p, s, x)
  {
    match s.t
    case TDone => DoneNotStuck(p, m, s);
    case Awaiting(_, _) =>
      if s.back == [] {
        WaiterNotStuck(p, m, s);
      } else {
        assert Enabled(p, s, TRead(1));
      }
    case Greeting(_) => WriterMoves(p, m, s);
    case Sending(_, _) => WriterMoves(p, m, s);
    case TFailed =>
  }

  lemma WriterMoves(p: Setup, m: Messages, s: State)
    requires Fits(p) && m == MessagesOf(p) && Sized(m) && Inv(p, m, s) && (s.t.Greeting? || s.t.Sending?)
    ensures exists x :: Enabled(p, s, x)
  {
    if |s.to| == p.c1 {
      WriterNotStuck(p, m, s);
    } else {
      assert Enabled(p, s, TWrite(1));
    }
  }

  /** A transmitter that is done has left everything the receiver still reads in the channel. */
  lemma DoneNotStuck(p: Setup, m: Messages, s: State)
    requires Fits(p) && m == MessagesOf(p) && Sized(m) && Inv(p, m, s) && s.t.TDone? && !s.r.RDone?
    ensures Enabled(p, s, RRead(1))
  {
    assert s.back == [] && RRest(m, p.number, s.r) == [];
  }

  /** The state after a run, if it is one. */
  ghost function After(p: Setup, s: State, run: seq<Step>): Outcome
    requires SetupOk(p)
    decreases |run|
  {
    if run == [] then At(s)
    else if !Enabled(p, s, run[0]) then NoRun
    else After(p, Apply(p, s, run[0]), run[1..])
  }

  datatype Outcome = At(state: State) | NoRun

  lemma {:induction false} RunKeepsInv(p: Setup, s: State, run: seq<Step>, t: State)
    requires Fits(p) && Inv(p, MessagesOf(p), s) && After(p, s, run) == At(t)
    ensures Inv(p, MessagesOf(p), t)
    ensures |run| + Work(MessagesOf(p), p.number, t) <= Work(MessagesOf(p), p.number, s)
    decreases |run|
  {
    if run != [] {
      StepKeepsInv(p, s, run[0]);
      RunKeepsInv(p, Apply(p, s, run[0]), run[1..], t);
    }
  }

  lemma InitialInv(p: Setup)
    requires Fits(p)
    ensures Inv(p, MessagesOf(p), Initial()) && Sized(MessagesOf(p))
  {
    MessagesMean(p);
  }

  /** For any capacities, count and length, on every run: neither assertion fails, as long as both ends are not done
      someone can move, the number of steps is bounded by twice the bytes to be moved, and at the end the channels are
      empty and the receiver has exactly `number` copies of the payload. */
  lemma NeverBlocks(p: Setup, run: seq<Step>, s: State)
    requires Fits(p) && After(p, Initial(), run) == At(s)
    ensures !s.t.TFailed? && !s.r.RFailed?
    ensures Final(s) || exists x :: Enabled(p, s, x)
    ensures |run| <= Work(MessagesOf(p), p.number, Initial())
    ensures forall j :: 0 <= j < |s.received| ==> s.received[j] == Data(p)
    ensures Final(s) ==> s.to == [] && s.back == [] && |s.received| == if p.number > 0 then p.number else 0
  {
    InitialInv(p);
    RunKeepsInv(p, Initial(), run, s);
    if !Final(s) {
      Progress(p, MessagesOf(p), s);
    }
  }

  // ----------------------------------------------------------------------------------------------------------
  // The largest lengths

  /** Only the session message moves; what is in the channel and still to be written is what is still to be read. */
  predicate TooLongInv(hello: seq<byte>, s: State) {
    && |hello| == 8 && s.back == [] && s.received == []
    && (match s.t
        case Greeting(sent) => sent < 8 && s.r.Greeted? && s.r.got + s.to == hello[..sent]
        case TFailed => (s.r.Greeted? && s.r.got + s.to == hello) || (s.r.RFailed? && s.to == [])
        case _ => false)
    && (s.r.Greeted? ==> |s.r.got| < 8)
  }

  function TooLongWork(s: State): int {
    2 * (if s.t.Greeting? then 8 - s.t.sent else 0) + |s.to|
  }

  lemma HelloMeans(p: Setup)
    requires SetupOk(p)
    ensures var hello := MessagesOf(p).hello;
            |hello| == 8 && ReadInt32(hello[..4], p.hostR) == p.number && ReadInt32(hello[4..], p.hostR) == p.length
  {
    Int32RoundTrip(p.number, p.hostT, p.hostR);
    Int32RoundTrip(p.length, p.hostT, p.hostR);
    var a, b := Int32(p.number, p.hostT), Int32(p.length, p.hostT);
    assert (a + b)[..4] == a && (a + b)[4..] == b;
  }

  lemma PayloadSize(p: Setup)
    requires SetupOk(p)
    ensures |MessagesOf(p).payload| == 4 + p.length
  {
    Int32RoundTrip(p.length, p.hostT, p.hostR);
  }

  /** The transmitter fails as soon as the session message is out. */
  lemma TooLongWriteShape(p: Setup, s: State, n: nat)
    requires SetupOk(p) && !Fits(p) && s.t.Greeting? && Enabled(p, s, TWrite(n))
    ensures Apply(p, s, TWrite(n)) ==
            s.(t := if s.t.sent + n == 8 then TFailed else Greeting(s.t.sent + n),
               to := s.to + Slice(MessagesOf(p).hello, s.t.sent, n))
  {
    PayloadSize(p);
    TotalLength(p.length);
  }

  lemma TooLongWrite(hello: seq<byte>, s: State, n: nat, t: State)
    requires TooLongInv(hello, s) && s.t.Greeting? && 1 <= n && s.t.sent + n <= 8
    requires t == s.(t := if s.t.sent + n == 8 then TFailed else Greeting(s.t.sent + n),
                     to := s.to + Slice(hello, s.t.sent, n))
    ensures TooLongInv(hello, t) && TooLongWork(t) < TooLongWork(s)
  {
    var sent := s.t.sent;
    var w := Slice(hello, sent, n);
    assert hello[..sent] + w == hello[..sent + n];
    assert s.r.got + (s.to + w) == (s.r.got + s.to) + w;
    assert hello[..8] == hello;
  }

  /** The receiver fails as soon as it has the session message. */
  lemma TooLongReadShape(p: Setup, s: State, n: nat)
    requires SetupOk(p) && !Fits(p) && s.r.Greeted? && Enabled(p, s, RRead(n))
    requires |s.r.got| + n == 8 ==> s.r.got + s.to[..n] == MessagesOf(p).hello
    ensures var t, g := Apply(p, s, RRead(n)), s.r.got + s.to[..n];
            && t.t == s.t && t.to == s.to[n..] && t.back == s.back && t.received == s.received
            && t.r == if |g| < 8 then Greeted(g) else RFailed
  {
    HelloMeans(p);
    StartFails(p.number, p.length);
  }

  lemma StartFails(number: int, length: nat)
    requires length < I31 && 4 + length >= I31
    ensures StartReceive(number, length) == RFailed
  {
    TotalLength(length);
  }

  lemma TooLongRead(hello: seq<byte>, s: State, n: nat, t: State)
    requires TooLongInv(hello, s) && s.r.Greeted? && 1 <= n <= |s.to| && |s.r.got| + n <= 8
    requires var g := s.r.got + s.to[..n];
             && t.t == s.t && t.to == s.to[n..] && t.back == s.back && t.received == s.received
             && t.r == if |g| < 8 then Greeted(g) else RFailed
    ensures TooLongInv(hello, t) && TooLongWork(t) < TooLongWork(s)
  {
    assert s.r.got + s.to[..n] + s.to[n..] == s.r.got + s.to;
  }

  lemma WholeHello(hello: seq<byte>, s: State, n: nat)
    requires TooLongInv(hello, s) && s.r.Greeted? && n <= |s.to| && |s.r.got| + n == 8
    ensures s.r.got + s.to[..n] == hello
  {
    assert s.r.got + s.to[..n] + s.to[n..] == s.r.got + s.to;
  }

  lemma TooLongStep(p: Setup, s: State, x: Step)
    requires SetupOk(p) && !Fits(p) && TooLongInv(MessagesOf(p).hello, s) && Enabled(p, s, x)
    ensures var t := Apply(p, s, x); TooLongInv(MessagesOf(p).hello, t) && TooLongWork(t) < TooLongWork(s)
  {
    var hello := MessagesOf(p).hello;
    match x
    case TWrite(n) =>
      TooLongWriteShape(p, s, n);
      TooLongWrite(hello, s, n, Apply(p, s, x));
    case RRead(n) =>
      if |s.r.got| + n == 8 {
        WholeHello(hello, s, n);
      }
      TooLongReadShape(p, s, n);
      TooLongRead(hello, s, n, Apply(p, s, x));
    case TRead(_) => assert false;
    case RWrite(_) => assert false;
  }

  lemma {:induction false} TooLongRun(p: Setup, s: State, run: seq<Step>, t: State)
    requires SetupOk(p) && !Fits(p) && TooLongInv(MessagesOf(p).hello, s) && After(p, s, run) == At(t)
    ensures TooLongInv(MessagesOf(p).hello, t) && |run| + TooLongWork(t) <= TooLongWork(s)
    decreases |run|
  {
    if run != [] {
      TooLongStep(p, s, run[0]);
      TooLongRun(p, Apply(p, s, run[0]), run[1..], t);
    }
  }

  lemma TooLongProgress(p: Setup, s: State)
    requires SetupOk(p) && TooLongInv(MessagesOf(p).hello, s) && !(s.t.TFailed? && s.r.RFailed?)
    ensures exists x :: Enabled(p, s, x)
  {
    if s.to != [] {
      assert Enabled(p, s, RRead(1));
    } else {
      assert s.t.Greeting?;
      assert Enabled(p, s, TWrite(1));
    }
  }

  /** For the four largest lengths, on every run: no payload moves, someone can move until both ends have failed their
      assertion on the allocated message, and that takes at most 16 steps. */
  lemma TooLongFails(p: Setup, run: seq<Step>, s: State)
    requires SetupOk(p) && !Fits(p) && After(p, Initial(), run) == At(s)
    ensures s.received == [] && !Final(s) && |run| <= 16
    ensures (s.t.TFailed? && s.r.RFailed?) || exists x :: Enabled(p, s, x)
  {
    HelloMeans(p);
    assert MessagesOf(p).hello[..0] == [];
    TooLongRun(p, Initial(), run, s);
    if !(s.t.TFailed? && s.r.RFailed?) {
      TooLongProgress(p, s);
    }
  }

  /** A run that can go no further ends well exactly when the length is at most 2^31 - 5. */
  lemma EndsWellExactly(p: Setup, run: seq<Step>, s: State)
    requires SetupOk(p) && After(p, Initial(), run) == At(s) && forall x :: !Enabled(p, s, x)
    ensures if Fits(p) then Final(s) else s.t.TFailed? && s.r.RFailed?
  {
    if Fits(p) {
      NeverBlocks(p, run, s);
    } else {
      TooLongFails(p, run, s);
    }
  }
}
