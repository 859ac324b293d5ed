/** WebSocket frames (sylar/http/ws_session.h, sylar/http/ws_session.cc; sections 5.2 to 5.4 of RFC 6455) as functions
    on byte sequences: what a sender puts on the wire, and what the receiving loop makes of what arrives. */
module WebSocket {
  import opened Bits
  import opened Blocks
  import opened Codec
  import opened Tasks

  const CONTINUE: nat := 0
  const TEXT_FRAME: nat := 1
  const BIN_FRAME: nat := 2
  const PING: nat := 9
  const PONG: nat := 10

  // ----------------------------------------------------------------------------------------------------------
  // Header and masking

  /** WSFrameHead without its reserved bits, which senders leave zero and the receiver ignores. */
  datatype Head = Head(fin: bool, opcode: nat, mask: bool, payload: nat)

  predicate HeadOk(h: Head) {
    h.opcode < 16 && h.payload < 128
  }

  function HeadBytes(h: Head): (r: seq<byte>)
    requires HeadOk(h)
    ensures |r| == 2
  {
    [h.opcode + (if h.fin then 128 else 0), h.payload + (if h.mask then 128 else 0)]
  }

  function ParseHead(s: seq<byte>): (h: Head)
    requires |s| == 2
    ensures HeadOk(h)
  {
    Head(s[0] >= 128, s[0] % 16, s[1] >= 128, s[1] % 128)
  }

  lemma HeadRoundTrip(h: Head)
    requires HeadOk(h)
    ensures ParseHead(HeadBytes(h)) == h
  {
  }

  /** The three bits between the FIN bit and the opcode. */
  function Reserved(s: seq<byte>): nat
    requires |s| == 2
  {
    s[0] / 16 % 8
  }

  /** Two bytes are the header of the fields read from them exactly when the reserved bits are zero. */
  lemma BytesRoundTrip(s: seq<byte>)
    requires |s| == 2
    ensures HeadBytes(ParseHead(s)) == s <==> Reserved(s) == 0
  {
    assert s[0] == s[0] / 128 * 128 + Reserved(s) * 16 + s[0] % 16;
    var r := HeadBytes(ParseHead(s));
    assert r[1] == s[1];
    assert r[0] == s[0] <==> Reserved(s) == 0;
    if r[0] == s[0] {
      assert r == s;
    }
  }

  function XorByte(a: byte, b: byte): byte {
    XorBelow(a, b, 8);
    assert Pow2(8) == 256;
    Xor(a, b)
  }

  /** Masking: byte i with byte i % 4 of the key. */
  function Mask(d: seq<byte>, key: seq<byte>): (r: seq<byte>)
    requires |key| == 4
    ensures |r| == |d|
  {
    seq(|d|, i requires 0 <= i < |d| => XorByte(d[i], key[i % 4]))
  }

  /** Byte i is masked with byte i % 4 of the key: together they give that byte. */
  lemma MaskedWith(d: seq<byte>, key: seq<byte>, i: nat)
    requires |key| == 4 && i < |d|
    ensures Xor(Mask(d, key)[i], d[i]) == key[i % 4]
  {
    XorCommutes(d[i], key[i % 4]);
    XorUndoes(key[i % 4], d[i]);
  }

  /** Masking twice with the same key changes nothing. */
  lemma MaskUndoes(d: seq<byte>, key: seq<byte>)
    requires |key| == 4
    ensures Mask(Mask(d, key), key) == d
  {
    forall i | 0 <= i < |d| ensures Mask(Mask(d, key), key)[i] == d[i] {
      XorUndoes(d[i], key[i % 4]);
    }
  }

  // ----------------------------------------------------------------------------------------------------------
  // Sending

  /** The 7-bit length, or the mark of a longer one. */
  function PayloadField(n: nat): (r: nat)
    ensures r < 128
  {
    if n < 126 then n else if n < 65536 then 126 else 127
  }

  /** The width of the length behind the header. */
  function LengthWidth(payload: nat): nat {
    if payload == 126 then 2 else if payload == 127 then 8 else 0
  }

  function LengthBytes(n: nat, host: bool): seq<byte> {
    var w := LengthWidth(PayloadField(n));
    if w == 0 then [] else Wire(ToBits(n, 8 * w), w, false, host)
  }

  /** The frame of a message: header, length, key if masked, payload. */
  function Frame(opcode: nat, d: seq<byte>, fin: bool, key: Option<seq<byte>>, host: bool): seq<byte>
    requires opcode < 16 && (key.Some? ==> |key.value| == 4)
  {
    HeadBytes(Head(fin, opcode, key.Some?, PayloadField(|d|))) + LengthBytes(|d|, host) + Masked(d, key)
  }

  function Masked(d: seq<byte>, key: Option<seq<byte>>): seq<byte>
    requires key.Some? ==> |key.value| == 4
  {
    if key.Some? then key.value + Mask(d, key.value) else d
  }

  /** The repository's own PING and PONG have no payload. */
  function Control(opcode: nat): seq<byte>
    requires opcode < 16
  {
    HeadBytes(Head(true, opcode, false, 0))
  }

  /** The shortest form is used: seven bits up to 125, sixteen below 65536, and sixty-four beyond. */
  lemma ShortestLength(n: nat, host: bool)
    requires n < U64
    ensures |LengthBytes(n, host)| == if n <= 125 then 0 else if n < 0x1_0000 then 2 else 8
    ensures PayloadField(n) == if n <= 125 then n else if n < 0x1_0000 then 126 else 127
  {
    LengthBytesRead(n, host);
  }

  const HELLO: seq<byte> := [0x48, 0x65, 0x6c, 0x6c, 0x6f]

  /** The examples of section 5.7 of RFC 6455: a single-frame text message, the same in two fragments, an empty control
      frame... */
  lemma ExampleFrames(host: bool)
    ensures Frame(TEXT_FRAME, HELLO, true, None, host) == [0x81, 0x05, 0x48, 0x65, 0x6c, 0x6c, 0x6f]
    ensures Frame(TEXT_FRAME, HELLO[..3], false, None, host) == [0x01, 0x03, 0x48, 0x65, 0x6c]
    ensures Frame(CONTINUE, HELLO[3..], true, None, host) == [0x80, 0x02, 0x6c, 0x6f]
    ensures Control(PING) == [0x89, 0x00] && Control(PONG) == [0x8a, 0x00]
  {
  }

  /** ... and the headers of 256 bytes and of 64 KiB of binary data. */
  lemma ExampleHeaders(host: bool)
    ensures HeadBytes(Head(true, BIN_FRAME, false, PayloadField(256))) + LengthBytes(256, host) == [0x82, 0x7e, 1, 0]
    ensures HeadBytes(Head(true, BIN_FRAME, false, PayloadField(65536))) + LengthBytes(65536, host) ==
            [0x82, 0x7f] + [0, 0, 0, 0, 0, 1, 0, 0]
  {
    ExampleShort(host);
    ExampleLong(host);
  }

  lemma ExampleShort(host: bool)
    ensures LengthBytes(256, host) == [1, 0]
  {
    Widths();
    ModOneDown(256, Pow2(16));
    RadixIsPow2(2);
    WireOrder(256, 2, false, host);
    assert Le(256, 2) == [0, 1];
  }

  lemma ExampleLong(host: bool)
    ensures LengthBytes(65536, host) == [0, 0, 0, 0, 0, 1, 0, 0]
  {
    Widths();
    ModOneDown(65536, Pow2(64));
    RadixIsPow2(8);
    WireOrder(65536, 8, false, host);
    ExampleLe();
  }

  lemma ExampleLe()
    ensures Reverse(Le(65536, 8)) == [0, 0, 0, 0, 0, 1, 0, 0]
  {
    assert Le(1, 6) == [1, 0, 0, 0, 0, 0];
    assert Le(65536, 8) == [0] + Le(256, 7) && Le(256, 7) == [0] + Le(1, 6);
  }

  /** In a masked frame the key follows the length, and byte i behind it is byte i of the data masked with byte i % 4 of
      the key. */
  lemma MaskedFrame(op: nat, d: seq<byte>, fin: bool, key: seq<byte>, host: bool, i: nat)
    requires op < 16 && |key| == 4 && i < |d| < U64
    ensures var f, o := Frame(op, d, fin, Some(key), host), 2 + LengthWidth(PayloadField(|d|));
            |f| == o + 4 + |d| && f[o..o + 4] == key && Xor(f[o + 4 + i], d[i]) == key[i % 4]
  {
    LengthBytesRead(|d|, host);
    MaskedWith(d, key, i);
  }

  // ----------------------------------------------------------------------------------------------------------
  // Receiving

  /** What WSRecvMessage comes to. `rx` is what is left to read, `tx` what it has written, `room` how much more the
      peer accepts. Overrun: a payload is read to a negative index of the string. */
  datatype Received =
    | Message(opcode: nat, data: seq<byte>, rx: seq<byte>, tx: seq<byte>, room: nat)
    | Closed(rx: seq<byte>, tx: seq<byte>, room: nat)
    | Overrun

  /** A data frame behind its header: its payload and what follows it, or what a failure leaves unread. */
  datatype Part = Payload(data: seq<byte>, rest: seq<byte>) | Bad(rest: seq<byte>) | Outside

  /** Read length, key and payload. cur_len is an int, and negative once 2^31 bytes are there; the sum in the length
      check is a uint64_t. */
  function ReadPart(h: Head, rx: seq<byte>, have: nat, limit: nat, host: bool): (p: Part)
    ensures p.Payload? ==> |p.data| > 0 && |p.rest| + |p.data| <= |rx|
  {
    var w := LengthWidth(h.payload);
    if w > |rx| then Bad([])
    else
      var length := if w == 0 then h.payload else Unwire(rx[..w], false, host);
      if (Narrow(have) + length) % U64 >= limit then Bad(rx[w..])
      else ReadPayload(rx[w..], h.mask, length, Narrow(have) < 0)
  }

  /** readFixSize reads nothing for a length that is negative as int64_t, and returns the length as an int, which is a
      failure for length 0 and for lengths that are negative as int. */
  function ReadPayload(rx: seq<byte>, mask: bool, length: nat, outside: bool): (p: Part)
    ensures p.Payload? ==> |p.data| > 0 && |p.rest| + |p.data| <= |rx|
  {
    var m := if mask then 4 else 0;
    if m > |rx| then Bad([])
    else if outside then Outside
    else if length == 0 || length >= I63 then Bad(rx[m..])
    else if m + length > |rx| then Bad([])
    else if Narrow(length) <= 0 then Bad(rx[m + length..])
    else
      var d := rx[m..m + length];
      Payload(if mask then Mask(d, rx[..4]) else d, rx[m + length..])
  }

  /** The receiving loop, with the opcode and the data gathered so far. */
  function Recv(rx: seq<byte>, tx: seq<byte>, room: nat, client: bool, limit: nat, host: bool, opcode: nat,
                data: seq<byte>): Received
    decreases |rx|
  {
    if |rx| < 2 then Closed([], tx, room)
    else
      var h := ParseHead(rx[..2]);
      var rest := rx[2..];
      if h.opcode == PING then
        if room < 2 then Closed(rest, tx + Control(PONG)[..room], 0)
        else Recv(rest, tx + Control(PONG), room - 2, client, limit, host, opcode, data)
      else if h.opcode > BIN_FRAME then Recv(rest, tx, room, client, limit, host, opcode, data)
      else if !client && !h.mask then Closed(rest, tx, room)
      else
        match ReadPart(h, rest, |data|, limit, host)
        case Bad(rest1) => Closed(rest1, tx, room)
        case Outside => Overrun
        case Payload(d, rest1) =>
          var opcode1 := if opcode == 0 then h.opcode else opcode;
          if h.fin then Message(opcode1, data + d, rest1, tx, room)
          else Recv(rest1, tx, room, client, limit, host, opcode1, data + d)
  }

  // ----------------------------------------------------------------------------------------------------------
  // Round trip

  /** What a peer sends: its own control frames, or a fragment. */
  datatype Sent = Ping | Pong | Fragment(opcode: nat, data: seq<byte>, key: Option<seq<byte>>)

  /** Fragments are masked when a server receives them. */
  predicate SentOk(x: Sent, client: bool) {
    match x
    case Ping => true
    case Pong => true
    case Fragment(op, d, key) => op <= BIN_FRAME && (key.Some? ==> |key.value| == 4) && (client || key.Some?)
  }

  function BytesOf(x: Sent, fin: bool, client: bool, host: bool): seq<byte>
    requires SentOk(x, client)
  {
    match x
    case Ping => Control(PING)
    case Pong => Control(PONG)
    case Fragment(op, d, key) => Frame(op, d, fin, key, host)
  }

  /** What makes up a message: control frames and fragments, and then the last fragment. */
  datatype Frames = Last(x: Sent) | Then(x: Sent, more: Frames)

  predicate FramesOk(fs: Frames, client: bool) {
    SentOk(fs.x, client) && match fs case Last(x) => x.Fragment? case Then(_, more) => FramesOk(more, client)
  }

  /** A message on the wire: only the last frame has the FIN bit of a fragment. */
  function Wired(fs: Frames, client: bool, host: bool): seq<byte>
    requires FramesOk(fs, client)
  {
    match fs
    case Last(x) => BytesOf(x, true, client, host)
    case Then(x, more) => BytesOf(x, false, client, host) + Wired(more, client, host)
  }

  function DataOf(x: Sent): seq<byte> {
    if x.Fragment? then x.data else []
  }

  /** The fragments put together. */
  function Joined(fs: Frames): seq<byte> {
    match fs
    case Last(x) => DataOf(x)
    case Then(x, more) => DataOf(x) + Joined(more)
  }

  /** `if (!opcode && ...)`: the opcode a frame leaves. */
  function OpcodeAfter(x: Sent, opcode: nat): nat {
    if opcode == 0 && x.Fragment? then x.opcode else opcode
  }

  /** The first opcode that is not CONTINUE, starting from one that may already be there. */
  function FirstOpcode(fs: Frames, opcode: nat): nat {
    match fs
    case Last(x) => OpcodeAfter(x, opcode)
    case Then(x, more) => FirstOpcode(more, OpcodeAfter(x, opcode))
  }

  /** One PONG for each PING. */
  function PongOf(x: Sent): seq<byte> {
    if x.Ping? then Control(PONG) else []
  }

  function Pongs(fs: Frames): seq<byte> {
    match fs
    case Last(x) => PongOf(x)
    case Then(x, more) => PongOf(x) + Pongs(more)
  }

  lemma LengthBytesRead(n: nat, host: bool)
    requires n < U64
    ensures |LengthBytes(n, host)| == LengthWidth(PayloadField(n))
    ensures LengthWidth(PayloadField(n)) > 0 ==> Unwire(LengthBytes(n, host), false, host) == n
    ensures LengthWidth(PayloadField(n)) == 0 ==> PayloadField(n) == n
  {
    var w := LengthWidth(PayloadField(n));
    Widths();
    if w > 0 {
      LongLength(n, w, host);
    }
  }

  lemma LongLength(n: nat, w: nat, host: bool)
    requires n < Pow2(8 * w)
    ensures |Wire(ToBits(n, 8 * w), w, false, host)| == w
    ensures Unwire(Wire(ToBits(n, 8 * w), w, false, host), false, host) == n
  {
    RadixIsPow2(w);
    ModOneDown(n, Pow2(8 * w));
    FixedRoundTrip(n, w, false, host, host);
  }

  /** What the length check sees. */
  lemma SumOf(have: nat, n: nat)
    requires have < U32 && have + n < U64
    ensures have < I31 ==> Narrow(have) == have && (Narrow(have) + n) % U64 == have + n
    ensures have >= I31 ==> Narrow(have) < 0
  {
    if have < I31 {
      ModOneDown(have + n, U64);
    }
  }

  lemma PayloadReads(d: seq<byte>, key: Option<seq<byte>>, rest: seq<byte>)
    requires |d| < U32 && (key.Some? ==> |key.value| == 4)
    ensures ReadPayload(Masked(d, key) + rest, key.Some?, |d|, false) ==
            if 0 < |d| < I31 then Payload(d, rest) else Bad(rest)
  {
    var rx := Masked(d, key) + rest;
    SumOf(|d|, 0);
    if key.Some? {
      assert rx[..4] == key.value && rx[4..4 + |d|] == Mask(d, key.value) && rx[4 + |d|..] == rest;
      MaskUndoes(d, key.value);
    } else {
      assert rx[0..|d|] == d && rx[|d|..] == rest;
    }
  }

  lemma LengthReads(h: Head, e: seq<byte>, body: seq<byte>, length: nat, have: nat, limit: nat, host: bool)
    requires |e| == LengthWidth(h.payload) && length == if e == [] then h.payload else Unwire(e, false, host)
    ensures ReadPart(h, e + body, have, limit, host) ==
            if (Narrow(have) + length) % U64 >= limit then Bad(body)
            else ReadPayload(body, h.mask, length, Narrow(have) < 0)
  {
    assert (e + body)[..|e|] == e && (e + body)[|e|..] == body;
  }

  /** The receiver takes the fragment: it starts below 2^31, is not empty, is shorter than 2^31, and ends below the
      limit. */
  predicate Taken(d: seq<byte>, have: nat, limit: nat) {
    have < I31 && 0 < |d| < I31 && have + |d| < limit
  }

  /** A frame is read back, whatever follows it, exactly when it is taken; what is left unread otherwise. */
  lemma PartReads(h: Head, d: seq<byte>, key: Option<seq<byte>>, rest: seq<byte>, have: nat, limit: nat, host: bool)
    requires (key.Some? ==> |key.value| == 4) && h.mask == key.Some? && h.payload == PayloadField(|d|)
    requires have < U32 && have + |d| < U64 && limit < U32
    ensures var p := ReadPart(h, LengthBytes(|d|, host) + (Masked(d, key) + rest), have, limit, host);
            if Taken(d, have, limit) then p == Payload(d, rest)
            else if have < I31 then p == Bad(if have + |d| >= limit then Masked(d, key) + rest else rest)
            else !p.Payload?
  {
    var body := Masked(d, key) + rest;
    LengthChecked(h, |d|, body, have, limit, host);
    if have < I31 {
      if have + |d| < limit {
        PayloadReads(d, key, rest);
      }
    }
  }

  /** The check, with cur_len and the sum worked out. */
  lemma LengthChecked(h: Head, n: nat, body: seq<byte>, have: nat, limit: nat, host: bool)
    requires h.payload == PayloadField(n) && have < U32 && have + n < U64
    ensures var p := ReadPart(h, LengthBytes(n, host) + body, have, limit, host);
            if have >= I31 then !p.Payload?
            else p == if have + n >= limit then Bad(body) else ReadPayload(body, h.mask, n, false)
  {
    LengthBytesRead(n, host);
    LengthReads(h, LengthBytes(n, host), body, n, have, limit, host);
    SumOf(have, n);
  }

  lemma RecvControl(x: Sent, rest: seq<byte>, tx: seq<byte>, room: nat, client: bool, limit: nat, host: bool,
                    opcode: nat, data: seq<byte>)
    requires !x.Fragment? && |PongOf(x)| <= room
    ensures Recv(BytesOf(x, false, client, host) + rest, tx, room, client, limit, host, opcode, data) ==
            Recv(rest, tx + PongOf(x), room - |PongOf(x)|, client, limit, host, OpcodeAfter(x, opcode),
                 data + DataOf(x))
  {
    assert data + DataOf(x) == data;
    var op := if x.Ping? then PING else PONG;
    var rx := Control(op) + rest;
    assert rx[..2] == Control(op) && rx[2..] == rest;
    HeadRoundTrip(Head(true, op, false, 0));
    assert tx + [] == tx;
  }

  lemma FrameSplit(op: nat, d: seq<byte>, fin: bool, key: Option<seq<byte>>, host: bool, rest: seq<byte>)
    requires op < 16 && (key.Some? ==> |key.value| == 4)
    ensures Frame(op, d, fin, key, host) + rest ==
            HeadBytes(Head(fin, op, key.Some?, PayloadField(|d|))) + (LengthBytes(|d|, host) + (Masked(d, key) + rest))
  {
  }

  /** One turn of the receiving loop on a data frame. */
  lemma RecvData(h: Head, tail: seq<byte>, tx: seq<byte>, room: nat, client: bool, limit: nat, host: bool, opcode: nat,
                 data: seq<byte>)
    requires HeadOk(h) && h.opcode <= BIN_FRAME && (client || h.mask)
    ensures Recv(HeadBytes(h) + tail, tx, room, client, limit, host, opcode, data) ==
            match ReadPart(h, tail, |data|, limit, host)
            case Bad(rest) => Closed(rest, tx, room)
            case Outside => Overrun
            case Payload(d, rest) =>
              var opcode1 := if opcode == 0 then h.opcode else opcode;
              if h.fin then Message(opcode1, data + d, rest, tx, room)
              else Recv(rest, tx, room, client, limit, host, opcode1, data + d)
  {
    var rx := HeadBytes(h) + tail;
    assert rx[..2] == HeadBytes(h) && rx[2..] == tail;
    HeadRoundTrip(h);
  }

  lemma RecvFragment(x: Sent, fin: bool, rest: seq<byte>, tx: seq<byte>, room: nat, client: bool, limit: nat,
                     host: bool, opcode: nat, data: seq<byte>)
    requires SentOk(x, client) && x.Fragment? && |data| < U32 && |data| + |x.data| < U64 && limit < U32
    ensures var r := Recv(BytesOf(x, fin, client, host) + rest, tx, room, client, limit, host, opcode, data);
            if Taken(x.data, |data|, limit) then
              r == if fin then Message(OpcodeAfter(x, opcode), data + x.data, rest, tx, room)
                   else Recv(rest, tx, room, client, limit, host, OpcodeAfter(x, opcode), data + x.data)
            else !r.Message?
  {
    var h := Head(fin, x.opcode, x.key.Some?, PayloadField(|x.data|));
    var tail := LengthBytes(|x.data|, host) + (Masked(x.data, x.key) + rest);
    FrameSplit(x.opcode, x.data, fin, x.key, host, rest);
    PartReads(h, x.data, x.key, rest, |data|, limit, host);
    RecvData(h, tail, tx, room, client, limit, host, opcode, data);
  }

  /** Fragments that are empty, have 2^31 bytes or more, or reach the limit are refused and the connection is closed: at
      the limit before the key is read, otherwise with all of the frame read. */
  lemma RefusedFragment(op: nat, d: seq<byte>, fin: bool, key: Option<seq<byte>>, rest: seq<byte>, tx: seq<byte>,
                        room: nat, client: bool, limit: nat, host: bool, opcode: nat, data: seq<byte>)
    requires op <= BIN_FRAME && (key.Some? ==> |key.value| == 4) && (client || key.Some?)
    requires |data| < I31 && |data| + |d| < U64 && limit < U32 && !Taken(d, |data|, limit)
    ensures Recv(Frame(op, d, fin, key, host) + rest, tx, room, client, limit, host, opcode, data) ==
            Closed(if |data| + |d| >= limit then Masked(d, key) + rest else rest, tx, room)
  {
    var h := Head(fin, op, key.Some?, PayloadField(|d|));
    var tail := LengthBytes(|d|, host) + (Masked(d, key) + rest);
    FrameSplit(op, d, fin, key, host, rest);
    PartReads(h, d, key, rest, |data|, limit, host);
    RecvData(h, tail, tx, room, client, limit, host, opcode, data);
  }

  /** A server closes the connection at a data frame that is not masked, with all of it unread. */
  lemma UnmaskedRefused(h: Head, rest: seq<byte>, tx: seq<byte>, room: nat, limit: nat, host: bool, opcode: nat,
                        data: seq<byte>)
    requires HeadOk(h) && h.opcode <= BIN_FRAME && !h.mask
    ensures Recv(HeadBytes(h) + rest, tx, room, false, limit, host, opcode, data) == Closed(rest, tx, room)
  {
    var rx := HeadBytes(h) + rest;
    assert rx[..2] == HeadBytes(h) && rx[2..] == rest;
    HeadRoundTrip(h);
  }

  /** Of a frame with any other opcode only the two header bytes are read, and nothing is answered. */
  lemma OtherOpcodesSkipped(h: Head, rest: seq<byte>, tx: seq<byte>, room: nat, client: bool, limit: nat, host: bool,
                            opcode: nat, data: seq<byte>)
    requires HeadOk(h) && h.opcode > BIN_FRAME && h.opcode != PING
    ensures Recv(HeadBytes(h) + rest, tx, room, client, limit, host, opcode, data) ==
            Recv(rest, tx, room, client, limit, host, opcode, data)
  {
    var rx := HeadBytes(h) + rest;
    assert rx[..2] == HeadBytes(h) && rx[2..] == rest;
    HeadRoundTrip(h);
  }

  lemma RefusedPing(rest: seq<byte>, tx: seq<byte>, room: nat, client: bool, limit: nat, host: bool, opcode: nat,
                    data: seq<byte>)
    requires room < 2
    ensures Recv(Control(PING) + rest, tx, room, client, limit, host, opcode, data).Closed?
  {
    var rx := Control(PING) + rest;
    assert rx[..2] == Control(PING) && rx[2..] == rest;
    HeadRoundTrip(Head(true, PING, false, 0));
  }

  // ----------------------------------------------------------------------------------------------------------
  // Whole messages

  /** The receiver takes every fragment, one after the other. */
  predicate AllTaken(fs: Frames, have: nat, limit: nat) {
    (fs.x.Fragment? ==> Taken(fs.x.data, have, limit)) &&
    match fs case Last(_) => true case Then(x, more) => AllTaken(more, have + |DataOf(x)|, limit)
  }

  predicate NoneEmpty(fs: Frames) {
    (fs.x.Fragment? ==> fs.x.data != []) && match fs case Last(_) => true case Then(_, more) => NoneEmpty(more)
  }

  /** For a limit of at most 2^31: no fragment is empty and the message is shorter than the limit. */
  lemma {:induction false} TakenBelowLimit(fs: Frames, client: bool, have: nat, limit: nat)
    requires FramesOk(fs, client) && limit <= I31
    ensures AllTaken(fs, have, limit) <==> NoneEmpty(fs) && have + |Joined(fs)| < limit
    decreases fs
  {
    match fs
    case Last(_) =>
    case Then(x, more) => TakenBelowLimit(more, client, have + |DataOf(x)|, limit);
  }

  /** r is the message put together from what is already there and the frames, with `rest` left to read. */
  predicate Builds(fs: Frames, rest: seq<byte>, tx: seq<byte>, room: nat, opcode: nat, data: seq<byte>, r: Received) {
    && |Pongs(fs)| <= room
    && r == Message(FirstOpcode(fs, opcode), data + Joined(fs), rest, tx + Pongs(fs), room - |Pongs(fs)|)
  }

  /** The message exactly when every fragment is taken and there is room for the PONGs, otherwise none. */
  predicate Exactly(fs: Frames, rest: seq<byte>, tx: seq<byte>, room: nat, limit: nat, opcode: nat, data: seq<byte>,
                    r: Received) {
    if AllTaken(fs, |data|, limit) && |Pongs(fs)| <= room then Builds(fs, rest, tx, room, opcode, data, r)
    else !r.Message?
  }

  lemma Regroup(a: seq<byte>, b: seq<byte>, c: seq<byte>)
    ensures a + b + c == a + (b + c)
  {
  }

  /** One frame received, the rest of the message is built on what it leaves. */
  lemma ExactlyOn(fs: Frames, rest: seq<byte>, tx: seq<byte>, room: nat, limit: nat, opcode: nat, data: seq<byte>,
                  r: Received)
    requires fs.Then? && (fs.x.Fragment? ==> Taken(fs.x.data, |data|, limit)) && |PongOf(fs.x)| <= room
    requires Exactly(fs.more, rest, tx + PongOf(fs.x), room - |PongOf(fs.x)|, limit, OpcodeAfter(fs.x, opcode),
                     data + DataOf(fs.x), r)
    ensures Exactly(fs, rest, tx, room, limit, opcode, data, r)
  {
    Regroup(tx, PongOf(fs.x), Pongs(fs.more));
    Regroup(data, DataOf(fs.x), Joined(fs.more));
  }

  lemma NotExactly(fs: Frames, rest: seq<byte>, tx: seq<byte>, room: nat, limit: nat, opcode: nat, data: seq<byte>,
                   r: Received)
    requires fs.Then? && !((fs.x.Fragment? ==> Taken(fs.x.data, |data|, limit)) && |PongOf(fs.x)| <= room)
    requires !r.Message?
    ensures Exactly(fs, rest, tx, room, limit, opcode, data, r)
  {
  }

  /** What one frame that is not the last does to the receiving loop. */
  lemma RecvOne(x: Sent, rx: seq<byte>, rest: seq<byte>, tx: seq<byte>, room: nat, client: bool, limit: nat,
                host: bool, opcode: nat, data: seq<byte>)
    requires SentOk(x, client) && |data| < U32 && |data| + |DataOf(x)| < U64 && limit < U32
    requires rx == BytesOf(x, false, client, host) + rest
    ensures var r := Recv(rx, tx, room, client, limit, host, opcode, data);
            if (x.Fragment? ==> Taken(x.data, |data|, limit)) && |PongOf(x)| <= room then
              r == Recv(rest, tx + PongOf(x), room - |PongOf(x)|, client, limit, host, OpcodeAfter(x, opcode),
                        data + DataOf(x))
            else !r.Message?
  {
    if x.Fragment? {
      var tx1, room1, data1 := tx + PongOf(x), room - |PongOf(x)|, data + DataOf(x);
      assert tx1 == tx && room1 == room && data1 == data + x.data;
      RecvFragment(x, false, rest, tx, room, client, limit, host, opcode, data);
    } else if |PongOf(x)| <= room {
      RecvControl(x, rest, tx, room, client, limit, host, opcode, data);
    } else {
      RefusedPing(rest, tx, room, client, limit, host, opcode, data);
    }
  }

  lemma WiredSplit(fs: Frames, rest: seq<byte>, client: bool, host: bool)
    requires fs.Then? && FramesOk(fs, client)
    ensures Wired(fs, client, host) + rest ==
            BytesOf(fs.x, false, client, host) + (Wired(fs.more, client, host) + rest)
  {
    Regroup(BytesOf(fs.x, false, client, host), Wired(fs.more, client, host), rest);
  }

  /** A message sent in any fragments, masked or not, with PINGs and PONGs between them, arrives as the concatenation of
      the fragments under the first opcode that is not CONTINUE, with one PONG written per PING, exactly when every
      fragment is taken and the peer takes the PONGs. */
  lemma {:induction false} FragmentsRoundTrip(fs: Frames, rest: seq<byte>, tx: seq<byte>, room: nat, client: bool,
                                              limit: nat, host: bool, opcode: nat, data: seq<byte>)
    requires FramesOk(fs, client) && |data| < U32 && |data| + |Joined(fs)| < U64 && limit < U32
    ensures Exactly(fs, rest, tx, room, limit, opcode, data,
                    Recv(Wired(fs, client, host) + rest, tx, room, client, limit, host, opcode, data))
    decreases fs
  {
    match fs
    case Last(x) =>
      RecvFragment(x, true, rest, tx, room, client, limit, host, opcode, data);
      assert tx + [] == tx;
    case Then(x, more) =>
      WiredSplit(fs, rest, client, host);
      var rx := Wired(more, client, host) + rest;
      RecvOne(x, Wired(fs, client, host) + rest, rx, tx, room, client, limit, host, opcode, data);
      if (x.Fragment? ==> Taken(x.data, |data|, limit)) && |PongOf(x)| <= room {
        FragmentsRoundTrip(more, rest, tx + PongOf(x), room - |PongOf(x)|, client, limit, host, OpcodeAfter(x, opcode),
                           data + DataOf(x));
        ExactlyOn(fs, rest, tx, room, limit, opcode, data,
                  Recv(rx, tx + PongOf(x), room - |PongOf(x)|, client, limit, host, OpcodeAfter(x, opcode),
                       data + DataOf(x)));
      } else {
        NotExactly(fs, rest, tx, room, limit, opcode, data,
                   Recv(Wired(fs, client, host) + rest, tx, room, client, limit, host, opcode, data));
      }
  }
}
