/** Streams that transfer less than asked (sylar/stream.cc) and the WebSocket session over them
    (sylar/http/ws_session.cc). */
module WsSession {
  import opened Bits
  import opened Blocks
  import opened Codec
  import opened Tasks
  import opened WebSocket

  /** A connection: `rx` is what the peer will still deliver before it ends or fails, `tx` what has been written, `room`
      how many more bytes the peer will take. How many bytes a single call transfers is up to the environment. */
  class Stream {
    var rx: seq<byte>
    var tx: seq<byte>
    var room: nat
    var closed: bool

    constructor (incoming: seq<byte>, capacity: nat)
      ensures rx == incoming && tx == [] && room == capacity && !closed
    {
      rx, tx, room, closed := incoming, [], capacity, false;
    }

    /** read: at least one byte and at most `n`, or a result that is not positive. */
    method Read(n: nat) returns (len: int, bytes: seq<byte>)
      requires n > 0
      modifies this`rx
      ensures bytes + rx == old(rx)
      ensures if old(rx) == [] then len <= 0 && bytes == [] else len == |bytes| && 1 <= len <= n
    {
      if rx == [] {
        len := *;
        return if len <= 0 then len else 0, [];
      }
      len := *;
      if len < 1 || len > n || len > |rx| {
        len := 1;
      }
      bytes := rx[..len];
      rx := rx[len..];
    }

    method Write(d: seq<byte>) returns (len: int)
      requires d != []
      modifies this`tx, this`room
      ensures if old(room) == 0 then len <= 0 && tx == old(tx) && room == 0
              else 1 <= len <= |d| && len <= old(room) && tx == old(tx) + d[..len] && room == old(room) - len
    {
      len := *;
      if room == 0 {
        return if len <= 0 then len else 0;
      }
      if len < 1 || len > |d| || len > room {
        len := 1;
      }
      tx := tx + d[..len];
      room := room - len;
    }

    /** readFixSize: however the stream splits the bytes, all or a failure. A length of 2^63 or more is negative as
        int64_t, and then nothing is read. */
    method ReadFixSize(n: nat) returns (code: int, bytes: seq<byte>)
      requires n < U64
      modifies this`rx
      ensures n < I63 && n <= |old(rx)| ==> code == Narrow(n) && bytes == old(rx)[..n] && rx == old(rx)[n..]
      ensures n < I63 && n > |old(rx)| ==> code <= 0 && rx == []
      ensures n >= I63 ==> code == Narrow(n) && rx == old(rx)
    {
      bytes := [];
      var left: int := if n < I63 then n else n - U64;
      while left > 0
        invariant n >= I63 ==> left <= 0 && rx == old(rx)
        invariant n < I63 ==> left == n - |bytes| >= 0 && bytes + rx == old(rx)
        decreases left
      {
        var len, more := Read(left);
        if len <= 0 {
          return len, bytes;
        }
        bytes := bytes + more;
        left := left - len;
      }
      code := Narrow(n);
      assert n < I63 ==> old(rx)[..n] == bytes && old(rx)[n..] == rx;
    }

    /** writeFixSize: everything is written, or as much as the peer takes. */
    method WriteFixSize(d: seq<byte>) returns (code: int)
      requires |d| < I63
      modifies this`tx, this`room
      ensures |d| <= old(room) ==> code == Narrow(|d|) && tx == old(tx) + d && room == old(room) - |d|
      ensures |d| > old(room) ==> code <= 0 && tx == old(tx) + d[..old(room)] && room == 0
    {
      var offset: nat := 0;
      var left := |d|;
      while left > 0
        invariant offset <= |d| && left == |d| - offset
        invariant offset <= old(room) && room == old(room) - offset && tx == old(tx) + d[..offset]
      {
        var len := Write(d[offset..]);
        if len <= 0 {
          return len;
        }
        TakeMore(d, offset, len);
        offset := offset + len;
        left := left - len;
      }
      assert d[..|d|] == d;
      code := Narrow(|d|);
    }

    lemma TakeMore(d: seq<byte>, offset: nat, len: nat)
      requires offset + len <= |d|
      ensures d[..offset] + d[offset..][..len] == d[..offset + len]
    {
      assert d[offset..][..len] == d[offset..offset + len];
    }

    method Close()
      modifies this`closed
      ensures closed
    {
      closed := true;
    }
  }

  // ----------------------------------------------------------------------------------------------------------
  // WSRecvMessage

  datatype Text = Text(opcode: nat, data: seq<byte>)

  /** WSPing and WSPong */
  method SendControl(stream: Stream, opcode: nat) returns (code: int)
    requires opcode < 16
    modifies stream
    ensures stream.rx == old(stream.rx)
    ensures if old(stream.room) >= 2
            then && code > 0 && stream.tx == old(stream.tx) + Control(opcode) && stream.room == old(stream.room) - 2
                 && stream.closed == old(stream.closed)
            else && code <= 0 && stream.closed && stream.tx == old(stream.tx) + Control(opcode)[..old(stream.room)]
                 && stream.room == 0
  {
    code := stream.WriteFixSize(Control(opcode));
    if code <= 0 {
      stream.Close();
    }
  }

  /** The 16 or 64 bit length behind the header, if there is one. */
  method ReadLength(stream: Stream, payload: nat, host: bool) returns (length: Option<nat>)
    requires payload < 128
    modifies stream`rx
    ensures var w := LengthWidth(payload);
            if w > |old(stream.rx)| then length == None && stream.rx == []
            else && length == Some(if w == 0 then payload else Unwire(old(stream.rx)[..w], false, host))
                 && stream.rx == old(stream.rx)[w..]
    ensures length.Some? ==> length.value < U64
  {
    if LengthWidth(payload) == 0 {
      return Some(payload);
    }
    var w := LengthWidth(payload);
    var code, bytes := stream.ReadFixSize(w);
    if code <= 0 {
      return None;
    }
    UnwireBelow(bytes, host);
    return Some(Unwire(bytes, false, host));
  }

  lemma UnwireBelow(s: seq<byte>, host: bool)
    requires |s| == 2 || |s| == 8
    ensures Unwire(s, false, host) < U64
  {
    UnwireOrder(s, false, host);
    LeOfFromLe(Reverse(s));
    RadixIsPow2(|s|);
    Widths();
  }

  /** The masking key, all zero if the frame is not masked. */
  method ReadKey(stream: Stream, mask: bool) returns (key: Option<seq<byte>>)
    modifies stream`rx
    ensures if mask && |old(stream.rx)| < 4 then key == None && stream.rx == []
            else if mask then key == Some(old(stream.rx)[..4]) && stream.rx == old(stream.rx)[4..]
            else key == Some([0, 0, 0, 0]) && stream.rx == old(stream.rx)
  {
    if !mask {
      return Some([0, 0, 0, 0]);
    }
    var code, bytes := stream.ReadFixSize(4);
    return if code <= 0 then None else Some(bytes);
  }

  /** A length fits 32 bits, or is negative for readFixSize and as its result. */
  predicate LengthOk(length: nat) {
    length < U32 || (I63 <= length < U64 && Narrow(length) < 0)
  }

  /** Such are the lengths that pass the check. */
  lemma PassedLength(have: nat, length: nat, limit: nat)
    requires have < I31 && length < U64 && limit < U32 && (have + length) % U64 < limit
    ensures LengthOk(length) && (length < I63 ==> have + length < limit)
  {
    if have + length < U64 {
      ModOneDown(have + length, U64);
    } else {
      LargeNarrow(length);
    }
  }

  lemma LargeNarrow(length: nat)
    requires U64 - I31 < length < U64
    ensures Narrow(length) < 0
  {
    assert U64 == U32 * U32;
    var k := length - (U32 - 1) * U32;
    assert length % U32 == k;
  }

  lemma NarrowSign(have: nat)
    requires have < U32
    ensures Narrow(have) < 0 <==> have >= I31
    ensures have < I31 ==> Narrow(have) == have
  {
  }

  /** What reading a part came to: the payload, nothing, or memory in front of the string. */
  datatype PartRead = Read(data: seq<byte>) | Failed | OutOfBounds

  lemma SliceTwice(s: seq<byte>, m: nat, n: nat)
    requires m + n <= |s|
    ensures s[m..][..n] == s[m..m + n] && s[m..][n..] == s[m + n..] && s[0..] == s
  {
  }

  /** Behind the key, the payload is read as if there were none, and unmasked. */
  lemma MaskedPayload(rx: seq<byte>, length: nat)
    requires |rx| >= 4
    ensures ReadPayload(rx, true, length, false) ==
            match ReadPayload(rx[4..], false, length, false)
            case Payload(d, rest) => Payload(Mask(d, rx[..4]), rest)
            case p => p
  {
    assert rx[4..][0..] == rx[4..];
    if 4 + length <= |rx| {
      SliceTwice(rx, 4, length);
    }
  }

  /** The payload of a frame that passed the length check. */
  method ReadPlain(stream: Stream, length: nat) returns (part: PartRead)
    requires LengthOk(length)
    modifies stream`rx
    ensures match ReadPayload(old(stream.rx), false, length, false)
            case Bad(rest) => part == Failed && stream.rx == rest
            case Outside => false
            case Payload(d, rest) => part == Read(d) && stream.rx == rest
  {
    assert stream.rx[0..] == stream.rx;
    var code, d := stream.ReadFixSize(length);
    return if code <= 0 then Failed else Read(d);
  }

  /** The key and the payload of a frame that passed the length check, unmasked. */
  method ReadMasked(stream: Stream, mask: bool, length: nat, outside: bool) returns (part: PartRead)
    requires outside || LengthOk(length)
    modifies stream`rx
    ensures match ReadPayload(old(stream.rx), mask, length, outside)
            case Bad(rest) => part == Failed && stream.rx == rest
            case Outside => part == OutOfBounds
            case Payload(d, rest) => part == Read(d) && stream.rx == rest
  {
    var key := ReadKey(stream, mask);
    if key == None {
      return Failed;
    }
    if outside {
      return OutOfBounds;
    }
    part := ReadPlain(stream, length);
    if mask {
      MaskedPayload(old(stream.rx), length);
      if part.Read? {
        var d := MaskLoop(part.data, key.value);
        part := Read(d);
      }
    }
  }

  /** The loop that masks or unmasks. */
  method MaskLoop(s: seq<byte>, key: seq<byte>) returns (d: seq<byte>)
    requires |key| == 4
    ensures d == Mask(s, key)
  {
    d := s;
    for i := 0 to |s|
      invariant |d| == |s|
      invariant forall j :: 0 <= j < i ==> d[j] == XorByte(s[j], key[j % 4])
      invariant forall j :: i <= j < |s| ==> d[j] == s[j]
    {
      d := d[i := XorByte(d[i], key[i % 4])];
    }
  }

  /** Length, check, key and payload of a data frame; cur_len is an int. */
  method ReadFrame(stream: Stream, h: Head, have: nat, limit: nat, host: bool) returns (part: PartRead)
    requires HeadOk(h) && limit < U32 && have < U32
    modifies stream`rx
    ensures match ReadPart(h, old(stream.rx), have, limit, host)
            case Bad(rest) => part == Failed && stream.rx == rest
            case Outside => part == OutOfBounds
            case Payload(d, rest) => part == Read(d) && stream.rx == rest
    ensures part.Read? ==> have + |part.data| < limit
  {
    var length := ReadLength(stream, h.payload, host);
    if length == None {
      return Failed;
    }
    var cur := Narrow(have);
    if (cur + length.value) % U64 >= limit {
      return Failed;
    }
    NarrowSign(have);
    if cur >= 0 {
      PassedLength(have, length.value, limit);
    }
    part := ReadMasked(stream, h.mask, length.value, cur < 0);
  }

  /** What WSRecvMessage returns: a message, a null pointer, or nothing because memory was overwritten. */
  datatype Answer = Got(text: Text) | Null | Undefined

  /** The stream is as WSRecvMessage leaves it, and r is what it returns. */
  predicate Outcome(x: Received, rx: seq<byte>, tx: seq<byte>, room: nat, closed: bool, r: Answer) {
    match x
    case Message(opcode, data, rx1, tx1, room1) =>
      r == Got(Text(opcode, data)) && rx == rx1 && tx == tx1 && room == room1
    case Closed(rx1, tx1, room1) => r == Null && closed && rx == rx1 && tx == tx1 && room == room1
    case Overrun => r == Undefined
  }

  method WSRecvMessage(stream: Stream, client: bool, limit: nat, host: bool) returns (r: Answer)
    requires limit < U32
    modifies stream
    ensures Outcome(Recv(old(stream.rx), old(stream.tx), old(stream.room), client, limit, host, 0, []),
                    stream.rx, stream.tx, stream.room, stream.closed, r)
  {
    var opcode, data := 0, [];
    ghost var result := Recv(stream.rx, stream.tx, stream.room, client, limit, host, 0, []);
    while true
      invariant opcode >= 0 && |data| < U32
      invariant Recv(stream.rx, stream.tx, stream.room, client, limit, host, opcode, data) == result
      decreases |stream.rx|
    {
      var code, bytes := stream.ReadFixSize(2);
      if code <= 0 {
        break;
      }
      var h := ParseHead(bytes);
      if h.opcode == PING {
        var sent := SendControl(stream, PONG);
        if sent <= 0 {
          break;
        }
      } else if h.opcode == CONTINUE || h.opcode == TEXT_FRAME || h.opcode == BIN_FRAME {
        if !client && !h.mask {
          break;
        }
        var part := ReadFrame(stream, h, |data|, limit, host);
        if part.OutOfBounds? {
          return Undefined;
        }
        if part.Failed? {
          break;
        }
        data := data + part.data;
        if opcode == 0 && h.opcode != CONTINUE {
          opcode := h.opcode;
        }
        if h.fin {
          return Got(Text(opcode, data));
        }
      }
    }
    stream.Close();
    r := Null;
  }

  // ----------------------------------------------------------------------------------------------------------
  // WSSendMessage

  class FrameMessage {
    var opcode: int
    var data: seq<byte>

    constructor (op: int, d: seq<byte>)
      ensures opcode == op && data == d
    {
      opcode, data := op, d;
    }
  }

  function Least(a: nat, b: nat): nat {
    if a <= b then a else b
  }

  /** One writeFixSize of a frame f of which `done` bytes are out. */
  method WritePart(stream: Stream, ghost tx: seq<byte>, ghost room: nat, ghost f: seq<byte>, ghost done: nat,
                   part: seq<byte>) returns (code: int)
    requires done <= room && done + |part| <= |f| && f[done..done + |part|] == part && |part| < I63
    requires stream.tx == tx + f[..done] && stream.room == room - done
    modifies stream`tx, stream`room
    ensures if done + |part| <= room
            then && code == Narrow(|part|) && stream.tx == tx + f[..done + |part|]
                 && stream.room == room - (done + |part|)
            else code <= 0 && stream.tx == tx + f[..room] && stream.room == 0
  {
    code := stream.WriteFixSize(part);
    assert done + |part| <= room ==> f[..done] + part == f[..done + |part|];
    assert done + |part| > room ==> f[..done] + part[..room - done] == f[..room];
  }

  /** The writes of header and length. */
  method WritePreamble(stream: Stream, ghost f: seq<byte>, head: seq<byte>, len: seq<byte>) returns (ok: bool)
    requires |head| == 2 && |len| <= 8 && |head| + |len| <= |f| && f[..2] == head && f[2..2 + |len|] == len
    modifies stream`tx, stream`room
    ensures ok <==> 2 + |len| <= old(stream.room)
    ensures var k := Least(2 + |len|, old(stream.room));
            stream.tx == old(stream.tx) + f[..k] && stream.room == old(stream.room) - k
  {
    ghost var tx, room := stream.tx, stream.room;
    assert stream.tx == tx + f[..0];
    var code := WritePart(stream, tx, room, f, 0, head);
    if code > 0 && len != [] {
      code := WritePart(stream, tx, room, f, 2, len);
    }
    ok := code > 0;
  }

  /** The writes of key and payload; `done` bytes of f are out. */
  method WriteBody(stream: Stream, msg: FrameMessage, key: Option<seq<byte>>, ghost tx: seq<byte>, ghost room: nat,
                   ghost f: seq<byte>, ghost done: nat) returns (ok: bool)
    requires (key.Some? ==> |key.value| == 4) && |msg.data| < I63 && done <= room && done <= |f|
    requires f[done..] == Masked(msg.data, key)
    requires stream.tx == tx + f[..done] && stream.room == room - done
    modifies stream`tx, stream`room, msg`data
    ensures msg.data == if key.Some? then Mask(old(msg.data), key.value) else old(msg.data)
    ensures ok <==> |f| <= room && Narrow(|msg.data|) > 0
    ensures stream.tx == tx + f[..Least(|f|, room)] && stream.room == room - Least(|f|, room)
  {
    ghost var at := done;
    if key.Some? {
      msg.data := MaskLoop(msg.data, key.value);
      assert f[done..done + 4] == key.value && f[done + 4..] == msg.data;
      var code := WritePart(stream, tx, room, f, done, key.value);
      if code <= 0 {
        return false;
      }
      at := done + 4;
    }
    assert f[at..] == f[at..at + |msg.data|] == msg.data;
    var code := WritePart(stream, tx, room, f, at, msg.data);
    assert f[..|f|] == f;
    return code > 0;
  }

  predicate IsFrame(f: seq<byte>, op: nat, d: seq<byte>, fin: bool, key: Option<seq<byte>>, host: bool) {
    op < 16 && (key.Some? ==> |key.value| == 4) && f == Frame(op, d, fin, key, host)
  }

  lemma FrameParts(f: seq<byte>, op: nat, d: seq<byte>, fin: bool, key: Option<seq<byte>>, host: bool)
    requires IsFrame(f, op, d, fin, key, host) && |d| < U64
    ensures var len := LengthBytes(|d|, host);
            && |len| == LengthWidth(PayloadField(|d|)) <= 8 && 2 + |len| <= |f|
            && f[..2] == HeadBytes(Head(fin, op, key.Some?, PayloadField(|d|)))
            && f[2..2 + |len|] == len && f[2 + |len|..] == Masked(d, key)
  {
    LengthBytesRead(|d|, host);
    ThreeParts(HeadBytes(Head(fin, op, key.Some?, PayloadField(|d|))), LengthBytes(|d|, host), Masked(d, key), f);
  }

  lemma ThreeParts(head: seq<byte>, len: seq<byte>, body: seq<byte>, f: seq<byte>)
    requires f == head + len + body
    ensures f[..|head|] == head && f[|head|..|head| + |len|] == len && f[|head| + |len|..] == body
  {
  }

  /** The frame f of the message goes out, or as much of it as the peer takes. A message with no data fails although all
      of it is out. A client, the sender with a masking key, leaves its message masked. */
  method WSSendMessage(stream: Stream, msg: FrameMessage, fin: bool, key: Option<seq<byte>>, host: bool,
                       ghost f: seq<byte>) returns (code: int)
    requires IsFrame(f, msg.opcode % 16, msg.data, fin, key, host) && |msg.data| < I63
    modifies stream, msg
    ensures stream.rx == old(stream.rx) && msg.opcode == old(msg.opcode)
    ensures && stream.tx == old(stream.tx) + f[..Least(|f|, old(stream.room))]
            && stream.room == old(stream.room) - Least(|f|, old(stream.room))
            && (|f| <= old(stream.room) ==> stream.tx == old(stream.tx) + f)
            && (if |f| <= old(stream.room) && Narrow(|old(msg.data)|) > 0
                then code == Narrow(|old(msg.data)| + 2) && stream.closed == old(stream.closed)
                else code == -1 && stream.closed)
    ensures var preamble := 2 + LengthWidth(PayloadField(|old(msg.data)|));
            msg.data == if key.Some? && preamble <= old(stream.room) then Mask(old(msg.data), key.value)
                        else old(msg.data)
  {
    var size := |msg.data|;
    var head := HeadBytes(Head(fin, msg.opcode % 16, key.Some?, PayloadField(size)));
    var len := LengthBytes(size, host);
    FrameParts(f, msg.opcode % 16, msg.data, fin, key, host);
    var ok := WritePreamble(stream, f, head, len);
    if ok {
      ok := WriteBody(stream, msg, key, old(stream.tx), old(stream.room), f, 2 + |len|);
    }
    assert f[..|f|] == f;
    if !ok {
      stream.Close();
      return -1;
    }
    return Narrow(size + 2);
  }

  // ----------------------------------------------------------------------------------------------------------
  // From one end to the other

  /** What the senders send without closing the stream. */
  predicate Sendable(fs: Frames, client: bool) {
    && SentOk(fs.x, client) && (fs.x.Fragment? ==> 0 < |fs.x.data| < I31)
    && match fs case Last(x) => x.Fragment? case Then(_, more) => Sendable(more, client)
  }

  lemma {:induction false} SendableOk(fs: Frames, client: bool)
    requires Sendable(fs, client)
    ensures FramesOk(fs, client)
  {
    match fs
    case Last(_) =>
    case Then(_, more) => SendableOk(more, client);
  }

  /** One element of a message, sent with the repository's own senders. */
  method SendOne(stream: Stream, x: Sent, fin: bool, client: bool, host: bool, ghost e: seq<byte>)
    requires SentOk(x, client) && (x.Fragment? ==> 0 < |x.data| < I31)
    requires e == BytesOf(x, fin, client, host) && |e| <= stream.room
    modifies stream
    ensures stream.tx == old(stream.tx) + e && stream.rx == old(stream.rx)
    ensures stream.room == old(stream.room) - |e| && stream.closed == old(stream.closed)
  {
    match x
    case Ping =>
      var code := SendControl(stream, PING);
    case Pong =>
      var code := SendControl(stream, PONG);
    case Fragment(op, d, key) =>
      SendFragment(stream, op, d, fin, key, host, e);
  }

  method SendFragment(stream: Stream, op: nat, d: seq<byte>, fin: bool, key: Option<seq<byte>>, host: bool,
                      ghost f: seq<byte>)
    requires IsFrame(f, op, d, fin, key, host) && 0 < |d| < I31 && |f| <= stream.room
    modifies stream
    ensures stream.tx == old(stream.tx) + f && stream.rx == old(stream.rx)
    ensures stream.room == old(stream.room) - |f| && stream.closed == old(stream.closed)
  {
    var msg := new FrameMessage(op, d);
    NarrowSmall(|d|);
    var code := WSSendMessage(stream, msg, fin, key, host, f);
  }

  method SendAll(stream: Stream, fs: Frames, client: bool, host: bool)
    requires Sendable(fs, client) && FramesOk(fs, client) && |Wired(fs, client, host)| <= stream.room
    modifies stream
    ensures stream.tx == old(stream.tx) + Wired(fs, client, host) && stream.closed == old(stream.closed)
    decreases fs
  {
    match fs
    case Last(x) =>
      SendOne(stream, x, true, client, host, BytesOf(x, true, client, host));
    case Then(x, more) =>
      ghost var e := BytesOf(x, false, client, host);
      SendOne(stream, x, false, client, host, e);
      SendableOk(more, client);
      SendAll(stream, more, client, host);
      Regroup(old(stream.tx), e, Wired(more, client, host));
  }

  /** A message sent in fragments and received through a stream that splits the bytes as it likes, for every limit: the
      receiver returns the concatenation of the fragments and the first opcode that is not CONTINUE, writes one PONG for
      each PING, and leaves what follows the message unread, exactly when it takes every fragment and the peer takes the
      PONGs; otherwise it returns no message. */
  method Transfer(fs: Frames, later: seq<byte>, client: bool, limit: nat, host: bool, room: nat)
    returns (r: Answer, receiver: Stream)
    requires Sendable(fs, client) && |Joined(fs)| < U64 && limit < U32
    ensures if AllTaken(fs, 0, limit) && |Pongs(fs)| <= room
            then && r == Got(Text(FirstOpcode(fs, 0), Joined(fs)))
                 && receiver.tx == Pongs(fs) && receiver.rx == later
            else !r.Got?
  {
    SendableOk(fs, client);
    var sender := new Stream([], |Wired(fs, client, host)|);
    SendAll(sender, fs, client, host);
    receiver := new Stream(sender.tx + later, room);
    assert [] + Wired(fs, client, host) == Wired(fs, client, host);
    assert [] + Joined(fs) == Joined(fs) && [] + Pongs(fs) == Pongs(fs);
    FragmentsRoundTrip(fs, later, [], room, client, limit, host, 0, []);
    r := WSRecvMessage(receiver, client, limit, host);
  }
}
