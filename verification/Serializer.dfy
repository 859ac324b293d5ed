/** The typed writers and readers of ByteArray (sylar/bytearray.cc) as methods on the array, and the round trip through
    it. `host` is the machine's byte order. */
module Serializer {
  import opened Bits
  import opened Blocks
  import opened ByteArrays
  import opened Codec
  import opened Tasks
  import opened TypedValues
  import Varint

  type Parsed<T> = Varint.Parsed<T>

  /** The bytes e were written at position p, which moved behind them; what was before them in `was` is still there. */
  ghost predicate Put(b: ByteArray, was: seq<byte>, p: nat, size: nat, e: seq<byte>)
    reads b, b.nodes
  {
    && b.Valid() && b.position == p + |e| && b.size >= size
    && p <= |was| && b.flat[..p] == was[..p] && b.flat[p..b.position] == e
  }

  /** writeUint32 and writeUint64, with a temporary of 5 or 10 bytes. */
  method WriteVarint(b: ByteArray, u: nat, bits: nat)
    requires b.Valid() && (bits == 32 || bits == 64) && u < Pow2(bits)
    modifies b, b.nodes
    ensures Put(b, old(b.flat), old(b.position), old(b.size), Varint.Encode(u)) && b.little == old(b.little)
    ensures fresh(b.Footprint() - old(b.Footprint()))
  {
    var tmp := new byte[if bits == 32 then 5 else 10];
    Pow2Monotone(bits, 7 * tmp.Length);
    var n := Varint.EncodeInto(tmp, u);
    b.Write(tmp[..n]);
  }

  /** writeFint8 to writeFuint64: the memory of the number, swapped if the orders differ. */
  method WriteFixed(b: ByteArray, u: nat, w: nat, host: bool)
    requires b.Valid()
    modifies b, b.nodes
    ensures Put(b, old(b.flat), old(b.position), old(b.size), Wire(u, w, b.little, host)) && b.little == old(b.little)
    ensures fresh(b.Footprint() - old(b.Footprint()))
  {
    var v := u;
    if b.little != host {
      v := Swap(v, w);
    }
    b.Write(Memory(v, w, host));
  }

  method WriteLength(b: ByteArray, p: Prefix, n: nat, host: bool)
    requires b.Valid() && n < U64
    modifies b, b.nodes
    ensures Put(b, old(b.flat), old(b.position), old(b.size), EncodeLength(p, n, b.little, host))
    ensures b.little == old(b.little)
    ensures fresh(b.Footprint() - old(b.Footprint()))
  {
    if p.Vint? {
      Widths();
      WriteVarint(b, n, 64);
    } else {
      WriteFixed(b, ToBits(n, 8 * PrefixWidth(p)), PrefixWidth(p), host);
    }
  }

  /** Two writes one after the other are one. */
  lemma WritesJoin(was: seq<byte>, p: nat, mid: seq<byte>, at: nat, flat: seq<byte>, end: nat, d: seq<byte>,
                   e: seq<byte>)
    requires p <= |was| && p <= at <= |mid| && at <= end <= |flat|
    requires mid[..p] == was[..p] && mid[p..at] == d && flat[..at] == mid[..at] && flat[at..end] == e
    ensures flat[..p] == was[..p] && flat[p..end] == d + e
  {
    assert flat[..p] == flat[..at][..p] == mid[..p];
    assert flat[p..at] == flat[..at][p..] == mid[p..at];
    SliceJoin(flat, p, at, end);
  }

  /** writeStringF16, writeStringF32, writeStringF64 and writeStringVint: the length, then the bytes. */
  method WriteText(b: ByteArray, p: Prefix, s: seq<byte>, host: bool)
    requires b.Valid() && |s| < U64
    modifies b, b.nodes
    ensures Put(b, old(b.flat), old(b.position), old(b.size), EncodeLength(p, |s|, b.little, host) + s)
    ensures b.little == old(b.little)
    ensures fresh(b.Footprint() - old(b.Footprint()))
  {
    WriteLength(b, p, |s|, host);
    ghost var mid, at, d := b.flat, b.position, EncodeLength(p, |s|, b.little, host);
    b.Write(s);
    WritesJoin(old(b.flat), old(b.position), mid, at, b.flat, b.position, d, s);
  }

  /** Any of the writers; e names the bytes it puts out. */
  method WriteValue(b: ByteArray, k: Kind, x: Value, host: bool, ghost e: seq<byte>)
    requires b.Valid() && Encodes(e, k, x, b.little, host)
    modifies b, b.nodes
    ensures Put(b, old(b.flat), old(b.position), old(b.size), e) && b.little == old(b.little)
    ensures fresh(b.Footprint() - old(b.Footprint()))
  {
    match k
    case Fixed(w, _) => WriteFixed(b, ToBits(x.v, 8 * w), w, host);
    case Variable(bits, signed) => WriteVarint(b, Unsigned(x.v, bits, signed), bits);
    case Text(p) => WriteText(b, p, x.s, host);
  }

  /** setIsLittleEndian, then a typed write. */
  method WriteItem(b: ByteArray, it: Item, host: bool, ghost e: seq<byte>)
    requires b.Valid() && Encodes(e, it.kind, it.value, it.little, host)
    modifies b, b.nodes
    ensures Put(b, old(b.flat), old(b.position), old(b.size), e)
    ensures fresh(b.Footprint() - old(b.Footprint()))
  {
    b.SetIsLittleEndian(it.little);
    WriteValue(b, it.kind, it.value, host, e);
  }

  /** A run of typed writes. */
  method WriteAll(b: ByteArray, items: seq<Item>, host: bool)
    requires b.Valid() && ItemsOk(items)
    modifies b, b.nodes
    ensures Put(b, old(b.flat), old(b.position), old(b.size), EncodeAll(items, host))
    ensures fresh(b.Footprint() - old(b.Footprint()))
    decreases |items|
  {
    if items != [] {
      ghost var e := EncodeValue(items[0].kind, items[0].value, items[0].little, host);
      ghost var more := EncodeAll(items[1..], host);
      WriteItem(b, items[0], host, e);
      ghost var mid, at := b.flat, b.position;
      WriteAll(b, items[1..], host);
      WritesJoin(old(b.flat), old(b.position), mid, at, b.flat, b.position, e, more);
    }
  }

  // ----------------------------------------------------------------------------------------------------------
  // Readers

  /** The bytes that can be read, and whether they end where the capacity ends. */
  ghost function Ahead(b: ByteArray): seq<byte>
    requires b.Valid()
    reads b, b.nodes
  {
    b.flat[b.position..b.size]
  }

  /** readFint8 to readFuint64: the bits of the number. */
  method ReadFixed(b: ByteArray, w: nat, host: bool) returns (r: Parsed<nat>)
    requires b.Valid() && w >= 1
    modifies b`position, b`cur
    ensures b.Valid() && !r.Crash? && b.position == old(b.position) + r.n
    ensures r == DecodeFixed(old(Ahead(b)), w, b.little, host)
  {
    var o := b.Read(w);
    if o.OutOfRange? {
      return Varint.OutOfRange(0);
    }
    assert o.bytes == old(Ahead(b))[..w];
    var v := FromMemory(o.bytes, host);
    if b.little != host {
      v := Swap(v, w);
    }
    return Varint.Got(v, w);
  }

  function Later(p: Parsed<nat>, n: nat): Parsed<nat> {
    match p
    case Got(v, m) => Varint.Got(v, m + n)
    case OutOfRange(m) => Varint.OutOfRange(m + n)
    case Crash => Varint.Crash
  }

  lemma DecodeOne(s: seq<byte>, n: nat, i: nat, result: nat, bits: nat)
    requires i < 32 && n <= |s|
    ensures var rest := s[n..];
            Later(Varint.Decode(rest, i, result, bits), n) ==
            if rest == [] then Varint.OutOfRange(n)
            else
              var next := Varint.Accumulate(result, rest[0] % 128, i, bits);
              if rest[0] < 128 then Varint.Got(next, n + 1)
              else Later(Varint.Decode(s[n + 1..], i + 7, next, bits), n + 1)
  {
    if n < |s| {
      assert s[n..][1..] == s[n + 1..];
    }
  }

  /** readFuint8; None is the out_of_range exception. */
  method ReadByte(b: ByteArray, ghost s: seq<byte>, ghost n: nat) returns (r: Option<byte>)
    requires b.Valid() && n <= b.position && s == b.flat[b.position - n..b.size]
    modifies b`position, b`cur
    ensures b.Valid() && n <= |s|
    ensures if n == |s| then r == None && b.position == old(b.position)
            else r == Some(s[n]) && b.position == old(b.position) + 1
  {
    var o := b.Read(1);
    return if o.OutOfRange? then None else Some(o.bytes[0]);
  }

  /** readUint32 (bits == 32) and readUint64 (bits == 64). */
  method ReadVarint(b: ByteArray, bits: nat) returns (r: Parsed<nat>)
    requires b.Valid()
    modifies b`position, b`cur
    ensures b.Valid() && !r.Crash? && b.position == old(b.position) + r.n
    ensures r == Varint.Decode(old(Ahead(b)), 0, 0, bits)
  {
    ghost var s := Ahead(b);
    var result: nat, i: nat, n: nat := 0, 0, 0;
    while i < 32
      invariant n <= |s| && b.Valid() && b.position == old(b.position) + n
      invariant Later(Varint.Decode(s[n..], i, result, bits), n) == Varint.Decode(s, 0, 0, bits)
      decreases 32 - i
    {
      DecodeOne(s, n, i, result, bits);
      var d := ReadByte(b, s, n);
      if d == None {
        return Varint.OutOfRange(n);
      }
      n := n + 1;
      result := Varint.Accumulate(result, d.value % 128, i, bits);
      if d.value < 0x80 {
        return Varint.Got(result, n);
      }
      i := i + 7;
    }
    return Varint.Got(result, n);
  }

  method ReadLength(b: ByteArray, p: Prefix, host: bool) returns (r: Parsed<nat>)
    requires b.Valid()
    modifies b`position, b`cur
    ensures b.Valid() && !r.Crash? && b.position == old(b.position) + r.n
    ensures r == DecodeLength(p, old(Ahead(b)), b.little, host)
  {
    if p.Vint? {
      r := ReadVarint(b, 64);
    } else {
      r := ReadFixed(b, PrefixWidth(p), host);
    }
  }

  /** readStringF16, readStringF32, readStringF64 and readStringVint. */
  method ReadText(b: ByteArray, p: Prefix, host: bool) returns (r: Parsed<Value>)
    requires b.Valid()
    modifies b`position, b`cur
    ensures !r.Crash? ==> b.Valid() && b.position == old(b.position) + r.n
    ensures r == DecodeValue(Text(p), old(Ahead(b)), b.size == b.capacity, b.little, host)
  {
    var len := ReadLength(b, p, host);
    if len.OutOfRange? {
      return Varint.OutOfRange(len.n);
    }
    r := ReadBody(b, old(Ahead(b)), len.n, len.value);
  }

  /** read(&buf[0], len), n bytes into the text. */
  method ReadBody(b: ByteArray, ghost s: seq<byte>, n: nat, len: nat) returns (r: Parsed<Value>)
    requires b.Valid() && n <= b.position && s == b.flat[b.position - n..b.size]
    modifies b`position, b`cur
    ensures !r.Crash? ==> b.Valid() && b.position == old(b.position) - n + r.n
    ensures r == DecodeText(s, n, len, b.size == b.capacity)
  {
    var o := b.Read(len);
    match o
    case OutOfRange => return Varint.OutOfRange(n);
    case NullDereference => return Varint.Crash;
    case Bytes(bytes) =>
      SliceOfSlice(b.flat, old(b.position) - n, b.size, n, n + len);
      return Varint.Got(Str(bytes), n + len);
  }

  method ReadValue(b: ByteArray, k: Kind, host: bool) returns (r: Parsed<Value>)
    requires b.Valid() && Exists(k)
    modifies b`position, b`cur
    ensures !r.Crash? ==> b.Valid() && b.position == old(b.position) + r.n
    ensures r == DecodeValue(k, old(Ahead(b)), b.size == b.capacity, b.little, host)
  {
    match k
    case Fixed(w, signed) =>
      var u := ReadFixed(b, w, host);
      if u.OutOfRange? {
        return Varint.OutOfRange(u.n);
      }
      return Varint.Got(Number(if signed then FromBits(u.value, 8 * w) else u.value), u.n);
    case Variable(bits, signed) =>
      var u := ReadVarint(b, bits);
      if u.OutOfRange? {
        return Varint.OutOfRange(u.n);
      }
      return Varint.Got(Number(Signed(u.value, bits, signed)), u.n);
    case Text(p) =>
      r := ReadText(b, p, host);
  }

  /** A run of typed reads. */
  method ReadAll(b: ByteArray, slots: seq<Slot>, host: bool) returns (r: Parsed<seq<Item>>)
    requires b.Valid() && SlotsOk(slots)
    modifies b`position, b`cur, b`little
    ensures !r.Crash? ==> b.Valid() && b.position == old(b.position) + r.n
    ensures r == DecodeAll(slots, old(Ahead(b)), b.size == b.capacity, host)
    decreases |slots|
  {
    if slots == [] {
      return Varint.Got([], 0);
    }
    var x := ReadItem(b, slots[0], host);
    if x.OutOfRange? {
      return Varint.OutOfRange(x.n);
    } else if x.Crash? {
      return Varint.Crash;
    }
    var xs := ReadAll(b, slots[1..], host);
    match xs
    case OutOfRange(m) => return Varint.OutOfRange(x.n + m);
    case Crash => return Varint.Crash;
    case Got(ys, m) => return Varint.Got([Item(slots[0].kind, slots[0].little, x.value)] + ys, x.n + m);
  }

  /** setIsLittleEndian, then a typed read. */
  method ReadItem(b: ByteArray, slot: Slot, host: bool) returns (r: Parsed<Value>)
    requires b.Valid() && Exists(slot.kind)
    modifies b`position, b`cur, b`little
    ensures r == DecodeValue(slot.kind, old(Ahead(b)), b.size == b.capacity, slot.little, host)
    ensures !r.Crash? ==> b.Valid() && b.position == old(b.position) + r.n && Ahead(b) == old(Ahead(b))[r.n..]
  {
    b.SetIsLittleEndian(slot.little);
    r := ReadValue(b, slot.kind, host);
  }

  /** Write any list of typed values, seek back to where they start, read them: the same list, with the position again
      behind them, exactly when each value is readable where it is. An empty text that ends where the capacity ends is
      the one value whose place matters; reading that one dereferences null. For every block size, whatever the array
      held before. */
  method RoundTrip(b: ByteArray, items: seq<Item>, host: bool) returns (r: Parsed<seq<Item>>)
    requires b.Valid() && ItemsOk(items)
    modifies b, b.nodes
    ensures var e := EncodeAll(items, host);
            var atEnd := old(b.position) + |e| == b.size == b.capacity;
            && ListResult(items, r, atEnd, host)
            && (AllReadable(items, atEnd) ==> b.Valid() && b.position == old(b.position) + |e|)
  {
    var start := b.position;
    WriteAll(b, items, host);
    ghost var e := EncodeAll(items, host);
    var ok := b.SetPosition(start);
    AheadSplit(b.flat, start, e, b.size);
    ListReads(items, Ahead(b), b.flat[start + |e|..b.size], b.size == b.capacity,
              start + |e| == b.size == b.capacity, host);
    r := ReadAll(b, Slots(items), host);
  }

  lemma AheadSplit(flat: seq<byte>, start: nat, e: seq<byte>, size: nat)
    requires start + |e| <= size <= |flat| && flat[start..start + |e|] == e
    ensures flat[start..size] == e + flat[start + |e|..size]
  {
    SliceJoin(flat, start, start + |e|, size);
  }
}
