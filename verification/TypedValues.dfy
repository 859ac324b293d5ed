/** The typed values of a ByteArray (sylar/bytearray.cc): one kind for each writer and its reader. */
module TypedValues {
  import opened Bits
  import opened Blocks
  import opened Codec
  import opened Varint

  datatype Prefix = F16 | F32 | F64 | Vint

  /** Fixed(w, signed): the w-byte writeFint and writeFuint. Variable(bits, signed): writeInt and writeUint.
      Text(prefix): writeString with that length prefix. */
  datatype Kind = Fixed(w: nat, signed: bool) | Variable(bits: nat, signed: bool) | Text(prefix: Prefix)

  datatype Value = Number(v: int) | Str(s: seq<byte>)

  predicate Exists(k: Kind) {
    match k
    case Fixed(w, _) => w == 1 || w == 2 || w == 4 || w == 8
    case Variable(bits, _) => bits == 32 || bits == 64
    case Text(_) => true
  }

  /** Is this a value of the writer's parameter type? */
  predicate HasType(k: Kind, x: Value)
    requires Exists(k)
  {
    match k
    case Fixed(w, signed) => x.Number? && InRange(x.v, 8 * w, signed)
    case Variable(bits, signed) => x.Number? && InRange(x.v, bits, signed)
    case Text(_) => x.Str? && |x.s| < U64
  }

  predicate InRange(v: int, bits: nat, signed: bool)
    requires bits >= 1
  {
    if signed then SignedFits(v, bits) else 0 <= v < Pow2(bits)
  }

  function PrefixWidth(p: Prefix): nat
    requires !p.Vint?
  {
    match p
    case F16 => 2
    case F32 => 4
    case F64 => 8
  }

  /** The number a variable-length writer encodes. */
  function Unsigned(v: int, bits: nat, signed: bool): nat
    requires bits >= 1
  {
    if signed then Zigzag(v, bits) else ToBits(v, bits)
  }

  /** The length prefix: the size converted to the prefix's type. */
  function EncodeLength(p: Prefix, n: nat, little: bool, host: bool): seq<byte> {
    if p.Vint? then Varint.Encode(n)
    else Wire(ToBits(n, 8 * PrefixWidth(p)), PrefixWidth(p), little, host)
  }

  /** The bytes a writer puts out. */
  function EncodeValue(k: Kind, x: Value, little: bool, host: bool): seq<byte>
    requires Exists(k) && HasType(k, x)
  {
    match k
    case Fixed(w, _) => Wire(ToBits(x.v, 8 * w), w, little, host)
    case Variable(bits, signed) => Varint.Encode(Unsigned(x.v, bits, signed))
    case Text(p) => EncodeLength(p, |x.s|, little, host) + x.s
  }

  predicate Encodes(e: seq<byte>, k: Kind, x: Value, little: bool, host: bool) {
    Exists(k) && HasType(k, x) && e == EncodeValue(k, x, little, host)
  }

  /** read(&v, w): all or nothing. */
  function DecodeFixed(s: seq<byte>, w: nat, little: bool, host: bool): Parsed<nat> {
    if w > |s| then OutOfRange(0) else Got(Unwire(s[..w], little, host), w)
  }

  function DecodeLength(p: Prefix, s: seq<byte>, little: bool, host: bool): Parsed<nat> {
    if p.Vint? then Varint.Decode(s, 0, 0, 64) else DecodeFixed(s, PrefixWidth(p), little, host)
  }

  /** What a reader returns, given the readable bytes ahead; `full` tells that they end where the capacity ends. */
  function DecodeValue(k: Kind, s: seq<byte>, full: bool, little: bool, host: bool): (r: Parsed<Value>)
    requires Exists(k)
    ensures !r.Crash? ==> r.n <= |s|
  {
    match k
    case Fixed(w, signed) =>
      (match DecodeFixed(s, w, little, host)
       case Got(u, n) => Got(Number(if signed then FromBits(u, 8 * w) else u), n)
       case OutOfRange(n) => OutOfRange(n)
       case Crash => Crash)
    case Variable(bits, signed) =>
      (match Varint.Decode(s, 0, 0, bits)
       case Got(u, n) => Got(Number(Signed(u, bits, signed)), n)
       case OutOfRange(n) => OutOfRange(n)
       case Crash => Crash)
    case Text(p) =>
      (match DecodeLength(p, s, little, host)
       case Got(len, n) => DecodeText(s, n, len, full)
       case OutOfRange(n) => OutOfRange(n)
       case Crash => Crash)
  }

  /** read(&buf[0], len) after a prefix of n bytes. */
  function DecodeText(s: seq<byte>, n: nat, len: nat, full: bool): Parsed<Value> {
    if n + len > |s| then OutOfRange(n)
    else if len == 0 && n == |s| && full then Crash
    else Got(Str(s[n..n + len]), n + len)
  }

  // ----------------------------------------------------------------------------------------------------------

  lemma FixedReads(u: nat, w: nat, rest: seq<byte>, little: bool, host: bool)
    requires u < Pow2(8 * w)
    ensures DecodeFixed(Wire(u, w, little, host) + rest, w, little, host) == Got(u, w)
    ensures |Wire(u, w, little, host)| == w
  {
    RadixIsPow2(w);
    FixedRoundTrip(u, w, little, host, host);
    assert (Wire(u, w, little, host) + rest)[..w] == Wire(u, w, little, host);
  }

  /** The strings' prefixes take 2, 4 and 8 bytes, and the string follows... */
  lemma TextOnWire(p: Prefix, x: seq<byte>, little: bool, host: bool)
    requires |x| < U64
    ensures var e, n := EncodeValue(Text(p), Str(x), little, host), |EncodeLength(p, |x|, little, host)|;
            && n <= |e| && e[n..] == x
            && (match p case F16 => n == 2 case F32 => n == 4 case F64 => n == 8 case Vint => true)
  {
    if !p.Vint? {
      FixedReads(ToBits(|x|, 8 * PrefixWidth(p)), PrefixWidth(p), [], little, host);
    }
  }

  /** ... and a fixed-width number takes its width, in the array's byte order and two's complement. */
  lemma FixedOnWire(w: nat, signed: bool, v: int, little: bool, host: bool, i: nat)
    requires Exists(Fixed(w, signed)) && HasType(Fixed(w, signed), Number(v)) && i < w
    ensures var e, u := EncodeValue(Fixed(w, signed), Number(v), little, host), if v < 0 then v + Pow2(8 * w) else v;
            |e| == w && u >= 0 && e[i] == u / Radix(if little then i else w - 1 - i) % 256
  {
    if signed {
      ToBitsOf(v, 8 * w);
    } else {
      ModOneDown(v, Pow2(8 * w));
    }
    RadixIsPow2(w);
    WireByte(ToBits(v, 8 * w), w, little, host, i);
  }

  /** Does the length survive its prefix? */
  predicate LengthKept(p: Prefix, n: nat) {
    if p.Vint? then n < U35 else n < Pow2(8 * PrefixWidth(p))
  }

  /** A length read back is the length written exactly when it fits: below 2^16, 2^32, 2^64, or 2^35 for a varint. */
  lemma LengthReads(p: Prefix, n: nat, rest: seq<byte>, little: bool, host: bool)
    requires n < U64
    ensures var r := DecodeLength(p, EncodeLength(p, n, little, host) + rest, little, host);
            && r.Got?
            && (r.value == n <==> LengthKept(p, n))
            && (LengthKept(p, n) ==> r.n == |EncodeLength(p, n, little, host)|)
  {
    if p.Vint? {
      Uint64RoundTrip(n, rest);
    } else {
      var bits := 8 * PrefixWidth(p);
      FixedReads(ToBits(n, bits), PrefixWidth(p), rest, little, host);
      if n < Pow2(bits) {
        ModOneDown(n, Pow2(bits));
      }
    }
  }

  /** The values a reader brings back: 64-bit varints whose code is below 2^35, strings whose length fits, and no empty
      string that ends exactly at the capacity. */
  predicate Readable(k: Kind, x: Value, last: bool)
    requires Exists(k) && HasType(k, x)
  {
    match k
    case Fixed(_, _) => true
    case Variable(bits, signed) => bits == 64 ==> Unsigned(x.v, bits, signed) < U35
    case Text(p) => LengthKept(p, |x.s|) && !(last && x.s == [])
  }

  lemma FixedValueReads(k: Kind, x: Value, rest: seq<byte>, full: bool, little: bool, host: bool)
    requires Exists(k) && HasType(k, x) && k.Fixed?
    ensures var e := EncodeValue(k, x, little, host);
            DecodeValue(k, e + rest, full, little, host) == Got(x, |e|)
  {
    var bits := 8 * k.w;
    FixedReads(ToBits(x.v, bits), k.w, rest, little, host);
    if k.signed {
      ToBitsOf(x.v, bits);
    } else {
      ModOneDown(x.v, Pow2(bits));
    }
  }

  /** r is the value x and n bytes exactly under the condition, and another value or none otherwise. */
  predicate ReadsBack<T(==)>(r: Parsed<T>, x: T, n: nat, condition: bool) {
    if condition then r == Got(x, n) else !(r.Got? && r.value == x)
  }

  lemma VariableValueReads(k: Kind, x: Value, rest: seq<byte>, full: bool, little: bool, host: bool)
    requires Exists(k) && HasType(k, x) && k.Variable?
    ensures var e := EncodeValue(k, x, little, host);
            ReadsBack(DecodeValue(k, e + rest, full, little, host), x, |e|, Readable(k, x, full && rest == []))
  {
    var u := Unsigned(x.v, k.bits, k.signed);
    VarintReads(u, rest, k.bits);
    UnsignedIsOneToOne(x.v, k.bits, k.signed, Varint.Decode(Varint.Encode(u) + rest, 0, 0, k.bits).value);
  }

  lemma VarintReads(u: nat, rest: seq<byte>, bits: nat)
    requires (bits == 32 || bits == 64) && u < Pow2(bits)
    ensures var r := Varint.Decode(Varint.Encode(u) + rest, 0, 0, bits);
            && r.Got? && r.value < Pow2(bits)
            && (r == Got(u, |Varint.Encode(u)|) <==> (bits == 64 ==> u < U35))
            && (r.value == u <==> (bits == 64 ==> u < U35))
  {
    Widths();
    if bits == 32 {
      Uint32RoundTrip(u, rest);
    } else {
      LongVarintReads(u, rest);
    }
  }

  lemma LongVarintReads(u: nat, rest: seq<byte>)
    requires u < U64
    ensures var r := Varint.Decode(Varint.Encode(u) + rest, 0, 0, 64);
            && r.Got? && r.value < U64
            && (r == Got(u, |Varint.Encode(u)|) <==> u < U35)
            && (r.value == u <==> u < U35)
  {
    Uint64RoundTrip(u, rest);
  }

  /** The signed or unsigned number a code stands for. */
  function Signed(u: nat, bits: nat, signed: bool): int
    requires bits >= 1
  {
    if signed then Unzigzag(u, bits) else u
  }

  lemma UnsignedIsOneToOne(v: int, bits: nat, signed: bool, w: nat)
    requires bits >= 1 && InRange(v, bits, signed) && w < Pow2(bits)
    ensures Signed(w, bits, signed) == v <==> w == Unsigned(v, bits, signed)
  {
    if signed {
      ZigzagBijection(v, w, bits);
    } else {
      ModOneDown(v, Pow2(bits));
    }
  }

  lemma TextValueReads(k: Kind, x: Value, rest: seq<byte>, full: bool, little: bool, host: bool)
    requires Exists(k) && HasType(k, x) && k.Text?
    ensures var e := EncodeValue(k, x, little, host);
            ReadsBack(DecodeValue(k, e + rest, full, little, host), x, |e|, Readable(k, x, full && rest == []))
  {
    var e := EncodeLength(k.prefix, |x.s|, little, host);
    LengthReads(k.prefix, |x.s|, x.s + rest, little, host);
    assert e + x.s + rest == e + (x.s + rest);
    if LengthKept(k.prefix, |x.s|) {
      assert (e + (x.s + rest))[|e|..|e| + |x.s|] == x.s;
    }
  }

  /** A reader undoes its writer, whatever follows, exactly for the readable values. */
  lemma ValueReads(k: Kind, x: Value, rest: seq<byte>, full: bool, little: bool, host: bool)
    requires Exists(k) && HasType(k, x)
    ensures var e := EncodeValue(k, x, little, host);
            ReadsBack(DecodeValue(k, e + rest, full, little, host), x, |e|, Readable(k, x, full && rest == []))
  {
    match k
    case Fixed(_, _) => FixedValueReads(k, x, rest, full, little, host);
    case Variable(_, _) => VariableValueReads(k, x, rest, full, little, host);
    case Text(_) => TextValueReads(k, x, rest, full, little, host);
  }

  // ----------------------------------------------------------------------------------------------------------
  // Lists

  /** A value written after setIsLittleEndian(little). */
  datatype Item = Item(kind: Kind, little: bool, value: Value)

  datatype Slot = Slot(kind: Kind, little: bool)

  predicate ItemOk(it: Item) {
    Exists(it.kind) && HasType(it.kind, it.value)
  }

  predicate ItemsOk(items: seq<Item>) {
    forall i :: 0 <= i < |items| ==> ItemOk(items[i])
  }

  function Slots(items: seq<Item>): (r: seq<Slot>)
    ensures |r| == |items|
  {
    seq(|items|, i requires 0 <= i < |items| => Slot(items[i].kind, items[i].little))
  }

  function EncodeAll(items: seq<Item>, host: bool): seq<byte>
    requires ItemsOk(items)
  {
    if items == [] then []
    else EncodeValue(items[0].kind, items[0].value, items[0].little, host) + EncodeAll(items[1..], host)
  }

  predicate SlotsOk(slots: seq<Slot>) {
    forall i :: 0 <= i < |slots| ==> Exists(slots[i].kind)
  }

  function DecodeAll(slots: seq<Slot>, s: seq<byte>, full: bool, host: bool): Parsed<seq<Item>>
    requires SlotsOk(slots)
  {
    if slots == [] then Got([], 0)
    else
      match DecodeValue(slots[0].kind, s, full, slots[0].little, host)
      case OutOfRange(n) => OutOfRange(n)
      case Crash => Crash
      case Got(x, n) =>
        match DecodeAll(slots[1..], s[n..], full, host)
        case Got(xs, m) => Got([Item(slots[0].kind, slots[0].little, x)] + xs, n + m)
        case OutOfRange(m) => OutOfRange(n + m)
        case Crash => Crash
  }

  lemma EncodedNotEmpty(it: Item, host: bool)
    requires ItemOk(it)
    ensures |EncodeValue(it.kind, it.value, it.little, host)| >= 1
  {
    match it.kind
    case Fixed(w, _) => FixedReads(ToBits(it.value.v, 8 * w), w, [], it.little, host);
    case Variable(_, _) =>
    case Text(p) =>
      if !p.Vint? {
        FixedReads(ToBits(|it.value.s|, 8 * PrefixWidth(p)), PrefixWidth(p), [], it.little, host);
      }
  }

  /** Every item can be read back; only the last may end where the data ends. */
  ghost predicate AllReadable(items: seq<Item>, atEnd: bool)
    requires ItemsOk(items)
  {
    forall i :: 0 <= i < |items| ==> Readable(items[i].kind, items[i].value, atEnd && i == |items| - 1)
  }

  lemma FirstReads(items: seq<Item>, rest: seq<byte>, full: bool, host: bool)
    requires ItemsOk(items) && items != []
    ensures var it := items[0];
            var e, more := EncodeValue(it.kind, it.value, it.little, host), EncodeAll(items[1..], host) + rest;
            var atEnd := full && rest == [] && |items| == 1;
            ReadsBack(DecodeValue(it.kind, e + more, full, it.little, host), it.value, |e|,
                      Readable(it.kind, it.value, atEnd))
  {
    var it, tail := items[0], items[1..];
    if tail != [] {
      EncodedNotEmpty(tail[0], host);
    }
    ValueReads(it.kind, it.value, EncodeAll(tail, host) + rest, full, it.little, host);
  }

  lemma EncodeAllSplit(items: seq<Item>, rest: seq<byte>, host: bool, e: seq<byte>)
    requires ItemsOk(items) && items != []
    requires e == EncodeValue(items[0].kind, items[0].value, items[0].little, host)
    ensures EncodeAll(items, host) + rest == e + (EncodeAll(items[1..], host) + rest)
    ensures |EncodeAll(items, host)| == |e| + |EncodeAll(items[1..], host)|
  {
  }

  lemma ReadableSplit(items: seq<Item>, atEnd: bool)
    requires ItemsOk(items) && items != []
    ensures AllReadable(items, atEnd) <==>
            Readable(items[0].kind, items[0].value, atEnd && |items| == 1) && AllReadable(items[1..], atEnd)
  {
    var tail := items[1..];
    assert forall i :: 0 <= i < |tail| ==> tail[i] == items[i + 1];
    if AllReadable(tail, atEnd) && Readable(items[0].kind, items[0].value, atEnd && |items| == 1) {
      forall i | 0 <= i < |items| ensures Readable(items[i].kind, items[i].value, atEnd && i == |items| - 1) {
        assert i > 0 ==> tail[i - 1] == items[i];
      }
    }
  }

  lemma SlotsTail(items: seq<Item>)
    requires ItemsOk(items) && items != []
    ensures Slots(items)[1..] == Slots(items[1..]) && SlotsOk(Slots(items))
  {
  }

  /** A list of typed values written one after the other is read back as it was, and consumed whole, whatever follows,
      exactly when each of them is readable; otherwise the result is another list, or none. `host` is the byte order of
      the machine that reads and writes. */
  lemma {:induction false} ListRoundTrip(items: seq<Item>, rest: seq<byte>, full: bool, host: bool)
    requires ItemsOk(items)
    ensures SlotsOk(Slots(items))
    ensures ReadsBack(DecodeAll(Slots(items), EncodeAll(items, host) + rest, full, host), items,
                      |EncodeAll(items, host)|, AllReadable(items, full && rest == []))
    decreases |items|
  {
    if items != [] {
      var it, tail := items[0], items[1..];
      var e := EncodeValue(it.kind, it.value, it.little, host);
      var more := EncodeAll(tail, host) + rest;
      FirstReads(items, rest, full, host);
      EncodeAllSplit(items, rest, host, e);
      ReadableSplit(items, full && rest == []);
      SlotsTail(items);
      ListRoundTrip(tail, rest, full, host);
      if Readable(it.kind, it.value, full && rest == [] && |items| == 1) {
        ConsReads(items, e, more, full, host);
        ConsDiffers(items, |e|, DecodeAll(Slots(tail), more, full, host));
      } else {
        FirstDiffers(items, e + more, full, host);
      }
    }
  }

  function Cons(it: Item, n: nat, r: Parsed<seq<Item>>): Parsed<seq<Item>> {
    match r
    case Got(xs, m) => Got([it] + xs, n + m)
    case OutOfRange(m) => OutOfRange(n + m)
    case Crash => Crash
  }

  lemma ConsReads(items: seq<Item>, e: seq<byte>, more: seq<byte>, full: bool, host: bool)
    requires ItemsOk(items) && items != [] && SlotsOk(Slots(items)) && Slots(items)[1..] == Slots(items[1..])
    requires DecodeValue(items[0].kind, e + more, full, items[0].little, host) == Got(items[0].value, |e|)
    ensures DecodeAll(Slots(items), e + more, full, host) ==
            Cons(items[0], |e|, DecodeAll(Slots(items[1..]), more, full, host))
  {
    assert (e + more)[|e|..] == more;
  }

  lemma ConsDiffers(items: seq<Item>, n: nat, r: Parsed<seq<Item>>)
    requires items != []
    ensures r.Got? ==> Cons(items[0], n, r).Got? && (Cons(items[0], n, r).value == items <==> r.value == items[1..])
    ensures !r.Got? ==> !Cons(items[0], n, r).Got?
  {
    if r.Got? {
      assert ([items[0]] + r.value)[1..] == r.value;
      assert [items[0]] + items[1..] == items;
    }
  }

  lemma FirstDiffers(items: seq<Item>, s: seq<byte>, full: bool, host: bool)
    requires ItemsOk(items) && items != [] && SlotsOk(Slots(items))
    requires var r := DecodeValue(items[0].kind, s, full, items[0].little, host);
             !(r.Got? && r.value == items[0].value)
    ensures var r := DecodeAll(Slots(items), s, full, host); !(r.Got? && r.value == items)
  {
  }

  /** The one value that is readable elsewhere and not at the end of the capacity: there the reader crashes. */
  lemma EmptyTextCrashes(k: Kind, x: Value, little: bool, host: bool)
    requires Exists(k) && HasType(k, x) && Readable(k, x, false) && !Readable(k, x, true)
    ensures DecodeValue(k, EncodeValue(k, x, little, host), true, little, host) == Crash
  {
    var e := EncodeLength(k.prefix, 0, little, host);
    LengthReads(k.prefix, 0, [], little, host);
    assert e + [] == e;
  }

  lemma {:induction false} EmptyEndCrashes(items: seq<Item>, host: bool)
    requires ItemsOk(items) && AllReadable(items, false) && !AllReadable(items, true)
    ensures SlotsOk(Slots(items)) && DecodeAll(Slots(items), EncodeAll(items, host), true, host) == Crash
    decreases |items|
  {
    var it, tail := items[0], items[1..];
    var e := EncodeValue(it.kind, it.value, it.little, host);
    EncodeAllSplit(items, [], host, e);
    assert EncodeAll(items, host) == e + EncodeAll(tail, host);
    ReadableSplit(items, false);
    ReadableSplit(items, true);
    SlotsTail(items);
    if tail == [] {
      assert e + [] == e;
      EmptyTextCrashes(it.kind, it.value, it.little, host);
    } else {
      assert EncodeAll(tail, host) + [] == EncodeAll(tail, host);
      FirstReads(items, [], true, host);
      EmptyEndCrashes(tail, host);
      ConsReads(items, e, EncodeAll(tail, host), true, host);
    }
  }

  /** The list if every item is readable, and a crash if only the end of the capacity is in the way. */
  ghost predicate ListResult(items: seq<Item>, r: Parsed<seq<Item>>, atEnd: bool, host: bool)
    requires ItemsOk(items)
  {
    && ReadsBack(r, items, |EncodeAll(items, host)|, AllReadable(items, atEnd))
    && (AllReadable(items, false) && !AllReadable(items, atEnd) ==> r == Crash)
  }

  /** What reading a list back comes to, wherever it was written. */
  lemma ListReads(items: seq<Item>, s: seq<byte>, rest: seq<byte>, full: bool, atEnd: bool, host: bool)
    requires ItemsOk(items) && s == EncodeAll(items, host) + rest && (atEnd <==> full && rest == [])
    ensures SlotsOk(Slots(items)) && ListResult(items, DecodeAll(Slots(items), s, full, host), atEnd, host)
  {
    ListRoundTrip(items, rest, full, host);
    if AllReadable(items, false) && !AllReadable(items, full && rest == []) {
      EmptyEndCrashes(items, host);
      assert EncodeAll(items, host) + rest == EncodeAll(items, host);
    }
  }
}
