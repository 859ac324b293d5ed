/** The variable-length integers of ByteArray (sylar/bytearray.cc): seven bits a byte, least significant first. */
module Varint {
  import opened Bits
  import opened Blocks

  /** What a reader makes of the bytes ahead of it; n is the number of bytes it has consumed by then. */
  datatype Parsed<T> = Got(value: T, n: nat) | OutOfRange(n: nat) | Crash

  /** The bytes writeUint32 and writeUint64 put out. */
  function Encode(v: nat): (r: seq<byte>)
    ensures |r| >= 1
  {
    if v < 128 then [v] else [v % 128 + 128] + Encode(v / 128)
  }

  /** The encoder's loop; `tmp` is its temporary. */
  method EncodeInto(tmp: array<byte>, v: nat) returns (n: nat)
    requires 1 <= tmp.Length && v < Pow2(7 * tmp.Length)
    modifies tmp
    ensures n <= tmp.Length && tmp[..n] == Encode(v)
  {
    var value: nat, i: nat := v, 0;
    while value >= 0x80
      invariant i < tmp.Length && value < Pow2(7 * (tmp.Length - i))
      invariant tmp[..i] + Encode(value) == Encode(v)
      decreases value
    {
      ghost var before := tmp[..i];
      LongerThanOne(value, tmp.Length - i);
      tmp[i] := value % 128 + 128;
      assert tmp[..i + 1] == before + [value % 128 + 128];
      assert before + ([value % 128 + 128] + Encode(value / 128)) == tmp[..i + 1] + Encode(value / 128);
      i := i + 1;
      value := value / 128;
    }
    ghost var before := tmp[..i];
    tmp[i] := value;
    assert tmp[..i + 1] == before + [value];
    return i + 1;
  }

  lemma Pow2Seven(k: nat)
    ensures Pow2(k + 7) == 128 * Pow2(k)
  {
    Pow2Add(k, 7);
    assert Pow2(7) == 128;
  }

  lemma LongerThanOne(v: nat, k: nat)
    requires k >= 1 && 128 <= v < Pow2(7 * k)
    ensures k >= 2 && v / 128 < Pow2(7 * (k - 1))
  {
    Pow2Seven(7 * (k - 1));
    assert 7 * (k - 1) + 7 == 7 * k;
    assert Pow2(0) == 1;
  }

  /** k bytes are enough exactly for the values below 2^(7k): five for 32 bits, ten for 64. */
  lemma {:induction false} EncodedLength(v: nat, k: nat)
    requires k >= 1
    ensures |Encode(v)| <= k <==> v < Pow2(7 * k)
    decreases k
  {
    Pow2Seven(7 * (k - 1));
    assert 7 * (k - 1) + 7 == 7 * k;
    if v >= 128 {
      if k == 1 {
        assert Pow2(0) == 1;
      } else {
        EncodedLength(v / 128, k - 1);
      }
    }
  }

  /** Byte i carries bits 7i to 7i + 6, and its high bit tells that more follow. */
  lemma {:induction false} EncodedDigit(v: nat, i: nat)
    requires i < |Encode(v)|
    ensures Encode(v)[i] % 128 == v / Pow2(7 * i) % 128
    ensures Encode(v)[i] >= 128 <==> i < |Encode(v)| - 1
    decreases i
  {
    if i > 0 {
      EncodedDigit(v / 128, i - 1);
      Pow2Seven(7 * (i - 1));
      assert 7 * (i - 1) + 7 == 7 * i;
      DivTwice(v, 128, Pow2(7 * (i - 1)));
    } else {
      assert Pow2(0) == 1 && v / 1 == v;
    }
  }

  /** No encoding is a prefix of another. */
  lemma {:induction false} SelfDelimiting(v: nat, u: nat, s: seq<byte>, t: seq<byte>)
    requires Encode(v) + s == Encode(u) + t
    ensures v == u && s == t
    decreases v
  {
    assert (Encode(v) + s)[0] == Encode(v)[0] && (Encode(u) + t)[0] == Encode(u)[0];
    if v >= 128 {
      assert (Encode(v) + s)[1..] == Encode(v / 128) + s;
      assert (Encode(u) + t)[1..] == Encode(u / 128) + t;
      SelfDelimiting(v / 128, u / 128, s, t);
    } else {
      assert (Encode(v) + s)[1..] == s;
      assert (Encode(u) + t)[1..] == t;
    }
  }

  function More(p: Parsed<nat>): Parsed<nat> {
    match p
    case Got(v, n) => Got(v, n + 1)
    case OutOfRange(n) => OutOfRange(n + 1)
    case Crash => Crash
  }

  /** result |= (uintN_t)digit << i */
  function Accumulate(result: nat, digit: nat, i: nat, bits: nat): nat {
    Or(result, digit * Pow2(i) % Pow2(bits))
  }

  /** The loop of readUint32 (bits == 32) and readUint64 (bits == 64) from shift i on: both stop at i >= 32. */
  function Decode(s: seq<byte>, i: nat, result: nat, bits: nat): (r: Parsed<nat>)
    ensures !r.Crash? && r.n <= |s|
    decreases |s|
  {
    if i >= 32 then Got(result, 0)
    else if s == [] then OutOfRange(0)
    else
      var next := Accumulate(result, s[0] % 128, i, bits);
      if s[0] < 0x80 then Got(next, 1) else More(Decode(s[1..], i + 7, next, bits))
  }

  /** How many bytes of v's encoding the loop looks at from shift 7j on. */
  function Seen(v: nat, j: nat): nat
    requires j <= 5
  {
    if |Encode(v)| <= 5 - j then |Encode(v)| else 5 - j
  }

  lemma ModSplit(v: nat, k: nat)
    ensures v % Pow2(k + 7) == v % 128 + 128 * (v / 128 % Pow2(k))
  {
    var p, h := Pow2(k), v / 128;
    Pow2Seven(k);
    assert h == (h / p) * p + h % p;
    assert v == 128 * ((h / p) * p) + 128 * (h % p) + v % 128;
    assert 128 * ((h / p) * p) == (h / p) * (128 * p);
    DivModUnique(v, 128 * p, h / p, v % 128 + 128 * (h % p));
  }

  lemma {:induction false} Scaled(a: nat, b: nat, p: nat)
    requires a <= b
    ensures a * p <= b * p
    decreases b
  {
    if a < b {
      Scaled(a, b - 1, p);
      assert b * p == (b - 1) * p + p;
    }
  }

  lemma BelowNext(result: nat, d: nat, i: nat)
    requires result < Pow2(i) && d < 128
    ensures result + d * Pow2(i) < Pow2(i + 7)
  {
    Pow2Seven(i);
    Scaled(d, 127, Pow2(i));
  }

  lemma OneByte(result: nat, d: nat, i: nat, bits: nat)
    requires result < Pow2(i) && d < 128 && d * Pow2(i) < Pow2(bits)
    ensures Accumulate(result, d, i, bits) == result + d * Pow2(i) < Pow2(i + 7)
  {
    var x := d * Pow2(i);
    assert x % Pow2(bits) == x by { ModOneDown(x, Pow2(bits)); }
    OrDisjoint(result, d, i);
    BelowNext(result, d, i);
  }

  /** The digit at shift i is not cut off by the width. */
  lemma DigitFits(v: nat, i: nat, bits: nat)
    requires i + 7 <= 35 && Uncut(v, i, bits)
    ensures (v % 128) * Pow2(i) < Pow2(bits) && Uncut(v / 128, i + 7, bits)
  {
    Pow2Seven(i);
    if bits >= 35 {
      BelowNext(0, v % 128, i);
      Pow2Monotone(i + 7, bits);
    } else {
      DigitsBelow(v, Pow2(i), Pow2(bits));
    }
  }

  lemma DigitsBelow(v: nat, p: nat, bound: nat)
    requires v * p < bound
    ensures (v % 128) * p < bound && (v / 128) * (128 * p) < bound
  {
    Digits(v, p);
  }

  lemma Digits(v: nat, p: nat)
    ensures (v % 128) * p + (v / 128) * (128 * p) == v * p
    ensures (v % 128) * p >= 0 && (v / 128) * (128 * p) >= 0
  {
    var h, d := v / 128, v % 128;
    assert v == 128 * h + d;
    assert h * (128 * p) == (128 * h) * p;
  }

  /** The result when the digits from shift 7j on are those of v. */
  function Total(v: nat, j: nat, result: nat): nat
    requires j <= 5
  {
    result + (v % Pow2(35 - 7 * j)) * Pow2(7 * j)
  }

  lemma TotalOfLast(v: nat, j: nat, result: nat)
    requires j < 5 && v < 128
    ensures Total(v, j, result) == result + (v % 128) * Pow2(7 * j)
  {
    Pow2Monotone(7, 35 - 7 * j);
    ModOneDown(v, Pow2(35 - 7 * j));
  }

  lemma TotalOfMore(v: nat, j: nat, result: nat)
    requires j < 5
    ensures Total(v / 128, j + 1, result + (v % 128) * Pow2(7 * j)) == Total(v, j, result)
  {
    var k := 35 - 7 * (j + 1);
    assert k + 7 == 35 - 7 * j && 7 * (j + 1) == 7 * j + 7;
    ModSplit(v, k);
    Pow2Seven(7 * j);
    var u := v % Pow2(k + 7);
    assert u % 128 == v % 128 && u / 128 == v / 128 % Pow2(k);
    Digits(u, Pow2(7 * j));
  }

  /** Does the width keep all digits of v from shift i on? */
  predicate Uncut(v: nat, i: nat, bits: nat) {
    v * Pow2(i) < Pow2(bits) || bits >= 35
  }

  /** The first digit is added, and the rest of the digits make the same total. */
  lemma FirstDigit(v: nat, j: nat, result: nat, bits: nat) returns (next: nat)
    requires j < 5 && result < Pow2(7 * j) && Uncut(v, 7 * j, bits)
    ensures next == Accumulate(result, v % 128, 7 * j, bits) < Pow2(7 * (j + 1)) && Uncut(v / 128, 7 * (j + 1), bits)
    ensures Total(v, j, result) == if v < 128 then next else Total(v / 128, j + 1, next)
  {
    next := result + (v % 128) * Pow2(7 * j);
    DigitFits(v, 7 * j, bits);
    OneByte(result, v % 128, 7 * j, bits);
    assert 7 * j + 7 == 7 * (j + 1);
    if v < 128 {
      TotalOfLast(v, j, result);
    } else {
      TotalOfMore(v, j, result);
    }
  }

  /** Five bytes' worth of the value comes back. */
  lemma {:induction false} DecodeOfEncode(v: nat, rest: seq<byte>, j: nat, result: nat, bits: nat)
    requires j <= 5 && result < Pow2(7 * j) && Uncut(v, 7 * j, bits)
    ensures Decode(Encode(v) + rest, 7 * j, result, bits) == Got(Total(v, j, result), Seen(v, j))
    decreases 5 - j
  {
    if j == 5 {
      assert v % Pow2(0) == 0;
    } else {
      var next := FirstDigit(v, j, result, bits);
      DecodeStep(v, rest, j, result, bits);
      if v >= 128 {
        DecodeOfEncode(v / 128, rest, j + 1, next, bits);
      }
    }
  }

  lemma DecodeStep(v: nat, rest: seq<byte>, j: nat, result: nat, bits: nat)
    requires j < 5
    ensures var next := Accumulate(result, v % 128, 7 * j, bits);
            Decode(Encode(v) + rest, 7 * j, result, bits) ==
            if v < 128 then Got(next, 1) else More(Decode(Encode(v / 128) + rest, 7 * (j + 1), next, bits))
  {
    var s := Encode(v) + rest;
    assert s[0] == Encode(v)[0] && s[0] % 128 == v % 128;
    if v >= 128 {
      assert s[1..] == Encode(v / 128) + rest;
      assert 7 * j + 7 == 7 * (j + 1);
    }
  }

  /** The whole decoder: five bytes' worth of the value, which is all of it below 2^35. */
  lemma DecodeWhole(v: nat, rest: seq<byte>, bits: nat, i: nat, r: Parsed<nat>)
    requires i == 0 && Uncut(v, i, bits) && r == Decode(Encode(v) + rest, i, i, bits)
    ensures r.Got? && r.value == v % U35 && (r.n == |Encode(v)| <==> v < U35) && (v >= U35 ==> r.n == 5)
    ensures v < U35 ==> r == Got(v, |Encode(v)|)
  {
    DecodeOfEncode(v, rest, i, i, bits);
    WholeTotal(v);
    Widths();
    EncodedLength(v, 5);
  }

  lemma WholeTotal(v: nat)
    ensures Total(v, 0, 0) == v % U35
  {
    Widths();
  }

  /** Every 32-bit value comes back from readUint32, and its encoding is consumed whole. */
  lemma Uint32RoundTrip(v: nat, rest: seq<byte>)
    requires v < U32
    ensures Decode(Encode(v) + rest, 0, 0, 32) == Got(v, |Encode(v)|) && |Encode(v)| <= 5
  {
    ShortValue(v);
    DecodeShort(v, rest, 32);
  }

  lemma DecodeShort(v: nat, rest: seq<byte>, bits: nat)
    requires v < U35 && Uncut(v, 0, bits)
    ensures Decode(Encode(v) + rest, 0, 0, bits) == Got(v, |Encode(v)|)
  {
    DecodeWhole(v, rest, bits, 0, Decode(Encode(v) + rest, 0, 0, bits));
  }

  lemma ShortValue(v: nat)
    requires v < U32
    ensures Uncut(v, 0, 32) && |Encode(v)| <= 5
  {
    Widths();
    EncodedLength(v, 5);
    assert Pow2(0) == 1;
  }

  /** readUint64 gives the value modulo 2^35; it is right, and at the right place, exactly for values below 2^35. */
  lemma Uint64RoundTrip(v: nat, rest: seq<byte>)
    requires v < U64
    ensures var r := Decode(Encode(v) + rest, 0, 0, 64);
            && r.Got? && r.value == v % U35
            && (r.value == v <==> v < U35)
            && (r.n == |Encode(v)| <==> v < U35)
            && (v >= U35 ==> r.n == 5)
    ensures |Encode(v)| <= 10
  {
    LongLength(v);
    DecodeWhole(v, rest, 64, 0, Decode(Encode(v) + rest, 0, 0, 64));
  }

  lemma LongLength(v: nat)
    requires v < U64
    ensures |Encode(v)| <= 10
  {
    Widths();
    Pow2Monotone(64, 70);
    EncodedLength(v, 10);
  }
}
