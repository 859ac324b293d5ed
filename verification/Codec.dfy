/** What ByteArray's typed writers put on the wire and what its readers make of it (sylar/bytearray.cc, sylar/endian.h),
    as functions on byte sequences.

    `little` is the array's byte order and `host` the machine's (true for little endian). Floats and doubles travel as
    the 4 or 8 byte unsigned integer with the same bits. */
module Codec {
  import opened Blocks
  import opened Bits

  // ----------------------------------------------------------------------------------------------------------
  // Fixed width

  /** 256^w */
  function Radix(w: nat): (r: nat)
    ensures r >= 1
  {
    if w == 0 then 1 else 256 * Radix(w - 1)
  }

  lemma {:induction false} RadixIsPow2(w: nat)
    ensures Radix(w) == Pow2(8 * w)
    decreases w
  {
    if w > 0 {
      RadixIsPow2(w - 1);
      Pow2Add(8 * (w - 1), 8);
      assert 8 * (w - 1) + 8 == 8 * w && Pow2(8) == 256;
    }
  }

  /** The w low bytes of v, least significant first. */
  function Le(v: nat, w: nat): (r: seq<byte>)
    ensures |r| == w
    decreases w
  {
    if w == 0 then [] else [v % 256] + Le(v / 256, w - 1)
  }

  function FromLe(s: seq<byte>): nat {
    if s == [] then 0 else s[0] + 256 * FromLe(s[1..])
  }

  function Reverse(s: seq<byte>): (r: seq<byte>)
    ensures |r| == |s|
    ensures forall i :: 0 <= i < |s| ==> r[i] == s[|s| - 1 - i]
  {
    if s == [] then [] else Reverse(s[1..]) + [s[0]]
  }

  lemma {:induction false} FromLeOfLe(v: nat, w: nat)
    requires v < Radix(w)
    ensures FromLe(Le(v, w)) == v
    decreases w
  {
    if w > 0 {
      FromLeOfLe(v / 256, w - 1);
      assert Le(v, w)[1..] == Le(v / 256, w - 1);
    }
  }

  lemma {:induction false} LeOfFromLe(s: seq<byte>)
    ensures FromLe(s) < Radix(|s|) && Le(FromLe(s), |s|) == s
    decreases |s|
  {
    if s != [] {
      LeOfFromLe(s[1..]);
      assert FromLe(s) % 256 == s[0] && FromLe(s) / 256 == FromLe(s[1..]);
      assert s == [s[0]] + s[1..];
    }
  }

  /** Byte i has weight 256^i. */
  lemma {:induction false} LeByte(v: nat, w: nat, i: nat)
    requires i < w
    ensures Le(v, w)[i] == v / Radix(i) % 256
    decreases i
  {
    if i > 0 {
      LeByte(v / 256, w - 1, i - 1);
      DivTwice(v, 256, Radix(i - 1));
    } else {
      assert v / 1 == v;
    }
  }

  lemma ReverseTwice(s: seq<byte>)
    ensures Reverse(Reverse(s)) == s
  {
  }

  /** byteswap */
  function Swap(v: nat, w: nat): nat {
    FromLe(Reverse(Le(v, w)))
  }

  /** How the host keeps the w bytes of v in memory. */
  function Memory(v: nat, w: nat, host: bool): seq<byte> {
    if host then Le(v, w) else Reverse(Le(v, w))
  }

  function FromMemory(s: seq<byte>, host: bool): nat {
    if host then FromLe(s) else FromLe(Reverse(s))
  }

  /** writeFuint16 and its kin: swap if the orders differ, then write the bytes in memory. */
  function Wire(v: nat, w: nat, little: bool, host: bool): seq<byte> {
    Memory(if little != host then Swap(v, w) else v, w, host)
  }

  /** readFuint16 and its kin. */
  function Unwire(s: seq<byte>, little: bool, host: bool): nat {
    var v := FromMemory(s, host);
    if little != host then Swap(v, |s|) else v
  }

  /** The bytes on the wire are those of the chosen order, whatever the host. */
  lemma WireOrder(v: nat, w: nat, little: bool, host: bool)
    requires v < Radix(w)
    ensures Wire(v, w, little, host) == if little then Le(v, w) else Reverse(Le(v, w))
  {
    LeOfFromLe(Reverse(Le(v, w)));
    ReverseTwice(Le(v, w));
  }

  lemma UnwireOrder(s: seq<byte>, little: bool, host: bool)
    ensures Unwire(s, little, host) == FromLe(if little then s else Reverse(s))
  {
    LeOfFromLe(s);
    LeOfFromLe(Reverse(s));
    ReverseTwice(s);
  }

  /** Byte i on the wire has weight 256^i in little endian order and 256^(w - 1 - i) in big endian order. */
  lemma WireByte(v: nat, w: nat, little: bool, host: bool, i: nat)
    requires v < Radix(w) && i < w
    ensures |Wire(v, w, little, host)| == w
    ensures Wire(v, w, little, host)[i] == v / Radix(if little then i else w - 1 - i) % 256
  {
    WireOrder(v, w, little, host);
    LeByte(v, w, if little then i else w - 1 - i);
  }

  /** A fixed-width number survives a writer and a reader on hosts of any byte order. */
  lemma FixedRoundTrip(v: nat, w: nat, little: bool, writer: bool, reader: bool)
    requires v < Radix(w)
    ensures |Wire(v, w, little, writer)| == w && Unwire(Wire(v, w, little, writer), little, reader) == v
  {
    WireOrder(v, w, little, writer);
    UnwireOrder(Wire(v, w, little, writer), little, reader);
    ReverseTwice(Le(v, w));
    FromLeOfLe(v, w);
  }

  // ----------------------------------------------------------------------------------------------------------
  // Two's complement and zigzag

  predicate SignedFits(v: int, bits: nat)
    requires bits >= 1
  {
    -(Pow2(bits - 1) as int) <= v < Pow2(bits - 1)
  }

  /** (uintN_t)v */
  function ToBits(v: int, bits: nat): (r: nat)
    ensures r < Pow2(bits)
  {
    v % Pow2(bits)
  }

  /** (intN_t)u */
  function FromBits(u: nat, bits: nat): int
    requires bits >= 1
  {
    if u < Pow2(bits - 1) then u else u - Pow2(bits)
  }

  lemma ToBitsOf(v: int, bits: nat)
    requires bits >= 1 && SignedFits(v, bits)
    ensures ToBits(v, bits) == if v < 0 then v + Pow2(bits) else v
    ensures FromBits(ToBits(v, bits), bits) == v
  {
    assert Pow2(bits) == 2 * Pow2(bits - 1);
    ModOneDown(v, Pow2(bits));
  }

  /** EncodeZigzag32 and EncodeZigzag64; negating the least value wraps around. */
  function Zigzag(v: int, bits: nat): (r: nat)
    ensures r < Pow2(bits)
  {
    if v < 0 then ToBits(2 * ToBits(-v, bits) - 1, bits) else ToBits(2 * v, bits)
  }

  /** DecodeZigzag32 and DecodeZigzag64: (u >> 1) ^ -(u & 1) */
  function Unzigzag(u: nat, bits: nat): int
    requires bits >= 1
  {
    FromBits(Xor(u / 2, ToBits(-(u % 2), bits)), bits)
  }

  lemma ZigzagValue(v: int, bits: nat)
    requires bits >= 1 && SignedFits(v, bits)
    ensures Zigzag(v, bits) == if v < 0 then -2 * v - 1 else 2 * v
  {
    var p := Pow2(bits - 1);
    assert Pow2(bits) == 2 * p;
    ModOneDown(-v, 2 * p);
    ModOneDown(if v < 0 then -2 * v - 1 else 2 * v, 2 * p);
  }

  lemma MaskValue(u: nat, bits: nat)
    ensures ToBits(-(u % 2), bits) == if u % 2 == 0 then 0 else Pow2(bits) - 1
  {
    ModOneDown(-(u % 2), Pow2(bits));
  }

  lemma XorMask(u: nat, bits: nat, mask: nat)
    requires bits >= 1 && u < Pow2(bits) && mask == if u % 2 == 0 then 0 else Pow2(bits) - 1
    ensures FromBits(Xor(u / 2, mask), bits) == if u % 2 == 0 then u / 2 else -(u / 2) - 1
    ensures SignedFits(FromBits(Xor(u / 2, mask), bits), bits)
  {
    assert Pow2(bits) == 2 * Pow2(bits - 1);
    if u % 2 == 0 {
      XorNothing(u / 2);
    } else {
      XorOnes(u / 2, bits);
    }
  }

  lemma UnzigzagValue(u: nat, bits: nat)
    requires bits >= 1 && u < Pow2(bits)
    ensures Unzigzag(u, bits) == if u % 2 == 0 then u / 2 else -(u / 2) - 1
    ensures SignedFits(Unzigzag(u, bits), bits)
  {
    MaskValue(u, bits);
    XorMask(u, bits, ToBits(-(u % 2), bits));
  }

  lemma ZigzagUndone(v: int, bits: nat)
    requires bits >= 1 && SignedFits(v, bits)
    ensures Unzigzag(Zigzag(v, bits), bits) == v
  {
    var u := Zigzag(v, bits);
    ZigzagValue(v, bits);
    UnzigzagValue(u, bits);
    if v < 0 {
      assert u == 2 * (-v - 1) + 1;
    }
  }

  lemma UnzigzagUndone(u: nat, bits: nat)
    requires bits >= 1 && u < Pow2(bits)
    ensures Zigzag(Unzigzag(u, bits), bits) == u
  {
    UnzigzagValue(u, bits);
    ZigzagValue(Unzigzag(u, bits), bits);
  }

  /** Zigzag is a bijection between the signed and the unsigned numbers of a width, and its decoder is the inverse. */
  lemma ZigzagBijection(v: int, u: nat, bits: nat)
    requires bits >= 1 && SignedFits(v, bits) && u < Pow2(bits)
    ensures Unzigzag(Zigzag(v, bits), bits) == v
    ensures Zigzag(Unzigzag(u, bits), bits) == u
  {
    ZigzagUndone(v, bits);
    UnzigzagUndone(u, bits);
  }
}
