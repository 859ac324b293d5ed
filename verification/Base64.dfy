/** base64encode and base64decode (sylar/util/hash_util.cc; section 4 of RFC 4648). */
module Base64 {
  import opened Bits
  import opened Blocks
  import opened Tasks

  const UPPER1: string := "ABCDEFGHIJKLM"
  const UPPER2: string := "NOPQRSTUVWXYZ"
  const LOWER1: string := "abcdefghijklm"
  const LOWER2: string := "nopqrstuvwxyz"
  const DIGITS: string := "0123456789+/"
  const ALPHABET: string := UPPER1 + UPPER2 + LOWER1 + LOWER2 + DIGITS

  function Offset(c: char, n: int): char
    requires 0 <= c as int + n < 128
  {
    (c as int + n) as char
  }

  /** The character of a 6-bit value. */
  function Digit(v: nat): char
    requires v < 64
  {
    if v < 26 then Offset('A', v)
    else if v < 52 then Offset('a', v - 26)
    else if v < 62 then Offset('0', v - 52)
    else if v == 62 then '+'
    else '/'
  }

  /** The 6-bit value of a character, by ranges as the decoder tells it. */
  function Value(c: char): (r: Option<nat>)
    ensures r.Some? ==> r.value < 64
  {
    if 'A' <= c <= 'Z' then Some(c as int - 'A' as int)
    else if 'a' <= c <= 'z' then Some(c as int - 'a' as int + 26)
    else if '0' <= c <= '9' then Some(c as int - '0' as int + 52)
    else if c == '+' then Some(62)
    else if c == '/' then Some(63)
    else None
  }

  /** The ranges of Digit spell out the table of RFC 4648. */
  lemma DigitsAreAlphabet(v: nat)
    requires v < 64
    ensures |ALPHABET| == 64 && ALPHABET[v] == Digit(v)
  {
    if v < 13 { Spelled(UPPER1, 'A', v); }
    else if v < 26 { Spelled(UPPER2, 'N', v - 13); }
    else if v < 39 { Spelled(LOWER1, 'a', v - 26); }
    else if v < 52 { Spelled(LOWER2, 'n', v - 39); }
  }

  lemma Spelled(s: string, first: char, k: nat)
    requires || (s == UPPER1 && first == 'A') || (s == UPPER2 && first == 'N')
             || (s == LOWER1 && first == 'a') || (s == LOWER2 && first == 'n')
    requires k < 13
    ensures |s| == 13 && first as int + k < 128 && s[k] == Offset(first, k)
  {
  }

  lemma ValueOfDigit(v: nat)
    requires v < 64
    ensures Value(Digit(v)) == Some(v) && Digit(v) != '='
  {
  }

  lemma DigitOfValue(c: char)
    requires Value(c).Some?
    ensures Digit(Value(c).value) == c && c != '='
  {
  }

  // ----------------------------------------------------------------------------------------------------------
  // Groups

  function Three(x: nat, y: nat, z: nat): nat {
    x * 0x1_0000 + y * 0x100 + z
  }

  function Four(a: nat, b: nat, c: nat, d: nat): nat {
    a * 0x4_0000 + b * 0x1000 + c * 64 + d
  }

  lemma BytesOfFour(a: nat, b: nat, c: nat, d: nat)
    requires a < 64 && b < 64 && c < 64 && d < 64
    ensures var p := Four(a, b, c, d);
            && p / 0x1_0000 == a * 4 + b / 16 < 256
            && p / 0x100 % 0x100 == b % 16 * 16 + c / 4
            && p % 0x100 == c % 4 * 64 + d
  {
    var p, x, y, z := Four(a, b, c, d), a * 4 + b / 16, b % 16 * 16 + c / 4, c % 4 * 64 + d;
    assert p == x * 0x1_0000 + (y * 0x100 + z);
    DivModUnique(p, 0x1_0000, x, y * 0x100 + z);
    DivModUnique(p, 0x100, x * 0x100 + y, z);
    DivModUnique(x * 0x100 + y, 0x100, x, y);
  }

  lemma DigitsOfThree(x: nat, y: nat, z: nat)
    requires x < 256 && y < 256 && z < 256
    ensures var p := Three(x, y, z);
            && p / 0x4_0000 == x / 4 < 64
            && p / 0x1000 % 64 == x % 4 * 16 + y / 16
            && p / 64 % 64 == y % 16 * 4 + z / 64
            && p % 64 == z % 64
  {
    var p, a, b, c, d := Three(x, y, z), x / 4, x % 4 * 16 + y / 16, y % 16 * 4 + z / 64, z % 64;
    assert p == Four(a, b, c, d);
    DivModUnique(p, 0x4_0000, a, b * 0x1000 + c * 64 + d);
    DivModUnique(p, 0x1000, a * 64 + b, c * 64 + d);
    DivModUnique(a * 64 + b, 64, a, b);
    DivModUnique(p, 64, a * 0x1000 + b * 64 + c, d);
    DivModUnique(a * 0x1000 + b * 64 + c, 64, a * 64 + b, c);
  }

  /** One to three bytes as a 24-bit number, the missing ones zero. */
  function Pack(g: seq<byte>): (p: nat)
    requires 1 <= |g| <= 3
    ensures p < 0x100_0000
  {
    Three(g[0], if |g| > 1 then g[1] else 0, if |g| > 2 then g[2] else 0)
  }

  /** Four characters for one to three bytes. */
  function EncodeGroup(g: seq<byte>): (q: string)
    requires 1 <= |g| <= 3
    ensures |q| == 4
  {
    var p := Pack(g);
    DigitsOfThree(g[0], if |g| > 1 then g[1] else 0, if |g| > 2 then g[2] else 0);
    [Digit(p / 0x4_0000), Digit(p / 0x1000 % 64),
     if |g| > 1 then Digit(p / 64 % 64) else '=', if |g| > 2 then Digit(p % 64) else '=']
  }

  /** The bytes of a 24-bit number, without the last `padding` ones. */
  function TopBytes(p: nat, padding: nat): (g: seq<byte>)
    requires p < 0x100_0000 && padding <= 2
    ensures |g| == 3 - padding
  {
    [p / 0x1_0000] + (if padding < 2 then [p / 0x100 % 0x100] else []) + (if padding == 0 then [p % 0x100] else [])
  }

  /** The bytes of four 6-bit values, without the last `padding` ones. */
  function Unpack(a: nat, b: nat, c: nat, d: nat, padding: nat): (g: seq<byte>)
    requires a < 64 && b < 64 && c < 64 && d < 64 && padding <= 2
    ensures |g| == 3 - padding
  {
    BytesOfFour(a, b, c, d);
    TopBytes(Four(a, b, c, d), padding)
  }

  /** A group is four digits, or three and a pad, or two and two pads; only the last group may be padded. */
  function DecodeGroup(q: string, last: bool): (r: Option<seq<byte>>)
    requires |q| == 4
    ensures r.Some? ==> 1 <= |r.value| <= 3 && (!last ==> |r.value| == 3)
  {
    var a, b, c, d := Value(q[0]), Value(q[1]), Value(q[2]), Value(q[3]);
    if a.None? || b.None? then None
    else if c.Some? && d.Some? then Some(Unpack(a.value, b.value, c.value, d.value, 0))
    else if c.Some? && q[3] == '=' && last then Some(Unpack(a.value, b.value, c.value, 0, 1))
    else if q[2] == '=' && q[3] == '=' && last then Some(Unpack(a.value, b.value, 0, 0, 2))
    else None
  }

  /** The bits of the last digit that no byte uses are zero. */
  predicate TailZero(q: string)
    requires |q| == 4
  {
    && (q[2] == '=' && Value(q[1]).Some? ==> Value(q[1]).value % 16 == 0)
    && (q[2] != '=' && q[3] == '=' && Value(q[2]).Some? ==> Value(q[2]).value % 4 == 0)
  }

  lemma EightToSix(a: nat, b: nat, c: nat, d: nat, x: nat, y: nat, z: nat)
    requires b < 64 && c < 64 && d < 64
    requires x == a * 4 + b / 16 && y == b % 16 * 16 + c / 4 && z == c % 4 * 64 + d
    ensures x / 4 == a && x % 4 == b / 16 && y / 16 == b % 16 && y % 16 == c / 4 && z / 64 == c % 4 && z % 64 == d
  {
    DivModUnique(x, 4, a, b / 16);
    DivModUnique(y, 16, b % 16, c / 4);
    DivModUnique(z, 64, c % 4, d);
  }

  lemma PackUnpack(a: nat, b: nat, c: nat, d: nat, padding: nat)
    requires a < 64 && b < 64 && c < 64 && d < 64 && padding <= 2
    requires (padding >= 1 ==> d == 0) && (padding == 2 ==> c == 0)
    ensures var p := Pack(Unpack(a, b, c, d, padding));
            && p / 0x4_0000 == a
            && p / 0x1000 % 64 == (if padding == 2 then b / 16 * 16 else b)
            && (padding < 2 ==> p / 64 % 64 == if padding == 1 then c / 4 * 4 else c)
            && (padding == 0 ==> p % 64 == d)
  {
    BytesOfFour(a, b, c, d);
    var x, y, z := a * 4 + b / 16, b % 16 * 16 + c / 4, c % 4 * 64 + d;
    EightToSix(a, b, c, d, x, y, z);
    var y1, z1 := if padding < 2 then y else 0, if padding == 0 then z else 0;
    DigitsOfThree(x, y1, z1);
    assert Pack(Unpack(a, b, c, d, padding)) == Three(x, y1, z1);
  }

  lemma GroupRoundTrip(g: seq<byte>, last: bool)
    requires 1 <= |g| <= 3 && (!last ==> |g| == 3)
    ensures DecodeGroup(EncodeGroup(g), last) == Some(g)
  {
    var p := Pack(g);
    DigitsOfThree(g[0], if |g| > 1 then g[1] else 0, if |g| > 2 then g[2] else 0);
    ValueOfDigit(p / 0x4_0000);
    ValueOfDigit(p / 0x1000 % 64);
    ValueOfDigit(p / 64 % 64);
    ValueOfDigit(p % 64);
    UnpackPack(g, p);
  }

  lemma SixToEight(x: nat, y: nat, z: nat)
    ensures var b, c := x % 4 * 16 + y / 16, y % 16 * 4 + z / 64;
            y < 256 && z < 256 ==>
              x / 4 * 4 + b / 16 == x && b % 16 * 16 + c / 4 == y && c % 4 * 64 + z % 64 == z
  {
    if y < 256 && z < 256 {
      DivModUnique(x % 4 * 16 + y / 16, 16, x % 4, y / 16);
      DivModUnique(y % 16 * 4 + z / 64, 4, y % 16, z / 64);
    }
  }

  lemma UnpackPack(g: seq<byte>, p: nat)
    requires 1 <= |g| <= 3 && p == Pack(g)
    ensures var c, d := if |g| > 1 then p / 64 % 64 else 0, if |g| > 2 then p % 64 else 0;
            Unpack(p / 0x4_0000, p / 0x1000 % 64, c, d, 3 - |g|) == g
  {
    var x, y, z := g[0], if |g| > 1 then g[1] else 0, if |g| > 2 then g[2] else 0;
    var a, b, c, d := x / 4, x % 4 * 16 + y / 16, y % 16 * 4 + z / 64, z % 64;
    DigitsOfThree(x, y, z);
    BytesOfFour(a, b, c, d);
    SixToEight(x, y, z);
    assert |g| == 1 ==> c == 0 && d == 0;
    assert |g| == 2 ==> d == 0;
    assert Unpack(a, b, c, d, 3 - |g|)[0] == x;
  }

  /** A group that is accepted is the encoding of what it decodes to exactly when its unused bits are zero. */
  lemma GroupCanonical(q: string, last: bool)
    requires |q| == 4 && DecodeGroup(q, last).Some?
    ensures EncodeGroup(DecodeGroup(q, last).value) == q <==> TailZero(q)
  {
    var a, b, c, d := Value(q[0]).value, Value(q[1]).value, Value(q[2]), Value(q[3]);
    var c1, d1 := if c.Some? then c.value else 0, if d.Some? then d.value else 0;
    var padding := if c.None? then 2 else if d.None? then 1 else 0;
    DigitOfValue(q[0]);
    DigitOfValue(q[1]);
    PackUnpack(a, b, c1, d1, padding);
    var e := EncodeGroup(DecodeGroup(q, last).value);
    if padding == 2 {
      ValueOfDigit(b / 16 * 16);
    } else if padding == 1 {
      DigitOfValue(q[2]);
      ValueOfDigit(c1 / 4 * 4);
    } else {
      DigitOfValue(q[2]);
      DigitOfValue(q[3]);
    }
    assert e == [e[0], e[1], e[2], e[3]] && q == [q[0], q[1], q[2], q[3]];
  }

  // ----------------------------------------------------------------------------------------------------------
  // Strings

  function Encode(d: seq<byte>): string {
    if d == [] then [] else if |d| <= 3 then EncodeGroup(d) else EncodeGroup(d[..3]) + Encode(d[3..])
  }

  /** The test vectors of section 10 of RFC 4648: "f", "fo", ... "foobar". */
  lemma TestVectors()
    ensures Encode([]) == "" && Encode([102]) == "Zg==" && Encode([102, 111]) == "Zm8="
    ensures Encode([102, 111, 111]) == "Zm9v" && Encode([102, 111, 111, 98]) == "Zm9vYg=="
    ensures Encode([102, 111, 111, 98, 97]) == "Zm9vYmE=" && Encode([102, 111, 111, 98, 97, 114]) == "Zm9vYmFy"
  {
    var foo: seq<byte>, b: seq<byte>, ba: seq<byte>, bar: seq<byte> := [102, 111, 111], [98], [98, 97], [98, 97, 114];
    FirstVectors();
    SecondVectors();
    assert (foo + b)[..3] == foo && (foo + b)[3..] == b;
    assert (foo + ba)[..3] == foo && (foo + ba)[3..] == ba;
    assert (foo + bar)[..3] == foo && (foo + bar)[3..] == bar;
    assert foo + b == [102, 111, 111, 98] && foo + ba == [102, 111, 111, 98, 97];
    assert foo + bar == [102, 111, 111, 98, 97, 114];
  }

  lemma FirstVectors()
    ensures EncodeGroup([102]) == "Zg==" && EncodeGroup([102, 111]) == "Zm8=" && EncodeGroup([102, 111, 111]) == "Zm9v"
  {
    GroupOfThree([102], 102, 0, 0);
    GroupOfThree([102, 111], 102, 111, 0);
    GroupOfThree([102, 111, 111], 102, 111, 111);
  }

  lemma SecondVectors()
    ensures EncodeGroup([98]) == "Yg==" && EncodeGroup([98, 97]) == "YmE=" && EncodeGroup([98, 97, 114]) == "YmFy"
  {
    GroupOfThree([98], 98, 0, 0);
    GroupOfThree([98, 97], 98, 97, 0);
    GroupOfThree([98, 97, 114], 98, 97, 114);
  }

  /** The first character stands for the six high bits of the first byte, and so on; missing bytes count as zero. */
  lemma GroupOfThree(g: seq<byte>, x: byte, y: byte, z: byte)
    requires 1 <= |g| <= 3 && g[0] == x && y == (if |g| > 1 then g[1] else 0) && z == (if |g| > 2 then g[2] else 0)
    ensures EncodeGroup(g) == [Digit(x / 4), Digit(x % 4 * 16 + y / 16),
                               if |g| > 1 then Digit(y % 16 * 4 + z / 64) else '=',
                               if |g| > 2 then Digit(z % 64) else '=']
  {
    DigitsOfThree(x, y, z);
  }

  /** None is a string that is refused. */
  function Decode(s: string): Option<seq<byte>> {
    if s == [] then Some([])
    else if |s| < 4 then None
    else
      match DecodeGroup(s[..4], |s| == 4)
      case None => None
      case Some(g) => (match Decode(s[4..]) case None => None case Some(more) => Some(g + more))
  }

  lemma DecodeJoin(q: string, rest: string, g: seq<byte>, more: seq<byte>)
    requires |q| == 4 && DecodeGroup(q, rest == []) == Some(g) && Decode(rest) == Some(more)
    ensures Decode(q + rest) == Some(g + more)
  {
    assert (q + rest)[..4] == q && (q + rest)[4..] == rest;
  }

  lemma EncodeSplit(d: seq<byte>) returns (g: seq<byte>, rest: seq<byte>)
    requires d != []
    ensures d == g + rest && 1 <= |g| <= 3 && (rest != [] ==> |g| == 3)
    ensures Encode(d) == EncodeGroup(g) + Encode(rest)
  {
    g, rest := if |d| <= 3 then d else d[..3], if |d| <= 3 then [] else d[3..];
  }

  /** Every byte string comes back. */
  lemma {:induction false} RoundTrip(d: seq<byte>)
    ensures Decode(Encode(d)) == Some(d)
    decreases |d|
  {
    if d != [] {
      var g, rest := EncodeSplit(d);
      RoundTrip(rest);
      if rest != [] {
        var h, tail := EncodeSplit(rest);
      }
      GroupRoundTrip(g, Encode(rest) == []);
      DecodeJoin(EncodeGroup(g), Encode(rest), g, rest);
    }
  }

  /** The unused bits of an accepted string are zero: only its last group can have any. */
  predicate UnusedBitsZero(s: string) {
    |s| >= 4 ==> TailZero(s[|s| - 4..])
  }

  lemma FullGroup(q: string)
    requires |q| == 4 && DecodeGroup(q, false).Some?
    ensures TailZero(q)
  {
    DigitOfValue(q[2]);
    DigitOfValue(q[3]);
  }

  /** An accepted string is the encoding of its bytes exactly when its unused trailing bits are zero. */
  lemma {:induction false} Canonical(s: string)
    requires Decode(s).Some?
    ensures Encode(Decode(s).value) == s <==> UnusedBitsZero(s)
    decreases |s|
  {
    if s != [] {
      var q, rest := s[..4], s[4..];
      var g, more := DecodeGroup(q, |s| == 4).value, Decode(rest).value;
      assert s == q + rest;
      Canonical(rest);
      GroupCanonical(q, |s| == 4);
      if rest == [] {
        assert g + more == g && s[|s| - 4..] == q;
      } else {
        FullGroup(q);
        NotEmpty(rest);
        assert (g + more)[..3] == g && (g + more)[3..] == more;
        assert Encode(g + more) == EncodeGroup(g) + Encode(more);
        LastGroup(q, rest);
      }
    }
  }

  lemma LastGroup(q: string, rest: string)
    requires |q| == 4 && |rest| >= 4
    ensures (q + rest)[|q + rest| - 4..] == rest[|rest| - 4..]
  {
  }

  lemma NotEmpty(s: string)
    requires s != [] && Decode(s).Some?
    ensures |s| >= 4 && |Decode(s).value| >= 1
  {
  }

  lemma DecodeSplit(s: string) returns (g: seq<byte>, more: seq<byte>)
    requires s != [] && Decode(s).Some?
    ensures |s| >= 4 && Decode(s[4..]) == Some(more) && |Decode(s).value| == |g| + |more| && |g| <= 3
    ensures DecodeGroup(s[..4], |s| == 4) == Some(g) && Decode(s).value == g + more
  {
    g, more := DecodeGroup(s[..4], |s| == 4).value, Decode(s[4..]).value;
  }

  /** The decoder's buffer is large enough: three bytes for four characters. */
  lemma {:induction false} DecodedLength(s: string)
    requires Decode(s).Some?
    ensures 4 * |Decode(s).value| <= 3 * |s|
    decreases |s|
  {
    if s != [] {
      var g, more := DecodeSplit(s);
      DecodedLength(s[4..]);
    }
  }
}
