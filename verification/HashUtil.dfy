/** The loops of base64encode and base64decode (sylar/util/hash_util.cc). */
module HashUtil {
  import opened Blocks
  import opened Tasks
  import opened Base64

  /** Up to three bytes, and how many they were; each shift leaves the low bits free for the next byte. */
  method TakeThree(data: seq<byte>, ptr: nat) returns (packed: nat, n: nat)
    requires ptr < |data|
    ensures n == (if |data| - ptr < 3 then |data| - ptr else 3) && packed == Pack(data[ptr..ptr + n])
  {
    var i := 0;
    packed := 0;
    while i < 3 && ptr + i < |data|
      invariant 0 <= i <= 3 && ptr + i <= |data|
      invariant packed == Shifted(data[ptr..ptr + i])
    {
      assert data[ptr..ptr + i + 1] == data[ptr..ptr + i] + [data[ptr + i]];
      packed := packed * 0x100 + data[ptr + i];
      i := i + 1;
    }
    n := i;
    while i < 3
      invariant 1 <= n <= i <= 3 && Zeroes(packed, 3 - i) == Pack(data[ptr..ptr + n])
    {
      packed := packed * 0x100;
      i := i + 1;
    }
  }

  /** Up to three bytes as one number, the first most significant. */
  function Shifted(g: seq<byte>): nat
    requires |g| <= 3
  {
    match |g|
    case 0 => 0
    case 1 => g[0]
    case 2 => Three(0, g[0], g[1])
    case _ => Three(g[0], g[1], g[2])
  }

  function Zeroes(packed: nat, n: nat): nat {
    if n == 0 then packed else if n == 1 then packed * 0x100 else packed * 0x1_0000
  }

  method Base64Encode(data: seq<byte>) returns (ret: string)
    ensures ret == Encode(data)
  {
    ret := [];
    var ptr: nat := 0;
    while ptr < |data|
      invariant ptr <= |data|
      invariant ret + Encode(data[ptr..]) == Encode(data)
    {
      var packed, n := TakeThree(data, ptr);
      ghost var g := data[ptr..ptr + n];
      var padding := if n == 1 then 2 else if n == 2 then 1 else 0;
      GroupOf(g, packed);
      var q := [Digit(packed / 0x4_0000), Digit(packed / 0x1000 % 64)];
      if padding != 2 {
        q := q + [Digit(packed / 64 % 64)];
      }
      if padding == 0 {
        q := q + [Digit(packed % 64)];
      }
      q := q + seq(padding, _ => '=');
      assert q == EncodeGroup(g);
      NextGroup(data, ptr, n, ret);
      ret := ret + q;
      ptr := ptr + n;
    }
    assert data[ptr..] == [];
  }

  lemma GroupOf(g: seq<byte>, packed: nat)
    requires 1 <= |g| <= 3 && packed == Pack(g)
    ensures packed / 0x4_0000 < 64
  {
    DigitsOfThree(g[0], if |g| > 1 then g[1] else 0, if |g| > 2 then g[2] else 0);
  }

  lemma NextGroup(data: seq<byte>, ptr: nat, n: nat, ret: string)
    requires ptr < |data| && n == if |data| - ptr < 3 then |data| - ptr else 3
    ensures ret + Encode(data[ptr..]) == ret + EncodeGroup(data[ptr..ptr + n]) + Encode(data[ptr + n..])
  {
    var d := data[ptr..];
    if |d| <= 3 {
      assert data[ptr..ptr + n] == d && data[ptr + n..] == [];
    } else {
      assert d[..3] == data[ptr..ptr + n] && d[3..] == data[ptr + n..];
    }
  }

  /** The decoder's state within a group. */
  datatype Scan = Scan(padding: nat, packed: nat) | Refused

  function ScanStep(st: Scan, c: char): Scan {
    match st
    case Refused => Refused
    case Scan(padding, packed) =>
      if c == '=' then Scan(padding + 1, packed * 64)
      else if padding > 0 || Value(c).None? then Refused
      else Scan(0, packed * 64 + Value(c).value)
  }

  function Scanned(s: string, ptr: nat, i: nat): Scan
    requires ptr + i <= |s|
  {
    if i == 0 then Scan(0, 0) else ScanStep(Scanned(s, ptr, i - 1), s[ptr + i - 1])
  }

  /** What the checks after the scan make of it. */
  function Judged(st: Scan, last: bool): Option<seq<byte>> {
    match st
    case Refused => None
    case Scan(padding, packed) =>
      if padding > 2 || (padding > 0 && !last) || packed >= 0x100_0000 then None else Some(TopBytes(packed, padding))
  }

  /** The scan accepts a group exactly when it is digits, then pads, and yields its bytes. */
  lemma ScanDecodes(s: string, ptr: nat, last: bool)
    requires ptr + 4 <= |s|
    ensures Judged(Scanned(s, ptr, 4), last) == DecodeGroup(s[ptr..ptr + 4], last)
    ensures Scanned(s, ptr, 4).Scan? ==> Scanned(s, ptr, 4).packed < 0x100_0000
  {
    var q := s[ptr..ptr + 4];
    assert q[0] == s[ptr] && q[1] == s[ptr + 1] && q[2] == s[ptr + 2] && q[3] == s[ptr + 3];
    var one := ScanStep(Scan(0, 0), q[0]);
    assert Scanned(s, ptr, 1) == one;
    var two := ScanStep(one, q[1]);
    assert Scanned(s, ptr, 2) == two;
    var three := ScanStep(two, q[2]);
    assert Scanned(s, ptr, 3) == three;
    assert Scanned(s, ptr, 4) == ScanStep(three, q[3]);
    FourSteps(q, last);
  }

  lemma FourSteps(q: string, last: bool)
    requires |q| == 4
    ensures var st := ScanStep(ScanStep(ScanStep(ScanStep(Scan(0, 0), q[0]), q[1]), q[2]), q[3]);
            Judged(st, last) == DecodeGroup(q, last) && (st.Scan? ==> st.packed < 0x100_0000)
  {
    if Value(q[0]).Some? && Value(q[1]).Some? {
      var a, b := Value(q[0]).value, Value(q[1]).value;
      DigitOfValue(q[0]);
      DigitOfValue(q[1]);
      if Value(q[2]).Some? {
        DigitOfValue(q[2]);
      }
    }
  }

  /** The inner loop. */
  method ScanGroup(s: string, ptr: nat) returns (ok: bool, i: nat, padding: nat, packed: nat)
    requires ptr < |s|
    ensures i <= 4 && ptr + i <= |s|
    ensures ok ==> i == (if |s| - ptr < 4 then |s| - ptr else 4) && Scanned(s, ptr, i) == Scan(padding, packed)
    ensures !ok ==> i < 4 && ptr + i < |s| && Scanned(s, ptr, i + 1).Refused?
  {
    i, padding, packed := 0, 0, 0;
    while i < 4 && ptr + i < |s|
      invariant i <= 4 && ptr + i <= |s| && Scanned(s, ptr, i) == Scan(padding, packed)
    {
      var c := s[ptr + i];
      if c == '=' {
        padding := padding + 1;
        packed := packed * 64;
      } else {
        if padding > 0 || Value(c).None? {
          return false, i, padding, packed;
        }
        packed := packed * 64 + Value(c).value;
      }
      i := i + 1;
    }
    ok := true;
  }

  lemma {:induction false} RefusedStays(s: string, ptr: nat, i: nat, j: nat)
    requires i <= j && ptr + j <= |s| && Scanned(s, ptr, i).Refused?
    ensures Scanned(s, ptr, j).Refused?
    decreases j
  {
    if i < j {
      RefusedStays(s, ptr, i, j - 1);
    }
  }

  /** What is left to decode decides what the whole is. */
  ghost predicate Pending(s: string, ptr: nat, out: seq<byte>)
    requires ptr <= |s|
  {
    Decode(s) == match Decode(s[ptr..]) { case None => None case Some(more) => Some(out + more) }
  }

  lemma AllPending(s: string, out: seq<byte>)
    requires out == []
    ensures Pending(s, 0, out)
  {
    assert s[0..] == s;
    match Decode(s) {
      case None =>
      case Some(d) => assert out + d == d;
    }
  }

  lemma GroupRefused(s: string, ptr: nat, out: seq<byte>)
    requires ptr < |s| && Pending(s, ptr, out)
    requires |s| - ptr < 4 || DecodeGroup(s[ptr..ptr + 4], ptr + 4 == |s|).None?
    ensures Decode(s).None?
  {
    var t := s[ptr..];
    if |t| >= 4 {
      assert t[..4] == s[ptr..ptr + 4];
    }
  }

  lemma GroupTaken(s: string, ptr: nat, out: seq<byte>, g: seq<byte>)
    requires ptr + 4 <= |s| && Pending(s, ptr, out) && DecodeGroup(s[ptr..ptr + 4], ptr + 4 == |s|) == Some(g)
    ensures Pending(s, ptr + 4, out + g)
  {
    var t := s[ptr..];
    assert t[..4] == s[ptr..ptr + 4] && t[4..] == s[ptr + 4..];
    match Decode(s[ptr + 4..]) {
      case None =>
      case Some(more) => assert out + (g + more) == out + g + more;
    }
  }

  /** The inner loop and the checks behind it. */
  method ReadGroup(s: string, ptr: nat) returns (ok: bool, padding: nat, packed: nat)
    requires ptr < |s|
    ensures ok ==> ptr + 4 <= |s| && padding <= 2 && packed < 0x100_0000 &&
                   DecodeGroup(s[ptr..ptr + 4], ptr + 4 == |s|) == Some(TopBytes(packed, padding))
    ensures !ok ==> |s| - ptr < 4 || DecodeGroup(s[ptr..ptr + 4], ptr + 4 == |s|).None?
  {
    var i;
    ok, i, padding, packed := ScanGroup(s, ptr);
    if ptr + 4 <= |s| {
      ScanDecodes(s, ptr, ptr + 4 == |s|);
      if !ok {
        RefusedStays(s, ptr, i + 1, 4);
      }
    }
    ok := ok && i == 4 && (padding == 0 || ptr + i == |s|) && padding <= 2;
  }

  /** An empty result is what the empty string and every refused string give. Writes stay within the buffer of three
      quarters of the source's length. */
  method Base64Decode(src: string) returns (result: seq<byte>)
    ensures result == match Decode(src) { case None => [] case Some(d) => d }
  {
    var buf := new byte[|src| * 3 / 4];
    var w: nat, ptr: nat := 0, 0;
    AllPending(src, buf[..0]);
    while ptr < |src|
      invariant ptr <= |src| && 4 * w <= 3 * ptr && w <= buf.Length
      invariant Pending(src, ptr, buf[..w])
      decreases |src| - ptr
    {
      var ok, padding, packed := ReadGroup(src, ptr);
      if !ok {
        GroupRefused(src, ptr, buf[..w]);
        return [];
      }
      GroupTaken(src, ptr, buf[..w], TopBytes(packed, padding));
      ptr := ptr + 4;
      w := Emit(buf, w, packed, padding);
    }
    assert src[ptr..] == [];
    result := buf[..w];
  }

  /** The writes for one group. */
  method Emit(buf: array<byte>, w: nat, packed: nat, padding: nat) returns (n: nat)
    requires packed < 0x100_0000 && padding <= 2 && w + 3 - padding <= buf.Length
    modifies buf
    ensures n == w + 3 - padding && buf[..n] == old(buf[..w]) + TopBytes(packed, padding)
  {
    n := w;
    buf[n] := packed / 0x1_0000;
    n := n + 1;
    if padding != 2 {
      buf[n] := packed / 0x100 % 0x100;
      n := n + 1;
    }
    if padding == 0 {
      buf[n] := packed % 0x100;
      n := n + 1;
    }
  }
}
