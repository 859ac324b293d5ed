/** Offsets of fixed-size blocks in the flat byte sequence they stand for (the node list of sylar/bytearray.h). */
module Blocks {
  import opened Bits

  type byte = n: nat | n < 256

  /** The offset of block k in the flat sequence, k * base. */
  function Start(base: nat, k: nat): (r: nat)
    ensures k > 0 ==> r >= base
  {
    if k == 0 then 0 else Start(base, k - 1) + base
  }

  lemma {:induction false} StartMonotone(base: nat, j: nat, k: nat)
    requires j <= k
    ensures Start(base, j) <= Start(base, k)
    ensures j < k ==> Start(base, j) + base <= Start(base, k)
    decreases k
  {
    if j < k {
      StartMonotone(base, j, k - 1);
    }
  }

  lemma {:induction false} StartIsProduct(base: nat, k: nat)
    ensures Start(base, k) == k * base
    decreases k
  {
    if k > 0 {
      StartIsProduct(base, k - 1);
      assert (k - 1) * base + base == k * base;
    }
  }

  /** A position inside block k has quotient k and, as remainder, its offset in the block. */
  lemma PositionInBlock(base: nat, k: nat, o: nat)
    requires o < base
    ensures (Start(base, k) + o) / base == k && (Start(base, k) + o) % base == o
  {
    StartIsProduct(base, k);
    DivModUnique(Start(base, k) + o, base, k, o);
  }

  /** Every position is in the block its quotient names. */
  lemma BlockOfPosition(base: nat, p: nat)
    requires base >= 1
    ensures p == Start(base, p / base) + p % base
  {
    StartIsProduct(base, p / base);
  }

  function Splice(s: seq<byte>, at: nat, d: seq<byte>): (r: seq<byte>)
    requires at + |d| <= |s|
    ensures |r| == |s|
  {
    s[..at] + d + s[at + |d|..]
  }

  lemma SpliceTwice(s: seq<byte>, at: nat, d: seq<byte>, e: seq<byte>)
    requires at + |d| + |e| <= |s|
    ensures Splice(Splice(s, at, d), at + |d|, e) == Splice(s, at, d + e)
  {
  }

  lemma SpliceSlices(was: seq<byte>, grown: seq<byte>, at: nat, d: seq<byte>)
    requires at <= |was| <= |grown| && grown[..|was|] == was && at + |d| <= |grown|
    ensures Splice(grown, at, d)[..at] == was[..at] && Splice(grown, at, d)[at..at + |d|] == d
    ensures |grown| == |was| ==> grown == was
  {
  }

  /** v is block k of the flat sequence. */
  predicate BlockAt(v: seq<byte>, flat: seq<byte>, base: nat, k: nat) {
    Start(base, k) + base <= |flat| && v == flat[Start(base, k)..Start(base, k) + base]
  }

  lemma BlockAtGrown(v: seq<byte>, flat: seq<byte>, more: seq<byte>, base: nat, k: nat)
    requires BlockAt(v, flat, base, k)
    ensures BlockAt(v, flat + more, base, k)
  {
  }

  lemma NewBlockAt(flat: seq<byte>, v: seq<byte>, base: nat, n: nat)
    requires |flat| == Start(base, n) && |v| == base
    ensures BlockAt(v, flat + v, base, n)
  {
  }

  lemma SliceJoin(s: seq<byte>, i: nat, j: nat, k: nat)
    requires i <= j <= k <= |s|
    ensures s[i..j] + s[j..k] == s[i..k]
  {
  }

  lemma SlicesJoin(s: seq<byte>, i: nat, j: nat, k: nat, a: seq<byte>, b: seq<byte>)
    requires i <= j <= k <= |s| && a == s[i..j] && b == s[j..k]
    ensures a + b == s[i..k]
  {
    SliceJoin(s, i, j, k);
  }

  lemma SliceOfSlice(s: seq<byte>, i: nat, j: nat, a: nat, b: nat)
    requires i <= j <= |s| && a <= b <= j - i
    ensures s[i..j][a..b] == s[i + a..i + b]
  {
    assert forall x :: 0 <= x < b - a ==> s[i..j][a..b][x] == s[i + a..i + b][x];
  }

  lemma SliceOfSplice(s: seq<byte>, at: nat, d: seq<byte>, i: nat, j: nat)
    requires at + |d| <= |s| && i <= j <= |s|
    ensures j <= at || at + |d| <= i ==> Splice(s, at, d)[i..j] == s[i..j]
  {
  }

  lemma SpliceInside(s: seq<byte>, i: nat, j: nat, at: nat, d: seq<byte>)
    requires i <= j <= |s| && at + |d| <= j - i
    ensures Splice(s, i + at, d)[i..j] == Splice(s[i..j], at, d)
  {
    var l, r := Splice(s, i + at, d)[i..j], Splice(s[i..j], at, d);
    assert forall x :: 0 <= x < j - i ==> l[x] == r[x];
  }

  /** Writing inside block k is writing in the flat sequence... */
  lemma BlockAtSplice(v: seq<byte>, flat: seq<byte>, base: nat, k: nat, at: nat, d: seq<byte>)
    requires BlockAt(v, flat, base, k) && at + |d| <= base
    ensures BlockAt(Splice(v, at, d), Splice(flat, Start(base, k) + at, d), base, k)
  {
    var i := Start(base, k);
    SpliceInside(flat, i, i + base, at, d);
  }

  /** ... and leaves the other blocks alone. */
  lemma BlockAtOther(v: seq<byte>, flat: seq<byte>, base: nat, j: nat, k: nat, at: nat, d: seq<byte>)
    requires BlockAt(v, flat, base, j) && Start(base, k) + base <= |flat| && at + |d| <= base && j != k
    ensures BlockAt(v, Splice(flat, Start(base, k) + at, d), base, j)
  {
    if j < k {
      StartMonotone(base, j, k);
    } else {
      StartMonotone(base, k, j);
    }
    SliceOfSplice(flat, Start(base, k) + at, d, Start(base, j), Start(base, j) + base);
  }

  /** Both together: after the write in block k every block is again what the flat sequence says. */
  lemma BlocksAfterSplice(v: seq<byte>, v1: seq<byte>, flat: seq<byte>, base: nat, j: nat, k: nat, at: nat,
                          d: seq<byte>)
    requires BlockAt(v, flat, base, j) && Start(base, k) + base <= |flat| && at + |d| <= base
    requires v1 == if j == k then Splice(v, at, d) else v
    ensures BlockAt(v1, Splice(flat, Start(base, k) + at, d), base, j)
  {
    if j == k {
      BlockAtSplice(v, flat, base, k, at, d);
    } else {
      BlockAtOther(v, flat, base, j, k, at, d);
    }
  }
}
