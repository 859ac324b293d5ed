/** Bitwise operators on naturals, bit by bit. */
module Bits {
  function Pow2(k: nat): (r: nat)
    ensures r >= 1
  {
    if k == 0 then 1 else 2 * Pow2(k - 1)
  }

  lemma {:induction false} Pow2Add(j: nat, k: nat)
    ensures Pow2(j + k) == Pow2(j) * Pow2(k)
    decreases k
  {
    if k > 0 {
      Pow2Add(j, k - 1);
      assert j + k - 1 == j + (k - 1);
      assert Pow2(j) * (2 * Pow2(k - 1)) == 2 * (Pow2(j) * Pow2(k - 1));
    }
  }

  lemma {:induction false} Pow2Monotone(j: nat, k: nat)
    requires j <= k
    ensures Pow2(j) <= Pow2(k)
    decreases k
  {
    if j < k {
      Pow2Monotone(j, k - 1);
    }
  }

  function Or(a: nat, b: nat): nat
    decreases a + b
  {
    if a == 0 && b == 0 then 0 else (if a % 2 == 1 || b % 2 == 1 then 1 else 0) + 2 * Or(a / 2, b / 2)
  }

  function Xor(a: nat, b: nat): nat
    decreases a + b
  {
    if a == 0 && b == 0 then 0 else (a + b) % 2 + 2 * Xor(a / 2, b / 2)
  }

  lemma {:induction false} OrZero(a: nat)
    ensures Or(0, a) == a
    decreases a
  {
    if a > 0 {
      OrZero(a / 2);
    }
  }

  /** Or of a number below 2^k with a multiple of 2^k is their sum. */
  lemma {:induction false} OrDisjoint(a: nat, b: nat, k: nat)
    requires a < Pow2(k)
    ensures Or(a, b * Pow2(k)) == a + b * Pow2(k)
    decreases k
  {
    if k == 0 {
      OrZero(b);
    } else {
      var half := b * Pow2(k - 1);
      assert b * Pow2(k) == 2 * half;
      OrDisjoint(a / 2, b, k - 1);
      assert (2 * half) % 2 == 0 && (2 * half) / 2 == half;
    }
  }

  lemma XorHead(a: nat, b: nat)
    ensures Xor(a, b) % 2 == (a + b) % 2 == (a % 2 + b % 2) % 2 && Xor(a, b) / 2 == Xor(a / 2, b / 2)
  {
  }

  lemma SameHalves(y: nat, a: nat, bit: nat)
    requires bit < 2 && y / 2 == a / 2 && y % 2 == ((a % 2 + bit) % 2 + bit) % 2
    ensures y == a
  {
    assert a % 2 == 0 || a % 2 == 1;
  }

  lemma {:induction false} XorUndoes(a: nat, b: nat)
    ensures Xor(Xor(a, b), b) == a
    decreases a + b
  {
    if a != 0 || b != 0 {
      XorUndoes(a / 2, b / 2);
      XorHead(a, b);
      XorHead(Xor(a, b), b);
      SameHalves(Xor(Xor(a, b), b), a, b % 2);
    }
  }

  lemma {:induction false} XorCommutes(a: nat, b: nat)
    ensures Xor(a, b) == Xor(b, a)
    decreases a + b
  {
    if a != 0 || b != 0 {
      XorCommutes(a / 2, b / 2);
    }
  }

  lemma {:induction false} XorBelow(a: nat, b: nat, k: nat)
    requires a < Pow2(k) && b < Pow2(k)
    ensures Xor(a, b) < Pow2(k)
    decreases k
  {
    if k > 0 && (a != 0 || b != 0) {
      XorBelow(a / 2, b / 2, k - 1);
    }
  }

  lemma {:induction false} XorNothing(a: nat)
    ensures Xor(a, 0) == a
    decreases a
  {
    if a > 0 {
      XorNothing(a / 2);
    }
  }

  /** Xor with all ones is the complement. */
  lemma {:induction false} XorOnes(a: nat, k: nat)
    requires a < Pow2(k)
    ensures Xor(a, Pow2(k) - 1) == Pow2(k) - 1 - a
    decreases k
  {
    if k > 0 {
      var p := Pow2(k - 1);
      assert (2 * p - 1) / 2 == p - 1 && (2 * p - 1) % 2 == 1;
      XorOnes(a / 2, k - 1);
    }
  }

  // Remainders by a variable

  lemma {:induction false} MultipleApart(d: nat, m: nat)
    requires d >= 1
    ensures d * m >= m
    decreases d
  {
    if d > 1 {
      MultipleApart(d - 1, m);
      assert d * m == (d - 1) * m + m;
    }
  }

  lemma DivModUnique(v: int, m: nat, q: int, r: nat)
    requires r < m && v == q * m + r
    ensures v / m == q && v % m == r
  {
    var p, s := v / m, v % m;
    assert v == p * m + s;
    assert (q - p) * m == s - r && (p - q) * m == r - s;
    if q > p {
      MultipleApart(q - p, m);
    } else if p > q {
      MultipleApart(p - q, m);
    }
  }

  lemma DivTwice(v: nat, a: nat, b: nat)
    requires a >= 1 && b >= 1
    ensures a * b >= 1 && v / a / b == v / (a * b)
  {
    var p, m := v / a, v % a;
    var q, r := p / b, p % b;
    MultipleApart(a, b);
    assert p == q * b + r;
    TwoDigits(v, a, b, p, m, q, r);
    DivModUnique(v, a * b, q, a * r + m);
  }

  /** v in digits to the bases a and b. */
  lemma TwoDigits(v: nat, a: nat, b: nat, p: nat, m: nat, q: nat, r: nat)
    requires v == a * p + m && m < a && p == q * b + r && r < b
    ensures v == q * (a * b) + (a * r + m) && 0 <= a * r + m < a * b
  {
    assert a * p == a * (q * b) + a * r;
    assert a * (q * b) == q * (a * b);
    assert a * (r + 1) == a * r + a;
    MultipleLess(a, r + 1, b);
  }

  lemma {:induction false} MultipleLess(a: nat, i: nat, j: nat)
    requires i <= j
    ensures a * i <= a * j
    decreases a
  {
    if a > 0 {
      MultipleLess(a - 1, i, j);
      assert a * i == (a - 1) * i + i && a * j == (a - 1) * j + j;
    }
  }

  /** The remainder of a number in [-m, m). */
  lemma ModOneDown(v: int, m: nat)
    requires -(m as int) <= v < m
    ensures v % m == if v < 0 then v + m else v
  {
    DivModUnique(v, m, if v < 0 then -1 else 0, if v < 0 then v + m else v);
  }

  // Narrowing

  const I31: nat := 0x8000_0000
  const U32: nat := 0x1_0000_0000
  const U35: nat := 0x8_0000_0000
  const I63: nat := 0x8000_0000_0000_0000
  const U64: nat := 0x1_0000_0000_0000_0000

  lemma Widths()
    ensures Pow2(16) == 65536 && Pow2(32) == U32 && Pow2(35) == U35 && Pow2(64) == U64
  {
    assert Pow2(8) == 256 && Pow2(3) == 8;
    Pow2Add(8, 8);
    Pow2Add(16, 16);
    Pow2Add(32, 3);
    Pow2Add(32, 32);
  }

  /** A wider unsigned number as an int. */
  function Narrow(n: nat): int {
    var u := n % U32;
    if u < I31 then u else u - U32
  }

  lemma NarrowSmall(n: nat)
    requires n < I31
    ensures Narrow(n) == n
  {
  }
}
