/** Sums of multisets and counts over lists, with the update laws every step of a machine needs. */
module Folds {

  ghost function Sum<T, U>(s: seq<T>, g: T -> multiset<U>): multiset<U> {
    if s == [] then multiset{} else Sum(s[..|s| - 1], g) + g(s[|s| - 1])
  }

  lemma {:induction false} SumConcat<T, U>(a: seq<T>, b: seq<T>, g: T -> multiset<U>)
    ensures Sum(a + b, g) == Sum(a, g) + Sum(b, g)
  {
    if b == [] {
      assert a + b == a;
    } else {
      var n := |b| - 1;
      assert (a + b)[..|a + b| - 1] == a + b[..n];
      SumConcat(a, b[..n], g);
    }
  }

  lemma SumOne<T, U>(x: T, g: T -> multiset<U>)
    ensures Sum([x], g) == g(x)
  {
    assert [x][..0] == [];
  }

  lemma SumAppend<T, U>(s: seq<T>, x: T, g: T -> multiset<U>, u: U)
    ensures Sum(s + [x], g)[u] == Sum(s, g)[u] + g(x)[u]
  {
    assert (s + [x])[..|s|] == s;
  }

  lemma SumSplit<T, U>(s: seq<T>, i: nat, g: T -> multiset<U>)
    requires i < |s|
    ensures Sum(s, g) == Sum(s[..i], g) + g(s[i]) + Sum(s[i + 1..], g)
  {
    assert s == s[..i] + ([s[i]] + s[i + 1..]);
    SumConcat(s[..i], [s[i]] + s[i + 1..], g);
    SumConcat([s[i]], s[i + 1..], g);
    SumOne(s[i], g);
  }

  /** Replacing one element changes the sum by exactly that element's contribution. */
  lemma SumUpdate<T, U>(s: seq<T>, i: nat, x: T, g: T -> multiset<U>)
    requires i < |s|
    ensures Sum(s[i := x], g) + g(s[i]) == Sum(s, g) + g(x)
    ensures g(x) == g(s[i]) ==> Sum(s[i := x], g) == Sum(s, g)
    ensures g(s[i]) == multiset{} ==> Sum(s[i := x], g) == Sum(s, g) + g(x)
    ensures g(x) == multiset{} ==> Sum(s[i := x], g) + g(s[i]) == Sum(s, g)
  {
    SumSplit(s, i, g);
    var t := s[i := x];
    SumSplit(t, i, g);
    assert t[..i] == s[..i] && t[i + 1..] == s[i + 1..];
  }

  /** The same law for one element of the multiset. */
  lemma SumShift<T, U>(s: seq<T>, i: nat, x: T, g: T -> multiset<U>, u: U)
    requires i < |s|
    ensures Sum(s[i := x], g)[u] + g(s[i])[u] == Sum(s, g)[u] + g(x)[u]
  {
    SumSplit(s, i, g);
    var t := s[i := x];
    SumSplit(t, i, g);
    assert t[..i] == s[..i] && t[i + 1..] == s[i + 1..];
  }

  lemma SumRemove<T, U>(s: seq<T>, i: nat, g: T -> multiset<U>, u: U)
    requires i < |s|
    ensures Sum(s[..i] + s[i + 1..], g)[u] + g(s[i])[u] == Sum(s, g)[u]
  {
    SumSplit(s, i, g);
    SumConcat(s[..i], s[i + 1..], g);
  }

  lemma SumMember<T, U>(s: seq<T>, i: nat, g: T -> multiset<U>)
    requires i < |s|
    ensures g(s[i]) <= Sum(s, g)
  {
    SumSplit(s, i, g);
  }

  /** Two different positions both contribute. */
  lemma SumPair<T, U>(s: seq<T>, i: nat, j: nat, g: T -> multiset<U>)
    requires i < |s| && j < |s| && i != j
    ensures g(s[i]) + g(s[j]) <= Sum(s, g)
  {
    var lo, hi := if i < j then i else j, if i < j then j else i;
    SumSplit(s, hi, g);
    assert s[..hi][lo] == s[lo];
    SumMember(s[..hi], lo, g);
  }

  lemma {:induction false} SumMonotone<T, U>(s: seq<T>, g: T -> multiset<U>, h: T -> multiset<U>, u: U)
    requires forall i :: 0 <= i < |s| ==> g(s[i])[u] <= h(s[i])[u]
    ensures Sum(s, g)[u] <= Sum(s, h)[u]
  {
    if s != [] {
      SumMonotone(s[..|s| - 1], g, h, u);
    }
  }

  /** Only an element that contributes `u` can put `u` into the sum. */
  lemma {:induction false} SumWitness<T, U>(s: seq<T>, u: U, g: T -> multiset<U>) returns (i: nat)
    requires u in Sum(s, g)
    ensures i < |s| && u in g(s[i])
  {
    var n := |s| - 1;
    if u in g(s[n]) {
      i := n;
    } else {
      i := SumWitness(s[..n], u, g);
    }
  }

  ghost function Count<T>(s: seq<T>, p: T -> bool): nat {
    if s == [] then 0 else Count(s[..|s| - 1], p) + (if p(s[|s| - 1]) then 1 else 0)
  }

  lemma {:induction false} CountUpdate<T>(s: seq<T>, i: nat, x: T, p: T -> bool)
    requires i < |s|
    ensures Count(s[i := x], p) == Count(s, p) - (if p(s[i]) then 1 else 0) + (if p(x) then 1 else 0)
  {
    var n := |s| - 1;
    if i == n {
      assert s[i := x][..n] == s[..n];
    } else {
      assert s[i := x][..n] == s[..n][i := x];
      CountUpdate(s[..n], i, x, p);
    }
  }

  lemma {:induction false} CountZero<T>(s: seq<T>, p: T -> bool)
    ensures Count(s, p) == 0 <==> forall i :: 0 <= i < |s| ==> !p(s[i])
  {
    if s != [] {
      CountZero(s[..|s| - 1], p);
      assert forall i :: 0 <= i < |s| - 1 ==> s[..|s| - 1][i] == s[i];
    }
  }

  /** p holds below n. */
  ghost predicate Always(p: nat -> bool, n: nat) {
    n == 0 || (Always(p, n - 1) && p(n - 1))
  }

  lemma {:induction false} AlwaysAt(p: nat -> bool, n: nat, i: nat)
    requires Always(p, n) && i < n
    ensures p(i)
  {
    if i < n - 1 {
      AlwaysAt(p, n - 1, i);
    }
  }

  /** If p holds at the start, and q at a point carries p over to the next, then p holds as long as q has. */
  lemma {:induction false} AlwaysCarries(p: nat -> bool, q: nat -> bool, n: nat)
    requires p(0) && (forall i | 0 <= i < n :: p(i) && q(i) ==> p(i + 1)) && Always(q, n)
    ensures p(n)
  {
    if n > 0 {
      AlwaysCarries(p, q, n - 1);
      assert p(n - 1) && q(n - 1) ==> p(n - 1 + 1);
    }
  }

  /** If p holds at the start, and q at a point is exactly what carries p over to the next, then p holds all along
      exactly when q does. */
  lemma {:induction false} AlwaysExact(p: nat -> bool, q: nat -> bool, n: nat)
    requires p(0) && forall i | 0 <= i < n :: p(i) ==> (p(i + 1) <==> q(i))
    ensures Always(p, n + 1) <==> Always(q, n)
  {
    if n > 0 {
      AlwaysExact(p, q, n - 1);
      assert p(n - 1) ==> (p(n - 1 + 1) <==> q(n - 1));
    }
  }
}
