/** Sums over integer sequences: the vocabulary in which every aggregate is specified. */
module Sums {

  /** The sum of the first n elements. A sum over [lo, hi) is Prefix(s, hi) - Prefix(s, lo). */
  function Prefix(s: seq<int>, n: nat): int
    requires n <= |s|
  {
    if n == 0 then 0 else Prefix(s, n - 1) + s[n - 1]
  }

  function Sum(s: seq<int>): int {
    Prefix(s, |s|)
  }

  /** Prefix looks only at the elements it adds. */
  lemma {:induction false} PrefixDependsOnPrefix(a: seq<int>, b: seq<int>, n: nat)
    requires n <= |a| && n <= |b|
    requires forall i :: 0 <= i < n ==> a[i] == b[i]
    ensures Prefix(a, n) == Prefix(b, n)
  {
    if n > 0 {
      PrefixDependsOnPrefix(a, b, n - 1);
    }
  }

  lemma {:induction false} PrefixUpdate(s: seq<int>, i: nat, x: int, n: nat)
    requires i < |s| && n <= |s|
    ensures Prefix(s[i := x], n) == Prefix(s, n) + if i < n then x - s[i] else 0
  {
    if n > 0 {
      PrefixUpdate(s, i, x, n - 1);
    }
  }

  lemma {:induction false} SumUpdate(s: seq<int>, i: nat, x: int)
    requires i < |s|
    ensures Sum(s[i := x]) == Sum(s) - s[i] + x
  {
    PrefixUpdate(s, i, x, |s|);
  }

  lemma {:induction false} SumAppend(s: seq<int>, x: int)
    ensures Sum(s + [x]) == Sum(s) + x
  {
    PrefixDependsOnPrefix(s + [x], s, |s|);
  }

  lemma {:induction false} SumConcat(a: seq<int>, b: seq<int>)
    ensures Sum(a + b) == Sum(a) + Sum(b)
  {
    if b == [] {
      assert a + b == a;
    } else {
      var front := b[..|b| - 1];
      assert a + b == (a + front) + [b[|b| - 1]];
      assert b == front + [b[|b| - 1]];
      SumAppend(a + front, b[|b| - 1]);
      SumAppend(front, b[|b| - 1]);
      SumConcat(a, front);
    }
  }

  lemma {:induction false} SumZero(s: seq<int>, n: nat)
    requires n <= |s|
    requires forall i :: 0 <= i < n ==> s[i] == 0
    ensures Prefix(s, n) == 0
  {
    if n > 0 {
      SumZero(s, n - 1);
    }
  }

  /** Sums of pointwise sums. */
  lemma {:induction false} PrefixAdd(a: seq<int>, b: seq<int>, c: seq<int>, n: nat)
    requires n <= |a| && n <= |b| && n <= |c|
    requires forall i :: 0 <= i < n ==> c[i] == a[i] + b[i]
    ensures Prefix(c, n) == Prefix(a, n) + Prefix(b, n)
  {
    if n > 0 {
      PrefixAdd(a, b, c, n - 1);
    }
  }

  /** A sum of n terms, each at most `bound` in magnitude, is at most n * bound in magnitude. */
  lemma {:induction false} PrefixBound(s: seq<int>, n: nat, bound: nat)
    requires n <= |s|
    requires forall i :: 0 <= i < n ==> 0 - bound <= s[i] <= bound
    ensures 0 - n * bound <= Prefix(s, n) <= n * bound
  {
    if n > 0 {
      PrefixBound(s, n - 1, bound);
      assert n * bound == (n - 1) * bound + bound;
    }
  }

  lemma {:induction false} PrefixMonotone(s: seq<int>, m: nat, n: nat)
    requires m <= n <= |s|
    requires forall i :: m <= i < n ==> s[i] >= 0
    ensures Prefix(s, m) <= Prefix(s, n)
  {
    if m < n {
      PrefixMonotone(s, m, n - 1);
    }
  }

  lemma {:induction false} SumSlice(s: seq<int>, lo: nat, hi: nat)
    requires lo <= hi <= |s|
    ensures Sum(s[lo..hi]) == Prefix(s, hi) - Prefix(s, lo)
  {
    if lo < hi {
      SumSlice(s, lo, hi - 1);
      assert s[lo..hi] == s[lo..hi - 1] + [s[hi - 1]];
      SumAppend(s[lo..hi - 1], s[hi - 1]);
    }
  }

  lemma {:induction false} SumWithout(s: seq<int>, i: nat)
    requires i < |s|
    ensures Sum(s) == Sum(s[..i] + s[i + 1..]) + s[i]
  {
    assert s == s[..i] + ([s[i]] + s[i + 1..]);
    SumConcat(s[..i], [s[i]] + s[i + 1..]);
    SumConcat([s[i]], s[i + 1..]);
    SumConcat(s[..i], s[i + 1..]);
    assert [] + [s[i]] == [s[i]];
    SumAppend([], s[i]);
  }

  /** Order does not matter to a sum. */
  lemma {:induction false} SumPermutation(a: seq<int>, b: seq<int>)
    requires multiset(a) == multiset(b)
    ensures Sum(a) == Sum(b)
  {
    if a == [] {
      assert |b| == |multiset(b)| == |multiset(a)|;
    } else {
      var n := |a| - 1;
      assert a[n] in multiset(b);
      var i :| 0 <= i < |b| && b[i] == a[n];
      SumWithout(b, i);
      assert a == a[..n] + [a[n]];
      SumAppend(a[..n], a[n]);
      assert b == b[..i] + ([b[i]] + b[i + 1..]);
      assert multiset(a[..n]) == multiset(a) - multiset{a[n]};
      assert multiset(b[..i] + b[i + 1..]) == multiset(b) - multiset{b[i]};
      SumPermutation(a[..n], b[..i] + b[i + 1..]);
    }
  }
}
