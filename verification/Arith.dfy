/** Facts about / and % with a variable divisor, used wherever rows are dealt out to threads. */
module Arith {

  function Min(a: nat, b: nat): nat { if a <= b then a else b }

  lemma {:induction false} QuotientUnique(x: nat, m: nat, q: nat, r: nat)
    requires m > 0 && r < m && x == m * q + r
    ensures x / m == q && x % m == r
  {
    assert x == m * (x / m) + x % m;
    MultiplesApart(m, q, x / m);
    MultiplesApart(m, x / m, q);
  }

  lemma {:induction false} MultiplesApart(m: nat, a: nat, b: nat)
    ensures a < b ==> m * a + m <= m * b
  {
    if a < b {
      assert m * b == m * (a + 1) + m * (b - a - 1);
    }
  }

  lemma {:induction false} SmallMod(x: nat, m: nat)
    requires x < m
    ensures x % m == x && x / m == 0
  {
    QuotientUnique(x, m, 0, x);
  }

  lemma {:induction false} AddModulus(i: nat, m: nat)
    requires m > 0
    ensures (i + m) % m == i % m && (i + m) / m == i / m + 1
  {
    assert i + m == m * (i / m + 1) + i % m;
    QuotientUnique(i + m, m, i / m + 1, i % m);
  }

  /** Two numbers dealt to the same thread are at least a whole round apart. */
  lemma {:induction false} SameResidue(i: nat, j: nat, m: nat)
    requires m > 0 && i % m == j % m && i < j
    ensures i + m <= j
  {
    assert i == m * (i / m) + i % m && j == m * (j / m) + j % m;
    MultiplesApart(m, i / m, j / m);
    MultiplesApart(m, j / m, i / m);
  }

  lemma {:induction false} QuotientAtMost(i: nat, m: nat)
    requires m > 0
    ensures i / m <= i
  {
    var q := i / m;
    assert i == m * q + i % m;
    assert m * q >= q by { MultiplesApart(q, 1, m); }
  }

  lemma {:induction false} WrapOnce(x: nat, m: nat)
    requires 0 < m && x < 2 * m
    ensures x % m == if x < m then x else x - m
  {
    QuotientUnique(x, m, if x < m then 0 else 1, if x < m then x else x - m);
  }

  // Row-major indices.

  function Slot(g: nat, width: nat, p: nat): nat { g * width + p }

  lemma {:induction false} SlotInverse(g: nat, width: nat, p: nat)
    requires p < width
    ensures Slot(g, width, p) / width == g && Slot(g, width, p) % width == p
  {
    QuotientUnique(Slot(g, width, p), width, g, p);
  }

  lemma {:induction false} SlotBelow(g: nat, card: nat, width: nat, p: nat)
    requires p < width && g < card
    ensures Slot(g, width, p) < card * width
  {
    MultiplesApart(width, g, card);
  }

  lemma {:induction false} SlotRange(s: nat, card: nat, width: nat)
    requires s < card * width
    ensures width > 0 && s / width < card && s % width < width && s == Slot(s / width, width, s % width)
  {
    assert width > 0;
    assert s == width * (s / width) + s % width;
    MultiplesApart(width, card, s / width);
  }
}
