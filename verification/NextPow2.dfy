/** The hash table's capacity: the bit-smearing NextPow2 on 32-bit words computes the least
    power of two that is not below its argument. */
module NextPow2 {

  /** x |= x >> 1; x |= x >> 2; ...; x |= x >> 16. */
  function Smear(x: bv32): bv32 {
    var a := x | (x >> 1);
    var b := a | (a >> 2);
    var c := b | (b >> 4);
    var d := c | (c >> 8);
    d | (d >> 16)
  }

  function NextPow2Word(x: bv32): bv32 {
    if x <= 1 then 1 else Smear(x - 1) + 1
  }

  /** The number a word stands for. */
  function Value(b: bv32): nat
    decreases b
  {
    if b == 0 then 0
    else
      HalfSmaller(b);
      2 * Value(b >> 1) + if (b & 1) == 1 then 1 else 0
  }

  lemma {:induction false} HalfSmaller(b: bv32)
    requires b != 0
    ensures b >> 1 < b
  {
  }

  /** 2^m - 1 for the least m with x < 2^m. */
  function AllOnes(x: nat): nat {
    if x == 0 then 0 else 2 * AllOnes(x / 2) + 1
  }

  ghost predicate IsPow2(x: nat) {
    x == 1 || (x > 0 && x % 2 == 0 && IsPow2(x / 2))
  }

  function LeastPow2(x: nat): nat {
    if x <= 1 then 1 else AllOnes(x - 1) + 1
  }

  lemma {:induction false} AllOnesBounds(x: nat)
    ensures x <= AllOnes(x) <= 2 * x
    ensures IsPow2(AllOnes(x) + 1)
  {
    if x > 0 {
      AllOnesBounds(x / 2);
      assert (AllOnes(x) + 1) / 2 == AllOnes(x / 2) + 1;
    }
  }

  lemma {:induction false} LeastPow2Spec(x: nat)
    ensures var r := LeastPow2(x); IsPow2(r) && x <= r && (x > 1 ==> r < 2 * x)
  {
    if x > 1 {
      AllOnesBounds(x - 1);
    }
  }

  /** No power of two lies in [x, LeastPow2(x)). */
  lemma {:induction false} LeastPow2IsLeast(x: nat, p: nat)
    requires IsPow2(p) && x <= p
    ensures LeastPow2(x) <= p
  {
    if x > 1 {
      AllOnesBelowPow2(x - 1, p);
    }
  }

  lemma {:induction false} AllOnesBelowPow2(y: nat, p: nat)
    requires IsPow2(p) && y < p
    ensures AllOnes(y) < p
  {
    if y > 0 {
      AllOnesBelowPow2(y / 2, p / 2);
    }
  }

  lemma {:induction false} SmearFacts(b: bv32)
    ensures Smear(b) >> 1 == Smear(b >> 1)
    ensures b != 0 ==> (Smear(b) & 1) == 1
    ensures Smear(b) == 0 <==> b == 0
    ensures b <= 0x7fff_ffff ==> Smear(b) <= 0x7fff_ffff
  {
  }

  lemma {:induction false} HalvesAgree(b: bv32)
    ensures Value(b >> 1) == Value(b) / 2
  {
    if b != 0 {
      HalfSmaller(b);
    }
  }

  lemma {:induction false} SmearIsAllOnes(b: bv32)
    ensures Value(Smear(b)) == AllOnes(Value(b))
    decreases b
  {
    SmearFacts(b);
    if b != 0 {
      HalfSmaller(b);
      SmearIsAllOnes(b >> 1);
      HalvesAgree(b);
      NonzeroValue(b);
    }
  }

  lemma {:induction false} NonzeroValue(b: bv32)
    requires b != 0
    ensures Value(b) > 0
    decreases b
  {
    HalfSmaller(b);
    if b >> 1 != 0 {
      NonzeroValue(b >> 1);
    } else {
      SingleBit(b);
    }
  }

  lemma {:induction false} SingleBit(b: bv32)
    requires b != 0 && b >> 1 == 0
    ensures (b & 1) == 1
  {
  }

  lemma {:induction false} EvenCarry(b: bv32, c: bv32)
    requires (b & 1) == 0 && c == b + 1
    ensures c >> 1 == b >> 1 && (c & 1) == 1
  {
  }

  lemma {:induction false} OddCarry(b: bv32, c: bv32)
    requires (b & 1) == 1 && c == b + 1
    ensures c >> 1 == (if b == 0xffff_ffff then 0 else (b >> 1) + 1) && (c & 1) == 0
  {
  }

  lemma {:induction false} NoWrap(b: bv32)
    ensures b >> 1 != 0xffff_ffff
    ensures b != 0xffff_ffff ==> b + 1 != 0
  {
  }

  lemma {:induction false} LowBit(b: bv32)
    ensures (b & 1) == 0 || (b & 1) == 1
  {
  }

  lemma {:induction false} Carry(b: bv32, c: bv32)
    requires b != 0xffff_ffff && c == b + 1
    ensures c != 0 && b >> 1 != 0xffff_ffff
    ensures (b & 1) == 0 || (b & 1) == 1
    ensures (b & 1) == 0 ==> c >> 1 == b >> 1 && (c & 1) == 1
    ensures (b & 1) == 1 ==> c >> 1 == (b >> 1) + 1 && (c & 1) == 0
  {
    LowBit(b);
    NoWrap(b);
    if (b & 1) == 0 {
      EvenCarry(b, c);
    } else {
      OddCarry(b, c);
    }
  }

  lemma {:induction false} ValueOf(b: bv32, half: bv32, low: bv32)
    requires b >> 1 == half && (b & 1) == low
    ensures Value(b) == 2 * Value(half) + if low == 1 then 1 else 0
  {
  }

  /** Adding one sets the low bit of an even word, and carries into the half of an odd one. */
  lemma {:induction false} Successor(b: bv32, c: bv32)
    requires b != 0xffff_ffff && c == b + 1
    ensures Value(c) == Value(b) + 1
    decreases Value(b)
  {
    Carry(b, c);
    ValueOf(b, b >> 1, b & 1);
    ValueOf(c, c >> 1, c & 1);
    if (b & 1) == 1 {
      Successor(b >> 1, c >> 1);
    }
  }

  /** On every argument up to 2^31 the word computation is exact. */
  lemma {:induction false} NextPow2Refines(x: bv32)
    requires x <= 0x8000_0000
    ensures Value(NextPow2Word(x)) == LeastPow2(Value(x))
  {
    SmallWords(1);
    if x == 0 {
      SmallWords(0);
    } else if x != 1 {
      PredecessorFacts(x);
      PredecessorRefines(x, x - 1);
    }
  }

  lemma {:induction false} PredecessorFacts(x: bv32)
    requires 1 < x <= 0x8000_0000
    ensures 0 < x - 1 <= 0x7fff_ffff && (x - 1) + 1 == x
  {
  }

  lemma {:induction false} PredecessorRefines(x: bv32, y: bv32)
    requires 0 < y <= 0x7fff_ffff && y + 1 == x
    ensures Value(Smear(y) + 1) == LeastPow2(Value(x))
  {
    SmearIsAllOnes(y);
    Successor(y, x);
    SmearSuccessor(y);
    NonzeroValue(y);
  }

  lemma {:induction false} SmearSuccessor(y: bv32)
    requires y <= 0x7fff_ffff
    ensures Value(Smear(y) + 1) == Value(Smear(y)) + 1
  {
    SmearFacts(y);
    Successor(Smear(y), Smear(y) + 1);
  }

  lemma {:induction false} SmallWords(x: bv32)
    requires x <= 1
    ensures Value(x) == if x == 0 then 0 else 1
  {
    if x != 0 {
      ValueOf(x, 0, 1);
    }
  }

  /** Above 2^31 it wraps to zero, which is why callers stay below. */
  lemma {:induction false} NextPow2Wraps(x: bv32)
    ensures NextPow2Word(x) == 0 <==> x > 0x8000_0000
  {
  }
}
