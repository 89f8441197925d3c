/** Which bytes the radix sort looks at. The choice is made from the smallest and the largest key alone;
    it is enough for every key list between them exactly when it leaves no gap below the topmost byte. */
module RadixBytes {
  import opened RadixOrder

  // ---- Keys as quotients ----

  /** The key without its low p bytes. */
  function Drop(key: nat, p: nat): nat {
    if p == 0 then key else Drop(key / 256, p - 1)
  }

  lemma {:induction false} DropOrder(a: nat, b: nat, p: nat)
    requires a <= b
    ensures Drop(a, p) <= Drop(b, p)
  {
    if p > 0 {
      DropOrder(a / 256, b / 256, p - 1);
    }
  }

  /** Bytes from p on are bytes of the quotient. */
  lemma {:induction false} ByteOfDrop(key: nat, p: nat, q: nat)
    requires p <= q
    ensures ByteOf(key, q) == ByteOf(Drop(key, p), q - p)
  {
    if p > 0 {
      ByteOfDrop(key / 256, p - 1, q - 1);
    }
  }

  lemma {:induction false} DropSmall(key: nat, p: nat, n: nat)
    requires p <= n && key < Pow256(n)
    ensures Drop(key, p) < Pow256(n - p)
  {
    if p > 0 {
      DropSmall(key / 256, p - 1, n - 1);
    }
  }

  /** Words with the same bytes are the same number. */
  lemma {:induction false} SameBytesSame(a: nat, b: nat, n: nat)
    requires a < Pow256(n) && b < Pow256(n)
    requires forall q :: 0 <= q < n ==> ByteOf(a, q) == ByteOf(b, q)
    ensures a == b
  {
    if n > 0 {
      forall q | 0 <= q < n - 1 ensures ByteOf(a / 256, q) == ByteOf(b / 256, q) {
        assert ByteOf(a, q + 1) == ByteOf(b, q + 1);
      }
      SameBytesSame(a / 256, b / 256, n - 1);
      assert ByteOf(a, 0) == ByteOf(b, 0);
    }
  }

  // ---- Enough when there is no gap ----

  predicate Differs(mn: nat, mx: nat, p: nat) {
    ByteOf(mn, p) != ByteOf(mx, p)
  }

  /** Every byte below one in which the extremes differ is one in which they differ. */
  ghost predicate Gapless(mn: nat, mx: nat) {
    forall p, q :: 0 <= p < q < 8 && Differs(mn, mx, q) ==> Differs(mn, mx, p)
  }

  /** How the extremes are found: as unsigned words, or as signed ones, in which the upper half comes first. */
  function Rank(signed: bool, w: nat): int {
    if signed && w >= SIGN then w - 2 * SIGN else w
  }

  /** A key list of 64-bit words whose smallest and largest, in that order, are mn and mx. */
  ghost predicate HasExtremes(keys: seq<nat>, mn: nat, mx: nat, signed: bool) {
    && mn in keys && mx in keys
    && (forall k :: k in keys ==> k < Pow256(8) && Rank(signed, mn) <= Rank(signed, k) <= Rank(signed, mx))
  }

  /** The top byte tells the halves apart. */
  lemma {:induction false} TopByte(w: nat)
    requires w < Pow256(8)
    ensures ByteOf(w, 7) >= 128 <==> w >= SIGN
  {
    ByteOfDrop(w, 7, 7);
    DropSmall(w, 7, 8);
    DropOfSign();
    if w >= SIGN {
      DropOrder(SIGN, w, 7);
    } else {
      DropOrder(w, SIGN - 1, 7);
    }
  }

  lemma {:induction false} DropOfSign()
    ensures Drop(SIGN, 7) == 128 && Drop(SIGN - 1, 7) == 127
  {
    assert Drop(SIGN, 7) == Drop(0x80_0000_0000_0000, 6) == Drop(0x8000_0000_0000, 5) == Drop(0x80_0000_0000, 4);
    assert Drop(0x80_0000_0000, 4) == Drop(0x8000_0000, 3) == Drop(0x80_0000, 2) == Drop(0x8000, 1) == Drop(0x80, 0);
    assert Drop(SIGN - 1, 7) == Drop(0x7F_FFFF_FFFF_FFFF, 6) == Drop(0x7FFF_FFFF_FFFF, 5) == Drop(0x7F_FFFF_FFFF, 4);
    assert Drop(0x7F_FFFF_FFFF, 4) == Drop(0x7FFF_FFFF, 3) == Drop(0x7F_FFFF, 2) == Drop(0x7FFF, 1) == Drop(0x7F, 0);
  }

  /** Extremes that agree in the top byte lie in one half, where both orders are the same. */
  lemma {:induction false} OneHalf(mn: nat, k: nat, mx: nat, signed: bool)
    requires mn < Pow256(8) && k < Pow256(8) && mx < Pow256(8) && !Differs(mn, mx, 7)
    requires Rank(signed, mn) <= Rank(signed, k) <= Rank(signed, mx)
    ensures mn <= k <= mx
  {
    TopByte(mn);
    TopByte(mx);
    assert Pow256(8) == 2 * SIGN by {
      WordSize();
    }
  }

  lemma {:induction false} WordSize()
    ensures Pow256(8) == 2 * SIGN
  {
    assert Pow256(2) == 65536;
    assert Pow256(4) == 65536 * 65536;
    assert Pow256(6) == 65536 * 65536 * 65536;
  }

  /** Where the extremes agree from byte p on, every key between them agrees with them. */
  lemma {:induction false} AgreeAbove(mn: nat, k: nat, mx: nat, p: nat)
    requires mn <= k <= mx < Pow256(8) && p <= 8 && forall q :: p <= q < 8 ==> !Differs(mn, mx, q)
    ensures forall q :: p <= q < 8 ==> ByteOf(k, q) == ByteOf(mn, q)
  {
    forall q | 0 <= q < 8 - p ensures ByteOf(Drop(mn, p), q) == ByteOf(Drop(mx, p), q) {
      ByteOfDrop(mn, p, p + q);
      ByteOfDrop(mx, p, p + q);
      assert !Differs(mn, mx, p + q);
    }
    DropSmall(mn, p, 8);
    DropSmall(mx, p, 8);
    SameBytesSame(Drop(mn, p), Drop(mx, p), 8 - p);
    DropOrder(mn, k, p);
    DropOrder(k, mx, p);
    forall q | p <= q < 8 ensures ByteOf(k, q) == ByteOf(mn, q) {
      ByteOfDrop(mn, p, q);
      ByteOfDrop(k, p, q);
    }
  }

  /** Without a gap the extremes agree in a byte only where they agree from there on. */
  lemma {:induction false} GaplessAbove(mn: nat, mx: nat, p: nat)
    requires Gapless(mn, mx) && p < 8 && !Differs(mn, mx, p)
    ensures forall q :: p <= q < 8 ==> !Differs(mn, mx, q)
  {
  }

  /** So every byte that is skipped is constant. */
  lemma {:induction false} GaplessSkipsConstants(keys: seq<nat>, mn: nat, mx: nat, signed: bool, p: nat)
    requires HasExtremes(keys, mn, mx, signed) && Gapless(mn, mx) && p < 8 && !ActiveRadixBytes(mn, mx)[p]
    ensures ByteConstant(keys, p)
  {
    SkippedAgrees(mn, mx, p);
    GaplessAbove(mn, mx, p);
    forall i | 0 <= i < |keys| ensures ByteOf(keys[i], p) == ByteOf(mn, p) {
      assert keys[i] in keys;
      OneHalf(mn, keys[i], mx, signed);
      AgreeAbove(mn, keys[i], mx, p);
    }
  }

  lemma {:induction false} SkippedAgrees(mn: nat, mx: nat, p: nat)
    requires p < 8 && !ActiveRadixBytes(mn, mx)[p]
    ensures !Differs(mn, mx, p)
  {
  }

  // ---- Not enough when there is one ----

  /** Raising byte p by one leaves every other byte. */
  lemma {:induction false} RaiseByte(a: nat, p: nat, r: nat)
    requires ByteOf(a, p) < 255 && r != p
    ensures ByteOf(a + Pow256(p), r) == ByteOf(a, r)
  {
    if p > 0 {
      HigherDigit(a, Pow256(p - 1));
      if r > 0 {
        RaiseByte(a / 256, p - 1, r - 1);
      }
    } else {
      assert (a + 1) / 256 == a / 256;
    }
  }

  lemma {:induction false} HigherDigit(a: nat, x: nat)
    ensures (a + 256 * x) / 256 == a / 256 + x && (a + 256 * x) % 256 == a % 256
  {
  }

  /** A byte raised below a byte in which b is ahead stays below b. */
  lemma {:induction false} RaisedBelow(a: nat, b: nat, p: nat)
    requires ByteOf(a, p) < 255 && Drop(a, p + 1) < Drop(b, p + 1)
    ensures a + Pow256(p) < b
  {
    if p > 0 {
      RaisedBelow(a / 256, b / 256, p - 1);
      HigherDigit(a, Pow256(p - 1));
    } else {
      assert Drop(a, 1) == a / 256 && Drop(b, 1) == b / 256;
    }
  }

  lemma {:induction false} LowerByte(b: nat, p: nat)
    requires ByteOf(b, p) > 0
    ensures b >= Pow256(p) && ByteOf(b - Pow256(p), p) < 255 && Drop(b - Pow256(p), p + 1) == Drop(b, p + 1)
  {
    if p > 0 {
      LowerByte(b / 256, p - 1);
      HigherDigit(b - Pow256(p), Pow256(p - 1));
    } else {
      assert Drop(b, 1) == b / 256 && Drop(b - 1, 1) == (b - 1) / 256;
    }
  }

  /** u is the larger of two keys that agree in every chosen byte. */
  ghost predicate Confused(u: nat, v: nat, active: seq<bool>) {
    u > v && forall r :: 0 <= r < |active| && active[r] ==> ByteOf(u, r) == ByteOf(v, r)
  }

  /** Across a gap there are two such keys: one of the extremes, and the extreme moved by one in the byte
      of the gap. Together with the other extreme they are a key list with these extremes. */
  lemma {:induction false} ConfusedPair(mn: nat, mx: nat, signed: bool, p: nat, q: nat) returns (u: nat, v: nat, w: nat)
    requires mn < Pow256(8) && mx < Pow256(8) && Rank(signed, mn) <= Rank(signed, mx)
    requires p < q < 8 && Differs(mn, mx, q) && !Differs(mn, mx, p)
    ensures Confused(u, v, ActiveRadixBytes(mn, mx)) && HasExtremes([u, v, u, w], mn, mx, signed)
  {
    ActiveDiffer(mn, mx, q);
    WordSize();
    if ByteOf(mn, p) < 255 {
      u, v, w := mn + Pow256(p), mn, mx;
      RaisedFits(mn, p, 8);
      forall r | 0 <= r < 8 && r != p ensures ByteOf(u, r) == ByteOf(v, r) {
        RaiseByte(mn, p, r);
      }
      if mn <= mx {
        HigherByteAhead(mn, mx, p, q);
        RaisedBelow(mn, mx, p);
      }
      RaisedHalf(mn, mx, signed, p);
    } else {
      LowerByte(mx, p);
      u, v, w := mx, mx - Pow256(p), mn;
      forall r | 0 <= r < 8 && r != p ensures ByteOf(u, r) == ByteOf(v, r) {
        RaiseByte(v, p, r);
      }
      if mn <= mx {
        HigherByteAhead(mn, mx, p, q);
        LoweredAbove(mn, mx, p);
      }
      LoweredHalf(mn, mx, signed, p);
    }
  }

  lemma {:induction false} RaisedFits(a: nat, p: nat, n: nat)
    requires a < Pow256(n) && p < n && ByteOf(a, p) < 255
    ensures a + Pow256(p) < Pow256(n)
  {
    if p > 0 {
      HigherDigit(a, Pow256(p - 1));
      RaisedFits(a / 256, p - 1, n - 1);
    }
  }

  /** The moved key stays between the extremes in either order. */
  lemma {:induction false} RaisedHalf(mn: nat, mx: nat, signed: bool, p: nat)
    requires mn < Pow256(8) && mx < Pow256(8) && Rank(signed, mn) <= Rank(signed, mx) && p < 7
    requires mn + Pow256(p) < Pow256(8) && (mn <= mx ==> mn + Pow256(p) < mx)
    ensures Rank(signed, mn) <= Rank(signed, mn + Pow256(p)) <= Rank(signed, mx)
  {
    WordSize();
  }

  lemma {:induction false} LoweredHalf(mn: nat, mx: nat, signed: bool, p: nat)
    requires mn < Pow256(8) && mx < Pow256(8) && Rank(signed, mn) <= Rank(signed, mx) && p < 7
    requires mx >= Pow256(p) && (mn <= mx ==> mn < mx - Pow256(p))
    ensures Rank(signed, mn) <= Rank(signed, mx - Pow256(p)) <= Rank(signed, mx)
  {
    WordSize();
  }

  /** If the extremes differ at all, the chosen bytes are those in which they differ. */
  lemma {:induction false} ActiveDiffer(mn: nat, mx: nat, q: nat)
    requires q < 8 && Differs(mn, mx, q)
    ensures forall r :: 0 <= r < 8 ==> (ActiveRadixBytes(mn, mx)[r] <==> Differs(mn, mx, r))
  {
    var differ := seq(8, p requires 0 <= p < 8 => ByteOf(mn, p) != ByteOf(mx, p));
    assert differ[q];
  }

  lemma {:induction false} HigherByteAhead(mn: nat, mx: nat, p: nat, q: nat)
    requires mn <= mx && p < q && Differs(mn, mx, q)
    ensures Drop(mn, p + 1) < Drop(mx, p + 1)
  {
    DropOrder(mn, mx, p + 1);
    ByteOfDrop(mn, p + 1, q);
    ByteOfDrop(mx, p + 1, q);
  }

  lemma {:induction false} LoweredAbove(mn: nat, mx: nat, p: nat)
    requires ByteOf(mx, p) > 0 && Drop(mn, p + 1) < Drop(mx, p + 1)
    ensures mx >= Pow256(p) && mn < mx - Pow256(p)
  {
    LowerByte(mx, p);
    DropReflects(mx - Pow256(p), mn, p + 1);
  }

  lemma {:induction false} DropReflects(a: nat, b: nat, p: nat)
    requires Drop(b, p) < Drop(a, p)
    ensures b < a
  {
    if a <= b {
      DropOrder(a, b, p);
    }
  }

  /** The smallest such pair: 0 and 65536 differ in byte 2 alone, and 256 lies between them. */
  lemma {:induction false} SmallestGap()
    ensures !Gapless(0, 65536)
  {
    assert ByteOf(65536, 2) == ByteOf(256, 1) == ByteOf(1, 0) == 1;
    assert ByteOf(0, 2) == ByteOf(0, 1) == ByteOf(0, 0) == 0;
    assert ByteOf(65536, 1) == ByteOf(256, 0) == 0;
    assert Differs(0, 65536, 2) && !Differs(0, 65536, 1);
  }
}
