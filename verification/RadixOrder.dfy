/** What the radix passes do to the order of the rows: when a pass keeps equal bytes in input order
    however its threads interleave, and what a pass that does so adds to the order of the keys. */
module RadixOrder {
  import opened Arith
  import opened AtomicScatter
  import opened RadixPass
  import opened ScatterSchedules
  import opened TreeReduce

  // ---- Stability of one pass ----

  /** Rows of the same byte keep their input order. */
  ghost predicate OrderKept(bytes: seq<nat>, s: AtomicScatter.State)
    requires AllDone(s) && |s.pcs| == |bytes|
  {
    forall i, j :: 0 <= i < j < |bytes| && bytes[i] == bytes[j] ==> Dst(s, i) < Dst(s, j)
  }

  // ---- The kernel's threads ----

  /** Rows 256 apart in a block of 1024 belong to one thread. */
  predicate SameLane(i: nat, j: nat) {
    i / 1_024 == j / 1_024 && i % 256 == j % 256
  }

  /** Row j's thread has finished its earlier rows. */
  ghost predicate InTurn(c: AtomicScatter.Config, schedule: seq<nat>, j: nat)
    requires c.Valid()
  {
    j < |c.rows| ==> forall i :: 0 <= i < j && SameLane(i, j) ==> Exec(c, schedule).pcs[i].Done?
  }

  /** A schedule the kernel can have: every thread takes its rows in order, one after the other. */
  ghost predicate ProgramOrdered(c: AtomicScatter.Config, schedule: seq<nat>)
    requires c.Valid()
  {
    schedule == [] ||
    (ProgramOrdered(c, schedule[..|schedule| - 1]) &&
     InTurn(c, schedule[..|schedule| - 1], schedule[|schedule| - 1]))
  }

  // ---- Program order ----

  lemma {:induction false} OrderedAppend(c: AtomicScatter.Config, schedule: seq<nat>, i: nat)
    requires c.Valid() && ProgramOrdered(c, schedule) && InTurn(c, schedule, i)
    ensures ProgramOrdered(c, schedule + [i])
  {
    assert (schedule + [i])[..|schedule|] == schedule;
  }

  lemma {:induction false} TurnKept(c: AtomicScatter.Config, schedule: seq<nat>, rest: seq<nat>, j: nat)
    requires c.Valid() && InTurn(c, schedule, j)
    ensures InTurn(c, schedule + rest, j)
  {
    if j < |c.rows| {
      forall i | 0 <= i < j && SameLane(i, j) ensures Exec(c, schedule + rest).pcs[i].Done? {
        DstKept(c, schedule, rest, i);
      }
    }
  }

  lemma {:induction false} OrderedThrice(c: AtomicScatter.Config, schedule: seq<nat>, i: nat)
    requires c.Valid() && ProgramOrdered(c, schedule) && InTurn(c, schedule, i)
    ensures ProgramOrdered(c, schedule + [i, i, i])
  {
    OrderedAppend(c, schedule, i);
    TurnKept(c, schedule, [i], i);
    OrderedAppend(c, schedule + [i], i);
    assert (schedule + [i]) + [i] == schedule + [i, i];
    TurnKept(c, schedule, [i, i], i);
    OrderedAppend(c, schedule + [i, i], i);
    assert (schedule + [i, i]) + [i] == schedule + [i, i, i];
  }

  lemma {:induction false} OrderedRounds(c: AtomicScatter.Config, schedule: seq<nat>, n: nat)
    requires c.Valid() && n <= |c.rows| && ProgramOrdered(c, schedule)
    ensures ProgramOrdered(c, schedule + Rounds(n))
  {
    if n == 0 {
      assert schedule + Rounds(0) == schedule;
    } else {
      OrderedRounds(c, schedule, n - 1);
      RoundsFinish(c, schedule, n - 1);
      OrderedThrice(c, schedule + Rounds(n - 1), n - 1);
      assert schedule + Rounds(n) == (schedule + Rounds(n - 1)) + [n - 1, n - 1, n - 1];
    }
  }

  /** The rows below n of row j's thread, in order. */
  function LaneRounds(j: nat, n: nat): seq<nat> {
    if n == 0 then []
    else LaneRounds(j, n - 1) + if SameLane(n - 1, j) then [n - 1, n - 1, n - 1] else []
  }

  /** Row r is done exactly if it is one of the first n rows of j's thread, and has not moved otherwise. */
  ghost predicate LaneRan(s: AtomicScatter.State, j: nat, n: nat, r: nat)
    requires r < |s.pcs|
  {
    if r < n && SameLane(r, j) then s.pcs[r].Done? else s.pcs[r].Start?
  }

  ghost predicate OnlyLaneRan(s: AtomicScatter.State, j: nat, n: nat) {
    forall r :: 0 <= r < |s.pcs| ==> LaneRan(s, j, n, r)
  }

  lemma {:induction false} LaneAlone(c: AtomicScatter.Config, j: nat, n: nat)
    requires c.Valid() && n <= |c.rows|
    ensures ProgramOrdered(c, LaneRounds(j, n))
    ensures OnlyLaneRan(Exec(c, LaneRounds(j, n)), j, n)
  {
    if n > 0 {
      LaneAlone(c, j, n - 1);
      var before := LaneRounds(j, n - 1);
      if SameLane(n - 1, j) {
        LaneNext(c, j, n - 1, before);
        assert LaneRounds(j, n) == before + [n - 1, n - 1, n - 1];
      } else {
        assert LaneRounds(j, n) == before;
        forall r | 0 <= r < |c.rows| ensures LaneRan(Exec(c, before), j, n, r) {
          assert LaneRan(Exec(c, before), j, n - 1, r);
        }
      }
    }
  }

  lemma {:induction false} LaneNext(c: AtomicScatter.Config, j: nat, m: nat, before: seq<nat>)
    requires c.Valid() && m < |c.rows| && SameLane(m, j) && ProgramOrdered(c, before)
    requires OnlyLaneRan(Exec(c, before), j, m)
    ensures ProgramOrdered(c, before + [m, m, m])
    ensures OnlyLaneRan(Exec(c, before + [m, m, m]), j, m + 1)
  {
    forall i | 0 <= i < m && SameLane(i, m) ensures Exec(c, before).pcs[i].Done? {
      assert LaneRan(Exec(c, before), j, m, i);
    }
    OrderedThrice(c, before, m);
    var after, n := Exec(c, before + [m, m, m]), m + 1;
    forall r | 0 <= r < |c.rows| ensures LaneRan(after, j, n, r) {
      assert LaneRan(Exec(c, before), j, m, r);
      RowFinishes(c, before, m, r);
    }
  }

  // ---- Who draws first ----

  /** A row that draws later from the same counter gets a higher place. */
  lemma {:induction false} LaterDrawsHigher(c: AtomicScatter.Config, schedule: seq<nat>, rest: seq<nat>, i: nat, j: nat)
    requires c.Valid() && i < |c.rows| && j < |c.rows| && c.cls[i] == c.cls[j]
    requires !Exec(c, schedule).pcs[i].Start? && Exec(c, schedule).pcs[j].Start?
    requires !Exec(c, schedule + rest).pcs[j].Start?
    ensures Exec(c, schedule).pcs[i].dst < Exec(c, schedule + rest).pcs[j].dst
  {
    assert schedule + [] == schedule;
    var front, last := rest[..|rest| - 1], rest[|rest| - 1];
    var before := schedule + front;
    assert schedule + rest == before + [last];
    ExecAppend(c, before, last);
    if Exec(c, before).pcs[j].Start? {
      DstKept(c, schedule, front, i);
      RunInvariant(c, before);
      assert RowOk(c, Exec(c, before), i);
      DrawsNow(c, Exec(c, before), last, j);
    } else {
      LaterDrawsHigher(c, schedule, front, i, j);
      DstKept(c, before, [last], j);
    }
  }

  lemma {:induction false} DrawsNow(c: AtomicScatter.Config, s: AtomicScatter.State, last: nat, j: nat)
    requires c.Valid() && Shape(c, s) && j < |c.rows| && s.pcs[j].Start? && !Step(c, s, last).pcs[j].Start?
    ensures last == j && Step(c, s, last).pcs[j].dst == s.pos[c.cls[j]]
  {
  }

  /** Of two rows of one thread the earlier one draws first. */
  lemma {:induction false} LaneDrawsInOrder(c: AtomicScatter.Config, schedule: seq<nat>, i: nat, j: nat)
    requires c.Valid() && ProgramOrdered(c, schedule) && i < j < |c.rows| && SameLane(i, j) && c.cls[i] == c.cls[j]
    requires !Exec(c, schedule).pcs[j].Start?
    ensures !Exec(c, schedule).pcs[i].Start? && Exec(c, schedule).pcs[i].dst < Exec(c, schedule).pcs[j].dst
  {
    var front, last := schedule[..|schedule| - 1], schedule[|schedule| - 1];
    assert schedule == front + [last];
    if Exec(c, front).pcs[j].Start? {
      DrawsNow(c, Exec(c, front), last, j);
      assert InTurn(c, front, j) && Exec(c, front).pcs[i].Done?;
      LaterDrawsHigher(c, front, [last], i, j);
    } else {
      LaneDrawsInOrder(c, front, i, j);
      DstKept(c, front, [last], j);
    }
    DstKept(c, front, [last], i);
  }

  /** Of two rows of different threads either can draw first: one thread runs up to its row before any other
      thread moves. */
  function LaneFirst(c: AtomicScatter.Config, j: nat): seq<nat> {
    LaneRounds(j, j + 1) + Rounds(|c.rows|)
  }

  lemma {:induction false} OtherLaneFirst(c: AtomicScatter.Config, i: nat, j: nat)
    requires c.Valid() && i < |c.rows| && j < |c.rows| && c.cls[i] == c.cls[j] && !SameLane(i, j)
    ensures ProgramOrdered(c, LaneFirst(c, j)) && AllDone(Exec(c, LaneFirst(c, j)))
    ensures Dst(Exec(c, LaneFirst(c, j)), j) < Dst(Exec(c, LaneFirst(c, j)), i)
  {
    var before, rest := LaneRounds(j, j + 1), Rounds(|c.rows|);
    LaneAlone(c, j, j + 1);
    OrderedRounds(c, before, |c.rows|);
    RoundsFinish(c, before, |c.rows|);
    assert LaneRan(Exec(c, before), j, j + 1, i) && LaneRan(Exec(c, before), j, j + 1, j);
    LaterDrawsHigher(c, before, rest, j, i);
    DstKept(c, before, rest, j);
  }

  // ---- When a pass is stable ----

  /** Two rows of a block with the same byte belong to different threads. */
  ghost predicate TwoLanes(bytes: seq<nat>) {
    exists i, j :: 0 <= i < j < |bytes| && OnTwoLanes(bytes, i, j)
  }

  predicate OnTwoLanes(bytes: seq<nat>, i: nat, j: nat)
    requires i < |bytes| && j < |bytes|
  {
    bytes[i] == bytes[j] && i / 1_024 == j / 1_024 && i % 256 != j % 256
  }

  /** However the threads interleave, a pass keeps equal bytes in order exactly when in no block the same byte
      occurs on two threads. */
  lemma {:induction false} StableIff(c: AtomicScatter.Config, bytes: seq<nat>)
    requires c.Valid() && c.cls == Classes(bytes)
    ensures (forall schedule: seq<nat> :: ProgramOrdered(c, schedule) && AllDone(Exec(c, schedule)) ==>
               OrderKept(bytes, Exec(c, schedule))) <==>
            !TwoLanes(bytes)
  {
    if TwoLanes(bytes) {
      var i, j :| 0 <= i < j < |bytes| && OnTwoLanes(bytes, i, j);
      OtherLaneFirst(c, i, j);
      assert !OrderKept(bytes, Exec(c, LaneFirst(c, j)));
    } else {
      forall schedule: seq<nat> | ProgramOrdered(c, schedule) && AllDone(Exec(c, schedule))
        ensures OrderKept(bytes, Exec(c, schedule))
      {
        OneLaneKeepsOrder(c, bytes, schedule);
      }
    }
  }

  lemma {:induction false} OneLaneKeepsOrder(c: AtomicScatter.Config, bytes: seq<nat>, schedule: seq<nat>)
    requires c.Valid() && c.cls == Classes(bytes) && !TwoLanes(bytes)
    requires ProgramOrdered(c, schedule) && AllDone(Exec(c, schedule))
    ensures OrderKept(bytes, Exec(c, schedule))
  {
    var s := Exec(c, schedule);
    forall i, j | 0 <= i < j < |bytes| && bytes[i] == bytes[j] ensures Dst(s, i) < Dst(s, j) {
      if i / WORK == j / WORK {
        assert !OnTwoLanes(bytes, i, j);
        LaneDrawsInOrder(c, schedule, i, j);
      } else {
        OtherBlock(bytes, i, j);
        ByteOrderKept(c, bytes, schedule, i, j);
      }
    }
  }

  lemma {:induction false} OtherBlock(bytes: seq<nat>, i: nat, j: nat)
    requires i < |bytes| && j < |bytes| && i / WORK != j / WORK
    ensures Classes(bytes)[i] != Classes(bytes)[j]
  {
    ClassOrder(bytes, i, j);
    ClassOrder(bytes, j, i);
  }

  // ---- Bytes that occur too often ----

  /** A thread has at most four rows of a block, fewer if the block is short. */
  lemma {:induction false} LaneOccurs(s: seq<nat>, b: nat, lane: nat)
    requires lane < LANES && forall x :: 0 <= x < |s| && s[x] == b ==> x % LANES == lane
    ensures Occurs(s, b) <= (|s| + LANES - 1 - lane) / LANES
  {
    if s != [] {
      var n := |s| - 1;
      LaneOccurs(s[..n], b, lane);
    }
  }

  /** In a block a byte that occurs more than four times occurs on two threads, so some interleaving of them
      breaks the order. */
  lemma {:induction false} BusyByteUnstable(c: AtomicScatter.Config, bytes: seq<nat>, bid: nat, b: nat)
    requires c.Valid() && c.cls == Classes(bytes) && Occurs(BlockRows(bytes, bid, |bytes|), b) > 4
    ensures TwoLanes(bytes)
    ensures exists schedule: seq<nat> ::
              ProgramOrdered(c, schedule) && AllDone(Exec(c, schedule)) && !OrderKept(bytes, Exec(c, schedule))
  {
    if !TwoLanes(bytes) {
      OneLaneOccurs(bytes, bid, b);
    }
    StableIff(c, bytes);
  }

  lemma {:induction false} OneLaneOccurs(bytes: seq<nat>, bid: nat, b: nat)
    requires !TwoLanes(bytes)
    ensures Occurs(BlockRows(bytes, bid, |bytes|), b) <= WORK / LANES
  {
    var block := BlockRows(bytes, bid, |bytes|);
    if x :| 0 <= x < |block| && block[x] == b {
      forall y | 0 <= y < |block| && block[y] == b ensures y % LANES == x % LANES {
        SameBlockRows(bytes, bid, x, y);
      }
      LaneOccurs(block, b, x % LANES);
    } else {
      LaneOccurs(block, b, 0);
    }
  }

  lemma {:induction false} SameBlockRows(bytes: seq<nat>, bid: nat, x: nat, y: nat)
    requires !TwoLanes(bytes)
    requires var block := BlockRows(bytes, bid, |bytes|); x < |block| && y < |block| && block[x] == block[y]
    ensures y % LANES == x % LANES
  {
    var i := PlaceInBlock(bytes, bid, x);
    var j := PlaceInBlock(bytes, bid, y);
    if i < j {
      assert !OnTwoLanes(bytes, i, j);
    } else if j < i {
      assert !OnTwoLanes(bytes, j, i);
    }
  }

  lemma {:induction false} PlaceInBlock(bytes: seq<nat>, bid: nat, x: nat) returns (i: nat)
    requires x < |BlockRows(bytes, bid, |bytes|)|
    ensures i < |bytes| && bytes[i] == BlockRows(bytes, bid, |bytes|)[x]
    ensures i / WORK == bid && i % LANES == x % LANES
  {
    i := bid * WORK + x;
    assert x < WORK;
    LaneInBlock(bid, x);
  }

  lemma {:induction false} LaneInBlock(bid: nat, x: nat)
    requires x < WORK
    ensures (bid * WORK + x) / WORK == bid && (bid * WORK + x) % LANES == x % LANES
  {
    QuotientUnique(bid * WORK + x, WORK, bid, x);
    QuotientUnique(bid * WORK + x, LANES, 4 * bid + x / LANES, x % LANES);
  }

  // ---- One row after the other ----

  /** Rows that act one after the other: every class is filled in input order. */
  lemma {:induction false} InOrderKeepsOrder(c: AtomicScatter.Config, bytes: seq<nat>)
    requires c.Valid() && c.cls == Classes(bytes)
    ensures ProgramOrdered(c, Rounds(|c.rows|))
    ensures AllDone(Exec(c, Rounds(|c.rows|))) && OrderKept(bytes, Exec(c, Rounds(|c.rows|)))
  {
    var n := |c.rows|;
    assert [] + Rounds(n) == Rounds(n);
    RoundsFinish(c, [], n);
    OrderedRounds(c, [], n);
    var s := Exec(c, Rounds(n));
    forall i, j | 0 <= i < j < |bytes| && bytes[i] == bytes[j] ensures Dst(s, i) < Dst(s, j) {
      if c.cls[i] == c.cls[j] {
        EarlierDrawsLower(c, i, j);
      } else {
        ByteOrderKept(c, bytes, Rounds(n), i, j);
      }
    }
  }

  /** Different blocks: the earlier block's rows of a byte come first under every schedule. */
  lemma {:induction false} ByteOrderKept(c: AtomicScatter.Config, bytes: seq<nat>, schedule: seq<nat>, i: nat, j: nat)
    requires c.Valid() && c.cls == Classes(bytes) && AllDone(Exec(c, schedule))
    requires i < j < |bytes| && bytes[i] == bytes[j] && c.cls[i] != c.cls[j]
    ensures Dst(Exec(c, schedule), i) < Dst(Exec(c, schedule), j)
  {
    var s := Exec(c, schedule);
    RunInvariant(c, schedule);
    assert RowOk(c, s, i) && RowOk(c, s, j);
    ClassOrder(bytes, i, j);
    ClassOrder(bytes, j, i);
    if Dst(s, j) < Dst(s, i) {
      DstFollowsClass(c, schedule, j, i);
    }
  }

  lemma {:induction false} EarlierDrawsLower(c: AtomicScatter.Config, i: nat, j: nat)
    requires c.Valid() && i < j < |c.rows| && c.cls[i] == c.cls[j]
    requires AllDone(Exec(c, Rounds(|c.rows|)))
    ensures Dst(Exec(c, Rounds(|c.rows|)), i) < Dst(Exec(c, Rounds(|c.rows|)), j)
  {
    var before := Rounds(j);
    assert [] + before == before;
    RoundsFinish(c, [], j);
    RunInvariant(c, before);
    NotYetStarted(c, j, j);
    var s := Exec(c, before);
    assert RowOk(c, s, i);
    ExecAppend(c, before, j);
    var rest := RoundsRest(j, |c.rows|);
    DstKept(c, before + [j], rest, i);
    DstKept(c, before + [j], rest, j);
  }

  lemma {:induction false} NotYetStarted(c: AtomicScatter.Config, n: nat, i: nat)
    requires c.Valid() && n <= i < |c.rows|
    ensures Exec(c, Rounds(n)).pcs[i].Start?
  {
    if n > 0 {
      NotYetStarted(c, n - 1, i);
      RowFinishes(c, Rounds(n - 1), n - 1, i);
    }
  }

  lemma {:induction false} RoundsRest(j: nat, n: nat) returns (rest: seq<nat>)
    requires j < n
    ensures Rounds(n) == Rounds(j) + [j] + rest
  {
    if j == n - 1 {
      rest := [j, j];
    } else {
      var front := RoundsRest(j, n - 1);
      rest := front + [n - 1, n - 1, n - 1];
    }
  }

  // ---- Whole runs ----

  /** (key >> (8 * p)) & 0xFF */
  function ByteOf(key: nat, p: nat): nat {
    if p == 0 then key % 256 else ByteOf(key / 256, p - 1)
  }

  /** The low p bytes. */
  function Low(key: nat, p: nat): nat {
    if p == 0 then 0 else key % 256 + 256 * Low(key / 256, p - 1)
  }

  function Pow256(p: nat): (r: nat)
    ensures r > 0
  {
    if p == 0 then 1 else 256 * Pow256(p - 1)
  }

  lemma {:induction false} LowIsAll(key: nat, p: nat)
    requires key < Pow256(p)
    ensures Low(key, p) == key
  {
    if p > 0 {
      LowIsAll(key / 256, p - 1);
    }
  }

  const SIGN: int := 0x8000_0000_0000_0000

  predicate IsInt64(k: int) { -SIGN <= k < SIGN }

  /** RadixFlipKernel: flipping the sign bit, read as an unsigned word. */
  function Flip(k: int): nat
    requires IsInt64(k)
  {
    k + SIGN
  }

  lemma {:induction false} FlipKeepsOrder(a: int, b: int)
    requires IsInt64(a) && IsInt64(b)
    ensures a < b <==> Flip(a) < Flip(b)
    ensures Flip(a) < Pow256(8)
  {
    assert Pow256(8) == 0x1_0000_0000_0000_0000 by {
      assert Pow256(2) == 65536;
      assert Pow256(4) == 65536 * 65536;
      assert Pow256(6) == 65536 * 65536 * 65536;
    }
  }

  /** Ordered by the low p bytes. */
  ghost predicate SortedLow(keys: seq<nat>, p: nat) {
    forall i, j :: 0 <= i < j < |keys| ==> Low(keys[i], p) <= Low(keys[j], p)
  }

  /** One stable pass over byte p: place j received row src[j]. */
  ghost predicate StableStage(before: seq<nat>, after: seq<nat>, p: nat, src: seq<nat>) {
    && |src| == |after| == |before|
    && (forall j :: 0 <= j < |src| ==> src[j] < |before| && after[j] == before[src[j]])
    && (forall i, j :: 0 <= i < j < |src| ==>
          ByteOf(before[src[i]], p) < ByteOf(before[src[j]], p) ||
          (ByteOf(before[src[i]], p) == ByteOf(before[src[j]], p) && src[i] < src[j]))
  }

  /** The next byte decides, the lower bytes break ties. */
  lemma {:induction false} CompareBytes(a: nat, b: nat, p: nat)
    ensures ByteOf(a, p) < ByteOf(b, p) ==> Low(a, p + 1) < Low(b, p + 1)
    ensures ByteOf(a, p) == ByteOf(b, p) ==> Low(a, p + 1) - Low(b, p + 1) == Low(a, p) - Low(b, p)
  {
    if p > 0 {
      CompareBytes(a / 256, b / 256, p - 1);
    } else {
      assert Low(a, 1) == a % 256 + 256 * Low(a / 256, 0);
      assert Low(b, 1) == b % 256 + 256 * Low(b / 256, 0);
    }
  }

  lemma {:induction false} StageSorts(before: seq<nat>, after: seq<nat>, p: nat, src: seq<nat>)
    requires SortedLow(before, p) && StableStage(before, after, p, src)
    ensures SortedLow(after, p + 1)
  {
    forall i, j | 0 <= i < j < |after| ensures Low(after[i], p + 1) <= Low(after[j], p + 1) {
      assert src[i] < |before| && src[j] < |before|;
      CompareBytes(after[i], after[j], p);
    }
  }

  ghost predicate ByteConstant(keys: seq<nat>, p: nat) {
    forall i, j :: 0 <= i < |keys| && 0 <= j < |keys| ==> ByteOf(keys[i], p) == ByteOf(keys[j], p)
  }

  lemma {:induction false} SkipSorts(keys: seq<nat>, p: nat)
    requires SortedLow(keys, p) && ByteConstant(keys, p)
    ensures SortedLow(keys, p + 1)
  {
    forall i, j | 0 <= i < j < |keys| ensures Low(keys[i], p + 1) <= Low(keys[j], p + 1) {
      CompareBytes(keys[i], keys[j], p);
    }
  }

  /** ActiveRadixBytes: byte p is sorted on when the smallest and largest key differ in it; byte 0
      when they differ in none. */
  function ActiveRadixBytes(mn: nat, mx: nat): (active: seq<bool>)
    ensures |active| == 8
  {
    var differ := seq(8, p requires 0 <= p < 8 => ByteOf(mn, p) != ByteOf(mx, p));
    if true in differ then differ else differ[0 := true]
  }

  // ---- Keys that vary in one byte only ----

  /** When the keys differ in byte p alone, the single pass over it sorts them under every schedule,
      stable or not. */
  lemma {:induction false} SingleByteSorts(keys: seq<nat>, p: nat, i: nat, j: nat)
    requires i < |keys| && j < |keys| && p < 8
    requires forall k :: 0 <= k < |keys| ==> keys[k] < Pow256(8)
    requires forall q :: 0 <= q < 8 && q != p ==> ByteConstant(keys, q)
    ensures ByteOf(keys[i], p) <= ByteOf(keys[j], p) <==> keys[i] <= keys[j]
  {
    SingleByteLow(keys, p, i, j, 8);
    SingleByteLow(keys, p, j, i, 8);
    LowIsAll(keys[i], 8);
    LowIsAll(keys[j], 8);
  }

  lemma {:induction false} SingleByteLow(keys: seq<nat>, p: nat, i: nat, j: nat, n: nat)
    requires i < |keys| && j < |keys| && n <= 8
    requires forall q :: 0 <= q < n && q != p ==> ByteConstant(keys, q)
    ensures p >= n || ByteOf(keys[i], p) == ByteOf(keys[j], p) ==> Low(keys[i], n) == Low(keys[j], n)
    ensures p < n && ByteOf(keys[i], p) < ByteOf(keys[j], p) ==> Low(keys[i], n) < Low(keys[j], n)
  {
    if n > 0 {
      SingleByteLow(keys, p, i, j, n - 1);
      CompareBytes(keys[i], keys[j], n - 1);
      if n - 1 != p {
        assert ByteConstant(keys, n - 1);
        assert ByteOf(keys[i], n - 1) == ByteOf(keys[j], n - 1);
      }
    }
  }
}
