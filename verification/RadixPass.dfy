/** One radix pass: histogram, scan table, atomic scatter. Rows come out ordered by the pass's
    byte and, within a byte, by source block; inside a block the order is the scheduler's. */
module RadixPass {
  import opened Arith
  import opened AtomicScatter
  import opened GroupBy
  import opened RadixScan
  import opened Sums

  const WORK: nat := 1024
  const PER_THREAD: nat := 4

  function Blocks(n: nat): nat { (n + WORK - 1) / WORK }

  /** The pass's byte of every row. */
  ghost predicate AreBytes(bytes: seq<nat>) {
    forall i :: 0 <= i < |bytes| ==> bytes[i] < BUCKETS
  }

  /** Block bid's rows among the first m. */
  function BlockRows(bytes: seq<nat>, bid: nat, m: nat): seq<nat>
    requires m <= |bytes|
  {
    bytes[Min(m, bid * WORK)..Min(m, bid * WORK + WORK)]
  }

  // The histogram kernel.

  lemma {:induction false} OccursAppend(s: seq<nat>, x: nat, b: nat)
    ensures Occurs(s + [x], b) == Occurs(s, b) + if x == b then 1 else 0
  {
    assert (s + [x])[..|s|] == s;
  }

  /** One thread's share: up to four consecutive rows, stopping at the end of the input. */
  method CountThread(bytes: seq<nat>, first: nat, local: array<nat>, ghost lo: nat)
    requires AreBytes(bytes) && local.Length == BUCKETS && lo <= first
    requires forall b :: 0 <= b < BUCKETS ==> local[b] == Occurs(bytes[Min(|bytes|, lo)..Min(|bytes|, first)], b)
    modifies local
    ensures forall b :: 0 <= b < BUCKETS ==>
              local[b] == Occurs(bytes[Min(|bytes|, lo)..Min(|bytes|, first + PER_THREAD)], b)
  {
    var j := 0;
    while j < PER_THREAD
      invariant 0 <= j <= PER_THREAD
      invariant forall b :: 0 <= b < BUCKETS ==>
                  local[b] == Occurs(bytes[Min(|bytes|, lo)..Min(|bytes|, first + j)], b)
    {
      var idx := first + j;
      if idx >= |bytes| {
        break;
      }
      ghost var before := bytes[lo..idx];
      assert bytes[lo..idx + 1] == before + [bytes[idx]];
      forall b: nat ensures Occurs(before + [bytes[idx]], b) == Occurs(before, b) + if bytes[idx] == b then 1 else 0 {
        OccursAppend(before, bytes[idx], b);
      }
      local[bytes[idx]] := local[bytes[idx]] + 1;
      j := j + 1;
    }
  }

  ghost predicate IsHistogram(bytes: seq<nat>, hist: seq<nat>, blocks: nat) {
    && |hist| == Blocks(|bytes|) * BUCKETS && blocks <= Blocks(|bytes|)
    && forall i :: 0 <= i < blocks * BUCKETS ==>
         hist[i] == Occurs(BlockRows(bytes, i / BUCKETS, |bytes|), i % BUCKETS)
  }

  /** One threadgroup's local histogram. Its increments commute, so one order stands for all. */
  method CountBlock(bytes: seq<nat>, bid: nat) returns (local: array<nat>)
    requires AreBytes(bytes) && bid < Blocks(|bytes|)
    ensures fresh(local) && local.Length == BUCKETS
    ensures forall b :: 0 <= b < BUCKETS ==> local[b] == Occurs(BlockRows(bytes, bid, |bytes|), b)
  {
    local := new nat[BUCKETS](_ => 0);
    var base := bid * WORK;
    for tid := 0 to BUCKETS
      invariant forall b :: 0 <= b < BUCKETS ==>
                  local[b] == Occurs(bytes[Min(|bytes|, base)..Min(|bytes|, base + tid * PER_THREAD)], b)
    {
      CountThread(bytes, base + tid * PER_THREAD, local, base);
    }
    assert BlockRows(bytes, bid, |bytes|) == bytes[Min(|bytes|, base)..Min(|bytes|, base + BUCKETS * PER_THREAD)];
  }

  /** RadixHistogramKernel. */
  method RadixHistogram(bytes: seq<nat>) returns (hist: array<nat>)
    requires AreBytes(bytes)
    ensures fresh(hist) && IsHistogram(bytes, hist[..], Blocks(|bytes|))
  {
    hist := new nat[Blocks(|bytes|) * BUCKETS];
    for bid := 0 to Blocks(|bytes|)
      invariant IsHistogram(bytes, hist[..], bid)
    {
      var local := CountBlock(bytes, bid);
      StoreHistogram(bytes, bid, local, hist);
    }
  }

  method StoreHistogram(bytes: seq<nat>, bid: nat, local: array<nat>, hist: array<nat>)
    requires local.Length == BUCKETS && local != hist && bid < Blocks(|bytes|)
    requires forall b :: 0 <= b < BUCKETS ==> local[b] == Occurs(BlockRows(bytes, bid, |bytes|), b)
    requires IsHistogram(bytes, hist[..], bid)
    modifies hist
    ensures IsHistogram(bytes, hist[..], bid + 1)
  {
    ghost var before := hist[..];
    forall tid | 0 <= tid < BUCKETS {
      hist[bid * 256 + tid] := local[tid];
    }
    forall i | 0 <= i < (bid + 1) * BUCKETS
      ensures hist[i] == Occurs(BlockRows(bytes, i / BUCKETS, |bytes|), i % BUCKETS)
    {
      if i < bid * BUCKETS {
        assert hist[i] == before[i];
      } else {
        assert hist[bid * 256 + (i - bid * 256)] == local[i - bid * 256];
      }
    }
  }

  // Classes: (byte, block), byte first.

  function ClassOf(bytes: seq<nat>, i: nat): nat
    requires i < |bytes|
  {
    Slot(bytes[i], Blocks(|bytes|), i / WORK)
  }

  function Classes(bytes: seq<nat>): (r: seq<nat>)
    ensures |r| == |bytes|
  {
    seq(|bytes|, i requires 0 <= i < |bytes| => ClassOf(bytes, i))
  }

  lemma {:induction false} BlockInRange(n: nat, i: nat)
    requires i < n
    ensures i / WORK < Blocks(n)
  {
  }

  lemma {:induction false} SameClass(bytes: seq<nat>, i: nat, b: nat, bid: nat)
    requires i < |bytes| && bid < Blocks(|bytes|)
    ensures ClassOf(bytes, i) == Slot(b, Blocks(|bytes|), bid) <==> bytes[i] == b && i / WORK == bid
  {
    BlockInRange(|bytes|, i);
    SlotInverse(bytes[i], Blocks(|bytes|), i / WORK);
    SlotInverse(b, Blocks(|bytes|), bid);
  }

  lemma {:induction false} BlockRowsStep(bytes: seq<nat>, bid: nat, b: nat, m: nat)
    requires 0 < m <= |bytes|
    ensures Occurs(BlockRows(bytes, bid, m), b) ==
            Occurs(BlockRows(bytes, bid, m - 1), b) + if (m - 1) / WORK == bid && bytes[m - 1] == b then 1 else 0
  {
    if (m - 1) / WORK == bid {
      assert BlockRows(bytes, bid, m) == BlockRows(bytes, bid, m - 1) + [bytes[m - 1]];
      OccursAppend(BlockRows(bytes, bid, m - 1), bytes[m - 1], b);
    } else {
      assert BlockRows(bytes, bid, m) == BlockRows(bytes, bid, m - 1);
    }
  }

  lemma {:induction false} ClassCount(bytes: seq<nat>, cls: seq<nat>, b: nat, bid: nat, m: nat)
    requires m <= |bytes| && bid < Blocks(|bytes|) && cls == Classes(bytes)
    ensures Occurs(cls[..m], Slot(b, Blocks(|bytes|), bid)) == Occurs(BlockRows(bytes, bid, m), b)
  {
    if m > 0 {
      ClassCount(bytes, cls, b, bid, m - 1);
      SameClass(bytes, m - 1, b, bid);
      BlockRowsStep(bytes, bid, b, m);
      assert cls[..m][..m - 1] == cls[..m - 1];
    }
  }

  ghost predicate ClassCounts(hist: seq<nat>, blocks: nat, counts: seq<int>) {
    && |hist| == blocks * BUCKETS && |counts| == BUCKETS * blocks
    && (forall b, bid :: 0 <= b < BUCKETS && 0 <= bid < blocks ==>
          Slot(b, blocks, bid) < |counts| && counts[Slot(b, blocks, bid)] == BucketColumn(hist, blocks, b)[bid])
  }

  /** A class's start is the sum of the counts of all earlier classes: whole buckets, then blocks. */
  lemma {:induction false} ClassStart(hist: seq<nat>, blocks: nat, counts: seq<int>, b: nat, bid: nat)
    requires ClassCounts(hist, blocks, counts) && b < BUCKETS && bid <= blocks
    ensures Slot(b, blocks, bid) <= |counts|
    ensures Prefix(counts, Slot(b, blocks, bid)) ==
            Prefix(BucketTotals(hist, blocks), b) + Prefix(BucketColumn(hist, blocks, b), bid)
    decreases b, bid
  {
    if bid > 0 {
      ClassStart(hist, blocks, counts, b, bid - 1);
      assert counts[Slot(b, blocks, bid - 1)] == BucketColumn(hist, blocks, b)[bid - 1];
    } else if b > 0 {
      ClassStart(hist, blocks, counts, b - 1, blocks);
      assert Slot(b, blocks, 0) == Slot(b - 1, blocks, blocks);
    }
  }

  /** The scan table read as class starts: block bid's counter for byte b starts at scan[bid * 256 + b]. */
  function Starts(scan: seq<int>, blocks: nat): (r: seq<int>)
    requires |scan| == blocks * BUCKETS
    ensures |r| == BUCKETS * blocks
  {
    seq(BUCKETS * blocks, k requires 0 <= k < BUCKETS * blocks =>
      (SlotRange(k, BUCKETS, blocks); scan[(k % blocks) * BUCKETS + k / blocks]))
  }

  lemma {:induction false} HistogramIsClassCount(bytes: seq<nat>, hist: seq<nat>, b: nat, bid: nat)
    requires IsHistogram(bytes, hist, Blocks(|bytes|)) && b < BUCKETS && bid < Blocks(|bytes|)
    ensures BucketColumn(hist, Blocks(|bytes|), b)[bid] == Occurs(Classes(bytes), Slot(b, Blocks(|bytes|), bid))
  {
    ClassCount(bytes, Classes(bytes), b, bid, |bytes|);
    assert Classes(bytes)[..|bytes|] == Classes(bytes);
    assert (bid * BUCKETS + b) / BUCKETS == bid && (bid * BUCKETS + b) % BUCKETS == b;
  }

  /** The scatter kernel as an instance of the atomic scatter. */
  function PassConfig(rows: seq<Row>, bytes: seq<nat>, starts: seq<nat>): AtomicScatter.Config {
    AtomicScatter.Config(rows, Classes(bytes), starts)
  }

  lemma {:induction false} ClassInRange(bytes: seq<nat>, i: nat)
    requires AreBytes(bytes) && i < |bytes|
    ensures ClassOf(bytes, i) < BUCKETS * Blocks(|bytes|)
  {
    BlockInRange(|bytes|, i);
    SlotBelow(bytes[i], BUCKETS, Blocks(|bytes|), i / WORK);
  }

  lemma {:induction false} CountsOfClasses(bytes: seq<nat>, hist: seq<nat>, counts: seq<nat>)
    requires IsHistogram(bytes, hist, Blocks(|bytes|)) && |counts| == BUCKETS * Blocks(|bytes|)
    requires forall k :: 0 <= k < |counts| ==> counts[k] == Occurs(Classes(bytes), k)
    ensures ClassCounts(hist, Blocks(|bytes|), counts)
  {
    var blocks := Blocks(|bytes|);
    forall b, bid | 0 <= b < BUCKETS && 0 <= bid < blocks
      ensures Slot(b, blocks, bid) < |counts|
      ensures counts[Slot(b, blocks, bid)] == BucketColumn(hist, blocks, b)[bid]
    {
      SlotBelow(b, BUCKETS, blocks, bid);
      HistogramIsClassCount(bytes, hist, b, bid);
    }
  }

  lemma {:induction false} StartsAt(hist: seq<nat>, blocks: nat, scan: seq<int>, b: nat, bid: nat)
    requires ScanIs(hist, blocks, scan) && b < BUCKETS && bid < blocks
    ensures Slot(b, blocks, bid) < BUCKETS * blocks
    ensures Starts(scan, blocks)[Slot(b, blocks, bid)] == Offset(hist, blocks, bid, b)
  {
    SlotBelow(b, BUCKETS, blocks, bid);
    SlotInverse(b, blocks, bid);
    var i := bid * BUCKETS + b;
    assert i / BUCKETS == bid && i % BUCKETS == b;
  }

  /** The table read as class starts is the exclusive scan of the class counts. */
  lemma {:induction false} StartsAreExclusiveScan(hist: seq<nat>, blocks: nat, scan: seq<int>, counts: seq<nat>, k: nat)
    requires ScanIs(hist, blocks, scan) && ClassCounts(hist, blocks, counts) && k < |counts|
    ensures Starts(scan, blocks)[k] == Prefix(counts, k) >= 0
  {
    SlotRange(k, BUCKETS, blocks);
    StartsAt(hist, blocks, scan, k / blocks, k % blocks);
    ClassStart(hist, blocks, counts, k / blocks, k % blocks);
    PrefixMonotone(counts, 0, k);
  }

  /** Histogram and scan set the scatter up: every counter starts where its class belongs. */
  lemma {:induction false} PassConfigValid(rows: seq<Row>, bytes: seq<nat>, hist: seq<nat>, scan: seq<int>)
    returns (starts: seq<nat>)
    requires AreBytes(bytes) && |rows| == |bytes|
    requires IsHistogram(bytes, hist, Blocks(|bytes|)) && ScanIs(hist, Blocks(|bytes|), scan)
    ensures starts == Starts(scan, Blocks(|bytes|)) && PassConfig(rows, bytes, starts).Valid()
  {
    var blocks, cls := Blocks(|bytes|), Classes(bytes);
    var counts: seq<nat> := seq(BUCKETS * blocks, k requires 0 <= k < BUCKETS * blocks => Occurs(cls, k));
    CountsOfClasses(bytes, hist, counts);
    forall k | 0 <= k < BUCKETS * blocks ensures Starts(scan, blocks)[k] == Prefix(counts, k) >= 0 {
      StartsAreExclusiveScan(hist, blocks, scan, counts, k);
    }
    starts := Starts(scan, blocks);
    var c := PassConfig(rows, bytes, starts);
    forall i | 0 <= i < |cls| ensures cls[i] < BUCKETS * blocks {
      ClassInRange(bytes, i);
    }
    CountsTotal(cls, counts);
    assert c.Counts() == counts;
  }

  // What a pass does to the order of the rows.

  /** Row i precedes row j in (byte, block) order. */
  predicate NotAfter(bytes: seq<nat>, i: nat, j: nat)
    requires i < |bytes| && j < |bytes|
  {
    bytes[i] < bytes[j] || (bytes[i] == bytes[j] && i / 1_024 <= j / 1_024)
  }

  lemma {:induction false} ClassOrder(bytes: seq<nat>, i: nat, j: nat)
    requires i < |bytes| && j < |bytes|
    ensures ClassOf(bytes, i) <= ClassOf(bytes, j) <==> NotAfter(bytes, i, j)
  {
    var blocks := Blocks(|bytes|);
    BlockInRange(|bytes|, i);
    BlockInRange(|bytes|, j);
    MultiplesApart(blocks, bytes[i], bytes[j]);
    MultiplesApart(blocks, bytes[j], bytes[i]);
  }

  /** Where row i ended up in a finished scatter. */
  ghost function Dst(s: AtomicScatter.State, i: nat): nat
    requires AllDone(s) && i < |s.pcs|
  {
    s.pcs[i].dst
  }

  /** Under every schedule the pass permutes the rows, each value staying with its key, and orders
      them by byte and then by source block. */
  lemma {:induction false} PassGroupsByByte(c: AtomicScatter.Config, bytes: seq<nat>, schedule: seq<nat>)
    requires c.cls == Classes(bytes) && c.Valid() && AllDone(Exec(c, schedule))
    ensures multiset(Output(Exec(c, schedule))) == multiset(c.rows)
    ensures forall i :: 0 <= i < |c.rows| ==>
              Dst(Exec(c, schedule), i) < |c.rows| && Output(Exec(c, schedule))[Dst(Exec(c, schedule), i)] == c.rows[i]
    ensures forall i, j ::
              0 <= i < |c.rows| && 0 <= j < |c.rows| && Dst(Exec(c, schedule), i) < Dst(Exec(c, schedule), j) ==>
                NotAfter(bytes, i, j)
  {
    var s := Exec(c, schedule);
    OutputIsPermutation(c, schedule);
    RunInvariant(c, schedule);
    forall i | 0 <= i < |c.rows| ensures Dst(s, i) < |c.rows| && Output(s)[Dst(s, i)] == c.rows[i] {
      assert RowOk(c, s, i);
    }
    forall i, j | 0 <= i < |c.rows| && 0 <= j < |c.rows| && Dst(s, i) < Dst(s, j) ensures NotAfter(bytes, i, j) {
      DstFollowsClass(c, schedule, i, j);
      ClassOrder(bytes, i, j);
    }
  }

  lemma {:induction false} DstFollowsClass(c: AtomicScatter.Config, schedule: seq<nat>, i: nat, j: nat)
    requires c.Valid() && AllDone(Exec(c, schedule)) && i < |c.rows| && j < |c.rows|
    requires Dst(Exec(c, schedule), i) < Dst(Exec(c, schedule), j)
    ensures c.cls[i] <= c.cls[j]
  {
    var s := Exec(c, schedule);
    RunInvariant(c, schedule);
    assert RowOk(c, s, i) && RowOk(c, s, j);
    FinishedCounter(c, schedule, c.cls[j]);
    if c.cls[j] < c.cls[i] {
      RangesOrdered(c, c.cls[j], c.cls[i]);
    }
  }
}
