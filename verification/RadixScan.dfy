/** The radix sort's offsets: the host scan and the three scan kernels compute the same table.
    hist[bid * 256 + b] counts the rows of block bid whose current byte is b. */
module RadixScan {
  import opened Arith
  import opened Strides
  import opened Sums
  import opened TreeReduce

  const BUCKETS: nat := 256

  /** Bucket b's counts, block by block. */
  function BucketColumn(hist: seq<nat>, blocks: nat, b: nat): (r: seq<nat>)
    requires |hist| == blocks * BUCKETS && b < BUCKETS
    ensures |r| == blocks
  {
    seq(blocks, bid requires 0 <= bid < blocks => hist[bid * BUCKETS + b])
  }

  function BucketTotals(hist: seq<nat>, blocks: nat): (r: seq<int>)
    requires |hist| == blocks * BUCKETS
    ensures |r| == BUCKETS
  {
    seq(BUCKETS, b requires 0 <= b < BUCKETS => Sum(BucketColumn(hist, blocks, b)))
  }

  /** Where block bid's rows of bucket b go: after all smaller buckets, and after the same bucket's
      rows from earlier blocks. */
  function Offset(hist: seq<nat>, blocks: nat, bid: nat, b: nat): int
    requires |hist| == blocks * BUCKETS && bid < blocks && b < BUCKETS
  {
    Prefix(BucketTotals(hist, blocks), b) + Prefix(BucketColumn(hist, blocks, b), bid)
  }

  ghost predicate ScanIs(hist: seq<nat>, blocks: nat, scan: seq<int>) {
    && |hist| == |scan| == blocks * BUCKETS
    && forall i :: 0 <= i < |scan| ==> scan[i] == Offset(hist, blocks, i / BUCKETS, i % BUCKETS)
  }

  // The host scan.

  method HostTotals(hist: seq<nat>, blocks: nat) returns (totals: array<int>)
    requires |hist| == blocks * BUCKETS
    ensures fresh(totals) && totals[..] == BucketTotals(hist, blocks)
  {
    totals := new int[BUCKETS](_ => 0);
    for bid := 0 to blocks
      invariant forall b :: 0 <= b < BUCKETS ==> totals[b] == Prefix(BucketColumn(hist, blocks, b), bid)
    {
      for b := 0 to BUCKETS
        invariant forall c :: 0 <= c < b ==> totals[c] == Prefix(BucketColumn(hist, blocks, c), bid + 1)
        invariant forall c :: b <= c < BUCKETS ==> totals[c] == Prefix(BucketColumn(hist, blocks, c), bid)
      {
        totals[b] := totals[b] + hist[bid * BUCKETS + b];
      }
    }
  }

  /** Bucket b's column of the table, from a running total. */
  method ScanBucket(hist: seq<nat>, blocks: nat, b: nat, start: int, scan: array<int>)
    requires |hist| == blocks * BUCKETS == scan.Length && b < BUCKETS
    modifies scan
    ensures forall i :: 0 <= i < scan.Length && i % BUCKETS == b ==>
              scan[i] == start + Prefix(BucketColumn(hist, blocks, b), i / BUCKETS)
    ensures forall i :: 0 <= i < scan.Length && i % BUCKETS != b ==> scan[i] == old(scan[i])
  {
    var running := start;
    for bid := 0 to blocks
      invariant running == start + Prefix(BucketColumn(hist, blocks, b), bid)
      invariant forall i :: 0 <= i < scan.Length && i % BUCKETS == b && i / BUCKETS < bid ==>
                  scan[i] == start + Prefix(BucketColumn(hist, blocks, b), i / BUCKETS)
      invariant forall i :: 0 <= i < scan.Length && i % BUCKETS != b ==> scan[i] == old(scan[i])
    {
      scan[bid * BUCKETS + b] := running;
      running := running + hist[bid * BUCKETS + b];
    }
  }

  method HostOffsets(totals: array<int>) returns (offset: array<int>)
    requires totals.Length == BUCKETS
    ensures fresh(offset) && offset.Length == BUCKETS
    ensures forall c :: 0 <= c < BUCKETS ==> offset[c] == Prefix(totals[..], c)
  {
    offset := new int[BUCKETS];
    var run := 0;
    for b := 0 to BUCKETS
      invariant run == Prefix(totals[..], b)
      invariant forall c :: 0 <= c < b ==> offset[c] == Prefix(totals[..], c)
    {
      offset[b] := run;
      run := run + totals[b];
    }
  }

  /** BuildRadixScanHost. */
  method BuildRadixScanHost(hist: seq<nat>, blocks: nat) returns (scan: array<int>)
    requires |hist| == blocks * BUCKETS
    ensures fresh(scan) && ScanIs(hist, blocks, scan[..])
  {
    scan := new int[blocks * BUCKETS];
    var totals := HostTotals(hist, blocks);
    var offset := HostOffsets(totals);
    for b := 0 to BUCKETS
      invariant forall c :: 0 <= c < BUCKETS ==> offset[c] == Prefix(BucketTotals(hist, blocks), c)
      invariant forall i :: 0 <= i < scan.Length && i % BUCKETS < b ==>
                  scan[i] == Offset(hist, blocks, i / BUCKETS, i % BUCKETS)
    {
      ScanBucket(hist, blocks, b, offset[b], scan);
    }
  }

  // The kernels.

  lemma {:induction false} LaneTakesChunk(column: seq<nat>, chunk: nat, tid: nat, x: int)
    requires tid < LANES && chunk % LANES == 0 && chunk < |column|
    requires x == if chunk + tid < |column| then column[chunk + tid] else 0
    ensures Strided(column, 0, LANES, tid, Min(chunk + LANES + tid, |column|)) ==
            Strided(column, 0, LANES, tid, Min(chunk + tid, |column|)) + x
    ensures (chunk + LANES) % LANES == 0
  {
    if chunk + tid < |column| {
      StridedGap(column, 0, LANES, tid, chunk + tid, Min(chunk + LANES + tid, |column|));
    }
  }

  /** hist[bid * BUCKETS + b], or 0 past the last block. */
  function CountAt(hist: seq<nat>, blocks: nat, b: nat, bid: nat): (r: nat)
    requires |hist| == blocks * BUCKETS && b < BUCKETS
    ensures r == if bid < blocks then BucketColumn(hist, blocks, b)[bid] else 0
  {
    if bid < blocks then hist[bid * BUCKETS + b] else 0
  }

  /** One thread of RadixBucketTotalsKernel. */
  method TotalsLane(hist: seq<nat>, blocks: nat, b: nat, tid: nat) returns (running: int)
    requires |hist| == blocks * BUCKETS && b < BUCKETS && tid < LANES
    ensures running == Strided(BucketColumn(hist, blocks, b), 0, LANES, tid, blocks)
  {
    ghost var column := BucketColumn(hist, blocks, b);
    running := 0;
    var chunk := 0;
    StridedBeforeFirst(column, 0, LANES, tid, Min(tid, blocks));
    while chunk < blocks
      invariant 0 <= chunk && chunk % LANES == 0
      invariant running == Strided(column, 0, LANES, tid, Min(chunk + tid, |column|))
    {
      var count := CountAt(hist, blocks, b, chunk + tid);
      LaneTakesChunk(column, chunk, tid, count);
      running := running + count;
      chunk := chunk + LANES;
    }
  }

  method RadixBucketTotals(hist: seq<nat>, blocks: nat) returns (totals: seq<int>)
    requires |hist| == blocks * BUCKETS
    ensures totals == BucketTotals(hist, blocks)
  {
    totals := [];
    for b := 0 to BUCKETS
      invariant |totals| == b
      invariant forall c :: 0 <= c < b ==> totals[c] == Sum(BucketColumn(hist, blocks, c))
    {
      ghost var column := BucketColumn(hist, blocks, b);
      var shm := new int[LANES];
      for tid := 0 to LANES
        invariant forall l :: 0 <= l < tid ==> shm[l] == Strided(column, 0, LANES, l, blocks)
      {
        var running := TotalsLane(hist, blocks, b, tid);
        shm[tid] := running;
      }
      assert shm[0..0 + LANES] == Lanes(column, 0, LANES, blocks);
      LanesArePow2();
      TreeAdd(shm, 0, LANES);
      LanesCoverRange(column, 0, LANES, blocks);
      totals := totals + [shm[0]];
    }
  }

  /** The sum of the last `len` elements up to and including i. */
  function Window(s: seq<int>, i: nat, len: nat): int
    requires i < |s|
  {
    Prefix(s, i + 1) - if len > i then 0 else Prefix(s, i + 1 - len)
  }

  /** The doubling scan both scan kernels use. Between its barriers all threads read before any writes. */
  method InclusiveScan(shm: array<int>)
    modifies shm
    ensures forall i :: 0 <= i < shm.Length ==> shm[i] == Prefix(old(shm[..]), i + 1)
  {
    ghost var s := shm[..];
    var offset := 1;
    assert forall i :: 0 <= i < |s| ==> Prefix(s, i + 1) == Prefix(s, i) + s[i];
    while offset < shm.Length
      invariant offset >= 1
      invariant forall i :: 0 <= i < shm.Length ==> shm[i] == Window(s, i, offset)
      decreases shm.Length - offset
    {
      forall tid | 0 <= tid < shm.Length {
        shm[tid] := shm[tid] + if tid >= offset then shm[tid - offset] else 0;
      }
      offset := offset * 2;
    }
  }

  method RadixBucketOffsets(totals: seq<int>) returns (offset: array<int>)
    requires |totals| == BUCKETS
    ensures fresh(offset) && offset.Length == BUCKETS
    ensures forall b :: 0 <= b < BUCKETS ==> offset[b] == Prefix(totals, b)
  {
    offset := new int[BUCKETS];
    var shm := new int[BUCKETS](tid requires 0 <= tid < BUCKETS => totals[tid]);
    assert shm[..] == totals;
    InclusiveScan(shm);
    forall tid | 0 <= tid < BUCKETS {
      offset[tid] := shm[tid] - totals[tid];
    }
  }

  /** The counts one chunk of the per-bucket scan loads: blocks past the end count nothing. */
  function Chunk(column: seq<nat>, chunk: nat): (r: seq<int>)
    ensures |r| == LANES
  {
    seq(LANES, tid requires 0 <= tid < LANES => if chunk + tid < |column| then column[chunk + tid] else 0)
  }

  lemma {:induction false} ChunkPrefix(column: seq<nat>, chunk: nat, t: nat)
    requires chunk <= |column| && t <= LANES
    ensures Prefix(Chunk(column, chunk), t) ==
            Prefix(column, Min(chunk + t, |column|)) - Prefix(column, chunk)
  {
    if t > 0 {
      ChunkPrefix(column, chunk, t - 1);
    }
  }

  /** What thread t writes: the inclusive scan less its own count. */
  lemma {:induction false} ChunkOffset(column: seq<nat>, chunk: nat, t: nat)
    requires t < LANES && chunk + t < |column|
    ensures Prefix(Chunk(column, chunk), t + 1) - column[chunk + t] ==
            Prefix(column, chunk + t) - Prefix(column, chunk)
  {
    ChunkPrefix(column, chunk, t);
  }

  /** One threadgroup of RadixPerBucketScanKernel: 256 blocks at a time, carrying the running offset. */
  method RadixPerBucketScan(hist: seq<nat>, blocks: nat, b: nat, start: int, scan: array<int>)
    requires |hist| == blocks * BUCKETS == scan.Length && b < BUCKETS
    modifies scan
    ensures forall i :: 0 <= i < scan.Length && i % BUCKETS == b ==>
              scan[i] == start + Prefix(BucketColumn(hist, blocks, b), i / BUCKETS)
    ensures forall i :: 0 <= i < scan.Length && i % BUCKETS != b ==> scan[i] == old(scan[i])
  {
    ghost var column := BucketColumn(hist, blocks, b);
    var running, chunk := start, 0;
    while chunk < blocks
      invariant 0 <= chunk
      invariant running == start + Prefix(column, Min(chunk, blocks))
      invariant forall i :: 0 <= i < scan.Length && i % BUCKETS == b && i / BUCKETS < chunk ==>
                  scan[i] == start + Prefix(column, i / BUCKETS)
      invariant forall i :: 0 <= i < scan.Length && i % BUCKETS != b ==> scan[i] == old(scan[i])
    {
      var last := ScanChunk(hist, blocks, b, chunk, start, running, scan);
      running := running + last;
      chunk := chunk + LANES;
    }
  }

  method ScanChunk(hist: seq<nat>, blocks: nat, b: nat, chunk: nat, ghost start: int, running: int, scan: array<int>)
    returns (last: int)
    requires |hist| == blocks * BUCKETS == scan.Length && b < BUCKETS && chunk < blocks
    requires running == start + Prefix(BucketColumn(hist, blocks, b), chunk)
    modifies scan
    ensures running + last == start + Prefix(BucketColumn(hist, blocks, b), Min(chunk + LANES, blocks))
    ensures forall i :: 0 <= i < scan.Length && i % BUCKETS == b && chunk <= i / BUCKETS < chunk + LANES ==>
              scan[i] == start + Prefix(BucketColumn(hist, blocks, b), i / BUCKETS)
    ensures forall i :: 0 <= i < scan.Length && !(i % BUCKETS == b && chunk <= i / BUCKETS < chunk + LANES) ==>
              scan[i] == old(scan[i])
  {
    ghost var column := BucketColumn(hist, blocks, b);
    var shm := new int[LANES](tid requires 0 <= tid < LANES =>
                                if chunk + tid < blocks then hist[(chunk + tid) * BUCKETS + b] else 0);
    assert shm[..] == Chunk(column, chunk);
    InclusiveScan(shm);
    assert forall t :: 0 <= t < LANES ==> shm[t] == Prefix(Chunk(column, chunk), t + 1);
    forall tid | 0 <= tid < LANES && chunk + tid < blocks
      ensures running + (shm[tid] - hist[(chunk + tid) * BUCKETS + b]) == start + Prefix(column, chunk + tid)
    {
      ChunkOffset(column, chunk, tid);
    }
    // Thread tid writes entry (chunk + tid) * 256 + b.
    forall i | 0 <= i < scan.Length && i % BUCKETS == b && chunk <= i / BUCKETS < chunk + LANES {
      scan[i] := running + (shm[i / BUCKETS - chunk] - hist[i]);
    }
    forall i | 0 <= i < scan.Length && i % BUCKETS == b && chunk <= i / BUCKETS < chunk + LANES
      ensures scan[i] == start + Prefix(column, i / BUCKETS)
    {
      ghost var tid := i / BUCKETS - chunk;
      assert i == (chunk + tid) * BUCKETS + b;
    }
    ChunkPrefix(column, chunk, LANES);
    last := shm[LANES - 1];
  }

  /** GpuBuildRadixScan: the three kernels leave the table the host scan leaves. */
  method GpuBuildRadixScan(hist: seq<nat>, blocks: nat) returns (scan: array<int>)
    requires |hist| == blocks * BUCKETS
    ensures fresh(scan) && ScanIs(hist, blocks, scan[..])
  {
    scan := new int[blocks * BUCKETS];
    var totals := RadixBucketTotals(hist, blocks);
    var offset := RadixBucketOffsets(totals);
    for b := 0 to BUCKETS
      invariant forall c :: 0 <= c < BUCKETS ==> offset[c] == Prefix(totals, c)
      invariant forall i :: 0 <= i < scan.Length && i % BUCKETS < b ==>
                  scan[i] == Offset(hist, blocks, i / BUCKETS, i % BUCKETS)
    {
      RadixPerBucketScan(hist, blocks, b, offset[b], scan);
    }
  }
}
