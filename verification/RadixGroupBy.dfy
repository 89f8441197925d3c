/** The radix group-by end to end: flip, passes over the chosen bytes, flip back, segment reduce. */
module RadixGroupBy {
  import opened AtomicScatter
  import opened GroupBy
  import opened RadixBytes
  import opened RadixOrder
  import opened RadixPass
  import opened RadixScan
  import opened ScatterKernel
  import opened ScatterSchedules
  import opened SegmentReduce

  // ---- Passes ----

  /** Rows whose keys are 64-bit words. */
  ghost predicate WordRows(rows: seq<Row>) {
    forall r :: 0 <= r < |rows| ==> 0 <= rows[r].key < Pow256(8)
  }

  function Words(rows: seq<Row>): (w: seq<nat>)
    requires forall r :: 0 <= r < |rows| ==> rows[r].key >= 0
    ensures |w| == |rows|
  {
    seq(|rows|, r requires 0 <= r < |rows| => rows[r].key)
  }

  function BytesAt(rows: seq<Row>, p: nat): (b: seq<nat>)
    requires forall r :: 0 <= r < |rows| ==> rows[r].key >= 0
    ensures |b| == |rows|
  {
    seq(|rows|, r requires 0 <= r < |rows| => ByteOf(rows[r].key, p))
  }

  lemma {:induction false} BytesAreBytes(rows: seq<Row>, p: nat)
    requires WordRows(rows)
    ensures AreBytes(BytesAt(rows, p))
  {
    forall r | 0 <= r < |rows| ensures ByteOf(rows[r].key, p) < BUCKETS {
      ByteBelow(rows[r].key, p);
    }
  }

  lemma {:induction false} ByteBelow(key: nat, p: nat)
    ensures ByteOf(key, p) < 256
  {
    if p > 0 {
      ByteBelow(key / 256, p - 1);
    }
  }

  /** One pass: its scatter configuration and the schedule of its increments and stores. */
  datatype Pass = Pass(config: AtomicScatter.Config, schedule: seq<nat>)

  /** The pass over byte p ran to its end and turned `before` into `after`. */
  ghost predicate PassRan(before: seq<Row>, after: seq<Row>, p: nat, pass: Pass)
    requires WordRows(before)
  {
    && pass.config.rows == before && pass.config.cls == Classes(BytesAt(before, p))
    && |pass.config.base| == BUCKETS * Blocks(|before|)
    && pass.config.Valid() && AllDone(Exec(pass.config, pass.schedule))
    && after == Output(Exec(pass.config, pass.schedule))
  }

  /** The pass left rows of the same byte in their order. */
  ghost predicate KeptOrder(before: seq<Row>, after: seq<Row>, p: nat, pass: Pass)
    requires WordRows(before) && PassRan(before, after, p, pass)
  {
    OrderKept(BytesAt(before, p), Exec(pass.config, pass.schedule))
  }

  /** A run of eight passes: stages[p] are the rows before pass p, and a byte not chosen is skipped. */
  ghost predicate RadixRan(stages: seq<seq<Row>>, passes: seq<Pass>, active: seq<bool>) {
    && |stages| == |active| + 1 && |passes| == |active|
    && (forall p :: 0 <= p < |stages| ==> WordRows(stages[p]))
    && (forall p :: 0 <= p < |active| ==>
          if active[p] then PassRan(stages[p], stages[p + 1], p, passes[p]) else stages[p + 1] == stages[p])
  }

  ghost predicate StableRun(stages: seq<seq<Row>>, passes: seq<Pass>, active: seq<bool>)
    requires RadixRan(stages, passes, active)
  {
    forall p :: 0 <= p < |active| && active[p] ==> KeptOrder(stages[p], stages[p + 1], p, passes[p])
  }

  /** A pass the kernel can make: every thread takes its rows in order. */
  ghost predicate ThreadsInOrder(pass: Pass) {
    pass.config.Valid() && ProgramOrdered(pass.config, pass.schedule)
  }

  ghost predicate KernelRun(passes: seq<Pass>) {
    forall p :: 0 <= p < |passes| ==> ThreadsInOrder(passes[p])
  }

  /** However the threads interleave, a run in which no pass finds one byte on two threads of a block keeps
      order throughout. */
  lemma {:induction false} OneLaneRunIsStable(stages: seq<seq<Row>>, passes: seq<Pass>, active: seq<bool>)
    requires RadixRan(stages, passes, active) && KernelRun(passes)
    requires forall p :: 0 <= p < |active| && active[p] ==> !TwoLanes(BytesAt(stages[p], p))
    ensures StableRun(stages, passes, active)
  {
    forall p | 0 <= p < |active| && active[p] ensures KeptOrder(stages[p], stages[p + 1], p, passes[p]) {
      assert ThreadsInOrder(passes[p]) && PassRan(stages[p], stages[p + 1], p, passes[p]);
      OneLanePassKeepsOrder(stages[p], stages[p + 1], p, passes[p]);
    }
  }

  lemma {:induction false} OneLanePassKeepsOrder(before: seq<Row>, after: seq<Row>, p: nat, pass: Pass)
    requires WordRows(before) && PassRan(before, after, p, pass) && ThreadsInOrder(pass)
    requires !TwoLanes(BytesAt(before, p))
    ensures KeptOrder(before, after, p, pass)
  {
    OneLaneKeepsOrder(pass.config, BytesAt(before, p), pass.schedule);
  }

  /** Stable or not, a run only moves rows. */
  lemma {:induction false} RunPermutes(stages: seq<seq<Row>>, passes: seq<Pass>, active: seq<bool>, p: nat)
    requires RadixRan(stages, passes, active) && p <= |active|
    ensures multiset(stages[p]) == multiset(stages[0])
  {
    if p > 0 {
      RunPermutes(stages, passes, active, p - 1);
      if active[p - 1] {
        OutputIsPermutation(passes[p - 1].config, passes[p - 1].schedule);
      }
    }
  }

  // ---- Order ----

  /** A finished scatter that kept order is a stable stage. */
  lemma {:induction false} PassIsStable(before: seq<Row>, after: seq<Row>, p: nat, pass: Pass) returns (src: seq<nat>)
    requires WordRows(before) && WordRows(after) && PassRan(before, after, p, pass) && KeptOrder(before, after, p, pass)
    ensures StableStage(Words(before), Words(after), p, src)
  {
    var s, bytes := Exec(pass.config, pass.schedule), BytesAt(before, p);
    src := OwnersEnumerateAll(pass.config, pass.schedule);
    PassGroupsByByte(pass.config, bytes, pass.schedule);
    forall i, j | 0 <= i < j < |src|
      ensures bytes[src[i]] < bytes[src[j]] || (bytes[src[i]] == bytes[src[j]] && src[i] < src[j])
    {
      assert Dst(s, src[i]) == i && Dst(s, src[j]) == j;
      assert NotAfter(bytes, src[i], src[j]);
    }
  }

  lemma {:induction false} PassSorts(before: seq<Row>, after: seq<Row>, p: nat, pass: Pass)
    requires WordRows(before) && WordRows(after) && PassRan(before, after, p, pass) && KeptOrder(before, after, p, pass)
    requires SortedLow(Words(before), p)
    ensures SortedLow(Words(after), p + 1)
  {
    var src := PassIsStable(before, after, p, pass);
    StageSorts(Words(before), Words(after), p, src);
  }

  lemma {:induction false} RunSortsLow(stages: seq<seq<Row>>, passes: seq<Pass>, active: seq<bool>, p: nat)
    requires RadixRan(stages, passes, active) && StableRun(stages, passes, active) && p <= |active|
    requires forall q :: 0 <= q < |active| && !active[q] ==> ByteConstant(Words(stages[q]), q)
    ensures SortedLow(Words(stages[p]), p)
  {
    if p > 0 {
      RunSortsLow(stages, passes, active, p - 1);
      if active[p - 1] {
        PassSorts(stages[p - 1], stages[p], p - 1, passes[p - 1]);
      } else {
        SkipSorts(Words(stages[p - 1]), p - 1);
      }
    }
  }

  /** If every pass kept order and every skipped byte is constant, the run sorts the rows by key. */
  lemma {:induction false} RunSorts(stages: seq<seq<Row>>, passes: seq<Pass>, active: seq<bool>)
    requires |active| == 8 && RadixRan(stages, passes, active) && StableRun(stages, passes, active)
    requires forall q :: 0 <= q < 8 && !active[q] ==> ByteConstant(Words(stages[0]), q)
    ensures KeySorted(stages[8])
  {
    forall q | 0 <= q < 8 && !active[q] ensures ByteConstant(Words(stages[q]), q) {
      ConstantThroughout(stages, passes, active, q);
    }
    RunSortsLow(stages, passes, active, 8);
    var out := stages[8];
    forall i, j | 0 <= i < j < |out| ensures out[i].key <= out[j].key {
      assert Low(Words(out)[i], 8) <= Low(Words(out)[j], 8);
      LowIsAll(out[i].key, 8);
      LowIsAll(out[j].key, 8);
    }
  }

  lemma {:induction false} ConstantThroughout(stages: seq<seq<Row>>, passes: seq<Pass>, active: seq<bool>, q: nat)
    requires RadixRan(stages, passes, active) && q <= |active| && ByteConstant(Words(stages[0]), q)
    ensures ByteConstant(Words(stages[q]), q)
  {
    RunPermutes(stages, passes, active, q);
    forall i | 0 <= i < |stages[q]| ensures exists j :: 0 <= j < |stages[0]| && stages[0][j] == stages[q][i] {
      assert stages[q][i] in multiset(stages[0]);
    }
    forall i, j | 0 <= i < |stages[q]| && 0 <= j < |stages[q]|
      ensures ByteOf(Words(stages[q])[i], q) == ByteOf(Words(stages[q])[j], q)
    {
      var a :| 0 <= a < |stages[0]| && stages[0][a] == stages[q][i];
      var b :| 0 <= b < |stages[0]| && stages[0][b] == stages[q][j];
      assert ByteOf(Words(stages[0])[a], q) == ByteOf(Words(stages[0])[b], q);
    }
  }

  // ---- Which extremes are enough ----

  /** A run over the bytes chosen from the rows' extremes in which every pass kept order. */
  ghost predicate OrderlyRun(mn: nat, mx: nat, signed: bool, stages: seq<seq<Row>>, passes: seq<Pass>) {
    && RadixRan(stages, passes, ActiveRadixBytes(mn, mx))
    && StableRun(stages, passes, ActiveRadixBytes(mn, mx))
    && HasExtremes(Words(stages[0]), mn, mx, signed)
  }

  /** Every such run, from any rows with these extremes in any order, ends sorted by key. */
  ghost predicate AlwaysSorts(mn: nat, mx: nat, signed: bool) {
    forall stages, passes :: OrderlyRun(mn, mx, signed, stages, passes) ==> KeySorted(stages[8])
  }

  lemma {:induction false} GaplessSorts(mn: nat, mx: nat, signed: bool, stages: seq<seq<Row>>, passes: seq<Pass>)
    requires Gapless(mn, mx) && OrderlyRun(mn, mx, signed, stages, passes)
    ensures KeySorted(stages[8])
  {
    var active := ActiveRadixBytes(mn, mx);
    forall q | 0 <= q < 8 && !active[q] ensures ByteConstant(Words(stages[0]), q) {
      GaplessSkipsConstants(Words(stages[0]), mn, mx, signed, q);
    }
    RunSorts(stages, passes, active);
  }

  /** The chosen bytes are enough, for all rows with these extremes in any input order, exactly when no
      byte below one in which the extremes differ is left out. */
  lemma {:induction false} ActiveBytesSortIff(mn: nat, mx: nat, signed: bool)
    requires mn < Pow256(8) && mx < Pow256(8) && Rank(signed, mn) <= Rank(signed, mx)
    ensures AlwaysSorts(mn, mx, signed) <==> Gapless(mn, mx)
  {
    if Gapless(mn, mx) {
      forall stages, passes | OrderlyRun(mn, mx, signed, stages, passes) ensures KeySorted(stages[8]) {
        GaplessSorts(mn, mx, signed, stages, passes);
      }
    } else {
      var stages, passes := GapSplitsAKey(mn, mx, signed);
      assert !KeySorted(stages[8]);
    }
  }

  // ---- What a gap costs ----

  /** Any rows can be put through passes that keep order. */
  lemma {:induction false} SomeOrderlyRun(rows: seq<Row>, active: seq<bool>)
    returns (stages: seq<seq<Row>>, passes: seq<Pass>)
    requires WordRows(rows)
    ensures RadixRan(stages, passes, active) && StableRun(stages, passes, active) && stages[0] == rows
    ensures KernelRun(passes)
  {
    if active == [] {
      stages, passes := [rows], [];
    } else {
      var n := |active| - 1;
      var stages0, passes0 := SomeOrderlyRun(rows, active[..n]);
      var next, pass := SomePass(stages0[n], n);
      stages, passes := stages0 + [if active[n] then next else stages0[n]], passes0 + [pass];
      ExtendRun(stages0, passes0, active, next, pass);
    }
  }

  lemma {:induction false} ExtendRun(stages: seq<seq<Row>>, passes: seq<Pass>, active: seq<bool>, next: seq<Row>,
                                     pass: Pass)
    requires active != [] && RadixRan(stages, passes, active[..|active| - 1])
    requires StableRun(stages, passes, active[..|active| - 1])
    requires var n := |active| - 1;
             PassRan(stages[n], next, n, pass) && WordRows(next) && KeptOrder(stages[n], next, n, pass)
    ensures var n := |active| - 1;
            var stages1, passes1 := stages + [if active[n] then next else stages[n]], passes + [pass];
            RadixRan(stages1, passes1, active) && StableRun(stages1, passes1, active)
  {
    var n := |active| - 1;
    var stages1, passes1 := stages + [if active[n] then next else stages[n]], passes + [pass];
    forall p | 0 <= p < |active|
      ensures if active[p] then PassRan(stages1[p], stages1[p + 1], p, passes1[p]) else stages1[p + 1] == stages1[p]
      ensures active[p] ==> KeptOrder(stages1[p], stages1[p + 1], p, passes1[p])
    {
      if p < n {
        assert active[..n][p] == active[p];
      }
    }
  }

  lemma {:induction false} SomePass(rows: seq<Row>, p: nat) returns (after: seq<Row>, pass: Pass)
    requires WordRows(rows)
    ensures PassRan(rows, after, p, pass) && WordRows(after) && KeptOrder(rows, after, p, pass)
    ensures ThreadsInOrder(pass)
  {
    var bytes := BytesAt(rows, p);
    BytesAreBytes(rows, p);
    var starts := SomeStarts(rows, bytes);
    var c := PassConfig(rows, bytes, starts);
    InOrderKeepsOrder(c, bytes);
    pass := Pass(c, Rounds(|rows|));
    after := Output(Exec(c, Rounds(|rows|)));
    OutputIsPermutation(c, Rounds(|rows|));
    forall r | 0 <= r < |after| ensures 0 <= after[r].key < Pow256(8) {
      assert after[r] in multiset(rows);
    }
  }

  /** Every row list has its histogram and scan, and with them a configuration. */
  lemma {:induction false} SomeStarts(rows: seq<Row>, bytes: seq<nat>) returns (starts: seq<nat>)
    requires AreBytes(bytes) && |rows| == |bytes|
    ensures PassConfig(rows, bytes, starts).Valid() && |starts| == BUCKETS * Blocks(|rows|)
  {
    var blocks := Blocks(|bytes|);
    var hist: seq<nat> := seq(blocks * BUCKETS, i requires 0 <= i < blocks * BUCKETS =>
      Occurs(BlockRows(bytes, i / BUCKETS, |bytes|), i % BUCKETS));
    var scan := seq(blocks * BUCKETS, i requires 0 <= i < blocks * BUCKETS => Offset(hist, blocks, i / BUCKETS,
          i % BUCKETS));
    starts := PassConfigValid(rows, bytes, hist, scan);
  }

  /** x, y and z stand in the rows in this order. */
  ghost predicate InThatOrder(rows: seq<Row>, x: Row, y: Row, z: Row) {
    exists a, b, c :: 0 <= a < b < c < |rows| && rows[a] == x && rows[b] == y && rows[c] == z
  }

  /** A pass that keeps order keeps rows of one byte in order. */
  lemma {:induction false} PassKeepsThatOrder(before: seq<Row>, after: seq<Row>, p: nat, pass: Pass, x: Row, y: Row,
                                              z: Row)
    requires WordRows(before) && PassRan(before, after, p, pass) && KeptOrder(before, after, p, pass)
    requires x.key >= 0 && y.key >= 0 && z.key >= 0 && ByteOf(x.key, p) == ByteOf(y.key, p) == ByteOf(z.key, p)
    requires InThatOrder(before, x, y, z)
    ensures InThatOrder(after, x, y, z)
  {
    var a, b, c :| 0 <= a < b < c < |before| && before[a] == x && before[b] == y && before[c] == z;
    var s, bytes := Exec(pass.config, pass.schedule), BytesAt(before, p);
    PassGroupsByByte(pass.config, bytes, pass.schedule);
    assert bytes[a] == bytes[b] == bytes[c];
    assert Dst(s, a) < Dst(s, b) < Dst(s, c);
  }

  lemma {:induction false} RunKeepsThatOrder(stages: seq<seq<Row>>, passes: seq<Pass>, active: seq<bool>, p: nat,
                                             x: Row, y: Row, z: Row)
    requires RadixRan(stages, passes, active) && StableRun(stages, passes, active) && p <= |active|
    requires x.key >= 0 && y.key >= 0 && z.key >= 0 && InThatOrder(stages[0], x, y, z)
    requires forall q :: 0 <= q < |active| && active[q] ==> ByteOf(x.key, q) == ByteOf(y.key, q) == ByteOf(z.key, q)
    ensures InThatOrder(stages[p], x, y, z)
  {
    if p > 0 {
      RunKeepsThatOrder(stages, passes, active, p - 1, x, y, z);
      if active[p - 1] {
        PassKeepsThatOrder(stages[p - 1], stages[p], p - 1, passes[p - 1], x, y, z);
      }
    }
  }

  /** Whatever the order, the run loop over moved rows keeps the total: the checksum sees nothing. */
  lemma {:induction false} ChecksumSeesNothing(stages: seq<seq<Row>>, passes: seq<Pass>, active: seq<bool>, p: nat)
    requires RadixRan(stages, passes, active) && p <= |active|
    ensures ChecksumOk(stages[0], Runs(stages[p])) <==> stages[0] != []
  {
    RunPermutes(stages, passes, active, p);
    PermutationInvariant(stages[p], stages[0], 0);
    RunsTotal(stages[p]);
    assert |stages[p]| == |multiset(stages[p])| == |multiset(stages[0])|;
    if stages[p] != [] {
      LastRun(stages[p]);
    }
  }

  /** Across any gap there are rows with these extremes that every orderly run leaves unsorted: a key comes
      out of the run loop twice, the result is not the GROUP BY, and the checksum accepts it. */
  lemma {:induction false} GapSplitsAKey(mn: nat, mx: nat, signed: bool)
    returns (stages: seq<seq<Row>>, passes: seq<Pass>)
    requires mn < Pow256(8) && mx < Pow256(8) && Rank(signed, mn) <= Rank(signed, mx) && !Gapless(mn, mx)
    ensures OrderlyRun(mn, mx, signed, stages, passes) && KernelRun(passes) && !KeySorted(stages[8])
    ensures !DistinctKeys(Runs(stages[8])) && !HasKeySums(stages[0], Runs(stages[8]))
    ensures ChecksumOk(stages[0], Runs(stages[8]))
  {
    var p, q :| 0 <= p < q < 8 && Differs(mn, mx, q) && !Differs(mn, mx, p);
    var u, v, w := ConfusedPair(mn, mx, signed, p, q);
    var rows := SplitRows(u, v, w);
    SplitRowsAreWords(u, v, w, mn, mx, signed);
    stages, passes := SomeOrderlyRun(rows, ActiveRadixBytes(mn, mx));
    OrderlyRunSplits(stages, passes, ActiveRadixBytes(mn, mx), u, v, w);
  }

  lemma {:induction false} OrderlyRunSplits(stages: seq<seq<Row>>, passes: seq<Pass>, active: seq<bool>, u: nat,
                                            v: nat, w: nat)
    requires |active| == 8 && RadixRan(stages, passes, active) && StableRun(stages, passes, active)
    requires Confused(u, v, active) && stages[0] == SplitRows(u, v, w)
    requires InThatOrder(stages[0], Row(u, 1), Row(v, 2), Row(u, 3))
    ensures !KeySorted(stages[8]) && !DistinctKeys(Runs(stages[8])) && !Ascending(Runs(stages[8]))
    ensures ChecksumOk(stages[0], Runs(stages[8]))
  {
    RunKeepsThatOrder(stages, passes, active, 8, Row(u, 1), Row(v, 2), Row(u, 3));
    OrderSplitsKey(stages[8], Row(u, 1), Row(v, 2), Row(u, 3));
    ChecksumSeesNothing(stages, passes, active, 8);
  }

  function SplitRows(u: nat, v: nat, w: nat): seq<Row> {
    [Row(u, 1), Row(v, 2), Row(u, 3), Row(w, 4)]
  }

  lemma {:induction false} SplitRowsAreWords(u: nat, v: nat, w: nat, mn: nat, mx: nat, signed: bool)
    requires HasExtremes([u, v, u, w], mn, mx, signed)
    ensures WordRows(SplitRows(u, v, w)) && HasExtremes(Words(SplitRows(u, v, w)), mn, mx, signed)
    ensures InThatOrder(SplitRows(u, v, w), Row(u, 1), Row(v, 2), Row(u, 3))
  {
    var rows, keys := SplitRows(u, v, w), [u, v, u, w];
    assert u in keys && v in keys && w in keys;
    assert Words(rows) == keys;
    assert rows[0] == Row(u, 1) && rows[1] == Row(v, 2) && rows[2] == Row(u, 3);
  }

  lemma {:induction false} OrderSplitsKey(rows: seq<Row>, x: Row, y: Row, z: Row)
    requires InThatOrder(rows, x, y, z) && x.key == z.key != y.key
    ensures !DistinctKeys(Runs(rows)) && !Ascending(Runs(rows)) && !KeySorted(rows)
  {
    var a, b, c :| 0 <= a < b < c < |rows| && rows[a] == x && rows[b] == y && rows[c] == z;
    SplitKeyRepeats(rows, a, b, c);
  }

  lemma {:induction false} SplitKeyRepeats(rows: seq<Row>, a: nat, b: nat, c: nat)
    requires a < b < c < |rows| && rows[a].key == rows[c].key != rows[b].key
    ensures !DistinctKeys(Runs(rows)) && !Ascending(Runs(rows)) && !KeySorted(rows)
  {
    if DistinctKeys(Runs(rows)) {
      DistinctRunsTogether(rows, a, b, c);
    }
    assert !(rows[a].key <= rows[b].key) || !(rows[b].key <= rows[c].key);
    if Ascending(Runs(rows)) {
      AscendingRunsSorted(rows);
    }
  }

  // ---- Keys that vary in one byte only ----

  /** Flipped keys that differ in byte p alone. */
  ghost predicate OnlyByteVaries(keys: seq<nat>, p: nat) {
    && p < 8
    && (forall i :: 0 <= i < |keys| ==> keys[i] < Pow256(8))
    && (forall q :: 0 <= q < 8 && q != p ==> ByteConstant(keys, q))
  }

  /** Whatever order the increments take, the pass leaves such rows sorted. */
  lemma {:induction false} SinglePassSorts(before: seq<Row>, after: seq<Row>, p: nat, pass: Pass)
    requires WordRows(before) && OnlyByteVaries(Words(before), p) && PassRan(before, after, p, pass)
    ensures KeySorted(after)
  {
    var s, bytes, keys := Exec(pass.config, pass.schedule), BytesAt(before, p), Words(before);
    var picks := OwnersEnumerateAll(pass.config, pass.schedule);
    PassGroupsByByte(pass.config, bytes, pass.schedule);
    forall i, j | 0 <= i < j < |after| ensures after[i].key <= after[j].key {
      assert Dst(s, picks[i]) == i && Dst(s, picks[j]) == j;
      assert NotAfter(bytes, picks[i], picks[j]);
      SingleByteSorts(keys, p, picks[i], picks[j]);
    }
  }

  // ---- The host function ----

  function Flipped(rows: seq<Row>): (r: seq<Row>)
    requires forall i :: 0 <= i < |rows| ==> IsInt64(rows[i].key)
    ensures |r| == |rows|
  {
    seq(|rows|, i requires 0 <= i < |rows| => Row(Flip(rows[i].key), rows[i].value))
  }

  function Unflipped(rows: seq<Row>): (r: seq<Row>)
    ensures |r| == |rows|
  {
    seq(|rows|, i requires 0 <= i < |rows| => Row(rows[i].key - SIGN, rows[i].value))
  }

  lemma {:induction false} FlipCounts(rows: seq<Row>, flipped: seq<Row>, k: int)
    requires |rows| == |flipped|
    requires forall i :: 0 <= i < |rows| ==> flipped[i] == Row(rows[i].key + SIGN, rows[i].value)
    ensures KeySum(flipped, k + SIGN) == KeySum(rows, k) && KeyCount(flipped, k + SIGN) == KeyCount(rows, k)
    ensures Total(flipped) == Total(rows)
  {
    if rows != [] {
      FlipCounts(rows[..|rows| - 1], flipped[..|rows| - 1], k);
    }
  }

  lemma {:induction false} FlippedAreWords(rows: seq<Row>)
    requires forall i :: 0 <= i < |rows| ==> IsInt64(rows[i].key)
    ensures WordRows(Flipped(rows))
    ensures KeySorted(Flipped(rows)) <==> KeySorted(rows)
  {
    var flipped := Flipped(rows);
    forall i | 0 <= i < |rows| ensures 0 <= flipped[i].key < Pow256(8) {
      FlipKeepsOrder(rows[i].key, rows[i].key);
    }
    forall i, j | 0 <= i < j < |rows| ensures rows[j].key < rows[i].key <==> flipped[j].key < flipped[i].key {
      FlipKeepsOrder(rows[j].key, rows[i].key);
    }
    if KeySorted(flipped) {
      forall i, j | 0 <= i < j < |rows| ensures rows[i].key <= rows[j].key {
        assert flipped[i].key <= flipped[j].key;
      }
    }
  }

  /** Every input has a run that keeps order, whichever bytes are chosen. */
  lemma {:induction false} EveryInputRuns(rows: seq<Row>, active: seq<bool>)
    returns (stages: seq<seq<Row>>, passes: seq<Pass>)
    requires forall i :: 0 <= i < |rows| ==> IsInt64(rows[i].key)
    ensures RadixRan(stages, passes, active) && StableRun(stages, passes, active) && stages[0] == Flipped(rows)
    ensures KernelRun(passes)
  {
    FlippedAreWords(rows);
    stages, passes := SomeOrderlyRun(Flipped(rows), active);
  }

  /** Two configurations of the same pass are the same. */
  lemma {:induction false} SameConfig(a: AtomicScatter.Config, b: AtomicScatter.Config)
    requires a.Valid() && b.Valid() && a.rows == b.rows && a.cls == b.cls && |a.base| == |b.base|
    ensures a == b
  {
    assert a.Counts() == b.Counts();
    assert a.base == b.base;
  }

  /** One pass: histogram, scan, scatter. */
  method RunPass(rows: seq<Row>, p: nat, pass: Pass, ghost after: seq<Row>) returns (out: seq<Row>)
    requires WordRows(rows) && PassRan(rows, after, p, pass)
    ensures out == after
  {
    var bytes := BytesAt(rows, p);
    BytesAreBytes(rows, p);
    var hist := RadixHistogram(bytes);
    var blocks := Blocks(|bytes|);
    var scan := GpuBuildRadixScan(hist[..], blocks);
    ghost var valid := PassConfigValid(rows, bytes, hist[..], scan[..]);
    var starts: seq<nat> := Starts(scan[..], blocks);
    SameConfig(PassConfig(rows, bytes, starts), pass.config);
    var buffers := new ScatterBuffers(rows, Classes(bytes), starts);
    buffers.Launch(pass.schedule);
    out := buffers.Slice(0, |rows|);
  }

  /** GroupbySumRadixGpu. mn and mx are the extremes found over the flipped keys; passes says in which order
      every chosen pass's increments and stores happen. The result always passes the checksum. Below 16384
      rows it is the GROUP BY exactly if the passes leave the rows sorted, from there on exactly if they
      leave equal keys together; and they sort when every pass keeps order and the extremes have no gap. */
  method GroupbySumRadix(rows: seq<Row>, mn: nat, mx: nat, signed: bool, passes: seq<Pass>,
                         ghost stages: seq<seq<Row>>) returns (out: seq<Group>)
    requires rows != [] && forall i :: 0 <= i < |rows| ==> IsInt64(rows[i].key)
    requires RadixRan(stages, passes, ActiveRadixBytes(mn, mx)) && stages[0] == Flipped(rows)
    requires HasExtremes(Words(stages[0]), mn, mx, signed)
    ensures ChecksumOk(rows, out)
    ensures |rows| < 16_384 ==> (HasKeySums(rows, out) <==> KeySorted(stages[8]))
    ensures |rows| >= 16_384 ==> (HasKeySums(rows, out) <==> KeysTogether(stages[8]))
    ensures Gapless(mn, mx) && StableRun(stages, passes, ActiveRadixBytes(mn, mx)) ==> HasKeySums(rows, out)
  {
    var active := ActiveRadixBytes(mn, mx);
    var current := Flipped(rows);
    for p := 0 to 8
      invariant current == stages[p]
    {
      if active[p] {
        current := RunPass(current, p, passes[p], stages[p + 1]);
      }
    }
    out := HostSegmentReduce(Unflipped(current));
    RunPermutes(stages, passes, active, 8);
    UnflippedIsInput(rows, current, out);
    if Gapless(mn, mx) && StableRun(stages, passes, active) {
      GaplessSorts(mn, mx, signed, stages, passes);
      SortedTogether(stages[8]);
    }
  }

  /** The rows that reach the segment reduce are the input's, in the order the passes left them. */
  lemma {:induction false} UnflippedIsInput(rows: seq<Row>, last: seq<Row>, out: seq<Group>)
    requires rows != [] && forall i :: 0 <= i < |rows| ==> IsInt64(rows[i].key)
    requires multiset(last) == multiset(Flipped(rows))
    requires var sent := Unflipped(last);
             && (HasKeySums(sent, out) <==> if |sent| < PARALLEL_ROWS then KeySorted(sent) else KeysTogether(sent))
             && GroupTotal(out) == Total(sent) && (out == [] <==> sent == [])
    ensures ChecksumOk(rows, out)
    ensures HasKeySums(rows, out) <==> if |rows| < 16_384 then KeySorted(last) else KeysTogether(last)
  {
    var sent := Unflipped(last);
    assert |last| == |multiset(last)| == |multiset(Flipped(rows))| == |rows|;
    SameKeyTotals(rows, last);
    SameArrangement(last);
    if HasKeySums(sent, out) {
      SameSums(sent, rows, out);
    }
    if HasKeySums(rows, out) {
      SameSums(rows, sent, out);
    }
  }

  /** Moving all keys by the same amount changes neither order nor neighbourhood. */
  lemma {:induction false} SameArrangement(last: seq<Row>)
    ensures KeySorted(Unflipped(last)) <==> KeySorted(last)
    ensures KeysTogether(Unflipped(last)) <==> KeysTogether(last)
  {
    SortedMoves(last, Unflipped(last), 0 - SIGN);
    SortedMoves(Unflipped(last), last, SIGN);
    TogetherMoves(last, Unflipped(last), 0 - SIGN);
    TogetherMoves(Unflipped(last), last, SIGN);
  }

  ghost predicate MovedBy(a: seq<Row>, b: seq<Row>, d: int) {
    |a| == |b| && forall i :: 0 <= i < |a| ==> b[i].key == a[i].key + d
  }

  lemma {:induction false} SortedMoves(a: seq<Row>, b: seq<Row>, d: int)
    requires MovedBy(a, b, d)
    ensures KeySorted(a) ==> KeySorted(b)
  {
    if KeySorted(a) {
      forall i, j | 0 <= i < j < |b| ensures b[i].key <= b[j].key {
        assert a[i].key <= a[j].key;
      }
    }
  }

  lemma {:induction false} TogetherMoves(a: seq<Row>, b: seq<Row>, d: int)
    requires MovedBy(a, b, d)
    ensures KeysTogether(a) ==> KeysTogether(b)
  {
    if KeysTogether(a) {
      forall x, y, z | 0 <= x < y < z < |b| && b[x].key == b[z].key ensures b[y].key == b[x].key {
        assert a[y].key == a[x].key;
      }
    }
  }

  lemma {:induction false} SameKeyTotals(rows: seq<Row>, last: seq<Row>)
    requires forall i :: 0 <= i < |rows| ==> IsInt64(rows[i].key)
    requires multiset(last) == multiset(Flipped(rows))
    ensures forall k ::
              KeySum(Unflipped(last), k) == KeySum(rows, k) && KeyCount(Unflipped(last), k) == KeyCount(rows, k)
    ensures Total(Unflipped(last)) == Total(rows)
  {
    FlipCounts(rows, Flipped(rows), 0);
    FlipCounts(Unflipped(last), last, 0);
    PermutationInvariant(last, Flipped(rows), 0);
    forall k ensures KeySum(Unflipped(last), k) == KeySum(rows, k) &&
      KeyCount(Unflipped(last), k) == KeyCount(rows, k) {
      FlipCounts(rows, Flipped(rows), k);
      FlipCounts(Unflipped(last), last, k);
      PermutationInvariant(last, Flipped(rows), k + SIGN);
    }
  }

  lemma {:induction false} SameSums(a: seq<Row>, b: seq<Row>, out: seq<Group>)
    requires forall k :: KeySum(a, k) == KeySum(b, k) && KeyCount(a, k) == KeyCount(b, k)
    requires HasKeySums(a, out)
    ensures HasKeySums(b, out)
  {
    forall r | 0 <= r < |b| ensures HasKey(out, b[r].key) {
      KeyCountPositive(b, b[r].key);
      KeyCountPositive(a, b[r].key);
      var i :| 0 <= i < |a| && a[i].key == b[r].key;
      assert HasKey(out, a[i].key);
    }
    forall i | 0 <= i < |out| ensures KeyCount(b, out[i].key) > 0 && out[i].sum == KeySum(b, out[i].key) {
      assert KeyCount(a, out[i].key) > 0;
    }
  }
}
