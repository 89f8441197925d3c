/** The halving tree reductions of the tile and radix kernels. Lanes between two barriers run
    in parallel, which is what a forall statement says: all reads happen before all writes. */
module TreeReduce {
  import opened Sums
  import opened NextPow2

  /** Folding the upper half of a range onto the lower half keeps the sum. */
  lemma {:induction false} HalvesFold(before: seq<int>, after: seq<int>, off: nat, n: nat)
    requires n <= off <= |after| && off + n <= |before|
    requires forall i :: 0 <= i < n ==> after[i] == before[i] + before[off + i]
    requires forall i :: n <= i < off ==> after[i] == before[i]
    ensures Prefix(after, off) == Prefix(before, off + n)
    decreases n
  {
    if n == 0 {
      PrefixDependsOnPrefix(after, before, off);
    } else {
      HalvesFold(before, after[n - 1 := before[n - 1]], off, n - 1);
      PrefixUpdate(after, n - 1, before[n - 1], off);
    }
  }

  /** tg_tree_add_n on the n cells from `base`: the first cell ends up with their sum. */
  method TreeAdd(buf: array<int>, base: nat, n: nat)
    requires IsPow2(n) && base + n <= buf.Length
    modifies buf
    ensures buf[base] == Sum(old(buf[base..base + n]))
    ensures forall i :: 0 <= i < buf.Length && !(base <= i < base + n) ==> buf[i] == old(buf[i])
  {
    ghost var start := buf[base..base + n];
    var off := n / 2;
    ghost var live: nat := n;
    while off > 0
      invariant IsPow2(live) && off == live / 2 && 1 <= live <= n
      invariant Prefix(buf[base..base + live], live) == Sum(start)
      invariant forall i :: 0 <= i < buf.Length && !(base <= i < base + n) ==> buf[i] == old(buf[i])
      decreases off
    {
      ghost var before := buf[base..base + live];
      forall lid | 0 <= lid < off {
        buf[base + lid] := buf[base + lid] + buf[base + lid + off];
      }
      HalvesFold(before, buf[base..base + off], off, off);
      live := off;
      off := off / 2;
    }
    assert buf[base..base + 1] == [buf[base]];
  }

  const LANES: nat := 256
  const REDUCE_BATCH: nat := 4

  lemma {:induction false} LanesArePow2()
    ensures IsPow2(LANES)
  {
  }

  /** Slot s of every lane. */
  function Column(lanes: seq<seq<int>>, s: nat): (r: seq<int>)
    requires forall l :: 0 <= l < |lanes| ==> s < |lanes[l]|
    ensures |r| == |lanes|
  {
    seq(|lanes|, l requires 0 <= l < |lanes| => lanes[l][s])
  }

  ghost predicate AllLanes(lanes: seq<seq<int>>, slots: nat) {
    && |lanes| == LANES
    && forall l :: 0 <= l < LANES ==> |lanes[l]| == slots
  }

  /** Loads slots base .. base + batch of every lane into the threadgroup buffer. */
  method LoadBatch(lanes: seq<seq<int>>, slots: nat, base: nat, batch: nat, tg: array<int>)
    requires AllLanes(lanes, slots) && base + batch <= slots
    requires batch <= REDUCE_BATCH && tg.Length == REDUCE_BATCH * LANES
    modifies tg
    ensures forall j :: 0 <= j < batch ==> tg[j * LANES..j * LANES + LANES] == Column(lanes, base + j)
  {
    for i := 0 to batch
      invariant forall j :: 0 <= j < i ==> tg[j * LANES..j * LANES + LANES] == Column(lanes, base + j)
    {
      ghost var before := tg[..];
      forall l | 0 <= l < LANES {
        tg[i * LANES + l] := lanes[l][base + i];
      }
      assert tg[i * LANES..i * LANES + LANES] == Column(lanes, base + i);
      forall j | 0 <= j < i ensures tg[j * LANES..j * LANES + LANES] == Column(lanes, base + j) {
        assert tg[j * LANES..j * LANES + LANES] == before[j * LANES..j * LANES + LANES];
      }
    }
  }

  /** Tree-adds the batch slots of the buffer into block[base ..]. */
  method ReduceBatch(lanes: seq<seq<int>>, slots: nat, base: nat, batch: nat, tg: array<int>, block: array<int>)
    requires AllLanes(lanes, slots) && base + batch <= slots == block.Length
    requires batch <= REDUCE_BATCH && tg.Length == REDUCE_BATCH * LANES && tg != block
    requires forall j :: 0 <= j < batch ==> tg[j * LANES..j * LANES + LANES] == Column(lanes, base + j)
    modifies tg, block
    ensures forall s :: 0 <= s < base ==> block[s] == old(block[s])
    ensures forall s :: base <= s < base + batch ==> block[s] == Sum(Column(lanes, s))
  {
    for i := 0 to batch
      invariant forall j :: i <= j < batch ==> tg[j * LANES..j * LANES + LANES] == Column(lanes, base + j)
      invariant forall s :: 0 <= s < base ==> block[s] == old(block[s])
      invariant forall s :: base <= s < base + i ==> block[s] == Sum(Column(lanes, s))
    {
      ghost var before := tg[..];
      LanesArePow2();
      TreeAdd(tg, i * LANES, LANES);
      forall j | i < j < batch ensures tg[j * LANES..j * LANES + LANES] == Column(lanes, base + j) {
        assert tg[j * LANES..j * LANES + LANES] == before[j * LANES..j * LANES + LANES];
      }
      block[base + i] := tg[i * LANES];
    }
  }

  /** The tile kernels' reduction: every lane's slot values, four slots to a batch, are summed
      over the 256 lanes. */
  method BlockReduce(lanes: seq<seq<int>>, slots: nat) returns (block: array<int>)
    requires AllLanes(lanes, slots)
    ensures fresh(block) && block.Length == slots
    ensures forall s :: 0 <= s < slots ==> block[s] == Sum(Column(lanes, s))
  {
    block := new int[slots];
    var tg := new int[REDUCE_BATCH * LANES];
    var base := 0;
    while base < slots
      invariant 0 <= base
      invariant forall s :: 0 <= s < slots && s < base ==> block[s] == Sum(Column(lanes, s))
    {
      var batch := if slots - base < REDUCE_BATCH then slots - base else REDUCE_BATCH;
      LoadBatch(lanes, slots, base, batch, tg);
      ReduceBatch(lanes, slots, base, batch, tg, block);
      base := base + REDUCE_BATCH;
    }
  }
}
