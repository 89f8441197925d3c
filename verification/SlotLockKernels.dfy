/** The slot-lock kernels on their mutable buffers, and the host function that launches them.
    Every method is tied to the step functions whose runs SlotLock and AtomicScatter analyse. */
module SlotLockKernels {
  import opened GroupBy
  import AtomicScatter
  import opened ScatterKernel
  import SlotLock
  import opened SlotLockGroupBy

  /** slot_state, slot_keys and slot_sums of one threadgroup. */
  class SlotTable {
    ghost const c: SlotLock.Config
    const rows: seq<Row>
    const threads: nat
    const hash: int -> nat
    const slotState: array<SlotLock.SlotState>
    const slotKeys: array<int>
    const slotSums: array<int>
    const pcs: array<SlotLock.PC>
    ghost var claimed: seq<SlotLock.Claim>
    ghost var holder: seq<int>
    ghost var outcome: seq<SlotLock.Outcome>

    ghost function Contents(): SlotLock.State
      reads this, slotState, slotKeys, slotSums, pcs
    {
      SlotLock.State(slotState[..], slotKeys[..], slotSums[..], pcs[..], claimed, holder, outcome)
    }

    ghost predicate Valid()
      reads this, slotState, slotKeys, slotSums, pcs
    {
      && c.Valid() && c.rows == rows && c.threads == threads && c.hash == hash
      && slotKeys != slotSums
      && SlotLock.Shape(c, Contents())
    }

    /** Every slot is set to EMPTY; keys and sums are whatever the memory held. */
    constructor (rows: seq<Row>, threads: nat, hash: int -> nat, keys0: seq<int>, sums0: seq<int>)
      requires SlotLock.Config(rows, threads, hash, keys0, sums0).Valid()
      ensures Valid() && fresh(slotState) && fresh(slotKeys) && fresh(slotSums) && fresh(pcs)
      ensures c == SlotLock.Config(rows, threads, hash, keys0, sums0)
      ensures Contents() == SlotLock.Init(c)
    {
      var config := SlotLock.Config(rows, threads, hash, keys0, sums0);
      c := config;
      this.rows, this.threads, this.hash := rows, threads, hash;
      slotState := new SlotLock.SlotState[SlotLock.SLOTS](_ => SlotLock.Empty);
      slotKeys := new int[SlotLock.SLOTS](j requires 0 <= j < SlotLock.SLOTS => keys0[j]);
      slotSums := new int[SlotLock.SLOTS](j requires 0 <= j < SlotLock.SLOTS => sums0[j]);
      pcs := new SlotLock.PC[threads](t requires 0 <= t < threads => SlotLock.FirstRow(config, t));
      claimed := seq(SlotLock.SLOTS, _ => SlotLock.Unclaimed);
      holder := seq(SlotLock.SLOTS, _ => -1);
      outcome := seq(|rows|, _ => SlotLock.Pending);
      new;
      assert slotKeys[..] == keys0 && slotSums[..] == sums0;
      assert Contents() == SlotLock.Init(c);
    }

    function NextRow(i: nat): SlotLock.PC {
      if i + threads < |rows| then SlotLock.Try(i + threads, 0, 0) else SlotLock.Finished(i + threads)
    }

    function SlotAt(k: int, dist: nat): (s: nat)
      ensures s < SlotLock.SLOTS
    {
      (hash(k) / 0x1_0000 % SlotLock.SLOTS + dist) % SlotLock.SLOTS
    }

    /** The top of the attempt loop: the slot's state decides what is attempted. */
    method StepTry(t: nat, ghost spurious: bool)
      requires Valid() && t < pcs.Length && pcs[t].Try?
      modifies this`outcome, pcs
      ensures Valid()
      ensures Contents() == SlotLock.StepProbing(c, old(Contents()), t, spurious)
    {
      var pc := pcs[t];
      assert SlotLock.PCOk(c, t, pcs[..][t]);
      var slot := SlotAt(rows[pc.i].key, pc.dist);
      if pc.attempt >= SlotLock.ATTEMPTS {
        outcome := outcome[pc.i := SlotLock.Dropped];
        pcs[t] := NextRow(pc.i);
      } else if slotState[slot].Empty? {
        pcs[t] := SlotLock.ClaimEmpty(pc.i, pc.attempt, pc.dist);
      } else if slotState[slot].Committed? {
        pcs[t] := SlotLock.ReadKey(pc.i, pc.attempt, pc.dist);
      } else {
        pcs[t] := SlotLock.Try(pc.i, pc.attempt + 1, pc.dist);
      }
      assert Contents() == SlotLock.StepProbing(c, old(Contents()), t, spurious);
    }

    /** One thread inside the attempt loop. */
    method StepProbing(t: nat, spurious: bool)
      requires Valid() && t < pcs.Length && pcs[t].Probing()
      modifies this`claimed, this`holder, this`outcome, slotState, pcs
      ensures Valid()
      ensures Contents() == SlotLock.StepProbing(c, old(Contents()), t, spurious)
    {
      var pc := pcs[t];
      assert SlotLock.PCOk(c, t, pcs[..][t]);
      if pc.Try? {
        StepTry(t, spurious);
        return;
      }
      var k := rows[pc.i].key;
      var slot := SlotAt(k, pc.dist);
      match pc {
        case ClaimEmpty(i, a, d) =>
          if slotState[slot].Empty? && !spurious {
            slotState[slot] := SlotLock.Locked;
            claimed := claimed[slot := SlotLock.ClaimedFor(k)];
            holder := holder[slot := t];
            pcs[t] := SlotLock.WriteKey(i, slot);
          } else {
            pcs[t] := SlotLock.Try(i, a + 1, d);
          }
        case ReadKey(i, a, d) =>
          pcs[t] := if slotKeys[slot] == k then SlotLock.Relock(i, a, d) else SlotLock.Try(i, a + 1, d + 1);
        case Relock(i, a, d) =>
          if slotState[slot].Committed? && !spurious {
            slotState[slot] := SlotLock.Locked;
            holder := holder[slot := t];
            pcs[t] := SlotLock.LoadSum(i, slot);
          } else {
            pcs[t] := SlotLock.Try(i, a + 1, d);
          }
      }
      assert Contents() == SlotLock.StepProbing(c, old(Contents()), t, spurious);
    }

    /** One thread that holds a lock. */
    method StepHolding(t: nat)
      requires Valid() && t < pcs.Length && pcs[t].Holding()
      modifies this`holder, this`outcome, slotState, slotKeys, slotSums, pcs
      ensures Valid()
      ensures Contents() == SlotLock.StepHolding(c, old(Contents()), t)
    {
      var pc := pcs[t];
      assert SlotLock.PCOk(c, t, pcs[..][t]);
      match pc {
        case WriteKey(i, slot) =>
          slotKeys[slot] := rows[i].key;
          pcs[t] := SlotLock.WriteSum(i, slot);
        case WriteSum(i, slot) =>
          slotSums[slot] := rows[i].value;
          outcome := outcome[i := SlotLock.Folded(slot)];
          pcs[t] := SlotLock.Publish(i, slot);
        case LoadSum(i, slot) =>
          pcs[t] := SlotLock.StoreSum(i, slot, slotSums[slot]);
        case StoreSum(i, slot, acc) =>
          slotSums[slot] := acc + rows[i].value;
          outcome := outcome[i := SlotLock.Folded(slot)];
          pcs[t] := SlotLock.Publish(i, slot);
        case Publish(i, slot) =>
          slotState[slot] := SlotLock.Committed;
          holder := holder[slot := -1];
          pcs[t] := NextRow(i);
      }
      assert Contents() == SlotLock.StepHolding(c, old(Contents()), t);
    }

    method StepThread(t: nat, spurious: bool)
      requires Valid()
      modifies this`claimed, this`holder, this`outcome, slotState, slotKeys, slotSums, pcs
      ensures Valid()
      ensures Contents() == SlotLock.Step(c, old(Contents()), t, spurious)
    {
      if t < pcs.Length && !pcs[t].Finished? {
        if pcs[t].Probing() {
          StepProbing(t, spurious);
        } else {
          StepHolding(t);
        }
      }
    }

    method Run(schedule: seq<SlotLock.Choice>)
      requires Valid() && Contents() == SlotLock.Init(c)
      modifies this`claimed, this`holder, this`outcome, slotState, slotKeys, slotSums, pcs
      ensures Valid()
      ensures Contents() == SlotLock.Exec(c, schedule)
    {
      for n := 0 to |schedule|
        invariant Valid()
        invariant Contents() == SlotLock.Exec(c, schedule[..n])
      {
        assert schedule[..n + 1][..n] == schedule[..n];
        StepThread(schedule[n].thread, schedule[n].spurious);
      }
      assert schedule[..|schedule|] == schedule;
    }

    /** The kernel's last loop, in slot order. */
    method Emit() returns (out: seq<Group>)
      requires Valid()
      ensures out == SlotLock.Emitted(Contents(), SlotLock.SLOTS)
    {
      out := [];
      for s := 0 to SlotLock.SLOTS
        invariant out == SlotLock.Emitted(Contents(), s)
      {
        if slotState[s].Committed? {
          out := out + [Group(slotKeys[s], slotSums[s], 0)];
        }
      }
    }
  }

  /** The partition_offsets the host computes from partition_counts. */
  method PartitionOffsets(rows: seq<Row>, hash: int -> nat, order: seq<nat>) returns (cls: seq<nat>, base: seq<nat>)
    requires multiset(order) == multiset(Partitions(rows, hash))
    ensures AtomicScatter.Config(rows, cls, base) == ScatterConfig(rows, hash)
  {
    cls := Partitions(rows, hash);
    var counts := new nat[PARTITIONS](_ => 0);
    AtomicScatter.CountClasses(cls, order, counts);
    var offsets := new nat[PARTITIONS + 1];
    AtomicScatter.ExclusiveScan(counts, offsets);
    base := offsets[..PARTITIONS];
    assert counts[..] == PartitionCounts(rows, hash);
  }

  /** One threadgroup of the aggregate kernel. */
  method AggregatePartition(run: Run, p: nat, slice: seq<Row>) returns (emitted: seq<Group>)
    requires run.Valid() && p < PARTITIONS && slice == run.Slice(p)
    ensures emitted == run.Emitted(p)
  {
    var launch := run.launches[p];
    var table := new SlotTable(slice, run.threads, run.hash, launch.keys0, launch.sums0);
    table.Run(launch.schedule);
    emitted := table.Emit();
  }

  /** Partition p's rows out of the scattered buffers, aggregated by its threadgroup. */
  method AggregateSlice(run: Run, buffers: ScatterBuffers, base: seq<nat>, p: nat) returns (emitted: seq<Group>)
    requires run.Valid() && p < PARTITIONS && buffers.Valid() && buffers.Contents() == run.Scattered()
    requires buffers.c == ScatterConfig(run.rows, run.hash) && base == buffers.c.base
    ensures emitted == run.Emitted(p)
  {
    AtomicScatter.RangeFits(buffers.c, p);
    var slice := buffers.Slice(base[p], base[p] + AtomicScatter.Occurs(buffers.cls, p));
    emitted := AggregatePartition(run, p, slice);
  }

  /** GroupbySumSlotlockGpu. `order` is the order in which the counting increments happen. */
  method GroupbySumSlotlock(run: Run, order: seq<nat>) returns (out: seq<Group>)
    requires run.Valid() && run.Finished()
    requires multiset(order) == multiset(Partitions(run.rows, run.hash))
    ensures out == SortByKey(run.AllEmitted(PARTITIONS))
    ensures run.NoneDropped() ==> HasKeySums(run.rows, out)
    ensures ChecksumOk(run.rows, out) <==> out != [] && run.Dropped(PARTITIONS) == 0
  {
    var cls, base := PartitionOffsets(run.rows, run.hash, order);
    ScatterConfigValid(run.rows, run.hash);
    var buffers := new ScatterBuffers(run.rows, cls, base);
    buffers.Launch(run.scatter);
    ghost var scattered := buffers.Contents();
    assert scattered == run.Scattered();
    var found: seq<Group> := [];
    for p := 0 to PARTITIONS
      invariant buffers.Valid() && buffers.Contents() == scattered
      invariant found == run.AllEmitted(p)
    {
      var emitted := AggregateSlice(run, buffers, base, p);
      found := found + emitted;
    }
    out := SortByKey(found);
    SortedResult(run, found);
  }

  lemma {:induction false} SortedResult(run: Run, found: seq<Group>)
    requires run.Valid() && run.Finished() && found == run.AllEmitted(PARTITIONS)
    ensures run.NoneDropped() ==> HasKeySums(run.rows, SortByKey(found))
    ensures ChecksumOk(run.rows, SortByKey(found)) <==> SortByKey(found) != [] && run.Dropped(PARTITIONS) == 0
  {
    ChecksumAcceptsExactlyZeroDrops(run, found);
    SortPermutes(found);
    if run.NoneDropped() {
      SlotLockIsGroupBy(run, found);
    }
  }
}
