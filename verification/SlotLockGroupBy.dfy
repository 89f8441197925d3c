/** The slot-lock path end to end: partition count, exclusive scan, atomic scatter, one slot-lock
    threadgroup per partition, and the host's sort and checksum. */
module SlotLockGroupBy {
  import opened Sums
  import opened GroupBy
  import AtomicScatter
  import SlotLock

  const PARTITIONS: nat := 32768

  function Partition(hash: int -> nat, key: int): (p: nat)
    ensures p < PARTITIONS
  {
    hash(key) % PARTITIONS
  }

  function Partitions(rows: seq<Row>, hash: int -> nat): (r: seq<nat>)
    ensures |r| == |rows| && forall i :: 0 <= i < |r| ==> r[i] == Partition(hash, rows[i].key)
  {
    seq(|rows|, i requires 0 <= i < |rows| => Partition(hash, rows[i].key))
  }

  function ScatterConfig(rows: seq<Row>, hash: int -> nat): (c: AtomicScatter.Config)
    ensures c.rows == rows && c.cls == Partitions(rows, hash) && |c.base| == PARTITIONS
  {
    var counts := PartitionCounts(rows, hash);
    AtomicScatter.Config(rows, Partitions(rows, hash),
                         seq(PARTITIONS, p requires 0 <= p < PARTITIONS => PrefixNat(counts, p)))
  }

  function PartitionCounts(rows: seq<Row>, hash: int -> nat): (r: seq<nat>)
    ensures |r| == PARTITIONS
    ensures forall p :: 0 <= p < PARTITIONS ==> r[p] == AtomicScatter.Occurs(Partitions(rows, hash), p)
  {
    var cls := Partitions(rows, hash);
    seq(PARTITIONS, p requires 0 <= p < PARTITIONS => AtomicScatter.Occurs(cls, p))
  }

  function PrefixNat(counts: seq<nat>, n: nat): (r: nat)
    requires n <= |counts|
    ensures r == Prefix(counts, n)
  {
    if n == 0 then 0 else PrefixNat(counts, n - 1) + counts[n - 1]
  }

  lemma {:induction false} ScatterConfigValid(rows: seq<Row>, hash: int -> nat)
    ensures ScatterConfig(rows, hash).Valid()
  {
    var c := ScatterConfig(rows, hash);
    AtomicScatter.CountsTotal(c.cls, c.Counts());
    assert c.Counts() == PartitionCounts(rows, hash);
  }

  // ---- One launch per partition ----

  /** What the scheduler and the uninitialised threadgroup memory contribute to one threadgroup. */
  datatype Launch = Launch(schedule: seq<SlotLock.Choice>, keys0: seq<int>, sums0: seq<int>)

  datatype Run = Run(rows: seq<Row>, hash: int -> nat, threads: nat, scatter: seq<nat>, launches: seq<Launch>) {
    ghost predicate Valid() {
      && threads > 0 && |launches| == PARTITIONS
      && (forall p :: 0 <= p < PARTITIONS ==>
            |launches[p].keys0| == SlotLock.SLOTS && |launches[p].sums0| == SlotLock.SLOTS)
    }

    ghost function Scattered(): (s: AtomicScatter.State)
      ensures AtomicScatter.Shape(ScatterConfig(rows, hash), s)
    {
      ScatterConfigValid(rows, hash);
      AtomicScatter.Exec(ScatterConfig(rows, hash), scatter)
    }

    /** The slice of the scattered rows that threadgroup p aggregates. */
    ghost function Slice(p: nat): seq<Row>
      requires p < PARTITIONS
    {
      ScatterConfigValid(rows, hash);
      AtomicScatter.RangeFits(ScatterConfig(rows, hash), p);
      AtomicScatter.ClassRange(ScatterConfig(rows, hash), Scattered(), p)
    }

    ghost function Config(p: nat): (c: SlotLock.Config)
      requires Valid() && p < PARTITIONS
      ensures c.Valid()
    {
      SlotLock.Config(Slice(p), threads, hash, launches[p].keys0, launches[p].sums0)
    }

    ghost function Final(p: nat): (s: SlotLock.State)
      requires Valid() && p < PARTITIONS
      ensures SlotLock.Shape(Config(p), s)
    {
      SlotLock.Exec(Config(p), launches[p].schedule)
    }

    /** Every kernel has run to its end. */
    ghost predicate Finished()
      requires Valid()
    {
      && AtomicScatter.AllDone(Scattered())
      && (forall p :: 0 <= p < PARTITIONS ==> SlotLock.AllFinished(Final(p)))
    }

    ghost function Emitted(p: nat): seq<Group>
      requires Valid() && p < PARTITIONS
    {
      SlotLock.Emitted(Final(p), SlotLock.SLOTS)
    }

    /** What the first n threadgroups emit, in partition order. */
    ghost function AllEmitted(n: nat): seq<Group>
      requires Valid() && n <= PARTITIONS
    {
      if n == 0 then [] else AllEmitted(n - 1) + Emitted(n - 1)
    }

    /** The values of all rows that used up their attempts, in the first n partitions. */
    ghost function Dropped(n: nat): int
      requires Valid() && n <= PARTITIONS
    {
      if n == 0 then 0
      else Dropped(n - 1) + Sum(SlotLock.DroppedParts(Config(n - 1), Final(n - 1).outcome))
    }

    ghost predicate NoneDropped()
      requires Valid()
    {
      forall p, i :: 0 <= p < PARTITIONS && 0 <= i < |Slice(p)| ==> !Final(p).outcome[i].Dropped?
    }
  }

  // ---- Slices against the input ----

  lemma {:induction false} SelectKeepsKey(rows: seq<Row>, cls: seq<nat>, p: nat, k: int)
    requires |rows| == |cls|
    requires forall i :: 0 <= i < |rows| && rows[i].key == k ==> cls[i] == p
    ensures KeySum(AtomicScatter.Select(rows, cls, p), k) == KeySum(rows, k)
    ensures KeyCount(AtomicScatter.Select(rows, cls, p), k) == KeyCount(rows, k)
  {
    if rows != [] {
      var n := |rows| - 1;
      SelectKeepsKey(rows[..n], cls[..n], p, k);
      if cls[n] == p {
        AppendRow(AtomicScatter.Select(rows[..n], cls[..n], p), rows[n], k);
      }
    }
  }

  lemma {:induction false} SelectHasOtherKeys(rows: seq<Row>, cls: seq<nat>, p: nat, k: int)
    requires |rows| == |cls|
    requires forall i :: 0 <= i < |rows| && rows[i].key == k ==> cls[i] != p
    ensures KeyCount(AtomicScatter.Select(rows, cls, p), k) == 0
  {
    if rows != [] {
      var n := |rows| - 1;
      SelectHasOtherKeys(rows[..n], cls[..n], p, k);
      if cls[n] == p {
        AppendRow(AtomicScatter.Select(rows[..n], cls[..n], p), rows[n], k);
      }
    }
  }

  /** A key's rows all reach its own partition, so its totals there are its totals overall. */
  lemma {:induction false} SliceOfKey(run: Run, p: nat, k: int)
    requires run.Valid() && run.Finished() && p < PARTITIONS
    ensures Partition(run.hash, k) == p ==>
              KeySum(run.Slice(p), k) == KeySum(run.rows, k) && KeyCount(run.Slice(p), k) == KeyCount(run.rows, k)
    ensures Partition(run.hash, k) != p ==> KeyCount(run.Slice(p), k) == 0
  {
    var c := ScatterConfig(run.rows, run.hash);
    ScatterConfigValid(run.rows, run.hash);
    AtomicScatter.RangeHoldsItsClass(c, run.scatter, p);
    PermutationInvariant(run.Slice(p), AtomicScatter.Select(c.rows, c.cls, p), k);
    if Partition(run.hash, k) == p {
      SelectKeepsKey(c.rows, c.cls, p, k);
    } else {
      SelectHasOtherKeys(c.rows, c.cls, p, k);
    }
  }

  function SelectTotals(rows: seq<Row>, cls: seq<nat>, parts: nat): (r: seq<int>)
    requires |rows| == |cls|
    ensures |r| == parts
  {
    seq(parts, p requires 0 <= p < parts => Total(AtomicScatter.Select(rows, cls, p)))
  }

  lemma {:induction false} SelectTotalsAddUp(rows: seq<Row>, cls: seq<nat>, parts: nat)
    requires |rows| == |cls| && forall i :: 0 <= i < |cls| ==> cls[i] < parts
    ensures Sum(SelectTotals(rows, cls, parts)) == Total(rows)
  {
    if rows == [] {
      SumZero(SelectTotals(rows, cls, parts), parts);
    } else {
      var n := |rows| - 1;
      SelectTotalsAddUp(rows[..n], cls[..n], parts);
      var before, after := SelectTotals(rows[..n], cls[..n], parts), SelectTotals(rows, cls, parts);
      forall p | 0 <= p < parts
        ensures after[p] == before[p] + if p == cls[n] then rows[n].value else 0
      {
        AppendRow(AtomicScatter.Select(rows[..n], cls[..n], p), rows[n], 0);
      }
      assert after == before[cls[n] := before[cls[n]] + rows[n].value];
      SumUpdate(before, cls[n], before[cls[n]] + rows[n].value);
    }
  }

  lemma {:induction false} PartitionBalance(run: Run, p: nat)
    requires run.Valid() && run.Finished() && p < PARTITIONS
    ensures GroupTotal(run.Emitted(p)) + Sum(SlotLock.DroppedParts(run.Config(p), run.Final(p).outcome)) ==
            Total(AtomicScatter.Select(run.rows, Partitions(run.rows, run.hash), p))
  {
    assert SlotLock.AllFinished(run.Final(p));
    SlotLock.NothingLostButDrops(run.Config(p), run.launches[p].schedule);
    ScatterConfigValid(run.rows, run.hash);
    var c := ScatterConfig(run.rows, run.hash);
    AtomicScatter.RangeHoldsItsClass(c, run.scatter, p);
    PermutationInvariant(run.Slice(p), AtomicScatter.Select(c.rows, c.cls, p), 0);
  }

  lemma {:induction false} EmittedAndDropped(run: Run, n: nat)
    requires run.Valid() && run.Finished() && n <= PARTITIONS
    ensures GroupTotal(run.AllEmitted(n)) + run.Dropped(n) ==
            Prefix(SelectTotals(run.rows, Partitions(run.rows, run.hash), PARTITIONS), n)
  {
    if n > 0 {
      EmittedAndDropped(run, n - 1);
      GroupTotalConcat(run.AllEmitted(n - 1), run.Emitted(n - 1));
      PartitionBalance(run, n - 1);
    }
  }

  /** Input total minus output total is the total of the dropped rows. */
  lemma {:induction false} InputMinusOutputIsDropped(run: Run)
    requires run.Valid() && run.Finished()
    ensures Total(run.rows) - GroupTotal(run.AllEmitted(PARTITIONS)) == run.Dropped(PARTITIONS)
  {
    EmittedAndDropped(run, PARTITIONS);
    SelectTotalsAddUp(run.rows, Partitions(run.rows, run.hash), PARTITIONS);
  }

  // ---- The output ----

  lemma {:induction false} EmittedKeysInPartition(run: Run, p: nat)
    requires run.Valid() && run.Finished() && p < PARTITIONS
    ensures DistinctKeys(run.Emitted(p))
    ensures forall g <- run.Emitted(p) :: Partition(run.hash, g.key) == p
  {
    assert SlotLock.AllFinished(run.Final(p));
    SlotLock.EmittedKeysAreRowKeys(run.Config(p), run.launches[p].schedule);
    forall g <- run.Emitted(p) ensures Partition(run.hash, g.key) == p {
      SliceOfKey(run, p, g.key);
    }
  }

  lemma {:induction false} AllEmittedDistinct(run: Run, n: nat)
    requires run.Valid() && run.Finished() && n <= PARTITIONS
    ensures DistinctKeys(run.AllEmitted(n))
    ensures forall g <- run.AllEmitted(n) :: Partition(run.hash, g.key) < n
  {
    if n > 0 {
      AllEmittedDistinct(run, n - 1);
      EmittedKeysInPartition(run, n - 1);
      var a, b, all := run.AllEmitted(n - 1), run.Emitted(n - 1), run.AllEmitted(n);
      forall i, j | 0 <= i < j < |all| ensures all[i].key != all[j].key {
        if i < |a| <= j {
          assert all[i] == a[i] && a[i] in a && all[j] == b[j - |a|] && b[j - |a|] in b;
        }
      }
    }
  }

  lemma {:induction false} AllEmittedExact(run: Run, n: nat)
    requires run.Valid() && run.Finished() && run.NoneDropped() && n <= PARTITIONS
    ensures forall g <- run.AllEmitted(n) :: KeyCount(run.rows, g.key) > 0 && g.sum == KeySum(run.rows, g.key)
  {
    if n > 0 {
      AllEmittedExact(run, n - 1);
      EmittedKeysInPartition(run, n - 1);
      SlotLock.FinishedPartition(run.Config(n - 1), run.launches[n - 1].schedule);
      forall g <- run.Emitted(n - 1) ensures KeyCount(run.rows, g.key) > 0 && g.sum == KeySum(run.rows, g.key) {
        SliceOfKey(run, n - 1, g.key);
      }
    }
  }

  lemma {:induction false} HasKeyConcat(a: seq<Group>, b: seq<Group>, k: int)
    ensures HasKey(a + b, k) <==> HasKey(a, k) || HasKey(b, k)
  {
    if i :| 0 <= i < |a| && a[i].key == k {
      assert (a + b)[i].key == k;
    }
    if i :| 0 <= i < |b| && b[i].key == k {
      assert (a + b)[|a| + i].key == k;
    }
  }

  lemma {:induction false} AllEmittedCovers(run: Run, n: nat, k: int)
    requires run.Valid() && run.Finished() && run.NoneDropped() && n <= PARTITIONS
    requires KeyCount(run.rows, k) > 0 && Partition(run.hash, k) < n
    ensures HasKey(run.AllEmitted(n), k)
  {
    HasKeyConcat(run.AllEmitted(n - 1), run.Emitted(n - 1), k);
    if Partition(run.hash, k) == n - 1 {
      SliceOfKey(run, n - 1, k);
      KeyCountPositive(run.Slice(n - 1), k);
      SlotLock.FinishedPartition(run.Config(n - 1), run.launches[n - 1].schedule);
    } else {
      AllEmittedCovers(run, n - 1, k);
    }
  }

  lemma {:induction false} DistinctWithout(a: seq<Group>, i: nat)
    requires DistinctKeys(a) && i < |a|
    ensures DistinctKeys(a[..i] + a[i + 1..])
    ensures forall g <- a[..i] + a[i + 1..] :: g.key != a[i].key
  {
    var rest := a[..i] + a[i + 1..];
    forall m | 0 <= m < |rest| ensures rest[m] == a[if m < i then m else m + 1] {
    }
  }

  lemma {:induction false} DistinctPermutes(a: seq<Group>, b: seq<Group>)
    requires DistinctKeys(a) && multiset(a) == multiset(b)
    ensures DistinctKeys(b)
  {
    if b != [] {
      var n := |b| - 1;
      assert b[n] in multiset(a);
      var i :| 0 <= i < |a| && a[i] == b[n];
      RemoveCommon(b, a, i);
      DistinctWithout(a, i);
      DistinctPermutes(a[..i] + a[i + 1..], b[..n]);
      forall j | 0 <= j < n ensures b[j].key != b[n].key {
        assert b[..n][j] in multiset(a[..i] + a[i + 1..]);
      }
    }
  }

  /** If no row uses up its 4096 attempts, then for every interleaving of the scatter and of every
      threadgroup, and every order in which groups reach the output buffer, the sorted result is
      exactly one row per key with that key's total. */
  lemma {:induction false} SlotLockIsGroupBy(run: Run, out: seq<Group>)
    requires run.Valid() && run.Finished() && run.NoneDropped()
    requires multiset(out) == multiset(run.AllEmitted(PARTITIONS))
    ensures HasKeySums(run.rows, SortByKey(out))
  {
    var all := run.AllEmitted(PARTITIONS);
    AllEmittedDistinct(run, PARTITIONS);
    AllEmittedExact(run, PARTITIONS);
    DistinctPermutes(all, out);
    forall i | 0 <= i < |out| ensures out[i] in all {
      assert out[i] in multiset(all);
    }
    forall r | 0 <= r < |run.rows| ensures HasKey(out, run.rows[r].key) {
      KeyCountPositive(run.rows, run.rows[r].key);
      AllEmittedCovers(run, PARTITIONS, run.rows[r].key);
      var i :| 0 <= i < |all| && all[i].key == run.rows[r].key;
      assert all[i] in multiset(out);
    }
    SortedGroupsMeetSpec(run.rows, out);
  }

  // ---- The checksum ----

  /** The checksum accepts a nonempty result exactly when the dropped values sum to zero. */
  lemma {:induction false} ChecksumAcceptsExactlyZeroDrops(run: Run, out: seq<Group>)
    requires run.Valid() && run.Finished()
    requires multiset(out) == multiset(run.AllEmitted(PARTITIONS))
    ensures ChecksumOk(run.rows, SortByKey(out)) <==> out != [] && run.Dropped(PARTITIONS) == 0
  {
    InputMinusOutputIsDropped(run);
    SortPermutes(out);
    GroupTotalPermutes(SortByKey(out), run.AllEmitted(PARTITIONS));
  }
}
