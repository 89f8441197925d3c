/** Which results the slot-lock path can return, and for which inputs its checksum is enough. A finished run
    keeps some rows and loses the others; it can be any rows that are kept, as long as no partition keeps more
    keys than it has slots. */
module SlotLockSound {
  import opened GroupBy
  import opened ScatterSchedules
  import opened SlotLockGroupBy
  import opened SlotLockKept
  import opened SlotLockRealised
  import opened Sums
  import AtomicScatter
  import SlotLock

  // ---- Rows of a partition ----

  function PartitionRows(rows: seq<Row>, hash: int -> nat, p: nat): seq<Row> {
    AtomicScatter.Select(rows, Partitions(rows, hash), p)
  }

  lemma {:induction false} PartitionMultiplicity(rows: seq<Row>, hash: int -> nat, p: nat, r: Row)
    ensures multiset(PartitionRows(rows, hash, p))[r] ==
            if Partition(hash, r.key) == p then multiset(rows)[r] else 0
  {
    if rows != [] {
      var n := |rows| - 1;
      PartitionMultiplicity(rows[..n], hash, p, r);
      assert Partitions(rows, hash)[..n] == Partitions(rows[..n], hash);
      assert rows == rows[..n] + [rows[n]];
    }
  }

  lemma {:induction false} SliceMultiplicity(run: Run, p: nat, r: Row)
    requires run.Valid() && run.Finished() && p < PARTITIONS
    ensures multiset(run.Slice(p))[r] == if Partition(run.hash, r.key) == p then multiset(run.rows)[r] else 0
  {
    ScatterConfigValid(run.rows, run.hash);
    AtomicScatter.RangeHoldsItsClass(ScatterConfig(run.rows, run.hash), run.scatter, p);
    PartitionMultiplicity(run.rows, run.hash, p, r);
  }

  // ---- What a run keeps ----

  ghost function KeptIn(run: Run, p: nat): seq<Row>
    requires run.Valid() && p < PARTITIONS
  {
    Kept(run.Slice(p), run.Final(p).outcome)
  }

  ghost function LostIn(run: Run, p: nat): seq<Row>
    requires run.Valid() && p < PARTITIONS
  {
    Lost(run.Slice(p), run.Final(p).outcome)
  }

  ghost function AllKept(run: Run, n: nat): seq<Row>
    requires run.Valid() && n <= PARTITIONS
  {
    if n == 0 then [] else AllKept(run, n - 1) + KeptIn(run, n - 1)
  }

  ghost function AllLost(run: Run, n: nat): seq<Row>
    requires run.Valid() && n <= PARTITIONS
  {
    if n == 0 then [] else AllLost(run, n - 1) + LostIn(run, n - 1)
  }

  lemma {:induction false} KeptOrLost(run: Run, n: nat, r: Row)
    requires run.Valid() && run.Finished() && n <= PARTITIONS
    ensures multiset(AllKept(run, n))[r] + multiset(AllLost(run, n))[r] ==
            if Partition(run.hash, r.key) < n then multiset(run.rows)[r] else 0
  {
    if n > 0 {
      KeptOrLost(run, n - 1, r);
      KeptAndLost(run.Slice(n - 1), run.Final(n - 1).outcome);
      SliceMultiplicity(run, n - 1, r);
      assert (multiset(KeptIn(run, n - 1)) + multiset(LostIn(run, n - 1)))[r] == multiset(run.Slice(n - 1))[r];
    }
  }

  lemma {:induction false} KeptInPartition(run: Run, p: nat, r: Row)
    requires run.Valid() && run.Finished() && p < PARTITIONS && r in KeptIn(run, p)
    ensures Partition(run.hash, r.key) == p
  {
    KeptAndLost(run.Slice(p), run.Final(p).outcome);
    SliceMultiplicity(run, p, r);
    assert r in multiset(KeptIn(run, p)) + multiset(LostIn(run, p));
  }

  lemma {:induction false} KeptBelow(run: Run, n: nat, r: Row)
    requires run.Valid() && run.Finished() && n <= PARTITIONS && r in AllKept(run, n)
    ensures Partition(run.hash, r.key) < n && r in KeptIn(run, Partition(run.hash, r.key))
  {
    if r in KeptIn(run, n - 1) {
      KeptInPartition(run, n - 1, r);
    } else {
      KeptBelow(run, n - 1, r);
    }
  }

  ghost predicate SameTotals(a: seq<Row>, b: seq<Row>, k: int) {
    KeySum(a, k) == KeySum(b, k) && KeyCount(a, k) == KeyCount(b, k)
  }

  lemma {:induction false} TotalsAppend(front: seq<Row>, part: seq<Row>, k: int)
    ensures SameTotals(part, [], k) ==> SameTotals(front + part, front, k)
    ensures SameTotals(front, [], k) ==> SameTotals(front + part, part, k)
  {
    ConcatSplits(front, part, k);
  }

  /** A key's kept rows are those of its partition. */
  lemma {:induction false} KeptOfKey(run: Run, n: nat, k: int)
    requires run.Valid() && run.Finished() && n <= PARTITIONS
    ensures SameTotals(AllKept(run, n),
                       if Partition(run.hash, k) < n then KeptIn(run, Partition(run.hash, k)) else [], k)
  {
    if n > 0 {
      KeptOfKey(run, n - 1, k);
      TotalsAppend(AllKept(run, n - 1), KeptIn(run, n - 1), k);
      if Partition(run.hash, k) != n - 1 {
        KeptElsewhere(run, n - 1, k);
      }
    }
  }

  lemma {:induction false} KeptElsewhere(run: Run, p: nat, k: int)
    requires run.Valid() && run.Finished() && p < PARTITIONS && Partition(run.hash, k) != p
    ensures SameTotals(KeptIn(run, p), [], k)
  {
    var kept := KeptIn(run, p);
    forall r | 0 <= r < |kept| ensures kept[r].key != k {
      KeptInPartition(run, p, kept[r]);
    }
    AbsentKey(kept, k);
  }

  /** Every partition emits the groups of the rows it kept. */
  lemma {:induction false} EmittedOfKept(run: Run, p: nat)
    requires run.Valid() && run.Finished() && p < PARTITIONS
    ensures GroupsOf(KeptIn(run, p), run.Emitted(p)) && |run.Emitted(p)| <= SlotLock.SLOTS
  {
    assert SlotLock.AllFinished(run.Final(p));
    PartitionIsKept(run.Config(p), run.launches[p].schedule);
  }

  lemma {:induction false} EmittedGroup(run: Run, n: nat, g: Group)
    requires run.Valid() && run.Finished() && n <= PARTITIONS && g in run.AllEmitted(n)
    ensures KeyCount(AllKept(run, n), g.key) > 0 && g.sum == KeySum(AllKept(run, n), g.key)
  {
    KeptOfKey(run, n, g.key);
    EmittedFrom(run, n, g);
  }

  lemma {:induction false} EmittedFrom(run: Run, n: nat, g: Group)
    requires run.Valid() && run.Finished() && n <= PARTITIONS && g in run.AllEmitted(n)
    ensures var p := Partition(run.hash, g.key);
            p < n && KeyCount(KeptIn(run, p), g.key) > 0 && g.sum == KeySum(KeptIn(run, p), g.key)
  {
    if g in run.Emitted(n - 1) {
      EmittedKeysInPartition(run, n - 1);
      EmittedOfKept(run, n - 1);
    } else {
      EmittedFrom(run, n - 1, g);
    }
  }

  lemma {:induction false} KeptEmitted(run: Run, n: nat, r: Row)
    requires run.Valid() && run.Finished() && n <= PARTITIONS && r in AllKept(run, n)
    ensures HasKey(run.AllEmitted(n), r.key)
  {
    HasKeyConcat(run.AllEmitted(n - 1), run.Emitted(n - 1), r.key);
    if r in KeptIn(run, n - 1) {
      EmittedOfKept(run, n - 1);
    } else {
      KeptEmitted(run, n - 1, r);
    }
  }

  // ---- What can be kept ----

  /** The rows are divided into kept and lost ones. */
  ghost predicate Split(rows: seq<Row>, kept: seq<Row>, lost: seq<Row>) {
    multiset(kept) + multiset(lost) == multiset(rows)
  }

  /** None of the 32768 partitions has more keys than a threadgroup has slots, 1024. */
  ghost predicate Fits(kept: seq<Row>, hash: int -> nat) {
    forall p :: 0 <= p < 32_768 ==> FitsPartition(kept, hash, p)
  }

  ghost predicate FitsPartition(kept: seq<Row>, hash: int -> nat, p: nat) {
    exists cover: seq<int> :: |cover| <= 1_024 && Lists(cover, kept, hash, p)
  }

  /** The list has all keys of the partition's rows. */
  ghost predicate Lists(cover: seq<int>, kept: seq<Row>, hash: int -> nat, p: nat) {
    forall r <- kept :: hash(r.key) % 32_768 == p ==> r.key in cover
  }

  function KeysOf(groups: seq<Group>): (keys: seq<int>)
    ensures |keys| == |groups|
  {
    seq(|groups|, i requires 0 <= i < |groups| => groups[i].key)
  }

  lemma {:induction false} KeyListed(groups: seq<Group>, k: int)
    requires HasKey(groups, k)
    ensures k in KeysOf(groups)
  {
    var i :| 0 <= i < |groups| && groups[i].key == k;
    assert KeysOf(groups)[i] == k;
  }

  lemma {:induction false} KeptFits(run: Run, p: nat)
    requires run.Valid() && run.Finished() && p < PARTITIONS
    ensures FitsPartition(AllKept(run, PARTITIONS), run.hash, p)
  {
    var cover := KeysOf(run.Emitted(p));
    EmittedOfKept(run, p);
    forall r <- AllKept(run, PARTITIONS) | Partition(run.hash, r.key) == p ensures r.key in cover {
      KeptBelow(run, PARTITIONS, r);
      KeyListed(run.Emitted(p), r.key);
    }
    assert Lists(cover, AllKept(run, PARTITIONS), run.hash, p);
  }

  /** Every finished run, whatever its schedules, returns the groups of rows it kept, and they fit. */
  lemma {:induction false} EveryRunKeeps(run: Run)
    requires run.Valid() && run.Finished()
    ensures Split(run.rows, AllKept(run, PARTITIONS), AllLost(run, PARTITIONS))
    ensures Fits(AllKept(run, PARTITIONS), run.hash)
    ensures GroupsOf(AllKept(run, PARTITIONS), run.AllEmitted(PARTITIONS))
  {
    var kept, lost := AllKept(run, PARTITIONS), AllLost(run, PARTITIONS);
    forall r: Row ensures multiset(kept)[r] + multiset(lost)[r] == multiset(run.rows)[r] {
      KeptOrLost(run, PARTITIONS, r);
    }
    forall p | 0 <= p < PARTITIONS ensures FitsPartition(kept, run.hash, p) {
      KeptFits(run, p);
    }
    AllEmittedDistinct(run, PARTITIONS);
    forall g <- run.AllEmitted(PARTITIONS) ensures KeyCount(kept, g.key) > 0 && g.sum == KeySum(kept, g.key) {
      EmittedGroup(run, PARTITIONS, g);
    }
    forall r <- kept ensures HasKey(run.AllEmitted(PARTITIONS), r.key) {
      KeptEmitted(run, PARTITIONS, r);
    }
  }

  // ---- A run for every choice ----

  function Flagged(rows: seq<Row>, flags: seq<bool>): seq<Row>
    requires |flags| == |rows|
  {
    if rows == [] then []
    else
      var n := |rows| - 1;
      Flagged(rows[..n], flags[..n]) + if flags[n] then [rows[n]] else []
  }

  lemma {:induction false} KeptIsFlagged(rows: seq<Row>, outcome: seq<SlotLock.Outcome>, flags: seq<bool>)
    requires |outcome| == |rows| == |flags| && forall i :: 0 <= i < |rows| ==> (outcome[i].Dropped? <==> !flags[i])
    ensures Kept(rows, outcome) == Flagged(rows, flags)
  {
    if rows != [] {
      var n := |rows| - 1;
      KeptIsFlagged(rows[..n], outcome[..n], flags[..n]);
    }
  }

  /** Rows can be flagged so that the flagged ones are any given ones of them. */
  lemma {:induction false} ChooseFlags(rows: seq<Row>, kept: multiset<Row>) returns (flags: seq<bool>)
    requires kept <= multiset(rows)
    ensures |flags| == |rows| && multiset(Flagged(rows, flags)) == kept
  {
    if rows == [] {
      flags := [];
    } else {
      var n := |rows| - 1;
      var front, last := rows[..n], rows[n];
      assert rows == front + [last];
      if kept <= multiset(front) {
        var more := ChooseFlags(front, kept);
        flags := more + [false];
        assert flags[..n] == more;
      } else {
        OneMoreNeeded(kept, multiset(front), last);
        var more := ChooseFlags(front, kept - multiset{last});
        flags := more + [true];
        assert flags[..n] == more;
      }
    }
  }

  lemma {:induction false} OneMoreNeeded(kept: multiset<Row>, front: multiset<Row>, last: Row)
    requires kept <= front + multiset{last} && !(kept <= front)
    ensures last in kept && kept - multiset{last} <= front
  {
    var r :| kept[r] > front[r];
    assert kept[r] <= (front + multiset{last})[r];
    assert r == last;
  }

  lemma {:induction false} FlaggedAt(rows: seq<Row>, flags: seq<bool>, i: nat)
    requires |flags| == |rows| && i < |rows| && flags[i]
    ensures rows[i] in Flagged(rows, flags)
  {
    if i < |rows| - 1 {
      FlaggedAt(rows[..|rows| - 1], flags[..|rows| - 1], i);
    }
  }

  /** Launch p keeps exactly partition p's rows among `kept`. */
  ghost predicate LaunchKeeps(run: Run, kept: seq<Row>, p: nat, launch: Launch)
    requires run.Valid() && p < PARTITIONS
  {
    && |launch.keys0| == |launch.sums0| == SlotLock.SLOTS
    && var c := SlotLock.Config(run.Slice(p), run.threads, run.hash, launch.keys0, launch.sums0);
    && SlotLock.AllFinished(SlotLock.Exec(c, launch.schedule))
    && multiset(Kept(run.Slice(p), SlotLock.Exec(c, launch.schedule).outcome)) ==
       multiset(PartitionRows(kept, run.hash, p))
  }

  /** One threadgroup that keeps exactly the partition's rows among `kept`. */
  lemma {:induction false} SomeLaunch(run: Run, kept: seq<Row>, lost: seq<Row>, p: nat) returns (launch: Launch)
    requires run.Valid() && AtomicScatter.AllDone(run.Scattered()) && p < PARTITIONS
    requires Split(run.rows, kept, lost) && Fits(kept, run.hash)
    ensures LaunchKeeps(run, kept, p, launch)
  {
    var slice, mine := run.Slice(p), PartitionRows(kept, run.hash, p);
    MineAmongSlice(run, kept, lost, p);
    var flags := ChooseFlags(slice, multiset(mine));
    assert FitsPartition(kept, run.hash, p);
    var cover: seq<int> :| |cover| <= SlotLock.SLOTS && Lists(cover, kept, run.hash, p);
    var zeros := seq(SlotLock.SLOTS, _ => 0);
    var c := SlotLock.Config(slice, run.threads, run.hash, zeros, zeros);
    forall i | 0 <= i < |slice| && flags[i] ensures slice[i].key in cover {
      FlaggedAt(slice, flags, i);
      PartitionMultiplicity(kept, run.hash, p, slice[i]);
      assert slice[i] in multiset(Flagged(slice, flags));
      assert slice[i] in multiset(kept);
    }
    var schedule := AnyRowsKept(c, flags, cover);
    KeptIsFlagged(slice, SlotLock.Exec(c, schedule).outcome, flags);
    launch := Launch(schedule, zeros, zeros);
  }

  lemma {:induction false} MineAmongSlice(run: Run, kept: seq<Row>, lost: seq<Row>, p: nat)
    requires run.Valid() && AtomicScatter.AllDone(run.Scattered()) && p < PARTITIONS && Split(run.rows, kept, lost)
    ensures multiset(PartitionRows(kept, run.hash, p)) <= multiset(run.Slice(p))
  {
    ScatterConfigValid(run.rows, run.hash);
    AtomicScatter.RangeHoldsItsClass(ScatterConfig(run.rows, run.hash), run.scatter, p);
    forall r: Row ensures multiset(PartitionRows(kept, run.hash, p))[r] <= multiset(run.Slice(p))[r] {
      PartitionMultiplicity(kept, run.hash, p, r);
      PartitionMultiplicity(run.rows, run.hash, p, r);
      assert multiset(run.rows)[r] == multiset(kept)[r] + multiset(lost)[r];
    }
  }

  lemma {:induction false} SomeLaunches(run: Run, kept: seq<Row>, lost: seq<Row>, n: nat)
    returns (launches: seq<Launch>)
    requires run.Valid() && AtomicScatter.AllDone(run.Scattered()) && n <= PARTITIONS
    requires Split(run.rows, kept, lost) && Fits(kept, run.hash)
    ensures |launches| == n && forall p :: 0 <= p < n ==> LaunchKeeps(run, kept, p, launches[p])
  {
    launches := [];
    if n > 0 {
      var before := SomeLaunches(run, kept, lost, n - 1);
      var launch := SomeLaunch(run, kept, lost, n - 1);
      launches := before + [launch];
    }
  }

  /** Before the launches: the rows scattered, one after the other. */
  lemma {:induction false} ScatteredRun(rows: seq<Row>, hash: int -> nat, threads: nat) returns (run: Run)
    requires threads > 0
    ensures run.Valid() && AtomicScatter.AllDone(run.Scattered())
    ensures run.rows == rows && run.hash == hash && run.threads == threads
  {
    var zeros := seq(SlotLock.SLOTS, _ => 0);
    run := Run(rows, hash, threads, Rounds(|rows|), seq(PARTITIONS, _ => Launch([], zeros, zeros)));
    ScatterConfigValid(rows, hash);
    RoundsFinish(ScatterConfig(rows, hash), [], |rows|);
    assert [] + Rounds(|rows|) == Rounds(|rows|);
  }

  lemma {:induction false} RunOfLaunches(run: Run, run2: Run, kept: seq<Row>)
    requires run.Valid() && AtomicScatter.AllDone(run.Scattered()) && |run2.launches| == PARTITIONS
    requires run2 == run.(launches := run2.launches)
    requires forall p :: 0 <= p < PARTITIONS ==> LaunchKeeps(run, kept, p, run2.launches[p])
    ensures run2.Valid() && run2.Finished()
    ensures forall p :: 0 <= p < PARTITIONS ==>
              multiset(KeptIn(run2, p)) == multiset(PartitionRows(kept, run2.hash, p))
  {
    forall p | 0 <= p < PARTITIONS ensures |run2.launches[p].keys0| == |run2.launches[p].sums0| == SlotLock.SLOTS {
      assert LaunchKeeps(run, kept, p, run2.launches[p]);
    }
    forall p | 0 <= p < PARTITIONS
      ensures SlotLock.AllFinished(run2.Final(p))
      ensures multiset(KeptIn(run2, p)) == multiset(PartitionRows(kept, run2.hash, p))
    {
      assert LaunchKeeps(run, kept, p, run2.launches[p]);
      assert run2.Slice(p) == run.Slice(p);
    }
  }

  lemma {:induction false} KeepsGiven(run: Run, kept: seq<Row>, n: nat, r: Row)
    requires run.Valid() && n <= PARTITIONS
    requires forall p :: 0 <= p < PARTITIONS ==> multiset(KeptIn(run, p)) == multiset(PartitionRows(kept, run.hash, p))
    ensures multiset(AllKept(run, n))[r] == if Partition(run.hash, r.key) < n then multiset(kept)[r] else 0
  {
    if n > 0 {
      KeepsGiven(run, kept, n - 1, r);
      PartitionMultiplicity(kept, run.hash, n - 1, r);
      assert multiset(KeptIn(run, n - 1))[r] == multiset(PartitionRows(kept, run.hash, n - 1))[r];
    }
  }

  /** Any rows that fit can be the ones that are kept. */
  lemma {:induction false} EveryChoiceRuns(rows: seq<Row>, hash: int -> nat, threads: nat, kept: seq<Row>,
                                           lost: seq<Row>) returns (run: Run)
    requires threads > 0 && Split(rows, kept, lost) && Fits(kept, hash)
    ensures run.Valid() && run.Finished() && run.rows == rows && run.hash == hash && run.threads == threads
    ensures multiset(AllKept(run, PARTITIONS)) == multiset(kept)
  {
    var base := ScatteredRun(rows, hash, threads);
    var launches := SomeLaunches(base, kept, lost, PARTITIONS);
    run := base.(launches := launches);
    RunOfLaunches(base, run, kept);
    forall r: Row ensures multiset(AllKept(run, PARTITIONS))[r] == multiset(kept)[r] {
      KeepsGiven(run, kept, PARTITIONS, r);
    }
  }

  // ---- Totals ----

  function GroupSums(rows: seq<Row>, out: seq<Group>): (r: seq<int>)
    ensures |r| == |out|
  {
    seq(|out|, i requires 0 <= i < |out| => KeySum(rows, out[i].key))
  }

  /** If every row's key is listed once, the keys' sums add up to the rows' total. */
  lemma {:induction false} GroupSumsAddUp(rows: seq<Row>, out: seq<Group>)
    requires DistinctKeys(out) && forall r :: 0 <= r < |rows| ==> HasKey(out, rows[r].key)
    ensures Sum(GroupSums(rows, out)) == Total(rows)
  {
    if rows == [] {
      SumZero(GroupSums(rows, out), |out|);
    } else {
      var n := |rows| - 1;
      assert HasKey(out, rows[n].key);
      GroupSumsAddUp(rows[..n], out);
      var at :| 0 <= at < |out| && out[at].key == rows[n].key;
      NextSum(rows, out, at);
    }
  }

  lemma {:induction false} NextSum(rows: seq<Row>, out: seq<Group>, at: nat)
    requires rows != [] && DistinctKeys(out) && at < |out| && out[at].key == rows[|rows| - 1].key
    ensures Sum(GroupSums(rows, out)) == Sum(GroupSums(rows[..|rows| - 1], out)) + rows[|rows| - 1].value
  {
    var n := |rows| - 1;
    var before, after := GroupSums(rows[..n], out), GroupSums(rows, out);
    forall i | 0 <= i < |out| ensures after[i] == before[i] + if i == at then rows[n].value else 0 {
      assert i != at ==> out[i].key != out[at].key;
    }
    assert after == before[at := before[at] + rows[n].value];
    SumUpdate(before, at, before[at] + rows[n].value);
  }

  lemma {:induction false} GroupTotalIsSum(out: seq<Group>, sums: seq<int>)
    requires |sums| == |out| && forall i :: 0 <= i < |out| ==> sums[i] == out[i].sum
    ensures GroupTotal(out) == Sum(sums)
  {
    if out != [] {
      var n := |out| - 1;
      GroupTotalIsSum(out[..n], sums[..n]);
      assert sums == sums[..n] + [sums[n]];
      SumAppend(sums[..n], sums[n]);
    }
  }

  /** The groups of a GROUP BY carry the total of the rows. */
  lemma {:induction false} GroupByTotal(rows: seq<Row>, out: seq<Group>)
    requires HasKeySums(rows, out)
    ensures GroupTotal(out) == Total(rows)
  {
    GroupSumsAddUp(rows, out);
    GroupTotalIsSum(out, GroupSums(rows, out));
  }

  // ---- What a result is worth ----

  /** The same keys with the same sums. */
  ghost predicate SameGroups(kept: seq<Row>, rows: seq<Row>) {
    forall k :: SameGroup(kept, rows, k)
  }

  ghost predicate SameGroup(kept: seq<Row>, rows: seq<Row>, k: int) {
    KeySum(kept, k) == KeySum(rows, k) && (KeyCount(kept, k) > 0 <==> KeyCount(rows, k) > 0)
  }

  lemma {:induction false} GroupsPermute(a: seq<Row>, b: seq<Row>, emitted: seq<Group>, out: seq<Group>)
    requires multiset(a) == multiset(b) && multiset(emitted) == multiset(out) && GroupsOf(a, emitted)
    ensures GroupsOf(b, out)
  {
    DistinctPermutes(emitted, out);
    forall g <- out ensures KeyCount(b, g.key) > 0 && g.sum == KeySum(b, g.key) {
      assert g in multiset(emitted);
      PermutationInvariant(a, b, g.key);
    }
    forall r <- b ensures HasKey(out, r.key) {
      assert r in multiset(a);
      assert HasKey(emitted, r.key);
      var i :| 0 <= i < |emitted| && emitted[i].key == r.key;
      assert emitted[i] in multiset(out);
    }
  }

  /** The sorted result is the GROUP BY of what was kept. */
  lemma {:induction false} ResultOfKept(kept: seq<Row>, out: seq<Group>)
    requires GroupsOf(kept, out)
    ensures HasKeySums(kept, SortByKey(out)) && GroupTotal(SortByKey(out)) == Total(kept)
    ensures SortByKey(out) == [] <==> kept == []
  {
    forall i | 0 <= i < |out| ensures KeyCount(kept, out[i].key) > 0 && out[i].sum == KeySum(kept, out[i].key) {
      assert out[i] in out;
    }
    forall r | 0 <= r < |kept| ensures HasKey(out, kept[r].key) {
      assert kept[r] in kept;
    }
    SortedGroupsMeetSpec(kept, out);
    GroupByTotal(kept, SortByKey(out));
    var result := SortByKey(out);
    if kept != [] {
      assert HasKey(result, kept[0].key);
    }
    if result != [] {
      KeyCountPositive(kept, result[0].key);
    }
  }

  lemma {:induction false} AcceptedIff(rows: seq<Row>, kept: seq<Row>, lost: seq<Row>, result: seq<Group>)
    requires Split(rows, kept, lost) && GroupTotal(result) == Total(kept) && (result == [] <==> kept == [])
    ensures ChecksumOk(rows, result) <==> kept != [] && Total(lost) == 0
  {
    PermutationInvariant(rows, kept + lost, 0);
    ConcatSplits(kept, lost, 0);
  }

  lemma {:induction false} RightIff(rows: seq<Row>, kept: seq<Row>, result: seq<Group>)
    requires HasKeySums(kept, result)
    ensures HasKeySums(rows, result) <==> SameGroups(kept, rows)
  {
    if HasKeySums(rows, result) {
      forall k ensures SameGroup(kept, rows, k) {
        GroupOrNone(kept, result, k);
        GroupOrNone(rows, result, k);
      }
    }
    if SameGroups(kept, rows) {
      forall i | 0 <= i < |result|
        ensures KeyCount(rows, result[i].key) > 0 && result[i].sum == KeySum(rows, result[i].key)
      {
        assert SameGroup(kept, rows, result[i].key);
      }
      forall r | 0 <= r < |rows| ensures HasKey(result, rows[r].key) {
        KeyCountPositive(rows, rows[r].key);
        assert SameGroup(kept, rows, rows[r].key);
        GroupOrNone(kept, result, rows[r].key);
      }
    }
  }

  /** A key is listed exactly if it occurs; if it does not, it has no sum. */
  lemma {:induction false} GroupOrNone(rows: seq<Row>, result: seq<Group>, k: int)
    requires HasKeySums(rows, result)
    ensures HasKey(result, k) <==> KeyCount(rows, k) > 0
    ensures !HasKey(result, k) ==> KeySum(rows, k) == 0
    ensures forall i :: 0 <= i < |result| && result[i].key == k ==> result[i].sum == KeySum(rows, k)
  {
    KeyCountPositive(rows, k);
    if !HasKey(result, k) {
      AbsentKey(rows, k);
    }
  }

  // ---- When the checksum is enough ----

  /** Rows of total zero can be lost so that what is left fits, is not nothing, and has other groups. */
  ghost predicate SilentLoss(rows: seq<Row>, hash: int -> nat) {
    exists kept, lost ::
      Split(rows, kept, lost) && Total(lost) == 0 && kept != [] && Fits(kept, hash) && !SameGroups(kept, rows)
  }

  /** A finished run over the rows, its groups in some order, and the checksum content. */
  ghost predicate AcceptedRun(run: Run, rows: seq<Row>, hash: int -> nat, threads: nat, out: seq<Group>) {
    && run.Valid() && run.Finished() && run.rows == rows && run.hash == hash && run.threads == threads
    && multiset(out) == multiset(run.AllEmitted(PARTITIONS)) && ChecksumOk(rows, SortByKey(out))
  }

  ghost predicate ChecksumEnough(rows: seq<Row>, hash: int -> nat, threads: nat) {
    forall run: Run, out: seq<Group> ::
      AcceptedRun(run, rows, hash, threads, out) ==> HasKeySums(rows, SortByKey(out))
  }

  lemma {:induction false} AcceptedIsRight(run: Run, rows: seq<Row>, hash: int -> nat, threads: nat, out: seq<Group>)
    requires AcceptedRun(run, rows, hash, threads, out) && !SilentLoss(rows, hash)
    ensures HasKeySums(rows, SortByKey(out))
  {
    var kept, lost := AllKept(run, PARTITIONS), AllLost(run, PARTITIONS);
    EveryRunKeeps(run);
    GroupsPermute(kept, kept, run.AllEmitted(PARTITIONS), out);
    ResultOfKept(kept, out);
    AcceptedIff(rows, kept, lost, SortByKey(out));
    RightIff(rows, kept, SortByKey(out));
  }

  lemma {:induction false} LossIsAccepted(rows: seq<Row>, hash: int -> nat, threads: nat, kept: seq<Row>,
                                          lost: seq<Row>) returns (run: Run, out: seq<Group>)
    requires threads > 0 && Split(rows, kept, lost) && Total(lost) == 0 && kept != [] && Fits(kept, hash)
    requires !SameGroups(kept, rows)
    ensures AcceptedRun(run, rows, hash, threads, out) && !HasKeySums(rows, SortByKey(out))
  {
    run := EveryChoiceRuns(rows, hash, threads, kept, lost);
    out := run.AllEmitted(PARTITIONS);
    EveryRunKeeps(run);
    GroupsPermute(AllKept(run, PARTITIONS), kept, out, out);
    ResultOfKept(kept, out);
    AcceptedIff(rows, kept, lost, SortByKey(out));
    RightIff(rows, kept, SortByKey(out));
  }

  /** Exactly for which inputs the checksum is enough: every run it accepts, on whatever schedules, returns the
      GROUP BY if and only if no rows of total zero can be lost with a trace in the groups. */
  lemma {:induction false} ChecksumEnoughIff(rows: seq<Row>, hash: int -> nat, threads: nat)
    requires threads > 0
    ensures ChecksumEnough(rows, hash, threads) <==> !SilentLoss(rows, hash)
  {
    if SilentLoss(rows, hash) {
      var kept, lost :| Split(rows, kept, lost) && Total(lost) == 0 && kept != [] && Fits(kept, hash) &&
                        !SameGroups(kept, rows);
      var run, out := LossIsAccepted(rows, hash, threads, kept, lost);
      assert !ChecksumEnough(rows, hash, threads);
    } else {
      forall run: Run, out: seq<Group> | AcceptedRun(run, rows, hash, threads, out)
        ensures HasKeySums(rows, SortByKey(out))
      {
        AcceptedIsRight(run, rows, hash, threads, out);
      }
    }
  }

  // ---- Positive values, and values that cancel ----

  ghost predicate AllPositive(rows: seq<Row>) {
    forall r :: 0 <= r < |rows| ==> rows[r].value > 0
  }

  lemma {:induction false} PositiveTotal(rows: seq<Row>)
    requires AllPositive(rows)
    ensures Total(rows) >= 0 && (Total(rows) == 0 <==> rows == [])
  {
    if rows != [] {
      PositiveTotal(rows[..|rows| - 1]);
    }
  }

  lemma {:induction false} PositiveLoss(rows: seq<Row>, kept: seq<Row>, lost: seq<Row>)
    requires AllPositive(rows) && Split(rows, kept, lost) && Total(lost) == 0
    ensures SameGroups(kept, rows)
  {
    forall r | 0 <= r < |lost| ensures lost[r].value > 0 {
      assert lost[r] in multiset(kept) + multiset(lost);
      assert lost[r] in multiset(rows);
    }
    PositiveTotal(lost);
    forall k ensures SameGroup(kept, rows, k) {
      PermutationInvariant(kept, rows, k);
    }
  }

  /** Where every value is positive, the checksum accepts exactly the GROUP BY of a nonempty input. */
  lemma {:induction false} PositiveChecksumIff(run: Run, out: seq<Group>)
    requires run.Valid() && run.Finished() && AllPositive(run.rows)
    requires multiset(out) == multiset(run.AllEmitted(PARTITIONS))
    ensures ChecksumOk(run.rows, SortByKey(out)) <==> run.rows != [] && HasKeySums(run.rows, SortByKey(out))
  {
    var kept, lost, result := AllKept(run, PARTITIONS), AllLost(run, PARTITIONS), SortByKey(out);
    EveryRunKeeps(run);
    GroupsPermute(kept, kept, run.AllEmitted(PARTITIONS), out);
    ResultOfKept(kept, out);
    AcceptedIff(run.rows, kept, lost, result);
    RightIff(run.rows, kept, result);
    if ChecksumOk(run.rows, result) {
      PositiveLoss(run.rows, kept, lost);
      assert kept[0] in multiset(kept) + multiset(lost);
    }
    if run.rows != [] && HasKeySums(run.rows, result) {
      GroupByTotal(run.rows, result);
      assert HasKey(result, run.rows[0].key);
    }
  }

  function OtherRows(rows: seq<Row>, hash: int -> nat, p: nat): seq<Row> {
    if rows == [] then []
    else
      var n := |rows| - 1;
      OtherRows(rows[..n], hash, p) + if Partition(hash, rows[n].key) == p then [] else [rows[n]]
  }

  lemma {:induction false} OtherMultiplicity(rows: seq<Row>, hash: int -> nat, p: nat, r: Row)
    ensures multiset(OtherRows(rows, hash, p))[r] == if Partition(hash, r.key) == p then 0 else multiset(rows)[r]
  {
    if rows != [] {
      var n := |rows| - 1;
      OtherMultiplicity(rows[..n], hash, p, r);
      assert rows == rows[..n] + [rows[n]];
    }
  }

  lemma {:induction false} SplitOff(rows: seq<Row>, hash: int -> nat, p: nat)
    ensures Split(rows, OtherRows(rows, hash, p), PartitionRows(rows, hash, p))
    ensures Fits(rows, hash) ==> Fits(OtherRows(rows, hash, p), hash)
    ensures forall r <- OtherRows(rows, hash, p) :: Partition(hash, r.key) != p
  {
    var kept, lost := OtherRows(rows, hash, p), PartitionRows(rows, hash, p);
    forall r: Row ensures (multiset(kept) + multiset(lost))[r] == multiset(rows)[r] {
      OtherMultiplicity(rows, hash, p, r);
      PartitionMultiplicity(rows, hash, p, r);
    }
    forall r <- kept ensures Partition(hash, r.key) != p && r in rows {
      OtherMultiplicity(rows, hash, p, r);
      assert r in multiset(kept);
    }
    if Fits(rows, hash) {
      forall q | 0 <= q < PARTITIONS ensures FitsPartition(kept, hash, q) {
        FewerFit(rows, kept, hash, q);
      }
    }
  }

  lemma {:induction false} FewerFit(rows: seq<Row>, kept: seq<Row>, hash: int -> nat, q: nat)
    requires FitsPartition(rows, hash, q) && forall r <- kept :: r in rows
    ensures FitsPartition(kept, hash, q)
  {
    var cover: seq<int> :| |cover| <= SlotLock.SLOTS && Lists(cover, rows, hash, q);
    assert Lists(cover, kept, hash, q);
  }

  /** Values that cancel: where the keys fit the slots, a partition of total zero beside another one can be
      lost whole without the checksum noticing. */
  lemma {:induction false} ZeroSumPartitionLost(rows: seq<Row>, hash: int -> nat, p: nat, r: nat, o: nat)
    requires Fits(rows, hash) && Total(PartitionRows(rows, hash, p)) == 0
    requires r < |rows| && Partition(hash, rows[r].key) == p && o < |rows| && Partition(hash, rows[o].key) != p
    ensures SilentLoss(rows, hash)
  {
    var kept, lost, k := OtherRows(rows, hash, p), PartitionRows(rows, hash, p), rows[r].key;
    SplitOff(rows, hash, p);
    OtherMultiplicity(rows, hash, p, rows[o]);
    assert rows[o] in multiset(rows) && rows[o] in multiset(kept);
    KeyCountPositive(rows, k);
    KeyCountPositive(kept, k);
    forall i | 0 <= i < |kept| ensures kept[i].key != k {
      assert kept[i] in kept;
    }
    assert !SameGroup(kept, rows, k);
    assert Split(rows, kept, lost);
  }
}
