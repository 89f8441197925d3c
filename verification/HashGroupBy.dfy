/** The hash path on real storage: the device buffers the kernel mutates in place, and the host
    code that sizes the table, launches the kernel and collects the occupied slots. */
module HashGroupBy {
  import opened GroupBy
  import HashBuild
  import NextPow2

  const INT32_MAX := 0x7fff_ffff

  /** hash_keys, hash_sums and hash_counts, and one program counter per thread. */
  class HashTable {
    ghost const c: HashBuild.Config
    const keys: seq<int>
    const vals: seq<int>
    const cap: nat
    const hashKeys: array<int>
    const hashSums: array<int>
    const hashCounts: array<int>
    const pcs: array<HashBuild.PC>

    ghost predicate Valid()
      reads hashKeys, hashSums, hashCounts, pcs
    {
      && c == HashBuild.Config(keys, vals, cap)
      && c.Valid()
      && hashKeys != hashSums && hashKeys != hashCounts && hashSums != hashCounts
      && HashBuild.Shape(c, Contents())
    }

    ghost function Contents(): HashBuild.State
      reads hashKeys, hashSums, hashCounts, pcs
    {
      HashBuild.State(hashKeys[..], hashSums[..], hashCounts[..], pcs[..])
    }

    /** Zero-filled buffers, one thread per row at the top of its probe loop. */
    constructor (keys: seq<int>, vals: seq<int>, cap: nat)
      requires HashBuild.Config(keys, vals, cap).Valid()
      ensures Valid() && fresh(hashKeys) && fresh(hashSums) && fresh(hashCounts) && fresh(pcs)
      ensures c == HashBuild.Config(keys, vals, cap)
      ensures Contents() == HashBuild.Init(c)
    {
      this.c := HashBuild.Config(keys, vals, cap);
      this.keys, this.vals, this.cap := keys, vals, cap;
      hashKeys := new int[cap](_ => 0);
      hashSums := new int[cap](_ => 0);
      hashCounts := new int[cap](_ => 0);
      pcs := new HashBuild.PC[|keys|](_ => HashBuild.Probe(0));
    }

    /** Thread t's next atomic action on the shared buffers. */
    method StepThread(t: nat, spurious: bool)
      requires Valid()
      modifies hashKeys, hashSums, hashCounts, pcs
      ensures Valid()
      ensures Contents() == HashBuild.Step(c, old(Contents()), t, spurious)
    {
      if t >= pcs.Length {
        return;
      }
      assert HashBuild.SlotInRange(pcs[..][t], cap);
      match pcs[t] {
        case Probe(p) =>
          if p >= cap {
            pcs[t] := HashBuild.Exhausted;
            return;
          }
          var slot := HashBuild.Slot(HashBuild.Config(keys, vals, cap), keys[t], p);
          var expected := hashKeys[slot];
          if expected == 0 && spurious {
            return;
          }
          if expected == 0 {
            hashKeys[slot] := keys[t];
          }
          pcs[t] := if expected == 0 || expected == keys[t] then HashBuild.AddSum(slot) else HashBuild.Probe(p + 1);
        case AddSum(slot) =>
          hashSums[slot] := hashSums[slot] + vals[t];
          pcs[t] := HashBuild.AddCount(slot);
        case AddCount(slot) =>
          hashCounts[slot] := hashCounts[slot] + 1;
          pcs[t] := HashBuild.Done(slot);
        case Done(_) =>
        case Exhausted =>
      }
      assert Contents() == HashBuild.Step(c, old(Contents()), t, spurious);
    }

    /** The host's walk over the finished table. */
    method Collect() returns (found: seq<Group>)
      requires Valid()
      requires forall j :: 0 <= j < cap ==> hashCounts[j] >= 0
      ensures found == Collected(hashKeys[..], hashSums[..], hashCounts[..], cap)
    {
      found := [];
      for i := 0 to cap
        invariant found == Collected(hashKeys[..], hashSums[..], hashCounts[..], i)
      {
        if hashKeys[i] != 0 {
          found := found + [Group(hashKeys[i] - 1, hashSums[i], hashCounts[i])];
        }
      }
    }

    /** Any interleaving of the threads. */
    method Launch(schedule: seq<HashBuild.Choice>)
      requires Valid() && Contents() == HashBuild.Init(c)
      modifies hashKeys, hashSums, hashCounts, pcs
      ensures Valid()
      ensures Contents() == HashBuild.Exec(c, schedule)
    {
      for i := 0 to |schedule|
        invariant Valid()
        invariant Contents() == HashBuild.Exec(c, schedule[..i])
      {
        assert schedule[..i + 1][..i] == schedule[..i];
        StepThread(schedule[i].thread, schedule[i].spurious);
      }
      assert schedule[..|schedule|] == schedule;
    }
  }

  /** Twice the rows, at least 1024, rounded up to a power of two. */
  function Capacity(n: nat): (cap: nat)
    ensures cap >= 2 * n && cap >= 1024
  {
    var want := if n * 2 > 1024 then n * 2 else 1024;
    NextPow2.LeastPow2Spec(want);
    NextPow2.LeastPow2(want)
  }

  /** Any power of two with room for 2n and 1024 bounds the capacity; with 2n within 2^30
      it therefore fits the int32 the kernel is passed. */
  lemma {:induction false} CapacityAtMost(n: nat, p: nat)
    requires NextPow2.IsPow2(p) && 2 * n <= p && 1024 <= p
    ensures Capacity(n) <= p
  {
    NextPow2.LeastPow2IsLeast(if n * 2 > 1024 then n * 2 else 1024, p);
  }

  /** The number of slots the bit trick computes on the 32-bit word for 2n or 1024. */
  lemma {:induction false} CapacityIsWord(n: nat, want: bv32)
    requires want <= 0x8000_0000 && NextPow2.Value(want) == if n * 2 > 1024 then n * 2 else 1024
    ensures NextPow2.Value(NextPow2.NextPow2Word(want)) == Capacity(n)
  {
    NextPow2.NextPow2Refines(want);
  }

  predicate HashKeysOk(rows: seq<Row>) {
    forall i :: 0 <= i < |rows| ==> 0 <= rows[i].key <= INT32_MAX - 2
  }

  function Biased(rows: seq<Row>): (r: HashBuild.Config)
    ensures |r.keys| == |r.vals| == |rows|
  {
    HashBuild.Config(seq(|rows|, i requires 0 <= i < |rows| => rows[i].key + 1),
                     seq(|rows|, i requires 0 <= i < |rows| => rows[i].value),
                     Capacity(|rows|))
  }

  lemma {:induction false} BiasShiftsKeys(rows: seq<Row>, biased: seq<Row>, k: int)
    requires |rows| == |biased|
    requires forall i :: 0 <= i < |rows| ==> biased[i] == Row(rows[i].key + 1, rows[i].value)
    ensures KeySum(biased, k + 1) == KeySum(rows, k) && KeyCount(biased, k + 1) == KeyCount(rows, k)
  {
    if rows != [] {
      BiasShiftsKeys(rows[..|rows| - 1], biased[..|rows| - 1], k);
    }
  }

  /** Collects occupied slots in slot order, undoing the key bias. */
  function Collected(keys: seq<int>, sums: seq<int>, counts: seq<int>, n: nat): (r: seq<Group>)
    requires n <= |keys| == |sums| == |counts|
    requires forall j :: 0 <= j < n ==> counts[j] >= 0
  {
    if n == 0 then []
    else
      var front := Collected(keys, sums, counts, n - 1);
      if keys[n - 1] == 0 then front else front + [Group(keys[n - 1] - 1, sums[n - 1], counts[n - 1])]
  }

  ghost predicate FromSlot(keys: seq<int>, sums: seq<int>, counts: seq<int>, n: nat, g: Group)
    requires n <= |keys| == |sums| == |counts|
  {
    exists j :: 0 <= j < n && keys[j] != 0 && g.key == keys[j] - 1 && g.sum == sums[j] && g.count == counts[j]
  }

  /** Every entry comes from an occupied slot. */
  lemma {:induction false} CollectedFromSlots(keys: seq<int>, sums: seq<int>, counts: seq<int>, n: nat)
    requires n <= |keys| == |sums| == |counts|
    requires forall j :: 0 <= j < n ==> counts[j] >= 0
    ensures forall g <- Collected(keys, sums, counts, n) :: FromSlot(keys, sums, counts, n, g)
  {
    if n > 0 {
      CollectedFromSlots(keys, sums, counts, n - 1);
      var front, r := Collected(keys, sums, counts, n - 1), Collected(keys, sums, counts, n);
      forall g <- r ensures FromSlot(keys, sums, counts, n, g) {
        if g in front {
          assert FromSlot(keys, sums, counts, n - 1, g);
        } else {
          assert keys[n - 1] != 0 && g == Group(keys[n - 1] - 1, sums[n - 1], counts[n - 1]);
        }
      }
    }
  }

  /** Every occupied slot gives an entry. */
  lemma {:induction false} SlotsAreCollected(keys: seq<int>, sums: seq<int>, counts: seq<int>, n: nat, j: nat)
    requires j < n <= |keys| == |sums| == |counts|
    requires forall j :: 0 <= j < n ==> counts[j] >= 0
    requires keys[j] != 0
    ensures HasKey(Collected(keys, sums, counts, n), keys[j] - 1)
  {
    var front, r := Collected(keys, sums, counts, n - 1), Collected(keys, sums, counts, n);
    if j == n - 1 {
      assert r[|r| - 1].key == keys[j] - 1;
    } else {
      SlotsAreCollected(keys, sums, counts, n - 1, j);
      var i :| 0 <= i < |front| && front[i].key == keys[j] - 1;
      assert r[i].key == keys[j] - 1;
    }
  }

  lemma {:induction false} CollectedKeysDistinct(keys: seq<int>, sums: seq<int>, counts: seq<int>, n: nat)
    requires n <= |keys| == |sums| == |counts|
    requires forall j :: 0 <= j < n ==> counts[j] >= 0
    requires forall i, j :: 0 <= i < j < n && keys[i] != 0 ==> keys[i] != keys[j]
    ensures DistinctKeys(Collected(keys, sums, counts, n))
  {
    if n > 0 {
      CollectedKeysDistinct(keys, sums, counts, n - 1);
      CollectedFromSlots(keys, sums, counts, n - 1);
      var front, r := Collected(keys, sums, counts, n - 1), Collected(keys, sums, counts, n);
      forall i, j | 0 <= i < j < |r| ensures r[i].key != r[j].key {
        assert r[i] == front[i] && FromSlot(keys, sums, counts, n - 1, front[i]);
        assert j < |front| ==> r[j] == front[j];
      }
    }
  }

  /** GroupbySumHash for keys the guard accepts: whatever the interleaving, once every thread
      has finished the collected and sorted rows are the GROUP BY of the input. */
  method GroupbySumHash(rows: seq<Row>, schedule: seq<HashBuild.Choice>) returns (out: seq<Group>)
    requires HashKeysOk(rows)
    requires HashBuild.AllDone(HashBuild.Exec(Biased(rows), schedule))
    ensures IsGroupBy(rows, out)
  {
    if |rows| == 0 {
      return [];
    }
    ghost var c := Biased(rows);
    var keys := seq(|rows|, i requires 0 <= i < |rows| => rows[i].key + 1);
    var vals := seq(|rows|, i requires 0 <= i < |rows| => rows[i].value);
    var cap := Capacity(|rows|);
    assert c == HashBuild.Config(keys, vals, cap);
    var table := new HashTable(keys, vals, cap);
    table.Launch(schedule);
    HashBuild.FinishedTableIsGroupBy(c, schedule);
    ghost var s := table.Contents();
    CountsNonnegative(c, schedule);
    var found := table.Collect();
    CollectedMeetsSpec(rows, c, s, found);
    out := SortByKey(found);
  }

  lemma {:induction false} CountsNonnegative(c: HashBuild.Config, schedule: seq<HashBuild.Choice>)
    requires c.Valid() && |c.keys| <= c.cap
    ensures forall j :: 0 <= j < c.cap ==> HashBuild.Exec(c, schedule).counts[j] >= 0
  {
    if schedule != [] {
      CountsNonnegative(c, schedule[..|schedule| - 1]);
    }
  }

  lemma {:induction false} CollectedMeetsSpec(rows: seq<Row>, c: HashBuild.Config, s: HashBuild.State,
                                              found: seq<Group>)
    requires HashKeysOk(rows) && c == Biased(rows) && HashBuild.Shape(c, s)
    requires forall j :: 0 <= j < c.cap ==> s.counts[j] >= 0
    requires found == Collected(s.keys, s.sums, s.counts, c.cap)
    requires forall j :: 0 <= j < c.cap && s.keys[j] != 0 ==>
               && KeyCount(c.Rows(), s.keys[j]) > 0
               && s.sums[j] == KeySum(c.Rows(), s.keys[j])
               && s.counts[j] == KeyCount(c.Rows(), s.keys[j])
    requires forall t :: 0 <= t < |c.keys| ==> c.keys[t] in s.keys
    requires forall i, j :: 0 <= i < j < c.cap && s.keys[i] != 0 ==> s.keys[i] != s.keys[j]
    ensures IsGroupBy(rows, SortByKey(found))
  {
    CollectedFromSlots(s.keys, s.sums, s.counts, c.cap);
    CollectedKeysDistinct(s.keys, s.sums, s.counts, c.cap);
    forall i | 0 <= i < |found|
      ensures KeyCount(rows, found[i].key) > 0 && found[i].sum == KeySum(rows, found[i].key)
      ensures found[i].count == KeyCount(rows, found[i].key)
    {
      assert FromSlot(s.keys, s.sums, s.counts, c.cap, found[i]);
      BiasShiftsKeys(rows, c.Rows(), found[i].key);
    }
    forall r | 0 <= r < |rows| ensures HasKey(found, rows[r].key) {
      assert c.keys[r] in s.keys;
      var j :| 0 <= j < |s.keys| && s.keys[j] == c.keys[r];
      SlotsAreCollected(s.keys, s.sums, s.counts, c.cap, j);
    }
    SortedGroupsMeetSpec(rows, found);
  }
}
