/** Counting and scattering rows by class with atomic counters, under every order of the atomic
    increments: the partition count and scatter of the slot-lock path, and each pass of the
    radix sort. Every row moves on its own here, which covers every way of dealing the rows
    out to threads; what a thread's own order adds for the radix passes is in RadixOrder. */
module AtomicScatter {
  import opened Sums
  import opened GroupBy

  /** How many rows have class c. */
  function Occurs(cls: seq<nat>, c: nat): nat {
    if cls == [] then 0
    else Occurs(cls[..|cls| - 1], c) + if cls[|cls| - 1] == c then 1 else 0
  }

  lemma {:induction false} OccursIsMultiplicity(cls: seq<nat>, c: nat)
    ensures Occurs(cls, c) == multiset(cls)[c]
  {
    if cls != [] {
      OccursIsMultiplicity(cls[..|cls| - 1], c);
      assert cls == cls[..|cls| - 1] + [cls[|cls| - 1]];
    }
  }

  /** Every row has one class: an exclusive scan of the class counts ends at the row count. */
  lemma {:induction false} CountsTotal(cls: seq<nat>, counts: seq<int>)
    requires forall i :: 0 <= i < |cls| ==> cls[i] < |counts|
    requires forall p :: 0 <= p < |counts| ==> counts[p] == Occurs(cls, p)
    ensures Sum(counts) == |cls|
  {
    if cls == [] {
      SumZero(counts, |counts|);
    } else {
      var front, k := cls[..|cls| - 1], cls[|cls| - 1];
      var counts' := counts[k := counts[k] - 1];
      CountsTotal(front, counts');
      SumUpdate(counts, k, counts[k] - 1);
    }
  }

  /** PartitionCountKernel and the radix histogram: one atomic increment per row, in any order. */
  method CountClasses(cls: seq<nat>, order: seq<nat>, counts: array<nat>)
    requires multiset(order) == multiset(cls)
    requires forall i :: 0 <= i < |cls| ==> cls[i] < counts.Length
    requires forall c :: 0 <= c < counts.Length ==> counts[c] == 0
    modifies counts
    ensures forall c :: 0 <= c < counts.Length ==> counts[c] == Occurs(cls, c)
  {
    assert forall i :: 0 <= i < |order| ==> order[i] in multiset(cls);
    for i := 0 to |order|
      invariant forall c :: 0 <= c < counts.Length ==> counts[c] == Occurs(order[..i], c)
    {
      assert order[..i + 1][..i] == order[..i];
      counts[order[i]] := counts[order[i]] + 1;
    }
    assert order[..|order|] == order;
    forall c | 0 <= c < counts.Length ensures counts[c] == Occurs(cls, c) {
      OccursIsMultiplicity(order, c);
      OccursIsMultiplicity(cls, c);
    }
  }

  /** ExclusiveScanPartitions. */
  method ExclusiveScan(counts: array<nat>, offsets: array<nat>)
    requires offsets.Length == counts.Length + 1
    modifies offsets
    ensures forall p :: 0 <= p <= counts.Length ==> offsets[p] == Prefix(counts[..], p)
  {
    var running := 0;
    for p := 0 to counts.Length
      invariant running == Prefix(counts[..], p)
      invariant forall q :: 0 <= q < p ==> offsets[q] == Prefix(counts[..], q)
    {
      offsets[p] := running;
      running := running + counts[p];
    }
    offsets[counts.Length] := running;
  }

  // ---- The scatter as a step system ----

  /** base[c] is where class c starts: the exclusive scan of the class counts. */
  datatype Config = Config(rows: seq<Row>, cls: seq<nat>, base: seq<nat>) {
    ghost predicate Valid() {
      && |cls| == |rows|
      && (forall i :: 0 <= i < |cls| ==> cls[i] < |base|)
      && (forall c :: 0 <= c < |base| ==> base[c] == Prefix(Counts(), c))
      && Sum(Counts()) == |rows|
    }

    function Counts(): (r: seq<nat>)
      ensures |r| == |base|
    {
      seq(|base|, c requires 0 <= c < |base| => Occurs(cls, c))
    }
  }

  datatype PC = Start | PutKey(dst: nat) | PutValue(dst: nat) | Done(dst: nat)

  /** pos, keys and values are the kernel's buffers; owner is history: which row a destination
      was handed to (-1: none). */
  datatype State = State(pos: seq<nat>, keys: seq<int>, values: seq<int>, pcs: seq<PC>, owner: seq<int>)

  ghost predicate Shape(c: Config, s: State) {
    && |s.pos| == |c.base|
    && |s.keys| == |s.values| == |s.owner| == |s.pcs| == |c.rows| == |c.cls|
  }

  function Init(c: Config): (s: State)
    requires c.Valid()
    ensures Shape(c, s)
  {
    State(c.base, seq(|c.rows|, _ => 0), seq(|c.rows|, _ => 0), seq(|c.rows|, _ => Start), seq(|c.rows|, _ => -1))
  }

  /** One action of row i: the atomic fetch-and-add, then the two plain stores. */
  function Step(c: Config, s: State, i: nat): (s': State)
    requires c.Valid() && Shape(c, s)
    ensures Shape(c, s')
  {
    if i >= |s.pcs| then s
    else match s.pcs[i]
      case Start =>
        var dst := s.pos[c.cls[i]];
        s.(pos := s.pos[c.cls[i] := dst + 1], pcs := s.pcs[i := PutKey(dst)],
           owner := if dst < |s.owner| then s.owner[dst := i] else s.owner)
      case PutKey(dst) =>
        s.(keys := if dst < |s.keys| then s.keys[dst := c.rows[i].key] else s.keys,
           pcs := s.pcs[i := PutValue(dst)])
      case PutValue(dst) =>
        s.(values := if dst < |s.values| then s.values[dst := c.rows[i].value] else s.values,
           pcs := s.pcs[i := Done(dst)])
      case Done(_) => s
  }

  function Exec(c: Config, schedule: seq<nat>): (s: State)
    requires c.Valid()
    ensures Shape(c, s)
  {
    if schedule == [] then Init(c)
    else Step(c, Exec(c, schedule[..|schedule| - 1]), schedule[|schedule| - 1])
  }

  /** Rows of class k that have drawn a destination. */
  function StartedParts(c: Config, pcs: seq<PC>, k: nat): (r: seq<int>)
    requires |pcs| == |c.cls|
    ensures |r| == |pcs|
  {
    seq(|pcs|, i requires 0 <= i < |pcs| => if c.cls[i] == k && !pcs[i].Start? then 1 else 0)
  }

  ghost predicate CounterOk(c: Config, s: State, k: nat)
    requires Shape(c, s) && k < |c.base|
  {
    s.pos[k] == c.base[k] + Sum(StartedParts(c, s.pcs, k))
  }

  /** The destinations drawn so far from class k belong to distinct rows of that class. */
  ghost predicate DrawnOk(c: Config, s: State, k: nat, j: nat)
    requires Shape(c, s) && k < |c.base|
  {
    c.base[k] <= j < s.pos[k] ==>
      && j < |c.rows|
      && 0 <= s.owner[j] < |c.rows|
      && c.cls[s.owner[j]] == k
      && !s.pcs[s.owner[j]].Start?
      && s.pcs[s.owner[j]].dst == j
  }

  ghost predicate RowOk(c: Config, s: State, i: nat)
    requires c.Valid() && Shape(c, s) && i < |c.rows|
  {
    !s.pcs[i].Start? ==>
      var dst := s.pcs[i].dst;
      && c.base[c.cls[i]] <= dst < s.pos[c.cls[i]]
      && dst < |c.rows|
      && s.owner[dst] == i
      && (!s.pcs[i].PutKey? ==> s.keys[dst] == c.rows[i].key)
      && (s.pcs[i].Done? ==> s.values[dst] == c.rows[i].value)
  }

  ghost predicate Inv(c: Config, s: State)
    requires c.Valid()
  {
    && Shape(c, s)
    && (forall k :: 0 <= k < |c.base| ==> CounterOk(c, s, k))
    && (forall k, j :: 0 <= k < |c.base| && 0 <= j ==> DrawnOk(c, s, k, j))
    && (forall i :: 0 <= i < |c.rows| ==> RowOk(c, s, i))
  }

  // ---- Class ranges ----

  lemma {:induction false} CountsNonnegative(c: Config)
    ensures forall k :: 0 <= k < |c.base| ==> c.Counts()[k] >= 0
  {
  }

  /** Class ranges lie in order inside the output. */
  lemma {:induction false} RangesOrdered(c: Config, k: nat, l: nat)
    requires c.Valid() && k < l < |c.base|
    ensures c.base[k] + Occurs(c.cls, k) <= c.base[l]
  {
    PrefixMonotone(c.Counts(), k + 1, l);
  }

  lemma {:induction false} RangeFits(c: Config, k: nat)
    requires c.Valid() && k < |c.base|
    ensures c.base[k] + Occurs(c.cls, k) <= |c.rows|
  {
    PrefixMonotone(c.Counts(), k + 1, |c.base|);
  }

  lemma {:induction false} StartedAtMost(c: Config, pcs: seq<PC>, k: nat, n: nat)
    requires n <= |pcs| == |c.cls|
    ensures Prefix(StartedParts(c, pcs, k), n) <= Occurs(c.cls[..n], k)
    ensures (forall i :: 0 <= i < n ==> !pcs[i].Start?) ==>
              Prefix(StartedParts(c, pcs, k), n) == Occurs(c.cls[..n], k)
    ensures (exists i :: 0 <= i < n && pcs[i].Start? && c.cls[i] == k) ==>
              Prefix(StartedParts(c, pcs, k), n) < Occurs(c.cls[..n], k)
  {
    if n > 0 {
      StartedAtMost(c, pcs, k, n - 1);
      assert c.cls[..n][..n - 1] == c.cls[..n - 1];
    }
  }

  /** An atomic increment by a row that has not moved yet stays inside its class's range. */
  lemma {:induction false} DrawStaysInRange(c: Config, s: State, i: nat)
    requires c.Valid() && Inv(c, s) && i < |c.rows| && s.pcs[i].Start?
    ensures s.pos[c.cls[i]] < c.base[c.cls[i]] + Occurs(c.cls, c.cls[i]) <= |c.rows|
  {
    var k := c.cls[i];
    assert CounterOk(c, s, k);
    StartedAtMost(c, s.pcs, k, |c.cls|);
    assert c.cls[..|c.cls|] == c.cls;
    RangeFits(c, k);
  }

  lemma {:induction false} MoveStarted(c: Config, pcs: seq<PC>, i: nat, pc: PC, k: nat)
    requires |pcs| == |c.cls| && i < |pcs| && !pc.Start?
    ensures Sum(StartedParts(c, pcs[i := pc], k)) ==
            Sum(StartedParts(c, pcs, k)) + if pcs[i].Start? && c.cls[i] == k then 1 else 0
  {
    var p := StartedParts(c, pcs, k);
    var x := if c.cls[i] == k then 1 else 0;
    assert StartedParts(c, pcs[i := pc], k) == p[i := x];
    SumUpdate(p, i, x);
  }

  lemma {:induction false} PosWithinRange(c: Config, s: State, k: nat)
    requires c.Valid() && Inv(c, s) && k < |c.base|
    ensures c.base[k] <= s.pos[k] <= c.base[k] + Occurs(c.cls, k)
  {
    assert CounterOk(c, s, k);
    StartedAtMost(c, s.pcs, k, |c.cls|);
    assert c.cls[..|c.cls|] == c.cls;
    PrefixMonotone(StartedParts(c, s.pcs, k), 0, |c.cls|);
  }

  /** A destination not yet drawn from class k is not drawn from any other class either. */
  lemma {:induction false} FreshDestination(c: Config, s: State, i: nat, l: nat)
    requires c.Valid() && Inv(c, s) && i < |c.rows| && s.pcs[i].Start? && l < |c.base|
    ensures !(c.base[l] <= s.pos[c.cls[i]] < s.pos[l])
  {
    var k := c.cls[i];
    DrawStaysInRange(c, s, i);
    PosWithinRange(c, s, l);
    PosWithinRange(c, s, k);
    if k < l {
      RangesOrdered(c, k, l);
    } else if l < k {
      RangesOrdered(c, l, k);
    }
  }

  lemma {:induction false} DrawKeepsInv(c: Config, s: State, i: nat)
    requires c.Valid() && Inv(c, s) && i < |c.rows| && s.pcs[i].Start?
    ensures Inv(c, Step(c, s, i))
  {
    var s', k, dst := Step(c, s, i), c.cls[i], s.pos[c.cls[i]];
    DrawStaysInRange(c, s, i);
    forall l | 0 <= l < |c.base| ensures CounterOk(c, s', l) {
      assert CounterOk(c, s, l);
      MoveStarted(c, s.pcs, i, PutKey(dst), l);
    }
    forall l, j | 0 <= l < |c.base| && 0 <= j ensures DrawnOk(c, s', l, j) {
      assert DrawnOk(c, s, l, j);
      FreshDestination(c, s, i, l);
      if l == k && j == dst {
        PosWithinRange(c, s, k);
      }
    }
    forall r | 0 <= r < |c.rows| ensures RowOk(c, s', r) {
      assert RowOk(c, s, r);
      FreshDestination(c, s, i, c.cls[r]);
      if r == i {
        PosWithinRange(c, s, k);
      }
    }
  }

  lemma {:induction false} StoreKeepsInv(c: Config, s: State, i: nat)
    requires c.Valid() && Inv(c, s) && i < |c.rows| && !s.pcs[i].Start?
    ensures Inv(c, Step(c, s, i))
  {
    var s' := Step(c, s, i);
    assert RowOk(c, s, i);
    forall l | 0 <= l < |c.base| ensures CounterOk(c, s', l) {
      assert CounterOk(c, s, l);
      if !s.pcs[i].Done? {
        MoveStarted(c, s.pcs, i, s'.pcs[i], l);
        assert s'.pcs == s.pcs[i := s'.pcs[i]];
      }
    }
    forall l, j | 0 <= l < |c.base| && 0 <= j ensures DrawnOk(c, s', l, j) {
      assert DrawnOk(c, s, l, j);
    }
    forall r | 0 <= r < |c.rows| ensures RowOk(c, s', r) {
      assert RowOk(c, s, r);
    }
  }

  lemma {:induction false} InitInv(c: Config)
    requires c.Valid()
    ensures Inv(c, Init(c))
  {
    var s := Init(c);
    forall k | 0 <= k < |c.base| ensures CounterOk(c, s, k) {
      SumZero(StartedParts(c, s.pcs, k), |c.cls|);
    }
  }

  lemma {:induction false} RunInvariant(c: Config, schedule: seq<nat>)
    requires c.Valid()
    ensures Inv(c, Exec(c, schedule))
  {
    if schedule == [] {
      InitInv(c);
    } else {
      var front, i := schedule[..|schedule| - 1], schedule[|schedule| - 1];
      RunInvariant(c, front);
      if i < |c.rows| {
        if Exec(c, front).pcs[i].Start? {
          DrawKeepsInv(c, Exec(c, front), i);
        } else {
          StoreKeepsInv(c, Exec(c, front), i);
        }
      }
    }
  }

  // ---- The finished scatter ----

  ghost predicate AllDone(s: State) {
    forall i :: 0 <= i < |s.pcs| ==> s.pcs[i].Done?
  }

  function Output(s: State): (r: seq<Row>)
    requires |s.keys| == |s.values|
    ensures |r| == |s.keys|
  {
    seq(|s.keys|, j requires 0 <= j < |s.keys| => Row(s.keys[j], s.values[j]))
  }

  /** The rows of class c, in input order. */
  function Select(rows: seq<Row>, cls: seq<nat>, c: nat): (r: seq<Row>)
    requires |rows| == |cls|
  {
    if rows == [] then []
    else
      var n := |rows| - 1;
      if cls[n] == c then Select(rows[..n], cls[..n], c) + [rows[n]] else Select(rows[..n], cls[..n], c)
  }

  /** Each destination holds one row of the class whose range it lies in: every destination is
      written, by one row, with that row's own key and value. */
  lemma {:induction false} EveryDestinationOnce(c: Config, schedule: seq<nat>, k: nat, j: nat)
    requires c.Valid() && AllDone(Exec(c, schedule)) && k < |c.base|
    requires c.base[k] <= j < c.base[k] + Occurs(c.cls, k)
    ensures var s := Exec(c, schedule);
            && j < |c.rows| && 0 <= s.owner[j] < |c.rows|
            && c.cls[s.owner[j]] == k
            && s.pcs[s.owner[j]] == Done(j)
            && (forall i :: 0 <= i < |c.rows| && s.pcs[i] == Done(j) ==> i == s.owner[j])
            && Output(s)[j] == c.rows[s.owner[j]]
  {
    var s := Exec(c, schedule);
    RunInvariant(c, schedule);
    FinishedCounter(c, schedule, k);
    assert DrawnOk(c, s, k, j);
    assert RowOk(c, s, s.owner[j]);
    forall i | 0 <= i < |c.rows| && s.pcs[i] == Done(j) ensures i == s.owner[j] {
      assert RowOk(c, s, i);
    }
  }

  lemma {:induction false} FinishedCounter(c: Config, schedule: seq<nat>, k: nat)
    requires c.Valid() && AllDone(Exec(c, schedule)) && k < |c.base|
    ensures Exec(c, schedule).pos[k] == c.base[k] + Occurs(c.cls, k)
  {
    var s := Exec(c, schedule);
    RunInvariant(c, schedule);
    assert CounterOk(c, s, k);
    StartedAtMost(c, s.pcs, k, |c.cls|);
    assert c.cls[..|c.cls|] == c.cls;
  }

  /** `picks` lists the rows of class c, each once, in some order. */
  ghost predicate Enumerates(cls: seq<nat>, c: nat, picks: seq<nat>) {
    && (forall a, b :: 0 <= a < b < |picks| ==> picks[a] != picks[b])
    && (forall a :: 0 <= a < |picks| ==> picks[a] < |cls| && cls[picks[a]] == c)
    && (forall i :: 0 <= i < |cls| && cls[i] == c ==> i in picks)
  }

  function Pick(rows: seq<Row>, picks: seq<nat>): (r: seq<Row>)
    requires forall a :: 0 <= a < |picks| ==> picks[a] < |rows|
    ensures |r| == |picks|
  {
    seq(|picks|, a requires 0 <= a < |picks| => rows[picks[a]])
  }

  /** Where the elements of a sequence go when one is taken out. */
  lemma {:induction false} Remaining(s: seq<nat>, a: nat, b: nat)
    requires a < |s| && b < |s| && a != b
    ensures s[b] in s[..a] + s[a + 1..]
  {
    assert (s[..a] + s[a + 1..])[if b < a then b else b - 1] == s[b];
  }

  lemma {:induction false} DropIndex(cls: seq<nat>, c: nat, picks: seq<nat>, a: nat)
    requires cls != [] && Enumerates(cls, c, picks) && a < |picks| && picks[a] == |cls| - 1
    ensures Enumerates(cls[..|cls| - 1], c, picks[..a] + picks[a + 1..])
  {
    var n, rest := |cls| - 1, picks[..a] + picks[a + 1..];
    assert forall b :: 0 <= b < a ==> rest[b] == picks[b];
    assert forall b :: a <= b < |rest| ==> rest[b] == picks[b + 1];
    forall i | 0 <= i < n && cls[..n][i] == c ensures i in rest {
      var b :| 0 <= b < |picks| && picks[b] == i;
      Remaining(picks, a, b);
    }
  }

  lemma {:induction false} DropPick(rows: seq<Row>, cls: seq<nat>, c: nat, picks: seq<nat>, a: nat)
    requires |rows| == |cls| > 0 && Enumerates(cls, c, picks)
    requires a < |picks| && picks[a] == |rows| - 1
    ensures Enumerates(cls[..|rows| - 1], c, picks[..a] + picks[a + 1..])
    ensures multiset(Pick(rows, picks)) ==
            multiset(Pick(rows[..|rows| - 1], picks[..a] + picks[a + 1..])) + multiset{rows[|rows| - 1]}
  {
    DropIndex(cls, c, picks, a);
    PickWithout(rows, picks, a, picks[..a] + picks[a + 1..]);
  }

  lemma {:induction false} PickWithout(rows: seq<Row>, picks: seq<nat>, a: nat, rest: seq<nat>)
    requires a < |picks| && rows != [] && picks[a] == |rows| - 1 && rest == picks[..a] + picks[a + 1..]
    requires forall b :: 0 <= b < |picks| ==> picks[b] < |rows|
    requires forall b :: 0 <= b < |rest| ==> rest[b] < |rows| - 1
    ensures multiset(Pick(rows, picks)) == multiset(Pick(rows[..|rows| - 1], rest)) + multiset{rows[|rows| - 1]}
  {
    var all, others := Pick(rows, picks), Pick(rows[..|rows| - 1], rest);
    assert others == all[..a] + all[a + 1..];
    WithoutElement(all, a);
    assert all[a] in all;
  }

  lemma {:induction false} SomePick(cls: seq<nat>, c: nat, picks: seq<nat>)
    requires Enumerates(cls, c, picks) && picks != []
    ensures cls != []
  {
    assert picks[0] < |cls|;
  }

  lemma {:induction false} PickIsSelect(rows: seq<Row>, cls: seq<nat>, c: nat, picks: seq<nat>)
    requires |rows| == |cls| && Enumerates(cls, c, picks)
    ensures multiset(Pick(rows, picks)) == multiset(Select(rows, cls, c))
  {
    if rows == [] {
      if picks != [] {
        SomePick(cls, c, picks);
      }
    } else {
      var n := |rows| - 1;
      if cls[n] == c {
        assert n in picks;
        var a :| 0 <= a < |picks| && picks[a] == n;
        DropPick(rows, cls, c, picks, a);
        PickIsSelect(rows[..n], cls[..n], c, picks[..a] + picks[a + 1..]);
      } else {
        PickIsSelect(rows[..n], cls[..n], c, picks);
        assert Pick(rows, picks) == Pick(rows[..n], picks);
      }
    }
  }

  /** What the scatter left in the range of class k. */
  function ClassRange(c: Config, s: State, k: nat): (r: seq<Row>)
    requires Shape(c, s) && k < |c.base| && c.base[k] + Occurs(c.cls, k) <= |c.rows|
    ensures |r| == Occurs(c.cls, k)
  {
    Output(s)[c.base[k]..c.base[k] + Occurs(c.cls, k)]
  }

  /** The owners of the destinations in class k's range enumerate class k. */
  lemma {:induction false} OwnersEnumerate(c: Config, schedule: seq<nat>, k: nat) returns (picks: seq<nat>)
    requires c.Valid() && AllDone(Exec(c, schedule)) && k < |c.base|
    ensures c.base[k] + Occurs(c.cls, k) <= |c.rows|
    ensures Enumerates(c.cls, k, picks) && |picks| == Occurs(c.cls, k)
    ensures ClassRange(c, Exec(c, schedule), k) == Pick(c.rows, picks)
  {
    var s, lo, len := Exec(c, schedule), c.base[k], Occurs(c.cls, k);
    RangeFits(c, k);
    forall j | lo <= j < lo + len ensures OwnedPlace(c, s, k, j) {
      EveryDestinationOnce(c, schedule, k, j);
    }
    picks := OwnersOf(c, s, k);
    forall i | 0 <= i < |c.rows| && c.cls[i] == k ensures i in picks {
      RowInRange(c, schedule, i);
      assert picks[s.pcs[i].dst - lo] == i;
    }
  }

  /** Place j belongs to a finished row of class k, and holds it. */
  ghost predicate OwnedPlace(c: Config, s: State, k: nat, j: nat)
    requires Shape(c, s) && j < |c.rows|
  {
    && 0 <= s.owner[j] < |c.rows| && c.cls[s.owner[j]] == k
    && s.pcs[s.owner[j]] == Done(j) && Output(s)[j] == c.rows[s.owner[j]]
  }

  /** The owners of a range of owned places: distinct rows of the class, and the rows the range holds. */
  lemma {:induction false} OwnersOf(c: Config, s: State, k: nat) returns (picks: seq<nat>)
    requires Shape(c, s) && k < |c.base| && c.base[k] + Occurs(c.cls, k) <= |c.rows|
    requires forall j :: c.base[k] <= j < c.base[k] + Occurs(c.cls, k) ==> OwnedPlace(c, s, k, j)
    ensures |picks| == Occurs(c.cls, k) && picks == s.owner[c.base[k]..c.base[k] + Occurs(c.cls, k)]
    ensures forall a, b :: 0 <= a < b < |picks| ==> picks[a] != picks[b]
    ensures forall a :: 0 <= a < |picks| ==> picks[a] < |c.cls| && c.cls[picks[a]] == k
    ensures ClassRange(c, s, k) == Pick(c.rows, picks)
  {
    var lo, len := c.base[k], Occurs(c.cls, k);
    var owners := s.owner[lo..lo + len];
    forall a | 0 <= a < len ensures 0 <= owners[a] < |c.cls| && c.cls[owners[a]] == k {
      assert OwnedPlace(c, s, k, lo + a);
    }
    picks := owners;
    forall a, b | 0 <= a < b < len ensures picks[a] != picks[b] {
      assert OwnedPlace(c, s, k, lo + a) && OwnedPlace(c, s, k, lo + b);
    }
    forall a | 0 <= a < len ensures ClassRange(c, s, k)[a] == c.rows[picks[a]] {
      assert OwnedPlace(c, s, k, lo + a);
    }
  }

  /** A finished row's destination lies in its class's range and belongs to it. */
  lemma {:induction false} RowInRange(c: Config, schedule: seq<nat>, i: nat)
    requires c.Valid() && AllDone(Exec(c, schedule)) && i < |c.rows|
    ensures var s, k := Exec(c, schedule), c.cls[i];
            c.base[k] <= s.pcs[i].dst < c.base[k] + Occurs(c.cls, k) <= |c.rows| && s.owner[s.pcs[i].dst] == i
  {
    RunInvariant(c, schedule);
    assert RowOk(c, Exec(c, schedule), i);
    FinishedCounter(c, schedule, c.cls[i]);
    RangeFits(c, c.cls[i]);
  }

  /** Whatever the order of the increments, the range of class k ends up holding exactly the rows
      of class k, each value still with its key. */
  lemma {:induction false} RangeHoldsItsClass(c: Config, schedule: seq<nat>, k: nat)
    requires c.Valid() && AllDone(Exec(c, schedule)) && k < |c.base|
    ensures c.base[k] + Occurs(c.cls, k) <= |c.rows|
    ensures multiset(ClassRange(c, Exec(c, schedule), k)) == multiset(Select(c.rows, c.cls, k))
  {
    var picks := OwnersEnumerate(c, schedule, k);
    PickIsSelect(c.rows, c.cls, k, picks);
  }

  /** Every destination lies in the range of some class. */
  lemma {:induction false} RangesCover(counts: seq<nat>, n: nat, j: nat)
    requires n <= |counts| && j < Prefix(counts, n)
    ensures exists k :: 0 <= k < n && Prefix(counts, k) <= j < Prefix(counts, k) + counts[k]
  {
    if j < Prefix(counts, n - 1) {
      RangesCover(counts, n - 1, j);
    } else {
      assert Prefix(counts, n - 1) <= j < Prefix(counts, n - 1) + counts[n - 1];
    }
  }

  /** The whole output is a permutation of the input. */
  lemma {:induction false} OutputIsPermutation(c: Config, schedule: seq<nat>)
    requires c.Valid() && AllDone(Exec(c, schedule))
    ensures multiset(Output(Exec(c, schedule))) == multiset(c.rows)
  {
    var s, n := Exec(c, schedule), |c.rows|;
    var picks := OwnersEnumerateAll(c, schedule);
    var one: seq<nat> := seq(n, _ => 0);
    PickIsSelect(c.rows, one, 0, picks);
    SelectAll(c.rows, one);
    assert Output(s) == Pick(c.rows, picks);
  }

  lemma {:induction false} OwnersEnumerateAll(c: Config, schedule: seq<nat>) returns (picks: seq<nat>)
    requires c.Valid() && AllDone(Exec(c, schedule))
    ensures |picks| == |c.rows| && Enumerates(seq(|c.rows|, _ => 0), 0, picks)
    ensures forall j :: 0 <= j < |picks| ==> Output(Exec(c, schedule))[j] == c.rows[picks[j]]
    ensures forall j :: 0 <= j < |picks| ==> Exec(c, schedule).pcs[picks[j]] == Done(j)
  {
    var s, n := Exec(c, schedule), |c.rows|;
    RunInvariant(c, schedule);
    forall j | 0 <= j < n
      ensures 0 <= s.owner[j] < n && s.pcs[s.owner[j]] == Done(j) && Output(s)[j] == c.rows[s.owner[j]]
    {
      RangesCover(c.Counts(), |c.base|, j);
      var k :| 0 <= k < |c.base| && Prefix(c.Counts(), k) <= j < Prefix(c.Counts(), k) + c.Counts()[k];
      EveryDestinationOnce(c, schedule, k, j);
    }
    picks := s.owner;
    forall a, b | 0 <= a < b < n ensures picks[a] != picks[b] {
      assert s.pcs[picks[a]] == Done(a) && s.pcs[picks[b]] == Done(b);
    }
    forall i | 0 <= i < n ensures i in picks {
      assert RowOk(c, s, i);
      assert picks[s.pcs[i].dst] == i;
    }
  }

  lemma {:induction false} SelectAll(rows: seq<Row>, cls: seq<nat>)
    requires |rows| == |cls| && forall i :: 0 <= i < |cls| ==> cls[i] == 0
    ensures Select(rows, cls, 0) == rows
  {
    if rows != [] {
      var n := |rows| - 1;
      SelectAll(rows[..n], cls[..n]);
    }
  }
}
