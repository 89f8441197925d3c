/** The concurrent open-addressing build kernel: one thread per row, one weak CAS on the key
    slot deciding ownership, then two atomic adds. A run is a schedule: which thread moves
    next, and whether its weak CAS fails spuriously if it gets that far. */
module HashBuild {
  import opened Arith
  import opened Sums
  import opened GroupBy

  /** Keys are biased by one on the host, so that 0 marks an empty slot. */
  datatype Config = Config(keys: seq<int>, vals: seq<int>, cap: nat) {
    ghost predicate Valid() {
      && |keys| == |vals|
      && cap > 0
      && (forall t :: 0 <= t < |keys| ==> keys[t] != 0)
    }

    /** The biased rows the kernel reads. */
    function Rows(): (r: seq<Row>)
      requires |keys| == |vals|
      ensures |r| == |keys|
    {
      seq(|keys|, i requires 0 <= i < |keys| => Row(keys[i], vals[i]))
    }
  }

  /** Where one thread stands in the kernel. */
  datatype PC =
    | Probe(probe: nat)
    | AddSum(slot: nat)
    | AddCount(slot: nat)
    | Done(slot: nat)
    | Exhausted

  datatype State = State(keys: seq<int>, sums: seq<int>, counts: seq<int>, pcs: seq<PC>)

  function Hash(key: int, cap: nat): (h: nat)
    requires cap > 0
    ensures h < cap
  {
    (key % 0x1_0000_0000 * 2654435761 % 0x1_0000_0000) % cap
  }

  function Slot(c: Config, key: int, probe: nat): (s: nat)
    requires c.cap > 0
    ensures s < c.cap
  {
    (Hash(key, c.cap) + probe) % c.cap
  }

  ghost predicate Shape(c: Config, s: State) {
    && |s.keys| == |s.sums| == |s.counts| == c.cap
    && |s.pcs| == |c.keys|
    && (forall t :: 0 <= t < |s.pcs| ==> SlotInRange(s.pcs[t], c.cap))
  }

  predicate SlotInRange(pc: PC, cap: nat) {
    (pc.AddSum? || pc.AddCount? || pc.Done?) ==> pc.slot < cap
  }

  function Init(c: Config): (s: State)
    ensures Shape(c, s)
  {
    State(seq(c.cap, _ => 0), seq(c.cap, _ => 0), seq(c.cap, _ => 0), seq(|c.keys|, _ => Probe(0)))
  }

  /** One atomic step of thread t. `spurious` makes the weak CAS fail although the slot is empty. */
  function Step(c: Config, s: State, t: nat, spurious: bool): (s': State)
    requires c.Valid() && Shape(c, s)
    ensures Shape(c, s')
  {
    if t >= |s.pcs| then s
    else match s.pcs[t]
      case Probe(p) =>
        if p >= c.cap then s.(pcs := s.pcs[t := Exhausted])
        else
          var slot := Slot(c, c.keys[t], p);
          if s.keys[slot] == 0 then
            if spurious then s
            else s.(keys := s.keys[slot := c.keys[t]], pcs := s.pcs[t := AddSum(slot)])
          else if s.keys[slot] == c.keys[t] then s.(pcs := s.pcs[t := AddSum(slot)])
          else s.(pcs := s.pcs[t := Probe(p + 1)])
      case AddSum(slot) =>
        s.(sums := s.sums[slot := s.sums[slot] + c.vals[t]], pcs := s.pcs[t := AddCount(slot)])
      case AddCount(slot) =>
        s.(counts := s.counts[slot := s.counts[slot] + 1], pcs := s.pcs[t := Done(slot)])
      case Done(_) => s
      case Exhausted => s
  }

  datatype Choice = Choice(thread: nat, spurious: bool)

  /** The state a schedule leads to. */
  function Exec(c: Config, schedule: seq<Choice>): (s: State)
    requires c.Valid()
    ensures Shape(c, s)
  {
    if schedule == [] then Init(c)
    else
      var last := schedule[|schedule| - 1];
      Step(c, Exec(c, schedule[..|schedule| - 1]), last.thread, last.spurious)
  }

  // ---- What every step keeps: probing ----

  /** Every slot that k would visit before its (d+1)-st holds some other key. */
  ghost predicate Passed(c: Config, s: State, k: int, d: nat)
    requires c.cap > 0 && |s.keys| == c.cap
  {
    forall e :: 0 <= e < d ==> s.keys[Slot(c, k, e)] != 0 && s.keys[Slot(c, k, e)] != k
  }

  /** Slot j holds a row's key, at the end of that key's passed prefix. */
  ghost predicate Placed(c: Config, s: State, j: nat)
    requires c.cap > 0 && |s.keys| == c.cap && j < c.cap
  {
    && s.keys[j] in c.keys
    && exists d: nat :: d < c.cap && j == Slot(c, s.keys[j], d) && Passed(c, s, s.keys[j], d)
  }

  ghost predicate ThreadInv(c: Config, s: State, t: nat)
    requires c.Valid() && Shape(c, s) && t < |s.pcs|
  {
    match s.pcs[t]
    case Probe(p) => p <= c.cap && Passed(c, s, c.keys[t], p)
    case AddSum(slot) => s.keys[slot] == c.keys[t]
    case AddCount(slot) => s.keys[slot] == c.keys[t]
    case Done(slot) => s.keys[slot] == c.keys[t]
    case Exhausted => false
  }

  ghost predicate ProbeInv(c: Config, s: State)
    requires c.Valid() && Shape(c, s)
  {
    && (forall t :: 0 <= t < |s.pcs| ==> ThreadInv(c, s, t))
    && (forall j :: 0 <= j < c.cap && s.keys[j] != 0 ==> Placed(c, s, j))
  }

  /** No key is in two slots. */
  lemma {:induction false} KeysUnique(c: Config, s: State, i: nat, j: nat)
    requires c.Valid() && Shape(c, s) && ProbeInv(c, s)
    requires i < c.cap && j < c.cap && s.keys[i] == s.keys[j] != 0
    ensures i == j
  {
    var d: nat :| d < c.cap && i == Slot(c, s.keys[i], d) && Passed(c, s, s.keys[i], d);
    var e: nat :| e < c.cap && j == Slot(c, s.keys[j], e) && Passed(c, s, s.keys[j], e);
  }

  /** A key whose probe has reached an empty slot is not in the table. */
  lemma {:induction false} AbsentAtEmptySlot(c: Config, s: State, k: int, p: nat)
    requires c.Valid() && Shape(c, s) && ProbeInv(c, s)
    requires k != 0 && Passed(c, s, k, p) && s.keys[Slot(c, k, p)] == 0
    ensures forall j :: 0 <= j < c.cap ==> s.keys[j] != k
  {
    forall j | 0 <= j < c.cap ensures s.keys[j] != k {
      if s.keys[j] == k {
        assert false;
      }
    }
  }

  /** The probe sequence visits every slot once in cap steps. */
  lemma {:induction false} ProbeVisitsEverySlot(c: Config, k: int, j: nat)
    requires c.cap > 0 && j < c.cap
    ensures exists d: nat :: d < c.cap && j == Slot(c, k, d)
  {
    var h := Hash(k, c.cap);
    var d: nat := if j >= h then j - h else j + c.cap - h;
    WrapOnce(h + d, c.cap);
    assert j == Slot(c, k, d);
  }

  /** The pigeonhole argument: with room for every row, no probe sequence is used up. */
  lemma {:induction false} NeverExhausted(c: Config, s: State, t: nat)
    requires c.Valid() && Shape(c, s) && ProbeInv(c, s)
    requires |c.keys| <= c.cap
    requires t < |s.pcs| && s.pcs[t].Probe?
    ensures s.pcs[t].probe < c.cap
  {
    assert ThreadInv(c, s, t);
    if s.pcs[t].probe == c.cap {
      var k := c.keys[t];
      forall j | 0 <= j < c.cap ensures s.keys[j] != 0 && s.keys[j] != k {
        ProbeVisitsEverySlot(c, k, j);
      }
      var held := ElementsOf(s.keys);
      forall i, j | 0 <= i < j < |s.keys| ensures s.keys[i] != s.keys[j] {
        if s.keys[i] == s.keys[j] {
          KeysUnique(c, s, i, j);
        }
      }
      DistinctCardinality(s.keys);
      CardinalityBound(c.keys);
      assert held <= ElementsOf(c.keys) - {k} by {
        forall x | x in held ensures x in c.keys && x != k {
          var j :| 0 <= j < |s.keys| && s.keys[j] == x;
          assert Placed(c, s, j);
        }
      }
      SubsetCardinality(held, ElementsOf(c.keys) - {k});
    }
  }

  function ElementsOf(s: seq<int>): set<int> {
    set x | x in s
  }

  lemma {:induction false} CardinalityBound(s: seq<int>)
    ensures |ElementsOf(s)| <= |s|
  {
    if s != [] {
      CardinalityBound(s[1..]);
      assert ElementsOf(s) == ElementsOf(s[1..]) + {s[0]};
    }
  }

  lemma {:induction false} DistinctCardinality(s: seq<int>)
    requires forall i, j :: 0 <= i < j < |s| ==> s[i] != s[j]
    ensures |ElementsOf(s)| == |s|
  {
    if s != [] {
      DistinctCardinality(s[1..]);
      assert ElementsOf(s) == ElementsOf(s[1..]) + {s[0]};
    }
  }

  lemma {:induction false} SubsetCardinality(a: set<int>, b: set<int>)
    requires a <= b
    ensures |a| <= |b|
  {
    assert b == a + (b - a);
  }

  /** Filling one empty slot disturbs no other thread's or key's passed prefix. */
  lemma {:induction false} ClaimKeepsPassed(c: Config, s: State, s': State, slot: nat, key: int, k: int, d: nat)
    requires c.Valid() && |s.keys| == c.cap && slot < c.cap && s.keys[slot] == 0
    requires s'.keys == s.keys[slot := key]
    requires Passed(c, s, k, d)
    ensures Passed(c, s', k, d)
  {
    forall e | 0 <= e < d ensures s'.keys[Slot(c, k, e)] != 0 && s'.keys[Slot(c, k, e)] != k {
      assert s.keys[Slot(c, k, e)] != 0;
    }
  }

  lemma {:induction false} ClaimKeepsProbeInv(c: Config, s: State, t: nat)
    requires c.Valid() && Shape(c, s) && ProbeInv(c, s)
    requires t < |s.pcs| && s.pcs[t].Probe? && s.pcs[t].probe < c.cap
    requires s.keys[Slot(c, c.keys[t], s.pcs[t].probe)] == 0
    ensures ProbeInv(c, Step(c, s, t, false))
  {
    var k, p := c.keys[t], s.pcs[t].probe;
    var slot := Slot(c, k, p);
    var s' := Step(c, s, t, false);
    assert ThreadInv(c, s, t);
    forall u | 0 <= u < |s'.pcs| ensures ThreadInv(c, s', u) {
      assert ThreadInv(c, s, u);
      if u != t && s.pcs[u].Probe? {
        ClaimKeepsPassed(c, s, s', slot, k, c.keys[u], s.pcs[u].probe);
      }
    }
    forall j | 0 <= j < c.cap && s'.keys[j] != 0 ensures Placed(c, s', j) {
      if j == slot {
        ClaimKeepsPassed(c, s, s', slot, k, k, p);
      } else {
        assert Placed(c, s, j);
        var d: nat :| d < c.cap && j == Slot(c, s.keys[j], d) && Passed(c, s, s.keys[j], d);
        ClaimKeepsPassed(c, s, s', slot, k, s.keys[j], d);
      }
    }
  }

  lemma {:induction false} StepKeepsProbeInv(c: Config, s: State, t: nat, spurious: bool)
    requires c.Valid() && Shape(c, s) && ProbeInv(c, s)
    requires |c.keys| <= c.cap
    ensures ProbeInv(c, Step(c, s, t, spurious))
  {
    if t < |s.pcs| {
      var s' := Step(c, s, t, spurious);
      assert ThreadInv(c, s, t);
      if s.pcs[t].Probe? {
        NeverExhausted(c, s, t);
        if s.keys[Slot(c, c.keys[t], s.pcs[t].probe)] == 0 && !spurious {
          ClaimKeepsProbeInv(c, s, t);
          return;
        }
      }
      assert s'.keys == s.keys;
      forall u | 0 <= u < |s'.pcs| ensures ThreadInv(c, s', u) {
        assert ThreadInv(c, s, u);
      }
      forall j | 0 <= j < c.cap && s'.keys[j] != 0 ensures Placed(c, s', j) {
        assert Placed(c, s, j);
        var d: nat :| d < c.cap && j == Slot(c, s.keys[j], d) && Passed(c, s, s.keys[j], d);
        assert Passed(c, s', s'.keys[j], d);
      }
    }
  }

  // ---- What every step keeps: sums and counts ----

  predicate SumAdded(pc: PC) { pc.AddCount? || pc.Done? }

  /** What each thread has already added to the sum of key k. */
  function SumParts(c: Config, pcs: seq<PC>, k: int): (r: seq<int>)
    requires |pcs| == |c.keys| == |c.vals|
    ensures |r| == |pcs|
  {
    seq(|pcs|, t requires 0 <= t < |pcs| => if SumAdded(pcs[t]) && c.keys[t] == k then c.vals[t] else 0)
  }

  function CountParts(c: Config, pcs: seq<PC>, k: int): (r: seq<int>)
    requires |pcs| == |c.keys|
    ensures |r| == |pcs|
  {
    seq(|pcs|, t requires 0 <= t < |pcs| => if pcs[t].Done? && c.keys[t] == k then 1 else 0)
  }

  ghost predicate SlotExact(c: Config, s: State, j: nat)
    requires c.Valid() && Shape(c, s) && j < c.cap
  {
    && s.sums[j] == Sum(SumParts(c, s.pcs, s.keys[j]))
    && s.counts[j] == Sum(CountParts(c, s.pcs, s.keys[j]))
  }

  ghost predicate TotalsInv(c: Config, s: State)
    requires c.Valid() && Shape(c, s)
  {
    forall j :: 0 <= j < c.cap ==> SlotExact(c, s, j)
  }

  /** How moving one thread's program counter changes what has been added for k. */
  lemma {:induction false} MoveParts(c: Config, pcs: seq<PC>, t: nat, pc: PC, k: int)
    requires |pcs| == |c.keys| == |c.vals| && t < |pcs|
    ensures Sum(SumParts(c, pcs[t := pc], k)) == Sum(SumParts(c, pcs, k))
              + (if SumAdded(pc) && c.keys[t] == k then c.vals[t] else 0)
              - (if SumAdded(pcs[t]) && c.keys[t] == k then c.vals[t] else 0)
    ensures Sum(CountParts(c, pcs[t := pc], k)) == Sum(CountParts(c, pcs, k))
              + (if pc.Done? && c.keys[t] == k then 1 else 0)
              - (if pcs[t].Done? && c.keys[t] == k then 1 else 0)
  {
    var a, b := SumParts(c, pcs, k), CountParts(c, pcs, k);
    var x := if SumAdded(pc) && c.keys[t] == k then c.vals[t] else 0;
    var y := if pc.Done? && c.keys[t] == k then 1 else 0;
    assert SumParts(c, pcs[t := pc], k) == a[t := x];
    assert CountParts(c, pcs[t := pc], k) == b[t := y];
    SumUpdate(a, t, x);
    SumUpdate(b, t, y);
  }

  /** Nothing has been added for a key that is not in the table. */
  lemma {:induction false} AbsentKeyHasNoParts(c: Config, s: State, k: int)
    requires c.Valid() && Shape(c, s) && ProbeInv(c, s)
    requires forall j :: 0 <= j < c.cap ==> s.keys[j] != k
    ensures Sum(SumParts(c, s.pcs, k)) == 0 && Sum(CountParts(c, s.pcs, k)) == 0
  {
    forall t | 0 <= t < |s.pcs| ensures SumParts(c, s.pcs, k)[t] == 0 && CountParts(c, s.pcs, k)[t] == 0 {
      assert ThreadInv(c, s, t);
    }
    SumZero(SumParts(c, s.pcs, k), |s.pcs|);
    SumZero(CountParts(c, s.pcs, k), |s.pcs|);
  }

  lemma {:induction false} ClaimKeepsTotals(c: Config, s: State, t: nat)
    requires c.Valid() && Shape(c, s) && ProbeInv(c, s) && TotalsInv(c, s)
    requires t < |s.pcs| && s.pcs[t].Probe? && s.pcs[t].probe < c.cap
    requires s.keys[Slot(c, c.keys[t], s.pcs[t].probe)] == 0
    ensures TotalsInv(c, Step(c, s, t, false))
  {
    var k := c.keys[t];
    var slot := Slot(c, k, s.pcs[t].probe);
    var s' := Step(c, s, t, false);
    assert ThreadInv(c, s, t);
    AbsentAtEmptySlot(c, s, k, s.pcs[t].probe);
    AbsentKeyHasNoParts(c, s, k);
    assert SlotExact(c, s, slot);
    NoPartsForZero(c, s);
    forall j | 0 <= j < c.cap ensures SlotExact(c, s', j) {
      assert SlotExact(c, s, j);
      MoveParts(c, s.pcs, t, AddSum(slot), s'.keys[j]);
    }
  }

  lemma {:induction false} NoPartsForZero(c: Config, s: State)
    requires c.Valid() && Shape(c, s)
    ensures Sum(SumParts(c, s.pcs, 0)) == 0 && Sum(CountParts(c, s.pcs, 0)) == 0
  {
    SumZero(SumParts(c, s.pcs, 0), |s.pcs|);
    SumZero(CountParts(c, s.pcs, 0), |s.pcs|);
  }

  lemma {:induction false} StepKeepsTotals(c: Config, s: State, t: nat, spurious: bool)
    requires c.Valid() && Shape(c, s) && ProbeInv(c, s) && TotalsInv(c, s)
    requires |c.keys| <= c.cap
    ensures TotalsInv(c, Step(c, s, t, spurious))
  {
    if t < |s.pcs| {
      var s' := Step(c, s, t, spurious);
      assert ThreadInv(c, s, t);
      if s.pcs[t].Probe? {
        NeverExhausted(c, s, t);
        if s.keys[Slot(c, c.keys[t], s.pcs[t].probe)] == 0 && !spurious {
          ClaimKeepsTotals(c, s, t);
          return;
        }
      }
      forall j | 0 <= j < c.cap ensures SlotExact(c, s', j) {
        assert SlotExact(c, s, j);
        MoveParts(c, s.pcs, t, s'.pcs[t], s.keys[j]);
        assert s.pcs[t := s'.pcs[t]] == s'.pcs;
        if (s.pcs[t].AddSum? || s.pcs[t].AddCount?) && s.keys[j] == c.keys[t] {
          KeysUnique(c, s, j, s.pcs[t].slot);
        }
      }
    }
  }

  // ---- Every run ----

  lemma {:induction false} RunInvariant(c: Config, schedule: seq<Choice>)
    requires c.Valid() && |c.keys| <= c.cap
    ensures ProbeInv(c, Exec(c, schedule)) && TotalsInv(c, Exec(c, schedule))
  {
    if schedule == [] {
      var s := Init(c);
      forall j | 0 <= j < c.cap ensures SlotExact(c, s, j) {
        NoPartsForZero(c, s);
      }
    } else {
      var front, last := schedule[..|schedule| - 1], schedule[|schedule| - 1];
      RunInvariant(c, front);
      StepKeepsProbeInv(c, Exec(c, front), last.thread, last.spurious);
      StepKeepsTotals(c, Exec(c, front), last.thread, last.spurious);
    }
  }

  /** In every reachable state no thread has run out of slots, no key is in two slots,
      and every occupied slot's sum and count are exactly what its threads have added. */
  lemma {:induction false} ReachableStatesAreExact(c: Config, schedule: seq<Choice>)
    requires c.Valid() && |c.keys| <= c.cap
    ensures var s := Exec(c, schedule);
            && (forall t :: 0 <= t < |s.pcs| ==> !s.pcs[t].Exhausted?)
            && (forall i, j :: 0 <= i < j < c.cap && s.keys[i] != 0 ==> s.keys[i] != s.keys[j])
            && (forall j :: 0 <= j < c.cap ==> SlotExact(c, s, j))
  {
    RunInvariant(c, schedule);
    var s := Exec(c, schedule);
    forall t | 0 <= t < |s.pcs| ensures !s.pcs[t].Exhausted? {
      assert ThreadInv(c, s, t);
    }
    forall i: nat, j: nat | i < j < c.cap && s.keys[i] != 0 ensures s.keys[i] != s.keys[j] {
      if s.keys[i] == s.keys[j] {
        KeysUnique(c, s, i, j);
        assert false;
      }
    }
  }

  /** A key, once in a slot, stays there for the rest of the run. */
  lemma {:induction false} KeysNeverChange(c: Config, schedule: seq<Choice>, more: seq<Choice>, j: nat)
    requires c.Valid() && j < c.cap
    requires Exec(c, schedule).keys[j] != 0
    ensures Exec(c, schedule + more).keys[j] == Exec(c, schedule).keys[j]
  {
    if more == [] {
      assert schedule + more == schedule;
    } else {
      var front := more[..|more| - 1];
      KeysNeverChange(c, schedule, front, j);
      assert (schedule + more)[..|schedule + more| - 1] == schedule + front;
    }
  }

  // ---- Progress ----

  /** How often the schedule picks t without a spurious failure. */
  function Picks(schedule: seq<Choice>, t: nat): nat {
    if schedule == [] then 0
    else
      var last := schedule[|schedule| - 1];
      Picks(schedule[..|schedule| - 1], t) + if last == Choice(t, false) then 1 else 0
  }

  function Rank(c: Config, pc: PC): nat {
    match pc
    case Probe(p) => p
    case AddSum(_) => c.cap
    case AddCount(_) => c.cap + 1
    case Done(_) => c.cap + 2
    case Exhausted => 0
  }

  /** Each effective pick moves its thread forward, whatever the others do in between. */
  lemma {:induction false} PicksAreProgress(c: Config, schedule: seq<Choice>, t: nat)
    requires c.Valid() && |c.keys| <= c.cap && t < |c.keys|
    ensures var pc := Exec(c, schedule).pcs[t];
            pc.Done? || Rank(c, pc) >= Picks(schedule, t)
  {
    if schedule != [] {
      var front, last := schedule[..|schedule| - 1], schedule[|schedule| - 1];
      PicksAreProgress(c, front, t);
      RunInvariant(c, front);
      var s := Exec(c, front);
      assert ThreadInv(c, s, t);
      if s.pcs[t].Probe? {
        NeverExhausted(c, s, t);
      }
    }
  }

  /** All threads finish: cap + 3 effective picks are enough for any thread, however the
      other threads are interleaved and however often a CAS fails spuriously. */
  lemma {:induction false} EveryThreadFinishes(c: Config, schedule: seq<Choice>, t: nat)
    requires c.Valid() && |c.keys| <= c.cap && t < |c.keys|
    requires Picks(schedule, t) >= c.cap + 3
    ensures Exec(c, schedule).pcs[t].Done?
  {
    PicksAreProgress(c, schedule, t);
    RunInvariant(c, schedule);
    assert ThreadInv(c, Exec(c, schedule), t);
  }

  // ---- The result ----

  ghost predicate AllDone(s: State) {
    forall t :: 0 <= t < |s.pcs| ==> s.pcs[t].Done?
  }

  /** Once all threads have finished, each distinct key is in exactly one slot, with the exact
      sum and count of its rows, and no slot holds anything else. */
  lemma {:induction false} FinishedTableIsGroupBy(c: Config, schedule: seq<Choice>)
    requires c.Valid() && |c.keys| <= c.cap
    requires AllDone(Exec(c, schedule))
    ensures var s := Exec(c, schedule);
            && (forall j :: 0 <= j < c.cap && s.keys[j] != 0 ==>
                  && KeyCount(c.Rows(), s.keys[j]) > 0
                  && s.sums[j] == KeySum(c.Rows(), s.keys[j])
                  && s.counts[j] == KeyCount(c.Rows(), s.keys[j]))
            && (forall t :: 0 <= t < |c.keys| ==> c.keys[t] in s.keys)
            && (forall i, j :: 0 <= i < j < c.cap && s.keys[i] != 0 ==> s.keys[i] != s.keys[j])
  {
    ReachableStatesAreExact(c, schedule);
    RunInvariant(c, schedule);
    var s, rows := Exec(c, schedule), c.Rows();
    forall j | 0 <= j < c.cap && s.keys[j] != 0
      ensures KeyCount(rows, s.keys[j]) > 0
      ensures s.sums[j] == KeySum(rows, s.keys[j]) && s.counts[j] == KeyCount(rows, s.keys[j])
    {
      var k := s.keys[j];
      assert SlotExact(c, s, j);
      PartsAreKeySum(rows, SumParts(c, s.pcs, k), k);
      PartsAreKeyCount(rows, CountParts(c, s.pcs, k), k);
      assert Placed(c, s, j);
      var t :| 0 <= t < |c.keys| && c.keys[t] == k;
      assert rows[t].key == k;
      KeyCountPositive(rows, k);
    }
    forall t | 0 <= t < |c.keys| ensures c.keys[t] in s.keys {
      assert ThreadInv(c, s, t);
    }
  }
}
