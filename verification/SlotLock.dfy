/** The partitioned slot-lock aggregate: the threads of one threadgroup fold the rows of one
    partition into 1024 shared slots. A slot is EMPTY, LOCKED or COMMITTED; only the thread
    whose weak CAS set it to LOCKED may touch its key and sum. Each kernel instruction that
    touches shared memory is one step; a run is a schedule of threads, where `spurious`
    makes the weak CAS fail although it could succeed. */
module SlotLock {
  import opened Arith
  import opened Sums
  import opened GroupBy

  const SLOTS: nat := 1024
  const ATTEMPTS: nat := 4096

  /** `keys0` and `sums0` are the uninitialised contents of the threadgroup arrays. */
  datatype Config = Config(rows: seq<Row>, threads: nat, hash: int -> nat, keys0: seq<int>, sums0: seq<int>) {
    ghost predicate Valid() {
      threads > 0 && |keys0| == SLOTS && |sums0| == SLOTS
    }
  }

  datatype SlotState = Empty | Locked | Committed

  /** One thread's position: the row it works on, and where in the attempt loop it is.
      `dist` counts how often it has moved on to the next slot. */
  datatype PC =
    | Try(i: nat, attempt: nat, dist: nat)
    | ClaimEmpty(i: nat, attempt: nat, dist: nat)
    | ReadKey(i: nat, attempt: nat, dist: nat)
    | Relock(i: nat, attempt: nat, dist: nat)
    | WriteKey(i: nat, slot: nat)
    | WriteSum(i: nat, slot: nat)
    | LoadSum(i: nat, slot: nat)
    | StoreSum(i: nat, slot: nat, acc: int)
    | Publish(i: nat, slot: nat)
    | Finished(i: nat)
  {
    predicate Holding() { WriteKey? || WriteSum? || LoadSum? || StoreSum? || Publish? }
    predicate Probing() { Try? || ClaimEmpty? || ReadKey? || Relock? }
  }

  datatype Claim = Unclaimed | ClaimedFor(key: int)

  datatype Outcome = Pending | Folded(slot: nat) | Dropped

  /** state, keys and sums are the kernel's arrays; claimed, holder and outcome are history
      that no step reads: for which key a slot was taken, who holds its lock (-1: nobody),
      and what became of each row. */
  datatype State = State(
    state: seq<SlotState>, keys: seq<int>, sums: seq<int>, pcs: seq<PC>,
    claimed: seq<Claim>, holder: seq<int>, outcome: seq<Outcome>)

  function SlotAt(c: Config, k: int, dist: nat): (s: nat)
    ensures s < SLOTS
  {
    (c.hash(k) / 0x1_0000 % SLOTS + dist) % SLOTS
  }

  function FirstRow(c: Config, i: nat): PC {
    if i < |c.rows| then Try(i, 0, 0) else Finished(i)
  }

  predicate PCOk(c: Config, t: nat, pc: PC)
    requires c.threads > 0
  {
    && pc.i % c.threads == t
    && (if pc.Finished? then pc.i >= |c.rows| else pc.i < |c.rows|)
    && (pc.Holding() ==> pc.slot < SLOTS)
  }

  ghost predicate Shape(c: Config, s: State)
    requires c.Valid()
  {
    && |s.state| == |s.keys| == |s.sums| == |s.claimed| == |s.holder| == SLOTS
    && |s.pcs| == c.threads
    && |s.outcome| == |c.rows|
    && (forall t :: 0 <= t < |s.pcs| ==> PCOk(c, t, s.pcs[t]))
  }

  function Init(c: Config): (s: State)
    requires c.Valid()
    ensures Shape(c, s)
  {
    FirstRowsOk(c);
    State(seq(SLOTS, _ => Empty), c.keys0, c.sums0,
          seq(c.threads, t requires 0 <= t < c.threads => FirstRow(c, t)),
          seq(SLOTS, _ => Unclaimed), seq(SLOTS, _ => -1), seq(|c.rows|, _ => Pending))
  }

  lemma {:induction false} FirstRowsOk(c: Config)
    requires c.Valid()
    ensures forall t :: 0 <= t < c.threads ==> PCOk(c, t, FirstRow(c, t))
  {
    forall t | 0 <= t < c.threads ensures PCOk(c, t, FirstRow(c, t)) {
      SmallMod(t, c.threads);
    }
  }

  lemma {:induction false} NextRowOk(c: Config, t: nat, i: nat)
    requires c.Valid() && i % c.threads == t
    ensures PCOk(c, t, FirstRow(c, i + c.threads))
  {
    AddModulus(i, c.threads);
  }

  function Key(c: Config, pc: PC): int
    requires pc.i < |c.rows|
  {
    c.rows[pc.i].key
  }

  /** The attempt loop: loads, compares and the two weak CAS. */
  function StepProbing(c: Config, s: State, t: nat, spurious: bool): (s': State)
    requires c.Valid() && Shape(c, s) && t < |s.pcs| && s.pcs[t].Probing()
    ensures Shape(c, s')
  {
    var pc := s.pcs[t];
    assert PCOk(c, t, pc);
    NextRowOk(c, t, pc.i);
    var slot := SlotAt(c, Key(c, pc), pc.dist);
    match pc
    case Try(i, a, d) =>
      if a >= ATTEMPTS then
        s.(outcome := s.outcome[i := Dropped], pcs := s.pcs[t := FirstRow(c, i + c.threads)])
      else if s.state[slot].Empty? then s.(pcs := s.pcs[t := ClaimEmpty(i, a, d)])
      else if s.state[slot].Committed? then s.(pcs := s.pcs[t := ReadKey(i, a, d)])
      else s.(pcs := s.pcs[t := Try(i, a + 1, d)])
    case ClaimEmpty(i, a, d) =>
      if s.state[slot].Empty? && !spurious then
        s.(state := s.state[slot := Locked], claimed := s.claimed[slot := ClaimedFor(Key(c, pc))],
           holder := s.holder[slot := t], pcs := s.pcs[t := WriteKey(i, slot)])
      else s.(pcs := s.pcs[t := Try(i, a + 1, d)])
    case ReadKey(i, a, d) =>
      if s.keys[slot] == Key(c, pc) then s.(pcs := s.pcs[t := Relock(i, a, d)])
      else s.(pcs := s.pcs[t := Try(i, a + 1, d + 1)])
    case Relock(i, a, d) =>
      if s.state[slot].Committed? && !spurious then
        s.(state := s.state[slot := Locked], holder := s.holder[slot := t], pcs := s.pcs[t := LoadSum(i, slot)])
      else s.(pcs := s.pcs[t := Try(i, a + 1, d)])
  }

  /** What the holder of a lock does to its slot. */
  function StepHolding(c: Config, s: State, t: nat): (s': State)
    requires c.Valid() && Shape(c, s) && t < |s.pcs| && s.pcs[t].Holding()
    ensures Shape(c, s')
  {
    var pc := s.pcs[t];
    assert PCOk(c, t, pc);
    NextRowOk(c, t, pc.i);
    match pc
    case WriteKey(i, slot) =>
      s.(keys := s.keys[slot := Key(c, pc)], pcs := s.pcs[t := WriteSum(i, slot)])
    case WriteSum(i, slot) =>
      s.(sums := s.sums[slot := c.rows[i].value], outcome := s.outcome[i := Folded(slot)],
         pcs := s.pcs[t := Publish(i, slot)])
    case LoadSum(i, slot) => s.(pcs := s.pcs[t := StoreSum(i, slot, s.sums[slot])])
    case StoreSum(i, slot, acc) =>
      s.(sums := s.sums[slot := acc + c.rows[i].value], outcome := s.outcome[i := Folded(slot)],
         pcs := s.pcs[t := Publish(i, slot)])
    case Publish(i, slot) =>
      s.(state := s.state[slot := Committed], holder := s.holder[slot := -1],
         pcs := s.pcs[t := FirstRow(c, i + c.threads)])
  }

  /** One shared-memory action of thread t. */
  function Step(c: Config, s: State, t: nat, spurious: bool): (s': State)
    requires c.Valid() && Shape(c, s)
    ensures Shape(c, s')
  {
    if t >= |s.pcs| || s.pcs[t].Finished? then s
    else if s.pcs[t].Probing() then StepProbing(c, s, t, spurious)
    else StepHolding(c, s, t)
  }

  datatype Choice = Choice(thread: nat, spurious: bool)

  function Exec(c: Config, schedule: seq<Choice>): (s: State)
    requires c.Valid()
    ensures Shape(c, s)
  {
    if schedule == [] then Init(c)
    else
      var last := schedule[|schedule| - 1];
      Step(c, Exec(c, schedule[..|schedule| - 1]), last.thread, last.spurious)
  }

  // ---- Ownership ----

  ghost predicate SlotOwned(c: Config, s: State, j: nat)
    requires c.Valid() && Shape(c, s) && j < SLOTS
  {
    && (s.state[j].Locked? <==> s.holder[j] >= 0)
    && (s.holder[j] >= 0 ==> s.holder[j] < |s.pcs| && s.pcs[s.holder[j]].Holding() && s.pcs[s.holder[j]].slot == j)
  }

  ghost predicate OwnerInv(c: Config, s: State)
    requires c.Valid() && Shape(c, s)
  {
    && (forall j :: 0 <= j < SLOTS ==> SlotOwned(c, s, j))
    && (forall t :: 0 <= t < |s.pcs| && s.pcs[t].Holding() ==> s.holder[s.pcs[t].slot] == t)
  }

  lemma {:induction false} StepKeepsSlotOwned(c: Config, s: State, t: nat, spurious: bool, j: nat)
    requires c.Valid() && Shape(c, s) && OwnerInv(c, s) && j < SLOTS
    ensures SlotOwned(c, Step(c, s, t, spurious), j)
  {
    assert SlotOwned(c, s, j);
    if t < |s.pcs| {
      assert PCOk(c, t, s.pcs[t]);
    }
  }

  lemma {:induction false} StepKeepsHolder(c: Config, s: State, t: nat, spurious: bool, u: nat)
    requires c.Valid() && Shape(c, s) && OwnerInv(c, s) && u < |s.pcs|
    ensures var s' := Step(c, s, t, spurious);
            s'.pcs[u].Holding() ==> s'.holder[s'.pcs[u].slot] == u
  {
    if t < |s.pcs| {
      assert PCOk(c, t, s.pcs[t]) && PCOk(c, u, s.pcs[u]);
      if s.pcs[u].Holding() {
        assert SlotOwned(c, s, s.pcs[u].slot);
      }
    }
  }

  lemma {:induction false} StepKeepsOwner(c: Config, s: State, t: nat, spurious: bool)
    requires c.Valid() && Shape(c, s) && OwnerInv(c, s)
    ensures OwnerInv(c, Step(c, s, t, spurious))
  {
    var s' := Step(c, s, t, spurious);
    forall j | 0 <= j < SLOTS ensures SlotOwned(c, s', j) {
      StepKeepsSlotOwned(c, s, t, spurious, j);
    }
    forall u | 0 <= u < |s'.pcs| && s'.pcs[u].Holding() ensures s'.holder[s'.pcs[u].slot] == u {
      StepKeepsHolder(c, s, t, spurious, u);
    }
  }

  // ---- Keys ----

  /** The slot's key has been written for the claim it serves. */
  ghost predicate KeyVisible(c: Config, s: State, j: nat)
    requires c.Valid() && Shape(c, s) && OwnerInv(c, s) && j < SLOTS
  {
    assert SlotOwned(c, s, j);
    s.state[j].Committed? || (s.state[j].Locked? && !s.pcs[s.holder[j]].WriteKey?)
  }

  /** Each of the first d slots on k's path is taken for another key. */
  ghost predicate Passed(c: Config, s: State, k: int, d: nat)
    requires |s.claimed| == SLOTS
  {
    forall e :: 0 <= e < d ==> s.claimed[SlotAt(c, k, e)].ClaimedFor? && s.claimed[SlotAt(c, k, e)].key != k
  }

  ghost predicate Placed(c: Config, s: State, j: nat)
    requires |s.claimed| == SLOTS && j < SLOTS
  {
    s.claimed[j].ClaimedFor? ==>
      exists d: nat :: j == SlotAt(c, s.claimed[j].key, d) && Passed(c, s, s.claimed[j].key, d)
  }

  ghost predicate SlotKeyed(c: Config, s: State, j: nat)
    requires c.Valid() && Shape(c, s) && OwnerInv(c, s) && j < SLOTS
  {
    assert SlotOwned(c, s, j);
    && (s.claimed[j].Unclaimed? <==> s.state[j].Empty?)
    && (s.state[j].Locked? ==> s.claimed[j] == ClaimedFor(Key(c, s.pcs[s.holder[j]])))
    && (KeyVisible(c, s, j) ==> s.claimed[j] == ClaimedFor(s.keys[j]))
    && (s.claimed[j].ClaimedFor? ==> KeyCount(c.rows, s.claimed[j].key) > 0)
    && Placed(c, s, j)
  }

  ghost predicate ProbeOk(c: Config, s: State, t: nat)
    requires c.Valid() && Shape(c, s) && OwnerInv(c, s) && t < |s.pcs|
  {
    var pc := s.pcs[t];
    pc.Probing() ==>
      var slot := SlotAt(c, Key(c, pc), pc.dist);
      && Passed(c, s, Key(c, pc), pc.dist)
      && (pc.ReadKey? || pc.Relock? ==> KeyVisible(c, s, slot))
      && (pc.Relock? ==> s.claimed[slot] == ClaimedFor(Key(c, pc)))
  }

  ghost predicate KeyInv(c: Config, s: State)
    requires c.Valid() && Shape(c, s) && OwnerInv(c, s)
  {
    && (forall j :: 0 <= j < SLOTS ==> SlotKeyed(c, s, j))
    && (forall t :: 0 <= t < |s.pcs| ==> ProbeOk(c, s, t))
  }

  /** No key is claimed for two slots. */
  lemma {:induction false} ClaimsUnique(c: Config, s: State, i: nat, j: nat)
    requires |s.claimed| == SLOTS && i < SLOTS && j < SLOTS
    requires Placed(c, s, i) && Placed(c, s, j)
    requires s.claimed[i].ClaimedFor? && s.claimed[i] == s.claimed[j]
    ensures i == j
  {
    var k := s.claimed[i].key;
    var d: nat :| i == SlotAt(c, k, d) && Passed(c, s, k, d);
    var e: nat :| j == SlotAt(c, k, e) && Passed(c, s, k, e);
  }

  /** A claim is made once and never changed: what a step may do to the history. */
  ghost predicate ClaimsExtend(s: State, s': State)
    requires |s.claimed| == |s'.claimed| == SLOTS
  {
    forall j :: 0 <= j < SLOTS && s.claimed[j].ClaimedFor? ==> s'.claimed[j] == s.claimed[j]
  }

  lemma {:induction false} PassedExtends(c: Config, s: State, s': State, k: int, d: nat)
    requires |s.claimed| == |s'.claimed| == SLOTS && ClaimsExtend(s, s') && Passed(c, s, k, d)
    ensures Passed(c, s', k, d)
  {
  }

  lemma {:induction false} StepExtends(c: Config, s: State, t: nat, spurious: bool)
    requires c.Valid() && Shape(c, s) && OwnerInv(c, s) && KeyInv(c, s)
    ensures ClaimsExtend(s, Step(c, s, t, spurious))
  {
    forall j | 0 <= j < SLOTS && s.claimed[j].ClaimedFor?
      ensures Step(c, s, t, spurious).claimed[j] == s.claimed[j]
    {
      assert SlotKeyed(c, s, j);
    }
  }

  /** Once visible, a key stays visible. */
  lemma {:induction false} StepKeepsVisible(c: Config, s: State, t: nat, spurious: bool, j: nat)
    requires c.Valid() && Shape(c, s) && OwnerInv(c, s) && j < SLOTS && KeyVisible(c, s, j)
    requires OwnerInv(c, Step(c, s, t, spurious))
    ensures KeyVisible(c, Step(c, s, t, spurious), j)
    ensures Step(c, s, t, spurious).keys[j] == s.keys[j]
  {
    assert SlotOwned(c, s, j);
    assert SlotOwned(c, Step(c, s, t, spurious), j);
  }

  lemma {:induction false} StepKeepsPlaced(c: Config, s: State, t: nat, spurious: bool, j: nat)
    requires c.Valid() && Shape(c, s) && OwnerInv(c, s) && KeyInv(c, s) && j < SLOTS
    ensures Placed(c, Step(c, s, t, spurious), j)
    ensures var claim := Step(c, s, t, spurious).claimed[j];
            claim.ClaimedFor? ==> KeyCount(c.rows, claim.key) > 0
  {
    var s' := Step(c, s, t, spurious);
    StepExtends(c, s, t, spurious);
    assert SlotKeyed(c, s, j);
    if s.claimed[j].ClaimedFor? {
      var d: nat :| j == SlotAt(c, s.claimed[j].key, d) && Passed(c, s, s.claimed[j].key, d);
      PassedExtends(c, s, s', s.claimed[j].key, d);
    } else if s'.claimed[j].ClaimedFor? {
      assert ProbeOk(c, s, t) && PCOk(c, t, s.pcs[t]);
      KeyCountPositive(c.rows, Key(c, s.pcs[t]));
      PassedExtends(c, s, s', s'.claimed[j].key, s.pcs[t].dist);
    }
  }

  lemma {:induction false} StepKeepsSlotKeyed(c: Config, s: State, t: nat, spurious: bool, j: nat)
    requires c.Valid() && Shape(c, s) && OwnerInv(c, s) && KeyInv(c, s) && j < SLOTS
    requires OwnerInv(c, Step(c, s, t, spurious))
    ensures SlotKeyed(c, Step(c, s, t, spurious), j)
  {
    StepKeepsPlaced(c, s, t, spurious, j);
    assert SlotKeyed(c, s, j) && SlotOwned(c, s, j) && SlotOwned(c, Step(c, s, t, spurious), j);
    if t < |s.pcs| {
      assert PCOk(c, t, s.pcs[t]);
      if s.pcs[t].Relock? {
        assert ProbeOk(c, s, t);
      }
    }
  }

  /** A thread's probe is undisturbed by the others. */
  lemma {:induction false} OthersKeepProbeOk(c: Config, s: State, t: nat, spurious: bool, u: nat)
    requires c.Valid() && Shape(c, s) && OwnerInv(c, s) && KeyInv(c, s) && u < |s.pcs| && u != t
    requires OwnerInv(c, Step(c, s, t, spurious))
    ensures ProbeOk(c, Step(c, s, t, spurious), u)
  {
    var s', pc := Step(c, s, t, spurious), s.pcs[u];
    assert s'.pcs[u] == pc && ProbeOk(c, s, u) && PCOk(c, u, pc);
    if pc.Probing() {
      StepExtends(c, s, t, spurious);
      PassedExtends(c, s, s', Key(c, pc), pc.dist);
      if pc.ReadKey? || pc.Relock? {
        StepKeepsVisible(c, s, t, spurious, SlotAt(c, Key(c, pc), pc.dist));
      }
    }
  }

  lemma {:induction false} OwnStepKeepsProbeOk(c: Config, s: State, t: nat, spurious: bool)
    requires c.Valid() && Shape(c, s) && OwnerInv(c, s) && KeyInv(c, s) && t < |s.pcs|
    requires OwnerInv(c, Step(c, s, t, spurious))
    ensures ProbeOk(c, Step(c, s, t, spurious), t)
  {
    var s', pc := Step(c, s, t, spurious), s.pcs[t];
    assert ProbeOk(c, s, t) && PCOk(c, t, pc);
    if pc.Probing() {
      var slot := SlotAt(c, Key(c, pc), pc.dist);
      assert SlotOwned(c, s, slot) && SlotOwned(c, s', slot) && SlotKeyed(c, s, slot);
      if s'.pcs[t].Probing() && s'.pcs[t].i == pc.i {
        assert s'.claimed == s.claimed;
      }
    }
  }

  lemma {:induction false} StepKeepsKeys(c: Config, s: State, t: nat, spurious: bool)
    requires c.Valid() && Shape(c, s) && OwnerInv(c, s) && KeyInv(c, s)
    requires OwnerInv(c, Step(c, s, t, spurious))
    ensures KeyInv(c, Step(c, s, t, spurious))
  {
    forall j | 0 <= j < SLOTS ensures SlotKeyed(c, Step(c, s, t, spurious), j) {
      StepKeepsSlotKeyed(c, s, t, spurious, j);
    }
    forall u | 0 <= u < |s.pcs| ensures ProbeOk(c, Step(c, s, t, spurious), u) {
      if u == t {
        OwnStepKeepsProbeOk(c, s, t, spurious);
      } else {
        OthersKeepProbeOk(c, s, t, spurious, u);
      }
    }
  }

  // ---- Sums ----

  /** What the rows folded into slot j contribute. */
  function FoldParts(c: Config, outcome: seq<Outcome>, j: nat): (r: seq<int>)
    requires |outcome| == |c.rows|
    ensures |r| == |c.rows|
  {
    seq(|c.rows|, i requires 0 <= i < |c.rows| => if outcome[i] == Folded(j) then c.rows[i].value else 0)
  }

  /** The slot's sum has been initialised for its claim. */
  ghost predicate SumVisible(c: Config, s: State, j: nat)
    requires c.Valid() && Shape(c, s) && OwnerInv(c, s) && j < SLOTS
  {
    assert SlotOwned(c, s, j);
    && (s.state[j].Committed? || s.state[j].Locked?)
    && (s.state[j].Locked? ==> var pc := s.pcs[s.holder[j]]; pc.LoadSum? || pc.StoreSum? || pc.Publish?)
  }

  ghost predicate SlotSummed(c: Config, s: State, j: nat)
    requires c.Valid() && Shape(c, s) && OwnerInv(c, s) && j < SLOTS
  {
    assert SlotOwned(c, s, j);
    && (SumVisible(c, s, j) ==> s.sums[j] == Sum(FoldParts(c, s.outcome, j)))
    && (s.state[j].Locked? && s.pcs[s.holder[j]].StoreSum? ==> s.pcs[s.holder[j]].acc == s.sums[j])
  }

  ghost predicate RowAccounted(c: Config, s: State, i: nat)
    requires c.Valid() && Shape(c, s) && OwnerInv(c, s) && i < |c.rows|
  {
    RowTimely(c, s, i) && RowPlaced(c, s, i)
  }

  /** A row is pending until its thread has folded it or given up on it. */
  ghost predicate RowTimely(c: Config, s: State, i: nat)
    requires c.Valid() && Shape(c, s) && i < |c.rows|
  {
    var pc := s.pcs[i % c.threads];
    s.outcome[i].Pending? <==> pc.i < i || (pc.i == i && !pc.Publish?)
  }

  ghost predicate RowPlaced(c: Config, s: State, i: nat)
    requires c.Valid() && Shape(c, s) && OwnerInv(c, s) && i < |c.rows|
  {
    s.outcome[i].Folded? ==>
      && s.outcome[i].slot < SLOTS
      && SumVisible(c, s, s.outcome[i].slot)
      && s.claimed[s.outcome[i].slot] == ClaimedFor(c.rows[i].key)
  }

  ghost predicate SumInv(c: Config, s: State)
    requires c.Valid() && Shape(c, s) && OwnerInv(c, s)
  {
    && (forall j :: 0 <= j < SLOTS ==> SlotSummed(c, s, j))
    && (forall i :: 0 <= i < |c.rows| ==> RowAccounted(c, s, i))
  }

  lemma {:induction false} StepKeepsSumVisible(c: Config, s: State, t: nat, spurious: bool, j: nat)
    requires c.Valid() && Shape(c, s) && OwnerInv(c, s) && j < SLOTS && SumVisible(c, s, j)
    requires OwnerInv(c, Step(c, s, t, spurious))
    ensures SumVisible(c, Step(c, s, t, spurious), j)
  {
    assert SlotOwned(c, s, j);
    assert SlotOwned(c, Step(c, s, t, spurious), j);
  }

  lemma {:induction false} StepKeepsRowPlaced(c: Config, s: State, t: nat, spurious: bool, i: nat)
    requires c.Valid() && Shape(c, s) && OwnerInv(c, s) && KeyInv(c, s) && SumInv(c, s) && i < |c.rows|
    requires OwnerInv(c, Step(c, s, t, spurious))
    ensures RowPlaced(c, Step(c, s, t, spurious), i)
  {
    var s' := Step(c, s, t, spurious);
    assert RowAccounted(c, s, i);
    StepExtends(c, s, t, spurious);
    if s'.outcome[i] == s.outcome[i] {
      if s.outcome[i].Folded? {
        StepKeepsSumVisible(c, s, t, spurious, s.outcome[i].slot);
      }
    } else if s'.outcome[i].Folded? {
      var slot := s.pcs[t].slot;
      assert PCOk(c, t, s.pcs[t]);
      assert SlotOwned(c, s, slot) && SlotOwned(c, s', slot) && SlotKeyed(c, s, slot);
    }
  }

  lemma {:induction false} StepKeepsRowTimely(c: Config, s: State, t: nat, spurious: bool, i: nat)
    requires c.Valid() && Shape(c, s) && i < |c.rows| && RowTimely(c, s, i)
    ensures RowTimely(c, Step(c, s, t, spurious), i)
  {
    if t < |s.pcs| {
      var pc := s.pcs[t];
      assert PCOk(c, t, pc);
      if i % c.threads == t && pc.i < i {
        SameResidue(pc.i, i, c.threads);
      }
    }
  }

  /** Folding row i into slot j, when it was pending, adds its value to that slot only. */
  lemma {:induction false} FoldOne(c: Config, outcome: seq<Outcome>, i: nat, o: Outcome, j: nat)
    requires |outcome| == |c.rows| && i < |c.rows| && !outcome[i].Folded?
    ensures Sum(FoldParts(c, outcome[i := o], j)) ==
            Sum(FoldParts(c, outcome, j)) + if o == Folded(j) then c.rows[i].value else 0
  {
    var p := FoldParts(c, outcome, j);
    var x := if o == Folded(j) then c.rows[i].value else 0;
    assert FoldParts(c, outcome[i := o], j) == p[i := x];
    SumUpdate(p, i, x);
  }

  lemma {:induction false} NothingFolded(c: Config, s: State, j: nat)
    requires c.Valid() && Shape(c, s) && OwnerInv(c, s) && SumInv(c, s) && j < SLOTS
    requires !SumVisible(c, s, j)
    ensures Sum(FoldParts(c, s.outcome, j)) == 0
  {
    forall i | 0 <= i < |c.rows| ensures FoldParts(c, s.outcome, j)[i] == 0 {
      assert RowAccounted(c, s, i);
    }
    SumZero(FoldParts(c, s.outcome, j), |c.rows|);
  }

  /** A fold by the holder of a slot. */
  lemma {:induction false} FoldKeepsSlotSummed(c: Config, s: State, t: nat, spurious: bool, j: nat)
    requires c.Valid() && Shape(c, s) && OwnerInv(c, s) && SumInv(c, s) && j < SLOTS
    requires t < |s.pcs| && (s.pcs[t].WriteSum? || s.pcs[t].StoreSum?)
    requires OwnerInv(c, Step(c, s, t, spurious))
    ensures SlotSummed(c, Step(c, s, t, spurious), j)
  {
    var s', pc := Step(c, s, t, spurious), s.pcs[t];
    assert PCOk(c, t, pc) && RowAccounted(c, s, pc.i);
    assert SlotSummed(c, s, j) && SlotOwned(c, s, j) && SlotOwned(c, s', j) && SlotOwned(c, s, pc.slot);
    FoldOne(c, s.outcome, pc.i, Folded(pc.slot), j);
    if pc.WriteSum? && j == pc.slot {
      NothingFolded(c, s, j);
    }
  }

  lemma {:induction false} StepKeepsSlotSummed(c: Config, s: State, t: nat, spurious: bool, j: nat)
    requires c.Valid() && Shape(c, s) && OwnerInv(c, s) && SumInv(c, s) && j < SLOTS
    requires OwnerInv(c, Step(c, s, t, spurious))
    ensures SlotSummed(c, Step(c, s, t, spurious), j)
  {
    var s' := Step(c, s, t, spurious);
    if t < |s.pcs| && (s.pcs[t].WriteSum? || s.pcs[t].StoreSum?) {
      FoldKeepsSlotSummed(c, s, t, spurious, j);
    } else {
      assert SlotSummed(c, s, j) && SlotOwned(c, s, j) && SlotOwned(c, s', j);
      if t < |s.pcs| && s'.outcome != s.outcome {
        assert PCOk(c, t, s.pcs[t]) && RowAccounted(c, s, s.pcs[t].i);
        FoldOne(c, s.outcome, s.pcs[t].i, Dropped, j);
      }
    }
  }

  lemma {:induction false} StepKeepsSums(c: Config, s: State, t: nat, spurious: bool)
    requires c.Valid() && Shape(c, s) && OwnerInv(c, s) && KeyInv(c, s) && SumInv(c, s)
    requires OwnerInv(c, Step(c, s, t, spurious)) && KeyInv(c, Step(c, s, t, spurious))
    ensures SumInv(c, Step(c, s, t, spurious))
  {
    forall j | 0 <= j < SLOTS ensures SlotSummed(c, Step(c, s, t, spurious), j) {
      StepKeepsSlotSummed(c, s, t, spurious, j);
    }
    forall i | 0 <= i < |c.rows| ensures RowAccounted(c, Step(c, s, t, spurious), i) {
      assert RowAccounted(c, s, i);
      StepKeepsRowTimely(c, s, t, spurious, i);
      StepKeepsRowPlaced(c, s, t, spurious, i);
    }
  }

  // ---- Every run ----

  ghost predicate Inv(c: Config, s: State)
    requires c.Valid()
  {
    Shape(c, s) && OwnerInv(c, s) && KeyInv(c, s) && SumInv(c, s)
  }

  lemma {:induction false} InitInv(c: Config)
    requires c.Valid()
    ensures Inv(c, Init(c))
  {
    var s := Init(c);
    FirstRowsOk(c);
    forall i | 0 <= i < |c.rows| ensures RowAccounted(c, s, i) {
      FirstRowBelow(c, i);
    }
  }

  lemma {:induction false} FirstRowBelow(c: Config, i: nat)
    requires c.Valid() && i < |c.rows|
    ensures i % c.threads <= i && FirstRow(c, i % c.threads).i == i % c.threads
    ensures FirstRow(c, i % c.threads).Try?
  {
    assert i == c.threads * (i / c.threads) + i % c.threads;
  }

  lemma {:induction false} RunInvariant(c: Config, schedule: seq<Choice>)
    requires c.Valid()
    ensures Inv(c, Exec(c, schedule))
  {
    if schedule == [] {
      InitInv(c);
    } else {
      var front, last := schedule[..|schedule| - 1], schedule[|schedule| - 1];
      var s := Exec(c, front);
      RunInvariant(c, front);
      StepKeepsOwner(c, s, last.thread, last.spurious);
      StepKeepsKeys(c, s, last.thread, last.spurious);
      StepKeepsSums(c, s, last.thread, last.spurious);
    }
  }

  /** In every reachable state a slot is LOCKED exactly when some thread holds it, and no two
      threads hold the same slot. */
  lemma {:induction false} LockedSlotsHaveOneOwner(c: Config, schedule: seq<Choice>)
    requires c.Valid()
    ensures var s := Exec(c, schedule);
            && (forall j :: 0 <= j < SLOTS && s.state[j].Locked? ==>
                  (exists t :: 0 <= t < |s.pcs| && s.pcs[t].Holding() && s.pcs[t].slot == j))
            && (forall t :: 0 <= t < |s.pcs| && s.pcs[t].Holding() ==> s.state[s.pcs[t].slot].Locked?)
            && (forall t, u :: 0 <= t < u < |s.pcs| && s.pcs[t].Holding() && s.pcs[u].Holding() ==>
                                 s.pcs[t].slot != s.pcs[u].slot)
  {
    var s := Exec(c, schedule);
    RunInvariant(c, schedule);
    forall j | 0 <= j < SLOTS && s.state[j].Locked?
      ensures exists t :: 0 <= t < |s.pcs| && s.pcs[t].Holding() && s.pcs[t].slot == j
    {
      assert SlotOwned(c, s, j);
    }
    forall t | 0 <= t < |s.pcs| && s.pcs[t].Holding() ensures s.state[s.pcs[t].slot].Locked? {
      assert PCOk(c, t, s.pcs[t]) && SlotOwned(c, s, s.pcs[t].slot);
    }
  }

  ghost predicate CommittedDistinct(s: State, n: nat)
    requires n <= |s.state| == |s.keys|
  {
    forall i, j :: 0 <= i < j < n && s.state[i].Committed? && s.state[j].Committed? ==> s.keys[i] != s.keys[j]
  }

  /** In every reachable state no key is committed in two slots. */
  lemma {:induction false} CommittedKeysDistinct(c: Config, schedule: seq<Choice>)
    requires c.Valid()
    ensures CommittedDistinct(Exec(c, schedule), SLOTS)
  {
    var s := Exec(c, schedule);
    RunInvariant(c, schedule);
    forall i, j | 0 <= i < j < SLOTS && s.state[i].Committed? && s.state[j].Committed?
      ensures s.keys[i] != s.keys[j]
    {
      assert SlotKeyed(c, s, i) && SlotKeyed(c, s, j);
      if s.keys[i] == s.keys[j] {
        ClaimsUnique(c, s, i, j);
        assert false;
      }
    }
  }

  /** In every reachable state a committed sum is exactly the sum of the rows folded into the
      slot, and every such row carries the slot's key. */
  lemma {:induction false} CommittedSumsExact(c: Config, schedule: seq<Choice>)
    requires c.Valid()
    ensures var s := Exec(c, schedule);
            && (forall j :: 0 <= j < SLOTS && s.state[j].Committed? ==>
                  s.sums[j] == Sum(FoldParts(c, s.outcome, j)))
            && (forall i :: 0 <= i < |c.rows| && s.outcome[i].Folded? ==>
                  && s.outcome[i].slot < SLOTS
                  && (s.state[s.outcome[i].slot].Committed? ==> s.keys[s.outcome[i].slot] == c.rows[i].key))
  {
    var s := Exec(c, schedule);
    RunInvariant(c, schedule);
    forall j | 0 <= j < SLOTS && s.state[j].Committed? ensures s.sums[j] == Sum(FoldParts(c, s.outcome, j)) {
      assert SlotSummed(c, s, j);
    }
    forall i | 0 <= i < |c.rows| && s.outcome[i].Folded?
      ensures s.outcome[i].slot < SLOTS
      ensures s.state[s.outcome[i].slot].Committed? ==> s.keys[s.outcome[i].slot] == c.rows[i].key
    {
      assert RowAccounted(c, s, i);
      assert SlotKeyed(c, s, s.outcome[i].slot);
    }
  }

  /** A key never changes once its slot has been committed, in any continuation of the run. */
  lemma {:induction false} CommittedKeysNeverChange(c: Config, schedule: seq<Choice>, more: seq<Choice>, j: nat)
    requires c.Valid() && j < SLOTS
    requires Exec(c, schedule).state[j].Committed?
    ensures var s, s' := Exec(c, schedule), Exec(c, schedule + more);
            s'.keys[j] == s.keys[j] && !s'.state[j].Empty?
  {
    VisiblePersists(c, schedule, more, j);
    RunInvariant(c, schedule + more);
    assert SlotOwned(c, Exec(c, schedule + more), j);
  }

  lemma {:induction false} VisiblePersists(c: Config, schedule: seq<Choice>, more: seq<Choice>, j: nat)
    requires c.Valid() && j < SLOTS
    requires Exec(c, schedule).state[j].Committed?
    ensures Inv(c, Exec(c, schedule + more)) && KeyVisible(c, Exec(c, schedule + more), j)
    ensures Exec(c, schedule + more).keys[j] == Exec(c, schedule).keys[j]
  {
    RunInvariant(c, schedule + more);
    if more == [] {
      assert schedule + more == schedule;
    } else {
      var front, last := more[..|more| - 1], more[|more| - 1];
      VisiblePersists(c, schedule, front, j);
      assert (schedule + more)[..|schedule + more| - 1] == schedule + front;
      StepKeepsVisible(c, Exec(c, schedule + front), last.thread, last.spurious, j);
    }
  }

  // ---- Progress ----

  /** Steps one row can take: four per attempt, and four more for the fold itself. */
  const ROW_STEPS: nat := 4 * ATTEMPTS + 8

  /** How far into its current row a thread is. */
  function RowRank(pc: PC): nat {
    match pc
    case Try(_, a, _) => 4 * a
    case ClaimEmpty(_, a, _) => 4 * a + 1
    case ReadKey(_, a, _) => 4 * a + 1
    case Relock(_, a, _) => 4 * a + 2
    case WriteKey(_, _) => 4 * ATTEMPTS + 1
    case WriteSum(_, _) => 4 * ATTEMPTS + 2
    case LoadSum(_, _) => 4 * ATTEMPTS + 2
    case StoreSum(_, _, _) => 4 * ATTEMPTS + 3
    case Publish(_, _) => 4 * ATTEMPTS + 4
    case Finished(_) => 0
  }

  function Rank(c: Config, pc: PC): nat
    requires c.threads > 0
  {
    pc.i / c.threads * ROW_STEPS + RowRank(pc)
  }

  ghost predicate AttemptOk(pc: PC) {
    pc.Probing() ==> pc.attempt <= ATTEMPTS && (!pc.Try? ==> pc.attempt < ATTEMPTS)
  }

  /** Every step of an unfinished thread moves it forward; other threads' steps do not move it.
      A spurious or lost CAS costs an attempt, so even that is progress. */
  lemma {:induction false} StepIsProgress(c: Config, s: State, t: nat, spurious: bool, u: nat)
    requires c.Valid() && Shape(c, s) && u < |s.pcs| && AttemptOk(s.pcs[u])
    ensures var s' := Step(c, s, t, spurious);
            && AttemptOk(s'.pcs[u])
            && (t != u ==> s'.pcs[u] == s.pcs[u])
            && (t == u && !s.pcs[u].Finished? ==> Rank(c, s'.pcs[u]) > Rank(c, s.pcs[u]))
            && (s.pcs[u].Finished? ==> s'.pcs[u] == s.pcs[u])
  {
    assert PCOk(c, u, s.pcs[u]);
    AddModulus(s.pcs[u].i, c.threads);
    assert (s.pcs[u].i / c.threads + 1) * ROW_STEPS == s.pcs[u].i / c.threads * ROW_STEPS + ROW_STEPS;
  }

  function Picks(schedule: seq<Choice>, t: nat): nat {
    if schedule == [] then 0
    else Picks(schedule[..|schedule| - 1], t) + if schedule[|schedule| - 1].thread == t then 1 else 0
  }

  lemma {:induction false} PicksAreProgress(c: Config, schedule: seq<Choice>, t: nat)
    requires c.Valid() && t < c.threads
    ensures var pc := Exec(c, schedule).pcs[t];
            AttemptOk(pc) && (pc.Finished? || Rank(c, pc) >= Picks(schedule, t))
  {
    if schedule != [] {
      var front, last := schedule[..|schedule| - 1], schedule[|schedule| - 1];
      PicksAreProgress(c, front, t);
      StepIsProgress(c, Exec(c, front), last.thread, last.spurious, t);
    }
  }

  lemma {:induction false} RankBound(c: Config, pc: PC, rows: nat)
    requires c.threads > 0 && pc.i < rows && AttemptOk(pc)
    ensures Rank(c, pc) < rows * ROW_STEPS
  {
    QuotientAtMost(pc.i, c.threads);
    RoundsBound(pc.i / c.threads, RowRank(pc), rows);
  }

  lemma {:induction false} RoundsBound(q: nat, rank: nat, rows: nat)
    requires q < rows && rank < ROW_STEPS
    ensures q * ROW_STEPS + rank < rows * ROW_STEPS
  {
  }

  /** The kernel is wait-free: a bounded number of its own steps finishes any thread. */
  lemma {:induction false} EveryThreadFinishes(c: Config, schedule: seq<Choice>, t: nat)
    requires c.Valid() && t < c.threads
    requires Picks(schedule, t) >= |c.rows| * 16_392
    ensures Exec(c, schedule).pcs[t].Finished?
  {
    PicksAreProgress(c, schedule, t);
    var pc := Exec(c, schedule).pcs[t];
    assert PCOk(c, t, pc);
    if !pc.Finished? {
      RankBound(c, pc, |c.rows|);
    }
  }

  lemma {:induction false} AttemptsTakeSteps(c: Config, schedule: seq<Choice>, t: nat)
    requires c.Valid() && t < c.threads
    ensures var pc := Exec(c, schedule).pcs[t];
            pc.Probing() ==> pc.attempt <= Picks(schedule, t)
  {
    if schedule != [] {
      var front, last := schedule[..|schedule| - 1], schedule[|schedule| - 1];
      AttemptsTakeSteps(c, front, t);
      assert PCOk(c, t, Exec(c, front).pcs[t]);
    }
  }

  /** It gives up on a row only after 4096 attempts, each at least a step of its own. */
  lemma {:induction false} DropTakesAttempts(c: Config, schedule: seq<Choice>, i: nat)
    requires c.Valid() && i < |c.rows| && Exec(c, schedule).outcome[i].Dropped?
    ensures Picks(schedule, i % c.threads) >= 4_096
  {
    if schedule != [] {
      var front, last := schedule[..|schedule| - 1], schedule[|schedule| - 1];
      var s := Exec(c, front);
      if s.outcome[i].Dropped? {
        DropTakesAttempts(c, front, i);
      } else {
        assert PCOk(c, last.thread, s.pcs[last.thread]);
        AttemptsTakeSteps(c, front, last.thread);
      }
    }
  }

  // ---- The finished partition ----

  ghost predicate AllFinished(s: State) {
    forall t :: 0 <= t < |s.pcs| ==> s.pcs[t].Finished?
  }

  /** With every thread past its last row, no lock is left and no row is pending. */
  lemma {:induction false} FinishedIsQuiet(c: Config, s: State)
    requires c.Valid() && Inv(c, s) && AllFinished(s)
    ensures forall j :: 0 <= j < SLOTS ==> !s.state[j].Locked?
    ensures forall i :: 0 <= i < |c.rows| ==> !s.outcome[i].Pending?
  {
    forall j | 0 <= j < SLOTS ensures !s.state[j].Locked? {
      assert SlotOwned(c, s, j);
    }
    forall i | 0 <= i < |c.rows| ensures !s.outcome[i].Pending? {
      assert RowAccounted(c, s, i);
      assert PCOk(c, i % c.threads, s.pcs[i % c.threads]);
    }
  }

  /** The rows folded into any of the first n slots. */
  function FoldedBelow(c: Config, outcome: seq<Outcome>, n: nat): (r: seq<int>)
    requires |outcome| == |c.rows|
    ensures |r| == |c.rows|
  {
    seq(|c.rows|, i requires 0 <= i < |c.rows| =>
      if outcome[i].Folded? && outcome[i].slot < n then c.rows[i].value else 0)
  }

  /** The values of the rows that used up their attempts. */
  function DroppedParts(c: Config, outcome: seq<Outcome>): (r: seq<int>)
    requires |outcome| == |c.rows|
    ensures |r| == |c.rows|
  {
    seq(|c.rows|, i requires 0 <= i < |c.rows| => if outcome[i].Dropped? then c.rows[i].value else 0)
  }

  /** What the last loop of the kernel emits for the first n slots. */
  function Emitted(s: State, n: nat): (r: seq<Group>)
    requires n <= |s.state| == |s.keys| == |s.sums|
  {
    if n == 0 then []
    else if s.state[n - 1].Committed? then Emitted(s, n - 1) + [Group(s.keys[n - 1], s.sums[n - 1], 0)]
    else Emitted(s, n - 1)
  }

  lemma {:induction false} EmittedTotal(c: Config, s: State, n: nat)
    requires c.Valid() && Inv(c, s) && AllFinished(s) && n <= SLOTS
    ensures GroupTotal(Emitted(s, n)) == Sum(FoldedBelow(c, s.outcome, n))
  {
    if n == 0 {
      SumZero(FoldedBelow(c, s.outcome, 0), |c.rows|);
    } else {
      EmittedTotal(c, s, n - 1);
      FinishedIsQuiet(c, s);
      assert SlotSummed(c, s, n - 1);
      PrefixAdd(FoldedBelow(c, s.outcome, n - 1), FoldParts(c, s.outcome, n - 1), FoldedBelow(c, s.outcome, n),
                |c.rows|);
      if s.state[n - 1].Empty? {
        NothingFolded(c, s, n - 1);
      } else {
        var g := Group(s.keys[n - 1], s.sums[n - 1], 0);
        assert (Emitted(s, n - 1) + [g])[..|Emitted(s, n - 1)|] == Emitted(s, n - 1);
      }
    }
  }

  /** Conservation: whatever is missing from the output is what the dropped rows carried. */
  lemma {:induction false} NothingLostButDrops(c: Config, schedule: seq<Choice>)
    requires c.Valid() && AllFinished(Exec(c, schedule))
    ensures var s := Exec(c, schedule);
            Total(c.rows) == GroupTotal(Emitted(s, SLOTS)) + Sum(DroppedParts(c, s.outcome))
  {
    var s := Exec(c, schedule);
    RunInvariant(c, schedule);
    EmittedTotal(c, s, SLOTS);
    FinishedIsQuiet(c, s);
    var values := seq(|c.rows|, i requires 0 <= i < |c.rows| => c.rows[i].value);
    forall i | 0 <= i < |c.rows|
      ensures values[i] == FoldedBelow(c, s.outcome, SLOTS)[i] + DroppedParts(c, s.outcome)[i]
    {
      assert RowAccounted(c, s, i);
    }
    PrefixAdd(FoldedBelow(c, s.outcome, SLOTS), DroppedParts(c, s.outcome), values, |c.rows|);
    ValuesAreTotal(c.rows, values);
  }

  ghost predicate FromCommitted(s: State, n: nat, g: Group)
    requires n <= |s.state| == |s.keys| == |s.sums|
  {
    exists j :: 0 <= j < n && s.state[j].Committed? && g.key == s.keys[j] && g.sum == s.sums[j]
  }

  lemma {:induction false} EmittedFromCommitted(s: State, n: nat)
    requires n <= |s.state| == |s.keys| == |s.sums|
    ensures forall g <- Emitted(s, n) :: FromCommitted(s, n, g)
  {
    if n > 0 {
      EmittedFromCommitted(s, n - 1);
      forall g <- Emitted(s, n) ensures FromCommitted(s, n, g) {
        if g in Emitted(s, n - 1) {
          assert FromCommitted(s, n - 1, g);
        } else {
          assert s.state[n - 1].Committed? && g == Group(s.keys[n - 1], s.sums[n - 1], 0);
        }
      }
    }
  }

  lemma {:induction false} CommittedAreEmitted(s: State, n: nat, j: nat)
    requires j < n <= |s.state| == |s.keys| == |s.sums| && s.state[j].Committed?
    ensures HasKey(Emitted(s, n), s.keys[j])
  {
    var r := Emitted(s, n);
    if j == n - 1 {
      assert r[|r| - 1].key == s.keys[j];
    } else {
      CommittedAreEmitted(s, n - 1, j);
      var front := Emitted(s, n - 1);
      var i :| 0 <= i < |front| && front[i].key == s.keys[j];
      assert r[i].key == s.keys[j];
    }
  }

  lemma {:induction false} EmittedDistinct(s: State, n: nat)
    requires n <= |s.state| == |s.keys| == |s.sums|
    requires CommittedDistinct(s, n)
    ensures DistinctKeys(Emitted(s, n))
  {
    if n > 0 {
      EmittedDistinct(s, n - 1);
      EmittedFromCommitted(s, n - 1);
      var front, r := Emitted(s, n - 1), Emitted(s, n);
      forall i, j | 0 <= i < j < |r| ensures r[i].key != r[j].key {
        assert r[i] == front[i] && FromCommitted(s, n - 1, front[i]);
        assert j < |front| ==> r[j] == front[j];
      }
    }
  }

  /** When no row is dropped, a committed slot holds its key's whole sum. */
  lemma {:induction false} CommittedIsKeySum(c: Config, s: State, j: nat)
    requires c.Valid() && Inv(c, s) && AllFinished(s) && j < SLOTS && s.state[j].Committed?
    requires forall i :: 0 <= i < |c.rows| ==> !s.outcome[i].Dropped?
    ensures s.sums[j] == KeySum(c.rows, s.keys[j]) && KeyCount(c.rows, s.keys[j]) > 0
  {
    FinishedIsQuiet(c, s);
    assert SlotSummed(c, s, j) && SlotKeyed(c, s, j);
    var parts := FoldParts(c, s.outcome, j);
    forall i | 0 <= i < |c.rows|
      ensures parts[i] == if c.rows[i].key == s.keys[j] then c.rows[i].value else 0
    {
      assert RowAccounted(c, s, i);
      var slot := s.outcome[i].slot;
      assert SlotKeyed(c, s, slot);
      if c.rows[i].key == s.keys[j] {
        ClaimsUnique(c, s, slot, j);
      }
    }
    PartsAreKeySum(c.rows, parts, s.keys[j]);
  }

  /** When no row uses up its attempts, the emitted groups are exactly one per key of the
      partition, each with that key's total. */
  lemma {:induction false} FinishedPartition(c: Config, schedule: seq<Choice>)
    requires c.Valid() && AllFinished(Exec(c, schedule))
    requires forall i :: 0 <= i < |c.rows| ==> !Exec(c, schedule).outcome[i].Dropped?
    ensures var out := Emitted(Exec(c, schedule), SLOTS);
            && DistinctKeys(out)
            && (forall g <- out :: KeyCount(c.rows, g.key) > 0 && g.sum == KeySum(c.rows, g.key))
            && (forall i :: 0 <= i < |c.rows| ==> HasKey(out, c.rows[i].key))
  {
    var s := Exec(c, schedule);
    RunInvariant(c, schedule);
    FinishedIsQuiet(c, s);
    CommittedKeysDistinct(c, schedule);
    EmittedDistinct(s, SLOTS);
    EmittedFromCommitted(s, SLOTS);
    forall g <- Emitted(s, SLOTS) ensures KeyCount(c.rows, g.key) > 0 && g.sum == KeySum(c.rows, g.key) {
      assert FromCommitted(s, SLOTS, g);
      var j :| 0 <= j < SLOTS && s.state[j].Committed? && g.key == s.keys[j] && g.sum == s.sums[j];
      CommittedIsKeySum(c, s, j);
    }
    forall i | 0 <= i < |c.rows| ensures HasKey(Emitted(s, SLOTS), c.rows[i].key) {
      assert RowAccounted(c, s, i);
      var slot := s.outcome[i].slot;
      assert SlotKeyed(c, s, slot);
      CommittedAreEmitted(s, SLOTS, slot);
    }
  }

  /** Dropped or not, every emitted key is a key of the partition and no key is emitted twice. */
  lemma {:induction false} EmittedKeysAreRowKeys(c: Config, schedule: seq<Choice>)
    requires c.Valid() && AllFinished(Exec(c, schedule))
    ensures var out := Emitted(Exec(c, schedule), SLOTS);
            DistinctKeys(out) && forall g <- out :: KeyCount(c.rows, g.key) > 0
  {
    var s := Exec(c, schedule);
    RunInvariant(c, schedule);
    CommittedKeysDistinct(c, schedule);
    EmittedDistinct(s, SLOTS);
    EmittedFromCommitted(s, SLOTS);
    forall g <- Emitted(s, SLOTS) ensures KeyCount(c.rows, g.key) > 0 {
      assert FromCommitted(s, SLOTS, g);
      var j :| 0 <= j < SLOTS && s.state[j].Committed? && g.key == s.keys[j] && g.sum == s.sums[j];
      assert SlotKeyed(c, s, j);
    }
  }
}
