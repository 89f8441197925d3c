/** What one slot-lock threadgroup emits when it drops rows: the groups of the rows it kept. */
module SlotLockKept {
  import opened GroupBy
  import opened SlotLock
  import opened Sums

  // ---- Committed slots have been folded into ----

  ghost predicate FoldedInto(c: Config, s: State, j: nat)
    requires |s.outcome| == |c.rows|
  {
    exists i :: 0 <= i < |c.rows| && s.outcome[i] == Folded(j)
  }

  /** A slot whose sum counts has taken in a row. */
  ghost predicate Fed(c: Config, s: State)
    requires c.Valid() && Shape(c, s) && OwnerInv(c, s)
  {
    forall j :: 0 <= j < SLOTS && SumVisible(c, s, j) ==> FoldedInto(c, s, j)
  }

  /** Folded rows stay folded. */
  lemma {:induction false} StepKeepsFolded(c: Config, s: State, t: nat, spurious: bool, i: nat)
    requires c.Valid() && Inv(c, s) && i < |c.rows| && s.outcome[i].Folded?
    ensures Step(c, s, t, spurious).outcome[i] == s.outcome[i]
  {
    if t < |s.pcs| {
      assert PCOk(c, t, s.pcs[t]) && RowAccounted(c, s, i);
      if !s.pcs[t].Finished? {
        assert RowAccounted(c, s, s.pcs[t].i);
      }
    }
  }

  lemma {:induction false} StepKeepsFed(c: Config, s: State, t: nat, spurious: bool, j: nat)
    requires c.Valid() && Inv(c, s) && Fed(c, s) && Inv(c, Step(c, s, t, spurious)) && j < SLOTS
    requires SumVisible(c, Step(c, s, t, spurious), j)
    ensures FoldedInto(c, Step(c, s, t, spurious), j)
  {
    var s' := Step(c, s, t, spurious);
    if SumVisible(c, s, j) {
      var i :| 0 <= i < |c.rows| && s.outcome[i] == Folded(j);
      StepKeepsFolded(c, s, t, spurious, i);
      assert s'.outcome[i] == Folded(j);
    } else {
      NewlyVisible(c, s, t, spurious, j);
      assert PCOk(c, t, s.pcs[t]);
      assert s'.outcome[s.pcs[t].i] == Folded(j);
    }
  }

  /** A sum comes to count only by the write that folds a row into it. */
  lemma {:induction false} NewlyVisible(c: Config, s: State, t: nat, spurious: bool, j: nat)
    requires c.Valid() && Inv(c, s) && Inv(c, Step(c, s, t, spurious)) && j < SLOTS
    requires !SumVisible(c, s, j) && SumVisible(c, Step(c, s, t, spurious), j)
    ensures t < |s.pcs| && s.pcs[t].WriteSum? && s.pcs[t].slot == j
  {
    var s' := Step(c, s, t, spurious);
    assert SlotOwned(c, s, j) && SlotOwned(c, s', j);
    if t < |s.pcs| {
      assert PCOk(c, t, s.pcs[t]);
      if s.pcs[t].Holding() {
        assert SlotOwned(c, s, s.pcs[t].slot);
      }
    }
  }

  lemma {:induction false} RunFed(c: Config, schedule: seq<Choice>)
    requires c.Valid()
    ensures Inv(c, Exec(c, schedule)) && Fed(c, Exec(c, schedule))
  {
    RunInvariant(c, schedule);
    if schedule != [] {
      var front, last := schedule[..|schedule| - 1], schedule[|schedule| - 1];
      RunFed(c, front);
      forall j | 0 <= j < SLOTS && SumVisible(c, Exec(c, schedule), j) ensures FoldedInto(c, Exec(c, schedule), j) {
        StepKeepsFed(c, Exec(c, front), last.thread, last.spurious, j);
      }
    }
  }

  // ---- The rows that were kept ----

  function Kept(rows: seq<Row>, outcome: seq<Outcome>): seq<Row>
    requires |outcome| == |rows|
  {
    if rows == [] then []
    else
      var n := |rows| - 1;
      Kept(rows[..n], outcome[..n]) + if outcome[n].Dropped? then [] else [rows[n]]
  }

  function Lost(rows: seq<Row>, outcome: seq<Outcome>): seq<Row>
    requires |outcome| == |rows|
  {
    if rows == [] then []
    else
      var n := |rows| - 1;
      Lost(rows[..n], outcome[..n]) + if outcome[n].Dropped? then [rows[n]] else []
  }

  lemma {:induction false} KeptAndLost(rows: seq<Row>, outcome: seq<Outcome>)
    requires |outcome| == |rows|
    ensures multiset(Kept(rows, outcome)) + multiset(Lost(rows, outcome)) == multiset(rows)
  {
    if rows != [] {
      var n := |rows| - 1;
      KeptAndLost(rows[..n], outcome[..n]);
      assert rows == rows[..n] + [rows[n]];
    }
  }

  ghost predicate KeptPart(rows: seq<Row>, outcome: seq<Outcome>, k: int, i: nat, x: int)
    requires |outcome| == |rows| && i < |rows|
  {
    x == if rows[i].key == k && !outcome[i].Dropped? then rows[i].value else 0
  }

  lemma {:induction false} PartsAreKeptSum(rows: seq<Row>, outcome: seq<Outcome>, parts: seq<int>, k: int)
    requires |outcome| == |rows| == |parts|
    requires forall i :: 0 <= i < |rows| ==> KeptPart(rows, outcome, k, i, parts[i])
    ensures Sum(parts) == KeySum(Kept(rows, outcome), k)
  {
    if rows != [] {
      var n := |rows| - 1;
      forall i | 0 <= i < n ensures KeptPart(rows[..n], outcome[..n], k, i, parts[..n][i]) {
        assert KeptPart(rows, outcome, k, i, parts[i]);
      }
      PartsAreKeptSum(rows[..n], outcome[..n], parts[..n], k);
      PrefixDependsOnPrefix(parts[..n], parts, n);
      assert KeptPart(rows, outcome, k, n, parts[n]);
      NextKept(rows, outcome, k);
    }
  }

  lemma {:induction false} NextKept(rows: seq<Row>, outcome: seq<Outcome>, k: int)
    requires |outcome| == |rows| > 0
    ensures var n := |rows| - 1;
            KeySum(Kept(rows, outcome), k) == KeySum(Kept(rows[..n], outcome[..n]), k) +
              if rows[n].key == k && !outcome[n].Dropped? then rows[n].value else 0
  {
    var n := |rows| - 1;
    var front := Kept(rows[..n], outcome[..n]);
    AppendRow(front, rows[n], k);
    assert front + [] == front;
  }

  /** Kept rows are the rows with a fold. */
  lemma {:induction false} KeptAt(rows: seq<Row>, outcome: seq<Outcome>, i: nat)
    requires |outcome| == |rows| && i < |rows| && !outcome[i].Dropped?
    ensures rows[i] in Kept(rows, outcome)
  {
    if i < |rows| - 1 {
      KeptAt(rows[..|rows| - 1], outcome[..|rows| - 1], i);
    }
  }

  lemma {:induction false} KeptFrom(rows: seq<Row>, outcome: seq<Outcome>, r: Row) returns (i: nat)
    requires |outcome| == |rows| && r in Kept(rows, outcome)
    ensures i < |rows| && rows[i] == r && !outcome[i].Dropped?
  {
    var n := |rows| - 1;
    if r in Kept(rows[..n], outcome[..n]) {
      i := KeptFrom(rows[..n], outcome[..n], r);
    } else {
      i := n;
    }
  }

  // ---- What a threadgroup emits ----

  /** The committed slot of a key holds the sum of the key's kept rows, of which there is one. */
  lemma {:induction false} CommittedIsKeptSum(c: Config, s: State, j: nat)
    requires c.Valid() && Inv(c, s) && Fed(c, s) && AllFinished(s) && j < SLOTS && s.state[j].Committed?
    ensures s.sums[j] == KeySum(Kept(c.rows, s.outcome), s.keys[j])
    ensures KeyCount(Kept(c.rows, s.outcome), s.keys[j]) > 0
  {
    FinishedIsQuiet(c, s);
    assert SlotOwned(c, s, j) && SlotSummed(c, s, j) && SlotKeyed(c, s, j) && SumVisible(c, s, j);
    var parts := FoldParts(c, s.outcome, j);
    forall i | 0 <= i < |c.rows| ensures KeptPart(c.rows, s.outcome, s.keys[j], i, parts[i]) {
      FoldsOfSlot(c, s, j, i);
    }
    PartsAreKeptSum(c.rows, s.outcome, parts, s.keys[j]);
    assert FoldedInto(c, s, j);
    var i :| 0 <= i < |c.rows| && s.outcome[i] == Folded(j);
    assert RowAccounted(c, s, i);
    KeptHasKey(c.rows, s.outcome, i);
  }

  /** A finished row is folded into j exactly if it was kept and has j's key. */
  lemma {:induction false} FoldsOfSlot(c: Config, s: State, j: nat, i: nat)
    requires c.Valid() && Inv(c, s) && AllFinished(s) && j < SLOTS && s.state[j].Committed? && i < |c.rows|
    ensures s.outcome[i] == Folded(j) <==> c.rows[i].key == s.keys[j] && !s.outcome[i].Dropped?
  {
    FinishedIsQuiet(c, s);
    assert SlotOwned(c, s, j) && SlotKeyed(c, s, j) && RowAccounted(c, s, i);
    if s.outcome[i].Folded? {
      var slot := s.outcome[i].slot;
      assert SlotKeyed(c, s, slot);
      if c.rows[i].key == s.keys[j] {
        ClaimsUnique(c, s, slot, j);
      }
    }
  }

  lemma {:induction false} KeptHasKey(rows: seq<Row>, outcome: seq<Outcome>, i: nat)
    requires |outcome| == |rows| && i < |rows| && !outcome[i].Dropped?
    ensures KeyCount(Kept(rows, outcome), rows[i].key) > 0
  {
    KeptAt(rows, outcome, i);
    KeyCountPositive(Kept(rows, outcome), rows[i].key);
  }

  lemma {:induction false} EmittedAtMost(s: State, n: nat)
    requires n <= |s.state| == |s.keys| == |s.sums|
    ensures |Emitted(s, n)| <= n
  {
    if n > 0 {
      EmittedAtMost(s, n - 1);
    }
  }

  /** One group for every key of the rows, with that key's sum. */
  ghost predicate GroupsOf(rows: seq<Row>, out: seq<Group>) {
    && DistinctKeys(out)
    && (forall g <- out :: KeyCount(rows, g.key) > 0 && g.sum == KeySum(rows, g.key))
    && (forall r <- rows :: HasKey(out, r.key))
  }

  /** Whatever a threadgroup drops, it emits the groups of the rows it kept, at most one for every slot. */
  lemma {:induction false} PartitionIsKept(c: Config, schedule: seq<Choice>)
    requires c.Valid() && AllFinished(Exec(c, schedule))
    ensures var s := Exec(c, schedule);
            GroupsOf(Kept(c.rows, s.outcome), Emitted(s, 1_024)) && |Emitted(s, 1_024)| <= 1_024
  {
    var s := Exec(c, schedule);
    RunFed(c, schedule);
    CommittedKeysDistinct(c, schedule);
    EmittedDistinct(s, SLOTS);
    EmittedFromCommitted(s, SLOTS);
    EmittedAtMost(s, SLOTS);
    var kept := Kept(c.rows, s.outcome);
    forall g <- Emitted(s, SLOTS) ensures KeyCount(kept, g.key) > 0 && g.sum == KeySum(kept, g.key) {
      assert FromCommitted(s, SLOTS, g);
      var j :| 0 <= j < SLOTS && s.state[j].Committed? && g.key == s.keys[j] && g.sum == s.sums[j];
      CommittedIsKeptSum(c, s, j);
    }
    forall r <- kept ensures HasKey(Emitted(s, SLOTS), r.key) {
      KeptIsEmitted(c, s, r);
    }
  }

  lemma {:induction false} KeptIsEmitted(c: Config, s: State, r: Row)
    requires c.Valid() && Inv(c, s) && AllFinished(s) && r in Kept(c.rows, s.outcome)
    ensures HasKey(Emitted(s, SLOTS), r.key)
  {
    var i := KeptFrom(c.rows, s.outcome, r);
    FinishedIsQuiet(c, s);
    assert RowAccounted(c, s, i);
    var slot := s.outcome[i].slot;
    assert SlotKeyed(c, s, slot);
    CommittedAreEmitted(s, SLOTS, slot);
  }
}
