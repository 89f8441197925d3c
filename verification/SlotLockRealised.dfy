/** Schedules of one slot-lock threadgroup: any rows can be dropped, and any others kept, as long as the kept
    ones have no more keys than there are slots. The rows are taken one after the other, each by its own
    thread; a row to be dropped meets a weak compare-and-swap that always fails. */
module SlotLockRealised {
  import opened Arith
  import opened SlotLock
  import opened SlotLockKept

  ghost predicate Quiet(s: State) {
    forall j :: 0 <= j < |s.state| ==> !s.state[j].Locked?
  }

  lemma {:induction false} ExecAppend(c: Config, schedule: seq<Choice>, t: nat, spurious: bool)
    requires c.Valid()
    ensures Exec(c, schedule + [Choice(t, spurious)]) == Step(c, Exec(c, schedule), t, spurious)
  {
    assert (schedule + [Choice(t, spurious)])[..|schedule|] == schedule;
  }

  /** The state with thread t at another place. */
  function At(s: State, t: nat, pc: PC): State
    requires t < |s.pcs|
  {
    s.(pcs := s.pcs[t := pc])
  }

  lemma {:induction false} MovedTwice(s: State, t: nat, a: PC, b: PC)
    requires t < |s.pcs|
    ensures At(At(s, t, a), t, b) == At(s, t, b)
  {
    assert s.pcs[t := a][t := b] == s.pcs[t := b];
  }

  // ---- Dropping a row ----

  /** One failed attempt changes nothing but the thread's place. */
  lemma {:induction false} FailOnce(c: Config, schedule: seq<Choice>, s: State, t: nat, i: nat, a: nat, d: nat)
    returns (next: seq<Choice>, d2: nat)
    requires c.Valid() && s == Exec(c, schedule) && Quiet(s) && t < |s.pcs| && s.pcs[t] == Try(i, a, d)
    requires a < ATTEMPTS
    ensures Exec(c, next) == At(s, t, Try(i, a + 1, d2))
  {
    assert PCOk(c, t, s.pcs[t]);
    var slot, k := SlotAt(c, c.rows[i].key, d), c.rows[i].key;
    var one := schedule + [Choice(t, true)];
    ExecAppend(c, schedule, t, true);
    next := one + [Choice(t, true)];
    ExecAppend(c, one, t, true);
    if s.state[slot].Empty? {
      assert Exec(c, one) == At(s, t, ClaimEmpty(i, a, d));
      MovedTwice(s, t, ClaimEmpty(i, a, d), Try(i, a + 1, d));
      d2 := d;
    } else {
      assert Exec(c, one) == At(s, t, ReadKey(i, a, d));
      if s.keys[slot] == k {
        assert Exec(c, next) == At(At(s, t, ReadKey(i, a, d)), t, Relock(i, a, d));
        MovedTwice(s, t, ReadKey(i, a, d), Relock(i, a, d));
        ExecAppend(c, next, t, true);
        next := next + [Choice(t, true)];
        MovedTwice(s, t, Relock(i, a, d), Try(i, a + 1, d));
        d2 := d;
      } else {
        MovedTwice(s, t, ReadKey(i, a, d), Try(i, a + 1, d + 1));
        d2 := d + 1;
      }
    }
  }

  /** The row given up on. */
  ghost predicate RowDropped(c: Config, s: State, s2: State, t: nat, i: nat)
    requires c.threads > 0 && t < |s.pcs| && i < |s.outcome|
  {
    s2 == s.(outcome := s.outcome[i := Dropped], pcs := s.pcs[t := FirstRow(c, i + c.threads)])
  }

  lemma {:induction false} DropRow(c: Config, schedule: seq<Choice>, s: State, t: nat, i: nat, a: nat, d: nat)
    returns (next: seq<Choice>)
    requires c.Valid() && s == Exec(c, schedule) && Quiet(s) && t < |s.pcs| && s.pcs[t] == Try(i, a, d)
    requires a <= ATTEMPTS
    ensures i < |s.outcome| && RowDropped(c, s, Exec(c, next), t, i)
    decreases ATTEMPTS - a
  {
    assert PCOk(c, t, s.pcs[t]);
    if a == ATTEMPTS {
      next := schedule + [Choice(t, true)];
      ExecAppend(c, schedule, t, true);
    } else {
      var more, d2 := FailOnce(c, schedule, s, t, i, a, d);
      next := DropRow(c, more, At(s, t, Try(i, a + 1, d2)), t, i, a + 1, d2);
      assert s.pcs[t := Try(i, a + 1, d2)][t := FirstRow(c, i + c.threads)] == s.pcs[t := FirstRow(c, i + c.threads)];
    }
  }

  // ---- Keeping a row ----

  /** The row folded into some slot, its thread at its next row, and no lock held. */
  ghost predicate RowFolded(c: Config, s: State, s2: State, t: nat, i: nat)
    requires c.threads > 0 && t < |s.pcs| && i < |s.outcome|
  {
    && Quiet(s2) && s2.pcs == s.pcs[t := FirstRow(c, i + c.threads)]
    && exists slot :: s2.outcome == s.outcome[i := Folded(slot)]
  }

  /** Five steps of one thread. */
  function Five(schedule: seq<Choice>, t: nat): seq<Choice> {
    schedule + [Choice(t, false)] + [Choice(t, false)] + [Choice(t, false)] + [Choice(t, false)] + [Choice(t, false)]
  }

  function FiveSteps(c: Config, s: State, t: nat): (s': State)
    requires c.Valid() && Shape(c, s)
    ensures Shape(c, s')
  {
    Step(c, Step(c, Step(c, Step(c, Step(c, s, t, false), t, false), t, false), t, false), t, false)
  }

  lemma {:induction false} ExecFive(c: Config, schedule: seq<Choice>, t: nat)
    requires c.Valid()
    ensures Exec(c, Five(schedule, t)) == FiveSteps(c, Exec(c, schedule), t)
  {
    var one := schedule + [Choice(t, false)];
    var two := one + [Choice(t, false)];
    var three := two + [Choice(t, false)];
    var four := three + [Choice(t, false)];
    ExecAppend(c, schedule, t, false);
    ExecAppend(c, one, t, false);
    ExecAppend(c, two, t, false);
    ExecAppend(c, three, t, false);
    ExecAppend(c, four, t, false);
  }

  /** An empty slot is claimed, written and published in five steps. */
  lemma {:induction false} ClaimFolds(c: Config, s: State, t: nat, i: nat, a: nat, d: nat)
    requires c.Valid() && Shape(c, s) && Quiet(s) && t < |s.pcs| && s.pcs[t] == Try(i, a, d) && a < ATTEMPTS
    requires i < |c.rows| && s.state[SlotAt(c, c.rows[i].key, d)].Empty?
    ensures RowFolded(c, s, FiveSteps(c, s, t), t, i)
  {
    var slot := SlotAt(c, c.rows[i].key, d);
    var s1 := Step(c, s, t, false);
    assert s1 == At(s, t, ClaimEmpty(i, a, d));
    var s2 := Step(c, s1, t, false);
    assert s2.pcs == s1.pcs[t := WriteKey(i, slot)] && s2.state == s.state[slot := Locked] && s2.outcome == s.outcome;
    var s3 := Step(c, s2, t, false);
    assert s3.pcs == s2.pcs[t := WriteSum(i, slot)] && s3.state == s2.state && s3.outcome == s.outcome;
    PublishFolds(c, s, s3, t, i, slot);
  }

  /** The last two steps of a fold. */
  lemma {:induction false} PublishFolds(c: Config, s: State, s3: State, t: nat, i: nat, slot: nat)
    requires c.Valid() && Shape(c, s) && Shape(c, s3) && Quiet(s) && t < |s.pcs| && i < |c.rows| && slot < SLOTS
    requires s3.state == s.state[slot := Locked] && s3.outcome == s.outcome
    requires s3.pcs[t] == WriteSum(i, slot) || (s3.pcs[t].StoreSum? && s3.pcs[t].i == i && s3.pcs[t].slot == slot)
    requires s3.pcs == s.pcs[t := s3.pcs[t]]
    ensures RowFolded(c, s, Step(c, Step(c, s3, t, false), t, false), t, i)
  {
    var s4 := Step(c, s3, t, false);
    assert s4.pcs == s3.pcs[t := Publish(i, slot)] && s4.state == s3.state;
    assert s4.outcome == s.outcome[i := Folded(slot)];
    var s5 := Step(c, s4, t, false);
    assert s5.state == s.state[slot := Locked][slot := Committed] && s5.outcome == s.outcome[i := Folded(slot)];
    assert s5.pcs == s.pcs[t := FirstRow(c, i + c.threads)];
  }

  /** The key's own slot is locked, added to and published in five steps. */
  lemma {:induction false} AddFolds(c: Config, s: State, t: nat, i: nat, a: nat, d: nat)
    requires c.Valid() && Shape(c, s) && Quiet(s) && t < |s.pcs| && s.pcs[t] == ReadKey(i, a, d)
    requires i < |c.rows| && s.state[SlotAt(c, c.rows[i].key, d)].Committed?
    requires s.keys[SlotAt(c, c.rows[i].key, d)] == c.rows[i].key
    ensures RowFolded(c, s, FiveSteps(c, s, t), t, i)
  {
    var slot := SlotAt(c, c.rows[i].key, d);
    var s1 := Step(c, s, t, false);
    assert s1 == At(s, t, Relock(i, a, d));
    var s2 := Step(c, s1, t, false);
    assert s2.pcs == s1.pcs[t := LoadSum(i, slot)] && s2.state == s.state[slot := Locked] && s2.outcome == s.outcome;
    var s3 := Step(c, s2, t, false);
    assert s3.pcs == s2.pcs[t := StoreSum(i, slot, s2.sums[slot])] && s3.state == s2.state && s3.outcome == s.outcome;
    PublishFolds(c, s, s3, t, i, slot);
  }

  lemma {:induction false} FoldsFrom(c: Config, s: State, s1: State, s2: State, t: nat, i: nat)
    requires c.threads > 0 && t < |s.pcs| && i < |s.outcome| && |s1.pcs| == |s.pcs|
    requires s1.outcome == s.outcome && s1.pcs == s.pcs[t := s1.pcs[t]] && RowFolded(c, s1, s2, t, i)
    ensures RowFolded(c, s, s2, t, i)
  {
    assert s1.pcs[t := FirstRow(c, i + c.threads)] == s.pcs[t := FirstRow(c, i + c.threads)];
  }

  /** All claimed keys are among the listed ones. */
  ghost predicate Covered(s: State, cover: seq<int>) {
    forall j :: 0 <= j < |s.claimed| && s.claimed[j].ClaimedFor? ==> s.claimed[j].key in cover
  }

  /** A row whose key is listed finds a slot: the path leads past no more slots than there are other keys. */
  lemma {:induction false} FoldRow(c: Config, schedule: seq<Choice>, s: State, t: nat, i: nat, d: nat,
                                   cover: seq<int>) returns (next: seq<Choice>)
    requires c.Valid() && s == Exec(c, schedule) && Quiet(s) && t < |s.pcs| && s.pcs[t] == Try(i, d, d) && d <= SLOTS
    requires i < |c.rows| && Covered(s, cover) && c.rows[i].key in cover && |cover| <= SLOTS
    ensures RowFolded(c, s, Exec(c, next), t, i)
    decreases SLOTS - d
  {
    RunInvariant(c, schedule);
    assert ProbeOk(c, s, t);
    var k := c.rows[i].key;
    RoomLeft(c, s, k, d, cover);
    var slot := SlotAt(c, k, d);
    if s.state[slot].Empty? {
      next := Five(schedule, t);
      ExecFive(c, schedule, t);
      ClaimFolds(c, s, t, i, d, d);
    } else {
      var one := schedule + [Choice(t, false)];
      ExecAppend(c, schedule, t, false);
      var s1 := At(s, t, ReadKey(i, d, d));
      assert Exec(c, one) == s1;
      if s.keys[slot] == k {
        next := Five(one, t);
        ExecFive(c, one, t);
        AddFolds(c, s1, t, i, d, d);
        FoldsFrom(c, s, s1, Exec(c, next), t, i);
      } else {
        var two := one + [Choice(t, false)];
        ExecAppend(c, one, t, false);
        var s2 := At(s, t, Try(i, d + 1, d + 1));
        MovedTwice(s, t, ReadKey(i, d, d), Try(i, d + 1, d + 1));
        next := FoldRow(c, two, s2, t, i, d + 1, cover);
        FoldsFrom(c, s, s2, Exec(c, next), t, i);
      }
    }
  }

  // ---- There is room ----

  /** The path from a key's first slot comes by every slot. */
  lemma {:induction false} PathReaches(c: Config, k: int, j: nat) returns (e: nat)
    requires j < SLOTS
    ensures e < SLOTS && SlotAt(c, k, e) == j
  {
    var h := c.hash(k) / 0x1_0000 % SLOTS;
    e := if j >= h then j - h else j + SLOTS - h;
  }

  /** If the key's path has led past d slots taken for other keys, fewer than all slots are. */
  lemma {:induction false} RoomLeft(c: Config, s: State, k: int, d: nat, cover: seq<int>)
    requires c.Valid() && Inv(c, s) && Passed(c, s, k, d) && d <= SLOTS
    requires Covered(s, cover) && k in cover && |cover| <= SLOTS
    ensures d < SLOTS
  {
    if d == SLOTS {
      forall j | 0 <= j < SLOTS ensures s.claimed[j].ClaimedFor? && s.claimed[j].key != k {
        var e := PathReaches(c, k, j);
      }
      forall i, j | 0 <= i < j < SLOTS ensures s.claimed[i].key != s.claimed[j].key {
        assert SlotKeyed(c, s, i) && SlotKeyed(c, s, j);
        if s.claimed[i].key == s.claimed[j].key {
          ClaimsUnique(c, s, i, j);
        }
      }
      var keys := seq(SLOTS, j requires 0 <= j < SLOTS => s.claimed[j].key);
      TooManyKeys(keys, k, cover);
    }
  }

  ghost predicate Different(keys: seq<int>) {
    forall i, j :: 0 <= i < j < |keys| ==> keys[i] != keys[j]
  }

  lemma {:induction false} DifferentSize(keys: seq<int>)
    requires Different(keys)
    ensures |set x | x in keys| == |keys|
  {
    if keys != [] {
      var n := |keys| - 1;
      DifferentSize(keys[..n]);
      assert (set x | x in keys) == (set x | x in keys[..n]) + {keys[n]};
    }
  }

  lemma {:induction false} ListedSize(keys: seq<int>)
    ensures |set x | x in keys| <= |keys|
  {
    if keys != [] {
      var n := |keys| - 1;
      ListedSize(keys[..n]);
      assert (set x | x in keys) == (set x | x in keys[..n]) + {keys[n]};
    }
  }

  lemma {:induction false} SubsetSize(a: set<int>, b: set<int>)
    requires a <= b
    ensures |a| <= |b|
  {
    assert b == a + (b - a);
  }

  lemma {:induction false} TooManyKeys(keys: seq<int>, k: int, cover: seq<int>)
    requires Different(keys) && k !in keys && k in cover && forall i :: 0 <= i < |keys| ==> keys[i] in cover
    ensures |keys| < |cover|
  {
    var all := keys + [k];
    assert Different(all);
    DifferentSize(all);
    ListedSize(cover);
    SubsetSize(set x | x in all, set x | x in cover);
  }

  // ---- One row after the other ----

  /** The first row from n on that is thread u's. */
  function NextFor(threads: nat, u: nat, n: nat): nat {
    if n == 0 then u
    else if NextFor(threads, u, n - 1) == n - 1 then n - 1 + threads
    else NextFor(threads, u, n - 1)
  }

  lemma {:induction false} NextForIs(threads: nat, u: nat, n: nat)
    requires u < threads
    ensures n <= NextFor(threads, u, n) < n + threads && NextFor(threads, u, n) % threads == u
  {
    if n == 0 {
      SmallMod(u, threads);
    } else {
      NextForIs(threads, u, n - 1);
      AddModulus(n - 1, threads);
    }
  }

  /** It is thread n % threads whose next row n is. */
  lemma {:induction false} OwnTurn(threads: nat, u: nat, n: nat)
    requires u < threads
    ensures NextFor(threads, u, n) == n <==> u == n % threads
  {
    NextForIs(threads, u, n);
    if u == n % threads && n < NextFor(threads, u, n) {
      SameResidue(n, NextFor(threads, u, n), threads);
    }
  }

  /** The first n rows are done as the flags ask, the others untouched. */
  ghost predicate RowsDone(c: Config, s: State, flags: seq<bool>, n: nat)
    requires c.Valid() && Shape(c, s) && |flags| == |c.rows| && n <= |c.rows|
  {
    && Quiet(s)
    && (forall u :: 0 <= u < c.threads ==> s.pcs[u] == FirstRow(c, NextFor(c.threads, u, n)))
    && (forall i :: 0 <= i < n ==> RowDone(s, flags, i))
    && (forall i :: n <= i < |c.rows| ==> s.outcome[i].Pending?)
  }

  ghost predicate RowDone(s: State, flags: seq<bool>, i: nat)
    requires i < |s.outcome| == |flags|
  {
    if flags[i] then s.outcome[i].Folded? else s.outcome[i].Dropped?
  }

  /** The keys of the rows to be kept are listed. */
  ghost predicate KeysListed(c: Config, flags: seq<bool>, cover: seq<int>)
    requires |flags| == |c.rows|
  {
    forall i :: 0 <= i < |c.rows| && flags[i] ==> c.rows[i].key in cover
  }

  lemma {:induction false} OnlyKeptClaim(c: Config, schedule: seq<Choice>, flags: seq<bool>, n: nat, cover: seq<int>)
    requires c.Valid() && |flags| == |c.rows| && n <= |c.rows| && RowsDone(c, Exec(c, schedule), flags, n)
    requires KeysListed(c, flags, cover)
    ensures Covered(Exec(c, schedule), cover)
  {
    var s := Exec(c, schedule);
    RunFed(c, schedule);
    forall j | 0 <= j < |s.claimed| && s.claimed[j].ClaimedFor? ensures s.claimed[j].key in cover {
      assert SlotOwned(c, s, j) && SlotKeyed(c, s, j);
      assert SumVisible(c, s, j) && FoldedInto(c, s, j);
      var i :| 0 <= i < |c.rows| && s.outcome[i] == Folded(j);
      assert RowAccounted(c, s, i);
      assert i < n && RowDone(s, flags, i);
    }
  }

  lemma {:induction false} NextRow(c: Config, schedule: seq<Choice>, flags: seq<bool>, n: nat, cover: seq<int>)
    returns (next: seq<Choice>)
    requires c.Valid() && |flags| == |c.rows| && n < |c.rows| && RowsDone(c, Exec(c, schedule), flags, n)
    requires KeysListed(c, flags, cover) && |cover| <= SLOTS
    ensures RowsDone(c, Exec(c, next), flags, n + 1)
  {
    var s, t := Exec(c, schedule), n % c.threads;
    OwnTurn(c.threads, t, n);
    assert s.pcs[t] == FirstRow(c, NextFor(c.threads, t, n)) == Try(n, 0, 0);
    if flags[n] {
      OnlyKeptClaim(c, schedule, flags, n, cover);
      next := FoldRow(c, schedule, s, t, n, 0, cover);
    } else {
      next := DropRow(c, schedule, s, t, n, 0, 0);
    }
    RowAdvances(c, s, Exec(c, next), flags, n);
  }

  lemma {:induction false} RowAdvances(c: Config, s: State, s2: State, flags: seq<bool>, n: nat)
    requires c.Valid() && Shape(c, s) && Shape(c, s2) && |flags| == |c.rows| && n < |c.rows|
    requires RowsDone(c, s, flags, n)
    requires var t := n % c.threads;
             if flags[n] then RowFolded(c, s, s2, t, n) else RowDropped(c, s, s2, t, n)
    ensures RowsDone(c, s2, flags, n + 1)
  {
    forall u | 0 <= u < c.threads ensures s2.pcs[u] == FirstRow(c, NextFor(c.threads, u, n + 1)) {
      OwnTurn(c.threads, u, n);
    }
    forall i | 0 <= i < n + 1 ensures RowDone(s2, flags, i) {
      if i < n {
        assert RowDone(s, flags, i);
      }
    }
  }

  lemma {:induction false} RowsInTurn(c: Config, flags: seq<bool>, n: nat, cover: seq<int>)
    returns (schedule: seq<Choice>)
    requires c.Valid() && |flags| == |c.rows| && n <= |c.rows| && KeysListed(c, flags, cover) && |cover| <= SLOTS
    ensures RowsDone(c, Exec(c, schedule), flags, n)
  {
    if n == 0 {
      schedule := [];
    } else {
      var before := RowsInTurn(c, flags, n - 1, cover);
      schedule := NextRow(c, before, flags, n - 1, cover);
    }
  }

  /** Whatever rows are to be kept, as long as their keys fit the slots, a schedule keeps them and drops the
      rest. */
  lemma {:induction false} AnyRowsKept(c: Config, flags: seq<bool>, cover: seq<int>) returns (schedule: seq<Choice>)
    requires c.Valid() && |flags| == |c.rows| && KeysListed(c, flags, cover) && |cover| <= SLOTS
    ensures AllFinished(Exec(c, schedule))
    ensures forall i :: 0 <= i < |c.rows| ==> (Exec(c, schedule).outcome[i].Dropped? <==> !flags[i])
  {
    var n := |c.rows|;
    schedule := RowsInTurn(c, flags, n, cover);
    var s := Exec(c, schedule);
    forall u | 0 <= u < |s.pcs| ensures s.pcs[u].Finished? {
      NextForIs(c.threads, u, n);
    }
    forall i | 0 <= i < n ensures s.outcome[i].Dropped? <==> !flags[i] {
      assert RowDone(s, flags, i);
    }
  }
}
