/** Schedules of the atomic scatter: what a continuation keeps, and one that finishes every row. */
module ScatterSchedules {
  import opened AtomicScatter

  /** Row i's three actions, for each row below n. */
  function Rounds(n: nat): seq<nat> {
    if n == 0 then [] else Rounds(n - 1) + [n - 1, n - 1, n - 1]
  }

  lemma {:induction false} ExecAppend(c: Config, schedule: seq<nat>, i: nat)
    requires c.Valid()
    ensures Exec(c, schedule + [i]) == Step(c, Exec(c, schedule), i)
  {
    assert (schedule + [i])[..|schedule|] == schedule;
  }

  /** Once drawn, a destination never changes, and finished rows stay finished. */
  lemma {:induction false} DstKept(c: Config, schedule: seq<nat>, rest: seq<nat>, i: nat)
    requires c.Valid() && i < |c.rows| && !Exec(c, schedule).pcs[i].Start?
    ensures !Exec(c, schedule + rest).pcs[i].Start?
    ensures Exec(c, schedule + rest).pcs[i].dst == Exec(c, schedule).pcs[i].dst
    ensures Exec(c, schedule).pcs[i].Done? ==> Exec(c, schedule + rest).pcs[i].Done?
  {
    if rest == [] {
      assert schedule + rest == schedule;
    } else {
      var front, last := rest[..|rest| - 1], rest[|rest| - 1];
      DstKept(c, schedule, front, i);
      assert schedule + rest == (schedule + front) + [last];
      ExecAppend(c, schedule + front, last);
    }
  }

  function Progress(pc: PC): nat {
    match pc
    case Start => 0
    case PutKey(_) => 1
    case PutValue(_) => 2
    case Done(_) => 3
  }

  lemma {:induction false} ExecThrice(c: Config, schedule: seq<nat>, i: nat)
    requires c.Valid()
    ensures Exec(c, schedule + [i, i, i]) == Step(c, Step(c, Step(c, Exec(c, schedule), i), i), i)
  {
    var one := schedule + [i];
    var two := one + [i];
    ExecAppend(c, schedule, i);
    ExecAppend(c, one, i);
    ExecAppend(c, two, i);
    assert two + [i] == schedule + [i, i, i];
  }

  /** Row i's action brings it one step closer to done and no other row anywhere. */
  lemma {:induction false} ActionProgresses(c: Config, s: State, i: nat, j: nat)
    requires c.Valid() && Shape(c, s) && i < |c.rows| && j < |c.rows|
    ensures Progress(Step(c, s, i).pcs[i]) >= 3 || Progress(Step(c, s, i).pcs[i]) > Progress(s.pcs[i])
    ensures j != i ==> Step(c, s, i).pcs[j] == s.pcs[j]
  {
  }

  lemma {:induction false} RowFinishes(c: Config, schedule: seq<nat>, i: nat, j: nat)
    requires c.Valid() && i < |c.rows| && j < |c.rows|
    ensures Exec(c, schedule + [i, i, i]).pcs[i].Done?
    ensures j != i ==> Exec(c, schedule + [i, i, i]).pcs[j] == Exec(c, schedule).pcs[j]
  {
    ExecThrice(c, schedule, i);
    var s := Exec(c, schedule);
    ActionProgresses(c, s, i, j);
    ActionProgresses(c, Step(c, s, i), i, j);
    ActionProgresses(c, Step(c, Step(c, s, i), i), i, j);
  }

  lemma {:induction false} RoundsFinish(c: Config, schedule: seq<nat>, n: nat)
    requires c.Valid() && n <= |c.rows|
    ensures forall i :: 0 <= i < n ==> Exec(c, schedule + Rounds(n)).pcs[i].Done?
  {
    if n > 0 {
      RoundsFinish(c, schedule, n - 1);
      var before := schedule + Rounds(n - 1);
      assert schedule + Rounds(n) == before + [n - 1, n - 1, n - 1];
      RowFinishes(c, before, n - 1, n - 1);
      forall i | 0 <= i < n - 1 ensures Exec(c, schedule + Rounds(n)).pcs[i].Done? {
        DstKept(c, before, [n - 1, n - 1, n - 1], i);
      }
    }
  }
}
