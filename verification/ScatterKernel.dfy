/** The scatter kernel on its mutable buffers, as slot-lock partitioning and the radix passes launch it. */
module ScatterKernel {
  import opened GroupBy
  import AtomicScatter

  /** The write positions and the scattered keys and values. */
  class ScatterBuffers {
    ghost const c: AtomicScatter.Config
    const rows: seq<Row>
    const cls: seq<nat>
    const pos: array<nat>
    const keys: array<int>
    const values: array<int>
    const pcs: array<AtomicScatter.PC>
    ghost var owner: seq<int>

    ghost function Contents(): AtomicScatter.State
      reads this, pos, keys, values, pcs
    {
      AtomicScatter.State(pos[..], keys[..], values[..], pcs[..], owner)
    }

    ghost predicate Valid()
      reads this, pos, keys, values, pcs
    {
      && c.Valid() && c.rows == rows && c.cls == cls
      && keys != values
      && AtomicScatter.Inv(c, Contents())
    }

    constructor (rows: seq<Row>, cls: seq<nat>, base: seq<nat>)
      requires AtomicScatter.Config(rows, cls, base).Valid()
      ensures Valid() && fresh(pos) && fresh(keys) && fresh(values) && fresh(pcs)
      ensures c == AtomicScatter.Config(rows, cls, base)
      ensures Contents() == AtomicScatter.Init(c)
    {
      c := AtomicScatter.Config(rows, cls, base);
      this.rows, this.cls := rows, cls;
      pos := new nat[|base|](p requires 0 <= p < |base| => base[p]);
      keys := new int[|rows|](_ => 0);
      values := new int[|rows|](_ => 0);
      pcs := new AtomicScatter.PC[|rows|](_ => AtomicScatter.Start);
      owner := seq(|rows|, _ => -1);
      new;
      AtomicScatter.InitInv(c);
      assert pos[..] == base;
      assert Contents() == AtomicScatter.Init(c);
    }

    /** Row i's next action: the fetch-and-add, or one of the two stores. Inv keeps every
        destination inside the buffers. */
    method StepRow(i: nat)
      requires Valid()
      modifies this`owner, pos, keys, values, pcs
      ensures Valid()
      ensures Contents() == AtomicScatter.Step(c, old(Contents()), i)
    {
      if i >= pcs.Length {
        return;
      }
      assert AtomicScatter.RowOk(c, Contents(), i);
      match pcs[i] {
        case Start =>
          AtomicScatter.DrawStaysInRange(c, Contents(), i);
          AtomicScatter.DrawKeepsInv(c, Contents(), i);
          var dst := pos[cls[i]];
          pos[cls[i]] := dst + 1;
          pcs[i] := AtomicScatter.PutKey(dst);
          owner := owner[dst := i];
        case PutKey(dst) =>
          AtomicScatter.StoreKeepsInv(c, Contents(), i);
          keys[dst] := rows[i].key;
          pcs[i] := AtomicScatter.PutValue(dst);
        case PutValue(dst) =>
          AtomicScatter.StoreKeepsInv(c, Contents(), i);
          values[dst] := rows[i].value;
          pcs[i] := AtomicScatter.Done(dst);
        case Done(_) =>
      }
      assert Contents() == AtomicScatter.Step(c, old(Contents()), i);
    }

    method Launch(schedule: seq<nat>)
      requires Valid() && Contents() == AtomicScatter.Init(c)
      modifies this`owner, pos, keys, values, pcs
      ensures Valid()
      ensures Contents() == AtomicScatter.Exec(c, schedule)
    {
      for n := 0 to |schedule|
        invariant Valid()
        invariant Contents() == AtomicScatter.Exec(c, schedule[..n])
      {
        assert schedule[..n + 1][..n] == schedule[..n];
        StepRow(schedule[n]);
      }
      assert schedule[..|schedule|] == schedule;
    }

    /** The rows a threadgroup reads between two partition offsets. */
    method Slice(lo: nat, hi: nat) returns (slice: seq<Row>)
      requires Valid() && lo <= hi <= |rows|
      ensures slice == AtomicScatter.Output(Contents())[lo..hi]
    {
      slice := [];
      for j := lo to hi
        invariant slice == AtomicScatter.Output(Contents())[lo..j]
      {
        slice := slice + [Row(keys[j], values[j])];
      }
    }
  }
}
