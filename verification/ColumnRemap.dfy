/** Programs are compiled against storage columns and run on a scan's output chunk. Remapping rewrites
    every column number in place; it has to keep what the program computes and what its mask covers. */
module ColumnRemap {
  import opened Postfix
  import opened Translator
  import opened TranslatorCorrectness

  /** columnIds: the storage columns the scan reads; projection: for each chunk position, which of them. */
  datatype Scanned = Scanned(columnIds: seq<nat>, projection: seq<nat>)

  /** The first position of x, or the length. */
  function FirstAt(s: seq<nat>, x: nat): (i: nat)
    ensures i <= |s| && (i < |s| ==> s[i] == x) && (i < |s| <==> x in s)
    ensures forall j :: 0 <= j < i ==> s[j] != x
  {
    if s == [] then 0 else if s[0] == x then 0 else FirstAt(s[1..], x) + 1
  }

  function ToChunk(sc: Scanned, storage: nat): Option<nat> {
    var id := FirstAt(sc.columnIds, storage);
    if id == |sc.columnIds| then None
    else
      var out := FirstAt(sc.projection, id);
      if out == |sc.projection| then None else Some(out)
  }

  method FindFirst(s: seq<nat>, x: nat) returns (i: nat)
    ensures i == FirstAt(s, x)
  {
    for j := 0 to |s|
      invariant forall h :: 0 <= h < j ==> s[h] != x
    {
      if s[j] == x {
        return j;
      }
    }
    i := |s|;
  }

  /** storage_to_chunk; -1 where the column is not in the chunk. */
  method StorageToChunk(sc: Scanned, storage: nat) returns (chunk: int)
    ensures chunk == if ToChunk(sc, storage).Some? then ToChunk(sc, storage).value else -1
  {
    var id := FindFirst(sc.columnIds, storage);
    if id >= |sc.columnIds| {
      return -1;
    }
    var out := FindFirst(sc.projection, id);
    chunk := if out == |sc.projection| then -1 else out;
  }

  predicate OpMapped(sc: Scanned, op: Op) {
    op.LoadCol? ==> ToChunk(sc, op.col).Some?
  }

  predicate Mapped(sc: Scanned, ops: seq<Op>, nullCols: seq<nat>) {
    && (forall i :: 0 <= i < |ops| ==> OpMapped(sc, ops[i]))
    && (forall i :: 0 <= i < |nullCols| ==> ToChunk(sc, nullCols[i]).Some?)
  }

  function RemapOp(sc: Scanned, op: Op): Op
    requires OpMapped(sc, op)
  {
    if op.LoadCol? then LoadCol(ToChunk(sc, op.col).value) else op
  }

  function RemapOps(sc: Scanned, ops: seq<Op>): (r: seq<Op>)
    requires forall i :: 0 <= i < |ops| ==> OpMapped(sc, ops[i])
    ensures |r| == |ops|
  {
    seq(|ops|, i requires 0 <= i < |ops| => RemapOp(sc, ops[i]))
  }

  function RemapCols(sc: Scanned, cols: seq<nat>): (r: seq<nat>)
    requires forall i :: 0 <= i < |cols| ==> ToChunk(sc, cols[i]).Some?
    ensures |r| == |cols|
  {
    seq(|cols|, i requires 0 <= i < |cols| => ToChunk(sc, cols[i]).value)
  }

  /** RemapStorageToChunk, in place. It gives up at the first column the chunk lacks. */
  method RemapStorageToChunk(ops: array<Op>, nullCols: array<nat>, sc: Scanned) returns (ok: bool)
    modifies ops, nullCols
    ensures ok <==> Mapped(sc, old(ops[..]), old(nullCols[..]))
    ensures ok ==> ops[..] == RemapOps(sc, old(ops[..])) && nullCols[..] == RemapCols(sc, old(nullCols[..]))
  {
    ghost var ops0, cols0 := ops[..], nullCols[..];
    for i := 0 to ops.Length
      modifies ops
      invariant forall j :: 0 <= j < i ==> OpMapped(sc, ops0[j]) && ops[j] == RemapOp(sc, ops0[j])
      invariant forall j :: i <= j < ops.Length ==> ops[j] == ops0[j]
      invariant nullCols[..] == cols0
    {
      if ops[i].LoadCol? {
        var chunk := StorageToChunk(sc, ops[i].col);
        if chunk < 0 {
          assert !OpMapped(sc, ops0[i]);
          return false;
        }
        ops[i] := LoadCol(chunk);
      }
    }
    for i := 0 to nullCols.Length
      modifies nullCols
      invariant forall j :: 0 <= j < i ==> ToChunk(sc, cols0[j]).Some? && nullCols[j] == ToChunk(sc, cols0[j]).value
      invariant forall j :: i <= j < nullCols.Length ==> nullCols[j] == cols0[j]
    {
      var chunk := StorageToChunk(sc, nullCols[i]);
      if chunk < 0 {
        assert !Mapped(sc, ops0, cols0);
        return false;
      }
      nullCols[i] := chunk;
    }
    ok := true;
  }

  // ---- What remapping keeps ----

  /** The chunk's columns are the scanned ones, in the projection's order. */
  ghost predicate Presents<T(!new)>(sc: Scanned, storage: nat -> T, chunk: nat -> T) {
    forall out :: 0 <= out < |sc.projection| ==> Shows(sc, storage, chunk, out)
  }

  ghost predicate Shows<T>(sc: Scanned, storage: nat -> T, chunk: nat -> T, out: nat)
    requires out < |sc.projection|
  {
    sc.projection[out] < |sc.columnIds| && chunk(out) == storage(sc.columnIds[sc.projection[out]])
  }

  lemma {:induction false} ChunkShowsColumn<T(!new)>(sc: Scanned, storage: nat -> T, chunk: nat -> T, col: nat)
    requires Presents(sc, storage, chunk) && ToChunk(sc, col).Some?
    ensures chunk(ToChunk(sc, col).value) == storage(col)
  {
    assert Shows(sc, storage, chunk, ToChunk(sc, col).value);
  }

  /** The remapped code does on the chunk row what the original does on the storage row. */
  lemma {:induction false} RemapKeepsMeaning(env: Env, chunk: nat -> Value, sc: Scanned, ops: seq<Op>,
                                             stack: seq<Value>)
    requires Presents(sc, env.row, chunk) && forall i :: 0 <= i < |ops| ==> OpMapped(sc, ops[i])
    ensures Run(env.(row := chunk), RemapOps(sc, ops), stack) == Run(env, ops, stack)
  {
    if ops != [] {
      var n := |ops| - 1;
      RemapKeepsMeaning(env, chunk, sc, ops[..n], stack);
      assert RemapOps(sc, ops)[..n] == RemapOps(sc, ops[..n]);
      assert OpMapped(sc, ops[n]);
      if ops[n].LoadCol? {
        ChunkShowsColumn(sc, env.row, chunk, ops[n].col);
      } else {
        match Run(env, ops[..n], stack)
        case None =>
        case Some(s) => StepIgnoresRow(env, chunk, ops[n], s);
      }
    }
  }

  lemma {:induction false} StepIgnoresRow(env: Env, chunk: nat -> Value, op: Op, stack: seq<Value>)
    requires !op.LoadCol?
    ensures Step(env.(row := chunk), op, stack) == Step(env, op, stack)
  {
  }

  /** The remapped mask columns are present exactly when the original ones are. */
  lemma {:induction false} RemapKeepsMask(valid: nat -> bool, chunk: nat -> bool, sc: Scanned, cols: seq<nat>)
    requires Presents(sc, valid, chunk) && forall i :: 0 <= i < |cols| ==> ToChunk(sc, cols[i]).Some?
    ensures (forall i :: 0 <= i < |cols| ==> chunk(RemapCols(sc, cols)[i])) <==>
            forall i :: 0 <= i < |cols| ==> valid(cols[i])
  {
    forall i | 0 <= i < |cols| ensures chunk(RemapCols(sc, cols)[i]) == valid(cols[i]) {
      ChunkShowsColumn(sc, valid, chunk, cols[i]);
    }
  }

  /** Compiled, remapped and run on the chunk: still the tree's exact value, scaled by its type. */
  lemma {:induction false} RemappedProgramCorrect(plan: Plan, env: Env, chunk: nat -> Value, sc: Scanned, e: Expr)
    returns (v: Value)
    requires Typed(plan, env, 0, e) && Compile(plan, 0, e).Some?
    requires Presents(sc, env.row, chunk) && Mapped(sc, Compile(plan, 0, e).value.ops, [])
    ensures var code := Compile(plan, 0, e).value;
            && Yields(env.(row := chunk), RemapOps(sc, code.ops), v)
            && Represents(v, code.lane, ScaleOf(TypeOf(e)), Eval(plan, env, 0, e))
  {
    v := CompileCorrect(plan, env, 0, e);
    RemapKeepsYield(env, chunk, sc, Compile(plan, 0, e).value.ops, v);
  }

  lemma {:induction false} RemapKeepsYield(env: Env, chunk: nat -> Value, sc: Scanned, ops: seq<Op>, v: Value)
    requires Presents(sc, env.row, chunk) && (forall i :: 0 <= i < |ops| ==> OpMapped(sc, ops[i])) &&
             Yields(env, ops, v)
    ensures Yields(env.(row := chunk), RemapOps(sc, ops), v)
  {
    forall stack: seq<Value> ensures Run(env.(row := chunk), RemapOps(sc, ops), stack) == Some(stack + [v]) {
      RemapKeepsMeaning(env, chunk, sc, ops, stack);
    }
  }

  // ---- When a column is found ----

  /** For any listing, with or without duplicates: a column is found exactly when some chunk position shows
      its first listing. */
  lemma {:induction false} FoundIff(sc: Scanned, storage: nat)
    ensures ToChunk(sc, storage).Some? <==>
            exists out :: 0 <= out < |sc.projection| && Names(sc, out, storage) && FirstListing(sc, sc.projection[out])
  {
    if ToChunk(sc, storage).Some? {
      var out := ToChunk(sc, storage).value;
      assert Names(sc, out, storage) && FirstListing(sc, sc.projection[out]);
    }
    if exists out :: 0 <= out < |sc.projection| && Names(sc, out, storage) && FirstListing(sc, sc.projection[out]) {
      var out: nat :| out < |sc.projection| && Names(sc, out, storage) && FirstListing(sc, sc.projection[out]);
      assert sc.projection[out] == FirstAt(sc.columnIds, storage);
      assert sc.projection[out] in sc.projection;
    }
  }

  /** No earlier listing names the same column. */
  ghost predicate FirstListing(sc: Scanned, id: nat) {
    id < |sc.columnIds| && forall j :: 0 <= j < id ==> sc.columnIds[j] != sc.columnIds[id]
  }

  /** With no storage column listed twice, a column is found exactly when some chunk position shows it. */
  lemma {:induction false} FoundIffShown(sc: Scanned, storage: nat)
    requires forall i, j :: 0 <= i < j < |sc.columnIds| ==> sc.columnIds[i] != sc.columnIds[j]
    ensures ToChunk(sc, storage).Some? <==>
            exists out :: 0 <= out < |sc.projection| && Names(sc, out, storage)
  {
    FoundIff(sc, storage);
    forall out: nat | out < |sc.projection| && Names(sc, out, storage) ensures FirstListing(sc, sc.projection[out]) {
    }
  }

  predicate Names(sc: Scanned, out: nat, storage: nat)
    requires out < |sc.projection|
  {
    sc.projection[out] < |sc.columnIds| && sc.columnIds[sc.projection[out]] == storage
  }
}
