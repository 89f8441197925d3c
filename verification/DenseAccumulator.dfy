/** The incremental dense group-by table: batches of one population accumulate into a window that
    grows and shifts with the keys. */
module DenseAccumulator {
  import opened DensePaths
  import opened GroupBy
  import opened Sequences

  const INT32_MAX: int := 0x7FFF_FFFF

  /** static_cast<int> of a wider integer. */
  function ToInt32(x: int): (r: int)
    ensures -INT32_MAX - 1 <= r <= INT32_MAX
  {
    (x + 0x8000_0000) % 0x1_0000_0000 - 0x8000_0000
  }

  lemma {:induction false} ToInt32Exact(x: int)
    requires 0 < x < TWO64
    ensures ToInt32(x) == x <==> x <= 0x7FFF_FFFF
  {
  }

  /** A table of `span` slots holding `table` from slot `off` on and zero elsewhere. */
  function Placed(table: seq<int>, off: nat, span: nat): (r: seq<int>)
    ensures |r| == span
  {
    seq(span, i requires 0 <= i < span => if off <= i < off + |table| then table[i - off] else 0)
  }

  lemma {:induction false} AbsentOutside(rows: seq<Row>, kmin: int, sums: seq<int>, counts: seq<int>, k: int)
    requires TableHolds(rows, kmin, sums, counts) && !(kmin <= k < kmin + |sums|)
    ensures KeySum(rows, k) == 0 && KeyCount(rows, k) == 0
  {
    AbsentKey(rows, k);
  }

  /** Moving a table into a larger window keeps every key's total and count. */
  lemma {:induction false} PlacedHolds(rows: seq<Row>, kmin: int, sums: seq<int>, counts: seq<int>, newMin: int,
                                       span: nat)
    requires TableHolds(rows, kmin, sums, counts) && newMin <= kmin && kmin + |sums| <= newMin + span
    ensures TableHolds(rows, newMin, Placed(sums, kmin - newMin, span), Placed(counts, kmin - newMin, span))
  {
    var off := kmin - newMin;
    var sums', counts' := Placed(sums, off, span), Placed(counts, off, span);
    forall i | 0 <= i < span
      ensures sums'[i] == KeySum(rows, newMin + i) && counts'[i] == KeyCount(rows, newMin + i)
    {
      if off <= i < off + |sums| {
        assert sums[i - off] == KeySum(rows, kmin + (i - off));
        assert counts[i - off] == KeyCount(rows, kmin + (i - off));
      } else {
        AbsentOutside(rows, kmin, sums, counts, newMin + i);
      }
    }
  }

  function MinOf(a: int, b: int): int { if a <= b then a else b }

  function MaxOf(a: int, b: int): int { if a >= b then a else b }

  lemma {:induction false} OccursConcat(a: seq<Row>, b: seq<Row>, k: int)
    ensures Occurs(a + b, k) <==> Occurs(a, k) || Occurs(b, k)
  {
    if Occurs(a, k) {
      var i :| 0 <= i < |a| && a[i].key == k;
      assert (a + b)[i] == a[i];
    }
    if Occurs(b, k) {
      var i :| 0 <= i < |b| && b[i].key == k;
      assert (a + b)[|a| + i] == b[i];
    }
  }

  datatype Outcome = Empty | Rejected | Truncated | Accepted

  class DenseGroupbyAcc {
    var population: int
    var kmin: int
    var sums: seq<int>
    var counts: seq<int>
    var ready: bool
    /** The rows of every batch accepted since the population last changed. */
    ghost var accepted: seq<Row>

    ghost predicate TableOk()
      reads this
    {
      && |sums| == |counts|
      && (ready ==> 0 < |sums| <= INT32_MAX && INT64_MIN < kmin && kmin + |sums| - 1 <= INT64_MAX)
      && (ready ==> TableHolds(accepted, kmin, sums, counts))
    }

    /** Between batches the window is tight: rows with its first and its last key have been accepted. */
    ghost predicate Valid()
      reads this
    {
      && TableOk()
      && (ready ==> Occurs(accepted, kmin) && Occurs(accepted, kmin + |sums| - 1))
      && (!ready ==> accepted == [])
    }

    constructor ()
      ensures Valid() && !ready && population == -1
    {
      population, kmin, sums, counts, ready := -1, 0, [], [], false;
      accepted := [];
    }

    /** The window after a batch with keys from lo to hi. */
    function MergedMin(lo: int): int
      reads this
    {
      if ready then MinOf(lo, kmin) else lo
    }

    function MergedMax(hi: int): int
      reads this
    {
      if ready then MaxOf(hi, kmin + |sums| - 1) else hi
    }

    /** DenseGroupbyResize, when the merged window's slot count survives the cast to int. */
    method Resize(lo: int, hi: int)
      requires Valid() && INT64_MIN < lo <= hi <= INT64_MAX
      requires ToInt32(MergedMax(hi) - MergedMin(lo) + 1) == MergedMax(hi) - MergedMin(lo) + 1
      modifies this`kmin, this`sums, this`counts, this`ready
      ensures TableOk() && ready
      ensures kmin == old(MergedMin(lo)) && kmin + |sums| - 1 == old(MergedMax(hi))
    {
      if !ready {
        kmin := lo;
        sums, counts := Placed([], 0, hi - lo + 1), Placed([], 0, hi - lo + 1);
        ready := true;
        return;
      }
      var mergedMin, mergedMax := MinOf(lo, kmin), MaxOf(hi, kmin + |sums| - 1);
      var span := mergedMax - mergedMin + 1;
      if mergedMin == kmin && span == |sums| {
        return;
      }
      PlacedHolds(accepted, kmin, sums, counts, mergedMin, span);
      sums, counts := Placed(sums, kmin - mergedMin, span), Placed(counts, kmin - mergedMin, span);
      kmin := mergedMin;
    }

    /** The batch's scatter-adds, in any order. */
    method ScatterBatch(order: seq<Row>)
      requires TableOk() && ready && forall r :: 0 <= r < |order| ==> kmin <= order[r].key < kmin + |sums|
      modifies this`sums, this`counts, this`accepted
      ensures TableOk() && |sums| == old(|sums|) && accepted == old(accepted) + order
    {
      for i := 0 to |order|
        invariant TableOk() && |sums| == old(|sums|) && accepted == old(accepted) + order[..i]
      {
        TableTakesRow(accepted, kmin, sums, counts, order[i]);
        var slot := order[i].key - kmin;
        sums, counts := sums[slot := sums[slot] + order[i].value], counts[slot := counts[slot] + 1];
        accepted := accepted + [order[i]];
        assert order[..i + 1] == order[..i] + [order[i]];
      }
      assert order[..|order|] == order;
    }

    /** What a batch of population pop accumulates onto. */
    ghost function Base(pop: int): seq<Row>
      reads this
    {
      if population == pop then accepted else []
    }

    /** Key k lies so far from the window that the union has more slots than an int counts. */
    predicate FarFrom(k: int)
      reads this
    {
      k - kmin + 1 > INT32_MAX || kmin + |sums| - k > INT32_MAX
    }

    /** The batch would stretch this population's window past what an int counts. */
    ghost predicate Overstretched(pop: int, rows: seq<Row>)
      reads this
    {
      population == pop && ready && exists r :: 0 <= r < |rows| && FarFrom(rows[r].key)
    }

    /** A new population starts from an empty table. */
    method StartPopulation(pop: int)
      requires Valid()
      modifies this
      ensures Valid() && population == pop && accepted == old(Base(pop))
      ensures old(population) == pop ==>
                kmin == old(kmin) && sums == old(sums) && counts == old(counts) && ready == old(ready)
      ensures old(population) != pop ==> !ready
    {
      if population != pop {
        population, kmin, ready := pop, 0, false;
        accepted := [];
      }
    }

    lemma {:induction false} SpanOverflowsIff(rows: seq<Row>, lo: int, hi: int)
      requires Valid() && INT64_MIN < lo <= hi <= INT64_MAX && hi - lo + 1 <= MAX_SPAN
      requires forall r :: 0 <= r < |rows| ==> lo <= rows[r].key <= hi
      requires Occurs(rows, lo) && Occurs(rows, hi)
      ensures ToInt32(MergedMax(hi) - MergedMin(lo) + 1) != MergedMax(hi) - MergedMin(lo) + 1 <==>
              Overstretched(population, rows)
    {
      ToInt32Exact(MergedMax(hi) - MergedMin(lo) + 1);
      var a :| 0 <= a < |rows| && rows[a].key == lo;
      var b :| 0 <= b < |rows| && rows[b].key == hi;
      if ready && (FarFrom(lo) || FarFrom(hi)) {
        assert FarFrom(rows[a].key) || FarFrom(rows[b].key);
      }
    }

    /** The batch overstretches the window exactly when its keys and the accepted ones span more slots
        than an int counts. */
    lemma {:induction false} OverstretchedIff(pop: int, rows: seq<Row>)
      requires Valid() && DenseWindow(rows)
      ensures Overstretched(pop, rows) <==> !WithinInt32(Base(pop) + rows)
    {
      var all := Base(pop) + rows;
      if population == pop && ready {
        var a :| 0 <= a < |accepted| && accepted[a].key == kmin;
        var b :| 0 <= b < |accepted| && accepted[b].key == kmin + |sums| - 1;
        assert all[a] == accepted[a] && all[b] == accepted[b];
        if r :| 0 <= r < |rows| && FarFrom(rows[r].key) {
          assert all[|accepted| + r] == rows[r];
        }
      }
    }

    /** MlxGroupbyDenseAccumulate. `Truncated` is where the source would go on with a slot count cut
        to 32 bits; the model stops there. */
    method Accumulate(pop: int, rows: seq<Row>) returns (outcome: Outcome)
      requires Valid() && forall r :: 0 <= r < |rows| ==> IsInt64(rows[r].key)
      modifies this
      ensures Valid()
      ensures outcome == Empty <==> rows == []
      ensures outcome == Rejected <==> rows != [] && !DenseWindow(rows)
      ensures outcome == Truncated <==> rows != [] && DenseWindow(rows) && old(Overstretched(pop, rows))
      ensures outcome == Empty ==> accepted == old(accepted) && population == old(population) && ready == old(ready)
      ensures outcome != Empty ==> population == pop
      ensures outcome == Accepted ==> ready && accepted == old(Base(pop)) + rows
      ensures outcome == Rejected || outcome == Truncated ==> accepted == old(Base(pop))
    {
      if |rows| == 0 {
        return Empty;
      }
      StartPopulation(pop);
      var lo, hi := MinMax(rows);
      WindowOfExtremes(rows, lo, hi);
      DenseSpanExact(lo, hi);
      if !DenseSpanOk(lo, hi) {
        return Rejected;
      }
      SpanOverflowsIff(rows, lo, hi);
      var span := MergedMax(hi) - MergedMin(lo) + 1;
      if ToInt32(span) != span {
        return Truncated;
      }
      AddBatch(rows, lo, hi);
      return Accepted;
    }

    /** Widens the window to the batch's keys and adds its rows. */
    method AddBatch(rows: seq<Row>, lo: int, hi: int)
      requires Valid() && INT64_MIN < lo <= hi <= INT64_MAX
      requires ToInt32(MergedMax(hi) - MergedMin(lo) + 1) == MergedMax(hi) - MergedMin(lo) + 1
      requires (forall r :: 0 <= r < |rows| ==> lo <= rows[r].key <= hi) && Occurs(rows, lo) && Occurs(rows, hi)
      modifies this`kmin, this`sums, this`counts, this`ready, this`accepted
      ensures Valid() && ready && accepted == old(accepted) + rows
    {
      ghost var before := accepted;
      Resize(lo, hi);
      ScatterBatch(rows);
      OccursConcat(before, rows, kmin);
      OccursConcat(before, rows, kmin + |sums| - 1);
    }

    /** MlxGroupbyDenseTryRead: the one-shot group-by of everything accepted for this population. */
    method TryRead(pop: int) returns (ok: bool, out: seq<Group>)
      requires Valid()
      ensures ok <==> ready && population == pop
      ensures ok ==> IsGroupBy(accepted, out)
    {
      if !ready || population != pop {
        return false, [];
      }
      ok := true;
      out := DenseRowsFromTables(accepted, kmin, sums, counts);
    }
  }

  /** The batches the window test lets in. */
  ghost function Windows(batches: seq<seq<Row>>): seq<seq<Row>> {
    if batches == [] then []
    else
      var last := batches[|batches| - 1];
      Windows(batches[..|batches| - 1]) + if DenseWindow(last) then [last] else []
  }

  /** All keys together span no more slots than an int counts. */
  ghost predicate WithinInt32(rows: seq<Row>) {
    forall i, j :: 0 <= i < |rows| && 0 <= j < |rows| ==> rows[j].key - rows[i].key + 1 <= 0x7FFF_FFFF
  }

  /** Every batch with rows is let in. */
  ghost predicate AllLetIn(batches: seq<seq<Row>>) {
    forall b :: 0 <= b < |batches| && batches[b] != [] ==> DenseWindow(batches[b])
  }

  /** A run of batches of one population, read back. It holds out (ok) until the joint window outgrows an int,
      which it does exactly when the keys of the batches let in do. Then a table is found exactly when rows
      were let in, it is their GROUP BY, however the window moved and whatever was rejected in between, and
      it is the GROUP BY of all rows exactly when every batch with rows was let in. */
  method AccumulateAll(acc: DenseGroupbyAcc, pop: int, batches: seq<seq<Row>>)
    returns (ok: bool, found: bool, out: seq<Group>)
    requires acc.Valid() && acc.population != pop
    requires forall b, r :: 0 <= b < |batches| && 0 <= r < |batches[b]| ==> IsInt64(batches[b][r].key)
    modifies acc
    ensures ok <==> WithinInt32(Flatten(Windows(batches)))
    ensures ok ==> (found <==> Flatten(Windows(batches)) != [])
    ensures ok && found ==> IsGroupBy(Flatten(Windows(batches)), out)
    ensures ok && found ==> (IsGroupBy(Flatten(batches), out) <==> AllLetIn(batches))
  {
    ok, found, out := true, false, [];
    for i := 0 to |batches|
      invariant ok && acc.Valid()
      invariant acc.population != pop ==> Flatten(Windows(batches[..i])) == []
      invariant acc.population == pop ==> acc.accepted == Flatten(Windows(batches[..i]))
      invariant WithinInt32(Flatten(Windows(batches[..i])))
    {
      ghost var before := Flatten(Windows(batches[..i]));
      NextWindow(batches, i);
      ok := AccumulateNext(acc, pop, batches[i], before);
      if !ok {
        OvershootStays(batches, i + 1);
        return;
      }
    }
    assert batches[..|batches|] == batches;
    found, out := acc.TryRead(pop);
    if found {
      CoversAllIff(batches, out);
    }
  }

  /** One batch more, counted with all rows and with the rows let in. */
  lemma {:induction false} NextCounts(batches: seq<seq<Row>>, k: int)
    requires batches != []
    ensures var n := |batches| - 1;
            && KeyCount(Flatten(batches), k) == KeyCount(Flatten(batches[..n]), k) + KeyCount(batches[n], k)
            && KeyCount(Flatten(Windows(batches)), k) ==
               KeyCount(Flatten(Windows(batches[..n])), k) +
               if DenseWindow(batches[n]) then KeyCount(batches[n], k) else 0
  {
    var n := |batches| - 1;
    assert batches[..n + 1] == batches;
    NextWindow(batches, n);
    ConcatSplits(Flatten(batches[..n]), batches[n], k);
    ConcatSplits(Flatten(Windows(batches[..n])), if DenseWindow(batches[n]) then batches[n] else [], k);
  }

  lemma {:induction false} NeverOvercounts(batches: seq<seq<Row>>, k: int)
    ensures KeyCount(Flatten(Windows(batches)), k) <= KeyCount(Flatten(batches), k)
  {
    if batches != [] {
      NeverOvercounts(batches[..|batches| - 1], k);
      NextCounts(batches, k);
    }
  }

  /** A batch left out leaves its keys undercounted. */
  lemma {:induction false} LeftOutUndercounts(batches: seq<seq<Row>>, b: nat, k: int)
    requires b < |batches| && !DenseWindow(batches[b]) && Occurs(batches[b], k)
    ensures KeyCount(Flatten(Windows(batches)), k) < KeyCount(Flatten(batches), k)
  {
    var n := |batches| - 1;
    NextCounts(batches, k);
    if b == n {
      NeverOvercounts(batches[..n], k);
      KeyCountPositive(batches[n], k);
    } else {
      LeftOutUndercounts(batches[..n], b, k);
    }
  }

  lemma {:induction false} NothingLeftOut(batches: seq<seq<Row>>)
    requires AllLetIn(batches)
    ensures Flatten(Windows(batches)) == Flatten(batches)
  {
    if batches != [] {
      var n := |batches| - 1;
      NothingLeftOut(batches[..n]);
      NextWindow(batches, n);
      assert batches[..n + 1] == batches;
      assert Flatten(batches[..n]) + [] == Flatten(batches[..n]);
    }
  }

  lemma {:induction false} CoversAllIff(batches: seq<seq<Row>>, out: seq<Group>)
    requires IsGroupBy(Flatten(Windows(batches)), out)
    ensures IsGroupBy(Flatten(batches), out) <==> AllLetIn(batches)
  {
    if AllLetIn(batches) {
      NothingLeftOut(batches);
    } else {
      var b :| 0 <= b < |batches| && batches[b] != [] && !DenseWindow(batches[b]);
      var k := batches[b][0].key;
      assert Occurs(batches[b], k);
      LeftOutUndercounts(batches, b, k);
      if IsGroupBy(Flatten(batches), out) {
        SameCounts(Flatten(Windows(batches)), Flatten(batches), out, k);
      }
    }
  }

  /** One list cannot be the GROUP BY of rows that count a key differently. */
  lemma {:induction false} SameCounts(a: seq<Row>, b: seq<Row>, out: seq<Group>, k: int)
    requires IsGroupBy(a, out) && IsGroupBy(b, out)
    ensures KeyCount(a, k) == KeyCount(b, k)
  {
    KeyCountPositive(a, k);
    KeyCountPositive(b, k);
    if i :| 0 <= i < |out| && out[i].key == k {
      assert out[i].count == KeyCount(a, k) == KeyCount(b, k);
    } else {
      assert !HasKey(out, k);
    }
  }

  /** One batch of the run: false when the joint window no longer fits an int. */
  method AccumulateNext(acc: DenseGroupbyAcc, pop: int, batch: seq<Row>, ghost before: seq<Row>) returns (ok: bool)
    requires acc.Valid() && WithinInt32(before) && forall r :: 0 <= r < |batch| ==> IsInt64(batch[r].key)
    requires if acc.population == pop then acc.accepted == before else before == []
    modifies acc
    ensures acc.Valid()
    ensures ok <==> DenseWindow(batch) ==> WithinInt32(before + batch)
    ensures ok ==> if acc.population == pop then acc.accepted == before + (if DenseWindow(batch) then batch else [])
                   else before + (if DenseWindow(batch) then batch else []) == []
  {
    if DenseWindow(batch) {
      acc.OverstretchedIff(pop, batch);
    }
    var outcome := acc.Accumulate(pop, batch);
    ok := outcome != Truncated;
    assert before + [] == before;
  }

  lemma {:induction false} NextWindow(batches: seq<seq<Row>>, i: nat)
    requires i < |batches|
    ensures Flatten(Windows(batches[..i + 1])) ==
            Flatten(Windows(batches[..i])) + if DenseWindow(batches[i]) then batches[i] else []
  {
    assert batches[..i + 1][..i] == batches[..i];
    var front := Windows(batches[..i]);
    assert (front + [batches[i]])[..|front|] == front;
    assert front + [] == front;
  }

  /** Later batches only add keys. */
  lemma {:induction false} OvershootStays(batches: seq<seq<Row>>, i: nat)
    requires i <= |batches| && !WithinInt32(Flatten(Windows(batches[..i])))
    ensures !WithinInt32(Flatten(Windows(batches)))
    decreases |batches| - i
  {
    if i == |batches| {
      assert batches[..i] == batches;
    } else {
      NextWindow(batches, i);
      var before, after := Flatten(Windows(batches[..i])), Flatten(Windows(batches[..i + 1]));
      var a, b :| 0 <= a < |before| && 0 <= b < |before| && before[b].key - before[a].key + 1 > INT32_MAX;
      assert after[a] == before[a] && after[b] == before[b];
      OvershootStays(batches, i + 1);
    }
  }

  /** Two batches of one row each, both let in, whose keys lie 2^31 - 1 or more apart: the run does not
      survive the second. */
  lemma {:induction false} TwoRowsTruncate(a: Row, b: Row)
    requires a.key != INT64_MIN && b.key != INT64_MIN && b.key - a.key + 1 > INT32_MAX
    ensures DenseWindow([a]) && DenseWindow([b]) && !WithinInt32(Flatten(Windows([[a], [b]])))
  {
    TwoWindows([[a], [b]]);
    assert ([a] + [b])[1].key - ([a] + [b])[0].key + 1 > INT32_MAX;
  }

  lemma {:induction false} TwoWindows(batches: seq<seq<Row>>)
    requires |batches| == 2 && DenseWindow(batches[0]) && DenseWindow(batches[1])
    ensures Flatten(Windows(batches)) == batches[0] + batches[1]
  {
    OneWindow(batches[..1]);
    NextWindow(batches, 1);
    assert batches[..2] == batches;
  }

  lemma {:induction false} OneWindow(batches: seq<seq<Row>>)
    requires |batches| == 1 && DenseWindow(batches[0])
    ensures Flatten(Windows(batches)) == batches[0]
  {
    NextWindow(batches, 0);
    assert batches[..1] == batches && Windows(batches[..0]) == [];
  }

  /** A batch with one sentinel (NULL) key is left out whole: the run ends as it would without the batch. */
  lemma {:induction false} OneNullDropsBatch(batches: seq<seq<Row>>, n: nat, r: nat)
    requires n < |batches| && r < |batches[n]| && batches[n][r].key == INT64_MIN
    ensures Windows(batches) == Windows(batches[..n] + batches[n + 1..])
  {
    var rest := batches[..n] + batches[n + 1..];
    var last := |batches| - 1;
    if n < last {
      OneNullDropsBatch(batches[..last], n, r);
      assert batches[..last][..n] + batches[..last][n + 1..] == rest[..|rest| - 1];
      assert rest[|rest| - 1] == batches[last];
    } else {
      assert rest == batches[..last];
      assert Windows(batches[..last]) + [] == Windows(batches[..last]);
    }
  }
}
