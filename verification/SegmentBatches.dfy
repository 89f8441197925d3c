/** The dense driver's batching of cached segments: runs of unpruned, non-empty segments are
    concatenated and reduced together. */
module SegmentBatches {
  import opened Sequences

  const BATCH_ROWS: nat := 8388608

  /** Segments lo to hi, reduced as one. */
  datatype Range = Range(lo: nat, hi: nat)

  predicate Kept(counts: seq<nat>, pruned: seq<bool>, s: nat)
    requires s < |counts| == |pruned|
  {
    counts[s] > 0 && !pruned[s]
  }

  /** The kept segments among the first n, in order. */
  function KeptSegments(counts: seq<nat>, pruned: seq<bool>, n: nat): seq<nat>
    requires n <= |counts| == |pruned|
  {
    if n == 0 then []
    else KeptSegments(counts, pruned, n - 1) + if Kept(counts, pruned, n - 1) then [n - 1] else []
  }

  function Indices(lo: nat, hi: nat): (r: seq<nat>)
    requires lo <= hi
    ensures |r| == hi - lo
  {
    if lo == hi then [] else Indices(lo, hi - 1) + [hi - 1]
  }

  ghost predicate AllRanges(batches: seq<Range>) {
    forall b :: 0 <= b < |batches| ==> batches[b].lo < batches[b].hi
  }

  /** The segments of all batches, batch after batch. */
  function Batched(batches: seq<Range>): seq<nat>
    requires AllRanges(batches)
  {
    if batches == [] then []
    else
      var last := batches[|batches| - 1];
      Batched(batches[..|batches| - 1]) + Indices(last.lo, last.hi)
  }

  function Rows(counts: seq<nat>, lo: nat, hi: nat): nat
    requires lo <= hi <= |counts|
  {
    if lo == hi then 0 else Rows(counts, lo, hi - 1) + counts[hi - 1]
  }

  /** A batch of more than one segment stays within the row limit. */
  ghost predicate WithinLimit(counts: seq<nat>, batches: seq<Range>) {
    forall b :: 0 <= b < |batches| ==>
      batches[b].lo < batches[b].hi <= |counts| &&
      (Rows(counts, batches[b].lo, batches[b].hi) <= 8_388_608 || batches[b].hi == batches[b].lo + 1)
  }

  /** A batch ends where it has to: the next one begins past a skipped segment, or one more segment would
      have gone over the limit. */
  ghost predicate EndsBefore(counts: seq<nat>, r: Range, next: nat)
    requires r.lo <= r.hi <= |counts|
  {
    r.hi < next || (r.hi == next < |counts| && Rows(counts, r.lo, r.hi) + counts[next] > 8_388_608)
  }

  ghost predicate Greedy(counts: seq<nat>, batches: seq<Range>) {
    forall b :: 0 < b < |batches| ==> LinkOk(counts, batches, b)
  }

  ghost predicate LinkOk(counts: seq<nat>, batches: seq<Range>, b: nat)
    requires 0 < b < |batches|
  {
    batches[b - 1].lo <= batches[b - 1].hi <= |counts| && EndsBefore(counts, batches[b - 1], batches[b].lo)
  }

  /** The next batch may begin here. */
  ghost predicate MayBegin(counts: seq<nat>, batches: seq<Range>, next: nat) {
    batches != [] ==>
      var last := batches[|batches| - 1];
      last.lo <= last.hi <= |counts| && EndsBefore(counts, last, next)
  }

  lemma {:induction false} GreedyAppend(counts: seq<nat>, batches: seq<Range>, r: Range)
    requires Greedy(counts, batches) && MayBegin(counts, batches, r.lo)
    ensures Greedy(counts, batches + [r])
  {
    forall b | 0 < b < |batches + [r]| ensures LinkOk(counts, batches + [r], b) {
      if b < |batches| {
        assert LinkOk(counts, batches, b);
      }
    }
  }

  /** The open batch lo..s: its rows, all of them from kept segments. */
  ghost predicate OpenBatch(counts: seq<nat>, pruned: seq<bool>, lo: nat, s: nat, rows: nat)
    requires s <= |counts| == |pruned|
  {
    && (rows == 0 || (lo < s && rows == Rows(counts, lo, s)))
    && (rows <= BATCH_ROWS || s == lo + 1)
  }

  /** flush_batch: closes the batch lo..s if it holds rows. */
  method FlushBatch(batches0: seq<Range>, lo: nat, s: nat, rows: nat) returns (batches: seq<Range>)
    requires rows > 0 ==> lo < s
    ensures batches == if rows > 0 then batches0 + [Range(lo, s)] else batches0
  {
    batches := if rows <= 0 then batches0 else batches0 + [Range(lo, s)];
  }

  /** After s segments: the closed batches and the open one list the kept segments so far. */
  ghost predicate InStep(counts: seq<nat>, pruned: seq<bool>, batches: seq<Range>, lo: nat, rows: nat, s: nat)
    requires s <= |counts| == |pruned|
  {
    && AllRanges(batches) && WithinLimit(counts, batches) && OpenBatch(counts, pruned, lo, s, rows)
    && Batched(batches) + OpenIndices(lo, s, rows) == KeptSegments(counts, pruned, s)
  }

  lemma {:induction false} CloseBatch(counts: seq<nat>, pruned: seq<bool>, batches: seq<Range>, lo: nat, rows: nat,
                                      s: nat)
    requires s <= |counts| == |pruned| && InStep(counts, pruned, batches, lo, rows, s) && rows > 0
    ensures InStep(counts, pruned, batches + [Range(lo, s)], s, 0, s)
  {
    BatchedAppend(batches, Range(lo, s));
    assert OpenIndices(s, s, 0) == [];
    assert Batched(batches + [Range(lo, s)]) + [] == Batched(batches + [Range(lo, s)]);
  }

  lemma {:induction false} BatchedAppend(batches: seq<Range>, r: Range)
    requires AllRanges(batches) && r.lo < r.hi
    ensures AllRanges(batches + [r]) && Batched(batches + [r]) == Batched(batches) + Indices(r.lo, r.hi)
  {
    assert (batches + [r])[..|batches|] == batches;
  }

  lemma {:induction false} ExtendBatch(counts: seq<nat>, pruned: seq<bool>, batches: seq<Range>, lo: nat, rows: nat,
                                       s: nat)
    requires s < |counts| == |pruned| && InStep(counts, pruned, batches, lo, rows, s) && Kept(counts, pruned, s)
    requires rows > 0 ==> rows + counts[s] <= BATCH_ROWS
    ensures InStep(counts, pruned, batches, if rows == 0 then s else lo, rows + counts[s], s + 1)
  {
    var lo' := if rows == 0 then s else lo;
    assert Indices(lo', s + 1) == Indices(lo', s) + [s];
    assert Rows(counts, lo', s + 1) == Rows(counts, lo', s) + counts[s];
    assert Batched(batches) + Indices(lo', s + 1) == (Batched(batches) + Indices(lo', s)) + [s];
  }

  lemma {:induction false} SkipSegment(counts: seq<nat>, pruned: seq<bool>, batches: seq<Range>, lo: nat, s: nat)
    requires s < |counts| == |pruned| && InStep(counts, pruned, batches, lo, 0, s) && !Kept(counts, pruned, s)
    ensures InStep(counts, pruned, batches, lo, 0, s + 1)
  {
    assert KeptSegments(counts, pruned, s) + [] == KeptSegments(counts, pruned, s);
  }

  method CloseOpen(counts: seq<nat>, pruned: seq<bool>, batches0: seq<Range>, begin: nat, rows: nat, s: nat)
    returns (batches: seq<Range>)
    requires s <= |counts| == |pruned| && InStep(counts, pruned, batches0, begin, rows, s) && rows > 0
    requires Greedy(counts, batches0) && MayBegin(counts, batches0, begin)
    ensures InStep(counts, pruned, batches, s, 0, s) && Greedy(counts, batches)
    ensures s < |counts| && rows + counts[s] > 8_388_608 ==> MayBegin(counts, batches, s)
    ensures MayBegin(counts, batches, s + 1)
  {
    CloseBatch(counts, pruned, batches0, begin, rows, s);
    GreedyAppend(counts, batches0, Range(begin, s));
    batches := FlushBatch(batches0, begin, s, rows);
  }

  /** A kept segment: it joins the open batch, or opens one, after closing the batch it does not fit in. */
  method TakeKept(counts: seq<nat>, pruned: seq<bool>, batches0: seq<Range>, begin0: nat, rows0: nat, s: nat)
    returns (batches: seq<Range>, begin: nat, rows: nat)
    requires s < |counts| == |pruned| && InStep(counts, pruned, batches0, begin0, rows0, s) && Kept(counts, pruned, s)
    requires Greedy(counts, batches0) && MayBegin(counts, batches0, if rows0 > 0 then begin0 else s)
    ensures InStep(counts, pruned, batches, begin, rows, s + 1) && rows > 0
    ensures Greedy(counts, batches) && MayBegin(counts, batches, begin)
  {
    batches, begin, rows := batches0, begin0, rows0;
    if rows == 0 {
      begin := s;
    }
    if rows > 0 && rows + counts[s] > BATCH_ROWS {
      batches := CloseOpen(counts, pruned, batches, begin, rows, s);
      begin, rows := s, 0;
    }
    ExtendBatch(counts, pruned, batches, begin, rows, s);
    rows := rows + counts[s];
  }

  /** One segment of the batching loop. */
  method TakeSegment(counts: seq<nat>, pruned: seq<bool>, batches0: seq<Range>, begin0: nat, rows0: nat, s: nat)
    returns (batches: seq<Range>, begin: nat, rows: nat)
    requires s < |counts| == |pruned| && InStep(counts, pruned, batches0, begin0, rows0, s)
    requires Greedy(counts, batches0) && MayBegin(counts, batches0, if rows0 > 0 then begin0 else s)
    ensures InStep(counts, pruned, batches, begin, rows, s + 1)
    ensures Greedy(counts, batches) && MayBegin(counts, batches, if rows > 0 then begin else s + 1)
  {
    if Kept(counts, pruned, s) {
      batches, begin, rows := TakeKept(counts, pruned, batches0, begin0, rows0, s);
    } else {
      batches, begin, rows := batches0, begin0, rows0;
      if rows > 0 {
        batches := CloseOpen(counts, pruned, batches, begin, rows, s);
        begin, rows := s, 0;
      }
      SkipSegment(counts, pruned, batches, begin, s);
    }
  }

  /** The batching loop. Batches in order list every kept segment once, and nothing else; none goes over the limit
      unless it is a single segment, and none could have taken the segment after it. */
  method BatchSegments(counts: seq<nat>, pruned: seq<bool>) returns (batches: seq<Range>)
    requires |counts| == |pruned|
    ensures AllRanges(batches) && Batched(batches) == KeptSegments(counts, pruned, |counts|)
    ensures WithinLimit(counts, batches) && Greedy(counts, batches)
  {
    batches := [];
    var begin: nat, rows: nat := 0, 0;
    for s := 0 to |counts|
      invariant InStep(counts, pruned, batches, begin, rows, s)
      invariant Greedy(counts, batches) && MayBegin(counts, batches, if rows > 0 then begin else s)
    {
      batches, begin, rows := TakeSegment(counts, pruned, batches, begin, rows, s);
    }
    Finish(counts, pruned, batches, begin, rows);
    if rows > 0 {
      GreedyAppend(counts, batches, Range(begin, |counts|));
    }
    batches := FlushBatch(batches, begin, |counts|, rows);
  }

  lemma {:induction false} Finish(counts: seq<nat>, pruned: seq<bool>, batches: seq<Range>, lo: nat, rows: nat)
    requires |counts| == |pruned| && InStep(counts, pruned, batches, lo, rows, |counts|)
    ensures rows > 0 ==> lo < |counts|
    ensures var closed := if rows > 0 then batches + [Range(lo, |counts|)] else batches;
            AllRanges(closed) && WithinLimit(counts, closed) &&
              Batched(closed) == KeptSegments(counts, pruned, |counts|)
  {
    if rows > 0 {
      CloseBatch(counts, pruned, batches, lo, rows, |counts|);
      BatchedAppend(batches, Range(lo, |counts|));
    } else {
      assert Batched(batches) + [] == Batched(batches);
    }
  }

  function OpenIndices(lo: nat, s: nat, rows: nat): seq<nat> {
    if rows > 0 && lo <= s then Indices(lo, s) else []
  }

  // ---- What the batches reduce ----

  /** The rows of the listed segments, in order. */
  function RowsOf<T>(parts: seq<seq<T>>, listed: seq<nat>): seq<T>
    requires forall j :: 0 <= j < |listed| ==> listed[j] < |parts|
  {
    if listed == [] then []
    else RowsOf(parts, listed[..|listed| - 1]) + parts[listed[|listed| - 1]]
  }

  lemma {:induction false} KeptInRange(counts: seq<nat>, pruned: seq<bool>, n: nat)
    requires n <= |counts| == |pruned|
    ensures forall j :: 0 <= j < |KeptSegments(counts, pruned, n)| ==> KeptSegments(counts, pruned, n)[j] < n
  {
    if n > 0 {
      KeptInRange(counts, pruned, n - 1);
    }
  }

  lemma {:induction false} RowsOfAppend<T>(parts: seq<seq<T>>, listed: seq<nat>, s: nat)
    requires s < |parts| && forall j :: 0 <= j < |listed| ==> listed[j] < |parts|
    ensures RowsOf(parts, listed + [s]) == RowsOf(parts, listed) + parts[s]
  {
    assert (listed + [s])[..|listed|] == listed;
  }

  /** Segments that are skipped because they are empty or pruned contribute no passing row, so the kept
      segments' passing rows are all of them: batched or not, pruned or not, the same rows are reduced
      in the same order. */
  lemma {:induction false} KeptRowsAreAll<T>(parts: seq<seq<T>>, counts: seq<nat>, pruned: seq<bool>, n: nat)
    requires n <= |parts| == |counts| == |pruned|
    requires forall s :: 0 <= s < |parts| && !Kept(counts, pruned, s) ==> parts[s] == []
    ensures forall j :: 0 <= j < |KeptSegments(counts, pruned, n)| ==> KeptSegments(counts, pruned, n)[j] < |parts|
    ensures RowsOf(parts, KeptSegments(counts, pruned, n)) == Flatten(parts[..n])
  {
    if n > 0 {
      KeptInRange(counts, pruned, n);
      KeptRowsAreAll(parts, counts, pruned, n - 1);
      assert parts[..n][..n - 1] == parts[..n - 1];
      var front := KeptSegments(counts, pruned, n - 1);
      if Kept(counts, pruned, n - 1) {
        RowsOfAppend(parts, front, n - 1);
      } else {
        assert front + [] == front;
      }
    }
  }

  /** Every kept segment is in exactly one place of one batch. */
  lemma {:induction false} KeptOnce(counts: seq<nat>, pruned: seq<bool>, n: nat, s: nat)
    requires n <= |counts| == |pruned| && s < |counts|
    ensures s in KeptSegments(counts, pruned, n) <==> s < n && counts[s] > 0 && !pruned[s]
    ensures forall i, j :: 0 <= i < j < |KeptSegments(counts, pruned, n)| ==>
              KeptSegments(counts, pruned, n)[i] < KeptSegments(counts, pruned, n)[j]
  {
    if n > 0 {
      KeptOnce(counts, pruned, n - 1, s);
      KeptInRange(counts, pruned, n - 1);
    }
  }
}
