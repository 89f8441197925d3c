/** Zone maps and segment pruning: a segment is skipped only when no row of it passes the filter. */
module ZoneMaps {
  import opened FilterAssembly
  import opened Postfix

  const INT64_MIN: int := -0x8000_0000_0000_0000
  const INT64_MAX: int := 0x7FFF_FFFF_FFFF_FFFF

  /** One segment: its row count and, per column, values and (if it has NULLs) validity. */
  datatype Segment = Segment(count: nat, cols: seq<seq<Value>>, valids: seq<Option<seq<bool>>>)

  ghost predicate SegmentOk(s: Segment) {
    && |s.valids| == |s.cols|
    && (forall c :: 0 <= c < |s.cols| ==> |s.cols[c]| == s.count)
    && (forall c :: 0 <= c < |s.valids| && s.valids[c].Some? ==> |s.valids[c].value| == s.count)
  }

  predicate Present(s: Segment, c: nat, i: nat)
    requires c < |s.valids| && (s.valids[c].Some? ==> i < |s.valids[c].value|)
  {
    s.valids[c].Some? ==> s.valids[c].value[i]
  }

  /** min and max over the present values, in the column's lane; hasNull when one is missing. */
  datatype ZoneMap = ZoneMap(intLane: bool, imin: int, imax: int, minVal: real, maxVal: real, hasNull: bool)

  ghost predicate ZoneCovers(zm: ZoneMap, s: Segment, c: nat)
    requires SegmentOk(s) && c < |s.cols|
  {
    && (forall i :: 0 <= i < s.count && Present(s, c, i) ==>
          if zm.intLane then s.cols[c][i].Int? && zm.imin <= s.cols[c][i].i <= zm.imax
          else s.cols[c][i].Real? && zm.minVal <= s.cols[c][i].r <= zm.maxVal)
    && (forall i :: 0 <= i < s.count && !Present(s, c, i) ==> zm.hasNull)
  }

  // ---- Computing a zone map ----

  /** Row i of a column with this validity is not NULL. */
  predicate Shown(valid: Option<seq<bool>>, i: nat) {
    valid.Some? ==> i < |valid.value| && valid.value[i]
  }

  ghost predicate Int64s(values: seq<int>) {
    forall i :: 0 <= i < |values| ==> INT64_MIN <= values[i] <= INT64_MAX
  }

  ghost predicate Attained(values: seq<int>, valid: Option<seq<bool>>, v: int) {
    exists i :: 0 <= i < |values| && Shown(valid, i) && values[i] == v
  }

  ghost predicate AnyShown(values: seq<int>, valid: Option<seq<bool>>) {
    exists i :: 0 <= i < |values| && Shown(valid, i)
  }

  ghost predicate AnyNull(values: seq<int>, valid: Option<seq<bool>>) {
    exists i :: 0 <= i < |values| && !Shown(valid, i)
  }

  ghost predicate Between(values: seq<int>, valid: Option<seq<bool>>, lo: int, hi: int) {
    forall i :: 0 <= i < |values| && Shown(valid, i) ==> lo <= values[i] <= hi
  }

  /** The least and the greatest value that is not NULL, or zeros where all are; and whether one is NULL. */
  ghost predicate Describes(zm: ZoneMap, values: seq<int>, valid: Option<seq<bool>>) {
    && zm.intLane && zm.minVal == zm.imin as real && zm.maxVal == zm.imax as real
    && Between(values, valid, zm.imin, zm.imax)
    && (if AnyShown(values, valid) then Attained(values, valid, zm.imin) && Attained(values, valid, zm.imax)
        else zm.imin == zm.imax == 0)
    && (zm.hasNull <==> AnyNull(values, valid))
  }

  const NO_MAP: ZoneMap := ZoneMap(false, 0, 0, 0.0, 0.0, false)

  /** ComputeZoneMapT on an integer column. */
  method ComputeZoneMap(values: seq<int>, valid: Option<seq<bool>>) returns (zm: ZoneMap)
    requires Int64s(values) && (valid.Some? ==> |valid.value| == |values|)
    ensures if values == [] then zm == NO_MAP else Describes(zm, values, valid)
  {
    if |values| == 0 {
      return NO_MAP;
    }
    var lo, hi, any, hasNull := INT64_MAX, INT64_MIN, false, false;
    for i := 0 to |values|
      invariant Between(values[..i], valid, lo, hi)
      invariant any <==> AnyShown(values[..i], valid)
      invariant hasNull <==> AnyNull(values[..i], valid)
      invariant if any then Attained(values[..i], valid, lo) && Attained(values[..i], valid, hi)
                else lo == INT64_MAX && hi == INT64_MIN
    {
      ScanStep(values, valid, i, lo, hi);
      if valid.Some? && !valid.value[i] {
        hasNull := true;
        continue;
      }
      lo := if values[i] < lo then values[i] else lo;
      hi := if values[i] > hi then values[i] else hi;
      any := true;
    }
    assert values[..|values|] == values;
    if !any {
      lo, hi := 0, 0;
    }
    zm := ZoneMap(true, lo, hi, lo as real, hi as real, hasNull);
  }

  /** What one more row changes. */
  lemma {:induction false} ScanStep(values: seq<int>, valid: Option<seq<bool>>, i: nat, lo: int, hi: int)
    requires i < |values| && Between(values[..i], valid, lo, hi)
    ensures AnyNull(values[..i + 1], valid) <==> AnyNull(values[..i], valid) || !Shown(valid, i)
    ensures AnyShown(values[..i + 1], valid) <==> AnyShown(values[..i], valid) || Shown(valid, i)
    ensures forall v :: Attained(values[..i], valid, v) ==> Attained(values[..i + 1], valid, v)
    ensures Shown(valid, i) ==> Attained(values[..i + 1], valid, values[i])
    ensures Between(values[..i + 1], valid, if Shown(valid, i) && values[i] < lo then values[i] else lo,
                    if Shown(valid, i) && values[i] > hi then values[i] else hi)
  {
    var before, after := values[..i], values[..i + 1];
    assert after == before + [values[i]];
    assert forall j :: 0 <= j < i ==> before[j] == after[j];
    assert after[i] == values[i];
  }

  /** The column as a segment has it. */
  function Ints(values: seq<int>): (r: seq<Value>)
    ensures |r| == |values|
  {
    seq(|values|, i requires 0 <= i < |values| => Int(values[i]))
  }

  /** A computed zone map covers its column in any segment. */
  lemma {:induction false} DescribedIsCovered(zm: ZoneMap, values: seq<int>, valid: Option<seq<bool>>, s: Segment,
                                              c: nat)
    requires Describes(zm, values, valid) && SegmentOk(s) && c < |s.cols|
    requires s.cols[c] == Ints(values) && s.valids[c] == valid
    ensures ZoneCovers(zm, s, c)
  {
    forall i | 0 <= i < s.count ensures Present(s, c, i) == Shown(valid, i) && s.cols[c][i] == Int(values[i]) {
    }
  }

  // ---- Prune predicates ----

  datatype PrunePred = PrunePred(col: nat, cmp: Comparison, constant: Value)

  /** One comparison, as the translators emit it: column, constant, operation. */
  predicate IsTriple(ops: seq<Op>, i: nat) {
    && i + 3 <= |ops|
    && ops[i].LoadCol? && (ops[i + 1].ConstInt? || ops[i + 1].ConstFloat?) && ops[i + 2].Cmp?
  }

  function TripleOf(ops: seq<Op>, i: nat): PrunePred
    requires IsTriple(ops, i)
  {
    PrunePred(ops[i].col, ops[i + 2].cmp,
              if ops[i + 1].ConstInt? then Int(ops[i + 1].ivalue) else Real(ops[i + 1].value))
  }

  /** Comparisons joined by AND in infix order, from position i on. */
  predicate InfixTail(ops: seq<Op>, i: nat)
    requires i <= |ops|
    decreases |ops| - i
  {
    i == |ops| || (ops[i] == And && IsTriple(ops, i + 1) && InfixTail(ops, i + 4))
  }

  predicate Infix(ops: seq<Op>) {
    IsTriple(ops, 0) && InfixTail(ops, 3)
  }

  /** The comparisons behind the ANDs, in order. */
  function TailPreds(ops: seq<Op>, i: nat): seq<PrunePred>
    requires i <= |ops| && InfixTail(ops, i)
    decreases |ops| - i
  {
    if i == |ops| then [] else [TripleOf(ops, i + 1)] + TailPreds(ops, i + 4)
  }

  /** BuildSegmentPrunePreds: all of the comparisons, or none. */
  method BuildSegmentPrunePreds(ops: seq<Op>) returns (ok: bool, preds: seq<PrunePred>)
    ensures ok <==> Infix(ops)
    ensures preds == if ok then [TripleOf(ops, 0)] + TailPreds(ops, 3) else []
  {
    preds := [];
    if |ops| == 0 {
      return false, [];
    }
    if !IsTriple(ops, 0) {
      return false, [];
    }
    preds := [TripleOf(ops, 0)];
    var i := 3;
    while i < |ops|
      invariant 3 <= i <= |ops|
      invariant InfixTail(ops, 3) <==> InfixTail(ops, i)
      invariant InfixTail(ops, i) ==> preds + TailPreds(ops, i) == [TripleOf(ops, 0)] + TailPreds(ops, 3)
    {
      if ops[i] != And {
        return false, [];
      }
      i := i + 1;
      if !IsTriple(ops, i) {
        return false, [];
      }
      ghost var before := preds;
      preds := preds + [TripleOf(ops, i)];
      i := i + 3;
      if InfixTail(ops, i) {
        assert preds + TailPreds(ops, i) == before + ([TripleOf(ops, i - 3)] + TailPreds(ops, i));
      }
    }
    ok := true;
  }

  /** Parsed predicates compare with a number. */
  lemma {:induction false} TailPredsTyped(ops: seq<Op>, i: nat)
    requires i <= |ops| && InfixTail(ops, i)
    ensures forall p :: 0 <= p < |TailPreds(ops, i)| ==> !TailPreds(ops, i)[p].constant.Bool?
    decreases |ops| - i
  {
    if i < |ops| {
      TailPredsTyped(ops, i + 4);
    }
  }

  /** Programs are postfix, so an AND right after one comparison has no second operand: among programs
      that run, the only one the parser recognises is a single comparison. Conjunctions never prune. */
  lemma {:induction false} OnlySingleComparisonsPrune(env: Env, ops: seq<Op>)
    requires WellFormedCode(env, ops)
    ensures Infix(ops) <==> |ops| == 3 && IsTriple(ops, 0)
  {
    if Infix(ops) && |ops| > 3 {
      var front := ops[..4];
      RunPrefix(env, ops, 4, []);
      RunPrefix(env, ops, 3, []);
      assert front[..3] == ops[..3];
      RunHeight(env, ops[..3], []);
      TripleEffect(ops);
      assert false;
    }
  }

  lemma {:induction false} TripleEffect(ops: seq<Op>)
    requires IsTriple(ops, 0)
    ensures Effect(ops[..3]) == 1
  {
    assert ops[..3][..2] == ops[..2] && ops[..2][..1] == ops[..1] && ops[..1][..0] == [];
    assert Effect(ops[..1]) == 1;
    assert Effect(ops[..2]) == 2;
  }

  /** A comparison with a constant, as the compiler emits it, yields itself. */
  lemma {:induction false} ComparisonParses(cmp: Comparison, constant: Value, col: nat)
    requires !constant.Bool?
    ensures var code := CompileFilter(ConstantComparison(Some(cmp), Some(constant)), col);
            code.Some? && Infix(code.value) && |code.value| == 3 &&
            TripleOf(code.value, 0) == PrunePred(col, cmp, constant)
  {
  }

  /** A conjunction of two comparisons, as the compiler emits it, yields no predicate. */
  lemma {:induction false} ConjunctionDoesNotPrune(a: seq<Op>, b: seq<Op>)
    requires |a| == 3 && IsTriple(a, 0) && |b| == 3 && IsTriple(b, 0)
    ensures !Infix(a + b + [And])
  {
    assert (a + b + [And])[3] == b[0];
  }

  // ---- Pruning ----

  /** One predicate rules a segment out. */
  predicate RulesOut(pred: PrunePred, zm: ZoneMap)
    requires !pred.constant.Bool? && pred.constant.Int? == zm.intLane
  {
    match pred.cmp
    case LT => if zm.intLane then zm.imin >= pred.constant.i else zm.minVal >= pred.constant.r
    case LE => if zm.intLane then zm.imin > pred.constant.i else zm.minVal > pred.constant.r
    case GT => if zm.intLane then zm.imax <= pred.constant.i else zm.maxVal <= pred.constant.r
    case GE => if zm.intLane then zm.imax < pred.constant.i else zm.maxVal < pred.constant.r
    case EQ =>
      if zm.intLane then pred.constant.i < zm.imin || pred.constant.i > zm.imax
      else pred.constant.r < zm.minVal || pred.constant.r > zm.maxVal
    case NE =>
      && !zm.hasNull
      && (if zm.intLane then zm.imin == zm.imax == pred.constant.i else zm.minVal == zm.maxVal == pred.constant.r)
  }

  /** SegmentShouldPrune: the first predicate that rules the segment out; a missing zone map or a lane
      mismatch ends the search. */
  method SegmentShouldPrune(seg: nat, preds: seq<PrunePred>, zoneMaps: seq<seq<ZoneMap>>) returns (prune: bool)
    requires forall p :: 0 <= p < |preds| ==> !preds[p].constant.Bool?
    ensures prune <==> exists p :: 0 <= p < |preds| && Prunes(preds[p], seg, zoneMaps) &&
                                   forall q :: 0 <= q < p ==> Comparable(preds[q], seg, zoneMaps)
  {
    for p := 0 to |preds|
      invariant forall q :: 0 <= q < p ==> Comparable(preds[q], seg, zoneMaps) && !Prunes(preds[q], seg, zoneMaps)
    {
      var pred := preds[p];
      if pred.col >= |zoneMaps| || seg >= |zoneMaps[pred.col]| {
        return false;
      }
      var zm := zoneMaps[pred.col][seg];
      if pred.constant.Int? != zm.intLane {
        return false;
      }
      if RulesOut(pred, zm) {
        return true;
      }
    }
    prune := false;
  }

  /** There is a zone map for the predicate's column, in the lane of its constant. */
  predicate Comparable(pred: PrunePred, seg: nat, zoneMaps: seq<seq<ZoneMap>>) {
    && pred.col < |zoneMaps| && seg < |zoneMaps[pred.col]|
    && pred.constant.Int? == zoneMaps[pred.col][seg].intLane
  }

  predicate Prunes(pred: PrunePred, seg: nat, zoneMaps: seq<seq<ZoneMap>>) {
    && !pred.constant.Bool?
    && Comparable(pred, seg, zoneMaps)
    && RulesOut(pred, zoneMaps[pred.col][seg])
  }

  /** The code is one comparison, and it rules the segment out. */
  predicate ComparisonPrunes(ops: seq<Op>, seg: nat, zoneMaps: seq<seq<ZoneMap>>) {
    |ops| == 3 && IsTriple(ops, 0) && Prunes(TripleOf(ops, 0), seg, zoneMaps)
  }

  /** What one comparison says of a value of its lane. */
  predicate Satisfies(pred: PrunePred, v: Value)
    requires v.Int? == pred.constant.Int? && v.Real? == pred.constant.Real? && !v.Bool?
  {
    if v.Int? then Related(pred.cmp, v.i as real, pred.constant.i as real)
    else Related(pred.cmp, v.r, pred.constant.r)
  }

  /** A number of the map's lane between its ends. */
  predicate InWindow(zm: ZoneMap, v: Value) {
    if zm.intLane then v.Int? && zm.imin <= v.i <= zm.imax else v.Real? && zm.minVal <= v.r <= zm.maxVal
  }

  ghost predicate NoneSatisfies(pred: PrunePred, zm: ZoneMap)
    requires !pred.constant.Bool? && pred.constant.Int? == zm.intLane
  {
    forall v :: InWindow(zm, v) ==> !Satisfies(pred, v)
  }

  /** A segment is ruled out exactly when no number between its ends satisfies the comparison; for <> it must have
      no NULL besides, though a NULL would not satisfy it either. */
  lemma {:induction false} RulesOutIff(pred: PrunePred, zm: ZoneMap)
    requires !pred.constant.Bool? && pred.constant.Int? == zm.intLane
    requires if zm.intLane then zm.imin <= zm.imax else zm.minVal <= zm.maxVal
    ensures RulesOut(pred, zm) <==> NoneSatisfies(pred, zm) && (pred.cmp == NE ==> !zm.hasNull)
  {
    var low := if zm.intLane then Int(zm.imin) else Real(zm.minVal);
    var high := if zm.intLane then Int(zm.imax) else Real(zm.maxVal);
    assert InWindow(zm, low) && InWindow(zm, high);
    assert InWindow(zm, pred.constant) ==> pred.cmp == EQ ==> Satisfies(pred, pred.constant);
  }

  /** Soundness: in a segment a comparison rules out, no present value satisfies it. */
  lemma {:induction false} RuledOutIsEmpty(pred: PrunePred, zm: ZoneMap, s: Segment, i: nat)
    requires SegmentOk(s) && pred.col < |s.cols| && i < s.count && ZoneCovers(zm, s, pred.col)
    requires !pred.constant.Bool? && pred.constant.Int? == zm.intLane && RulesOut(pred, zm)
    requires Present(s, pred.col, i)
    ensures !Satisfies(pred, s.cols[pred.col][i])
  {
  }
}
