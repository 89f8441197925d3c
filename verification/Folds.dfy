/** The aggregates as folds over the rows that contribute, and what they are in plain words: a sum, a least or
    a greatest value, and a number of rows. */
module Folds {
  import opened Postfix
  import opened Sums
  import opened ZoneMaps

  datatype Kind = SUM | AVG | COUNT | COUNT_STAR | MIN | MAX

  predicate HasValueGraph(kind: Kind) { kind != COUNT && kind != COUNT_STAR }

  datatype Result = Result(ivalue: int, count: nat)

  function Neutral(kind: Kind): int {
    match kind
    case MIN => INT64_MAX
    case MAX => INT64_MIN
    case _ => 0
  }

  function Combine(kind: Kind, a: int, b: int): int {
    match kind
    case MIN => if b < a then b else a
    case MAX => if b > a then b else a
    case COUNT => a
    case COUNT_STAR => a
    case _ => a + b
  }

  /** SUM, COUNT, MIN and MAX of the rows that contribute, one row at a time. */
  function Fold(kind: Kind, rows: seq<Option<int>>): Result {
    if rows == [] then Result(Neutral(kind), 0)
    else
      var before, last := Fold(kind, rows[..|rows| - 1]), rows[|rows| - 1];
      if last.None? then before
      else Result(Combine(kind, before.ivalue, last.value), before.count + 1)
  }

  function MergeResults(kind: Kind, a: Result, b: Result): Result {
    Result(Combine(kind, a.ivalue, b.ivalue), a.count + b.count)
  }

  lemma {:induction false} FoldCountOnly(kind: Kind, rows: seq<Option<int>>)
    requires !HasValueGraph(kind)
    ensures Fold(kind, rows).ivalue == 0
  {
    if rows != [] {
      FoldCountOnly(kind, rows[..|rows| - 1]);
    }
  }

  lemma {:induction false} FoldBounds(kind: Kind, rows: seq<Option<int>>)
    ensures kind == MIN ==> Fold(kind, rows).ivalue <= INT64_MAX
    ensures kind == MAX ==> Fold(kind, rows).ivalue >= INT64_MIN
  {
    if rows != [] {
      FoldBounds(kind, rows[..|rows| - 1]);
    }
  }

  /** Splitting the rows anywhere and merging gives the fold of all of them. */
  lemma {:induction false} FoldConcat(kind: Kind, a: seq<Option<int>>, b: seq<Option<int>>)
    ensures Fold(kind, a + b) == MergeResults(kind, Fold(kind, a), Fold(kind, b))
  {
    if b == [] {
      assert a + b == a;
      FoldBounds(kind, a);
      if !HasValueGraph(kind) {
        FoldCountOnly(kind, a);
      }
    } else {
      FoldConcat(kind, a, b[..|b| - 1]);
      assert (a + b)[..|a + b| - 1] == a + b[..|b| - 1];
    }
  }

  lemma {:induction false} NobodyPasses(kind: Kind, rows: seq<Option<int>>)
    requires forall i :: 0 <= i < |rows| ==> rows[i].None?
    ensures Fold(kind, rows) == Result(Neutral(kind), 0)
  {
    if rows != [] {
      NobodyPasses(kind, rows[..|rows| - 1]);
    }
  }

  // ---- What a fold is ----

  /** The values that contribute, in order. */
  function ValuesOf(rows: seq<Option<int>>): seq<int> {
    if rows == [] then []
    else
      var last := rows[|rows| - 1];
      ValuesOf(rows[..|rows| - 1]) + if last.Some? then [last.value] else []
  }

  ghost predicate LeastOf(s: seq<int>, x: int) {
    x in s && forall y <- s :: x <= y
  }

  ghost predicate GreatestOf(s: seq<int>, x: int) {
    x in s && forall y <- s :: x >= y
  }

  /** The rows added to an earlier result. A running minimum starts from the largest int64 and a running
      maximum from the smallest. */
  ghost predicate Added(kind: Kind, before: Result, rows: seq<Option<int>>, after: Result) {
    && after.count == before.count + |ValuesOf(rows)|
    && match kind
       case SUM => after.ivalue == before.ivalue + Sum(ValuesOf(rows))
       case AVG => after.ivalue == before.ivalue + Sum(ValuesOf(rows))
       case COUNT => after.ivalue == before.ivalue
       case COUNT_STAR => after.ivalue == before.ivalue
       case MIN => LeastOf([before.ivalue, 0x7FFF_FFFF_FFFF_FFFF] + ValuesOf(rows), after.ivalue)
       case MAX => GreatestOf([before.ivalue, -0x8000_0000_0000_0000] + ValuesOf(rows), after.ivalue)
  }

  /** The aggregate of the rows alone. */
  ghost predicate Aggregates(kind: Kind, rows: seq<Option<int>>, r: Result) {
    && r.count == |ValuesOf(rows)|
    && match kind
       case SUM => r.ivalue == Sum(ValuesOf(rows))
       case AVG => r.ivalue == Sum(ValuesOf(rows))
       case COUNT => r.ivalue == 0
       case COUNT_STAR => r.ivalue == 0
       case MIN => LeastOf(ValuesOf(rows) + [0x7FFF_FFFF_FFFF_FFFF], r.ivalue)
       case MAX => GreatestOf(ValuesOf(rows) + [-0x8000_0000_0000_0000], r.ivalue)
  }

  lemma {:induction false} LeastUnique(s: seq<int>, x: int, y: int)
    requires LeastOf(s, x) && LeastOf(s, y)
    ensures x == y
  {
  }

  lemma {:induction false} GreatestUnique(s: seq<int>, x: int, y: int)
    requires GreatestOf(s, x) && GreatestOf(s, y)
    ensures x == y
  {
  }

  /** The fold computes the aggregate. */
  lemma {:induction false} FoldAggregates(kind: Kind, rows: seq<Option<int>>)
    ensures Aggregates(kind, rows, Fold(kind, rows))
  {
    if rows != [] {
      var front, last := rows[..|rows| - 1], rows[|rows| - 1];
      FoldAggregates(kind, front);
      if last.Some? {
        assert ValuesOf(rows) == ValuesOf(front) + [last.value];
        SumAppend(ValuesOf(front), last.value);
        NextAggregate(kind, ValuesOf(front), Fold(kind, front).ivalue, last.value);
      } else {
        assert ValuesOf(rows) == ValuesOf(front);
      }
    }
  }

  /** The same values stand in both lists. */
  ghost predicate SameValues(a: seq<int>, b: seq<int>) {
    forall y :: y in a <==> y in b
  }

  lemma {:induction false} SameExtremes(a: seq<int>, b: seq<int>, x: int)
    requires SameValues(a, b)
    ensures LeastOf(a, x) <==> LeastOf(b, x)
    ensures GreatestOf(a, x) <==> GreatestOf(b, x)
  {
  }

  lemma {:induction false} OneMoreValue(s: seq<int>, v: int, x: int, y: int)
    requires x == if v < y then v else y
    ensures LeastOf(s, y) ==> LeastOf(s + [v], x)
  {
    assert v in s + [v];
    assert forall z :: z in s ==> z in s + [v];
  }

  lemma {:induction false} OneMoreGreater(s: seq<int>, v: int, x: int, y: int)
    requires x == if v > y then v else y
    ensures GreatestOf(s, y) ==> GreatestOf(s + [v], x)
  {
    assert v in s + [v];
    assert forall z :: z in s ==> z in s + [v];
  }

  lemma {:induction false} Swapped(s: seq<int>, v: int, n: int)
    ensures SameValues((s + [n]) + [v], (s + [v]) + [n])
  {
  }

  lemma {:induction false} NextAggregate(kind: Kind, shown: seq<int>, before: int, v: int)
    ensures kind == MIN && LeastOf(shown + [INT64_MAX], before) ==>
              LeastOf((shown + [v]) + [INT64_MAX], Combine(kind, before, v))
    ensures kind == MAX && GreatestOf(shown + [INT64_MIN], before) ==>
              GreatestOf((shown + [v]) + [INT64_MIN], Combine(kind, before, v))
  {
    if kind == MIN {
      OneMoreValue(shown + [INT64_MAX], v, Combine(kind, before, v), before);
      Swapped(shown, v, INT64_MAX);
      SameExtremes((shown + [INT64_MAX]) + [v], (shown + [v]) + [INT64_MAX], Combine(kind, before, v));
    } else if kind == MAX {
      OneMoreGreater(shown + [INT64_MIN], v, Combine(kind, before, v), before);
      Swapped(shown, v, INT64_MIN);
      SameExtremes((shown + [INT64_MIN]) + [v], (shown + [v]) + [INT64_MIN], Combine(kind, before, v));
    }
  }

  /** Nothing else does. */
  lemma {:induction false} AggregatesUnique(kind: Kind, rows: seq<Option<int>>, a: Result, b: Result)
    requires Aggregates(kind, rows, a) && Aggregates(kind, rows, b)
    ensures a == b
  {
    if kind == MIN {
      LeastUnique(ValuesOf(rows) + [INT64_MAX], a.ivalue, b.ivalue);
    } else if kind == MAX {
      GreatestUnique(ValuesOf(rows) + [INT64_MIN], a.ivalue, b.ivalue);
    }
  }

  /** Merging a fold into an earlier result adds the rows to it. */
  lemma {:induction false} MergeAdds(kind: Kind, before: Result, rows: seq<Option<int>>)
    ensures Added(kind, before, rows, MergeResults(kind, before, Fold(kind, rows)))
  {
    FoldAggregates(kind, rows);
    var shown, fold := ValuesOf(rows), Fold(kind, rows).ivalue;
    if kind == MIN {
      MergeLeast(shown, before.ivalue, fold);
    } else if kind == MAX {
      MergeGreatest(shown, before.ivalue, fold);
    } else if !HasValueGraph(kind) {
      FoldCountOnly(kind, rows);
    }
  }

  lemma {:induction false} Turned(s: seq<int>, v: int, n: int)
    ensures SameValues((s + [n]) + [v], [v, n] + s)
  {
  }

  lemma {:induction false} MergeLeast(shown: seq<int>, before: int, fold: int)
    requires LeastOf(shown + [INT64_MAX], fold)
    ensures LeastOf([before, INT64_MAX] + shown, Combine(MIN, before, fold))
  {
    OneMoreValue(shown + [INT64_MAX], before, Combine(MIN, before, fold), fold);
    Turned(shown, before, INT64_MAX);
    SameExtremes((shown + [INT64_MAX]) + [before], [before, INT64_MAX] + shown, Combine(MIN, before, fold));
  }

  lemma {:induction false} MergeGreatest(shown: seq<int>, before: int, fold: int)
    requires GreatestOf(shown + [INT64_MIN], fold)
    ensures GreatestOf([before, INT64_MIN] + shown, Combine(MAX, before, fold))
  {
    OneMoreGreater(shown + [INT64_MIN], before, Combine(MAX, before, fold), fold);
    Turned(shown, before, INT64_MIN);
    SameExtremes((shown + [INT64_MIN]) + [before], [before, INT64_MIN] + shown, Combine(MAX, before, fold));
  }

  /** For int64 values, a minimum of at least one row is one of the values, and none is smaller. */
  lemma {:induction false} MinimumAttained(rows: seq<Option<int>>)
    requires ValuesOf(rows) != [] && forall v <- ValuesOf(rows) :: INT64_MIN <= v <= INT64_MAX
    ensures LeastOf(ValuesOf(rows), Fold(MIN, rows).ivalue) && GreatestOf(ValuesOf(rows), Fold(MAX, rows).ivalue)
  {
    FoldAggregates(MIN, rows);
    FoldAggregates(MAX, rows);
    DropNeutral(ValuesOf(rows), INT64_MAX, Fold(MIN, rows).ivalue);
    DropNeutral(ValuesOf(rows), INT64_MIN, Fold(MAX, rows).ivalue);
  }

  lemma {:induction false} DropNeutral(s: seq<int>, n: int, x: int)
    requires s != []
    ensures (forall v <- s :: v <= n) && LeastOf(s + [n], x) ==> LeastOf(s, x)
    ensures (forall v <- s :: v >= n) && GreatestOf(s + [n], x) ==> GreatestOf(s, x)
  {
    forall v | v in s ensures v in s + [n] {
    }
    assert s[0] in s && s[0] in s + [n];
    if (forall v <- s :: v <= n) && LeastOf(s + [n], x) {
      assert x <= s[0] <= n && (x in s || x == n);
    }
    if (forall v <- s :: v >= n) && GreatestOf(s + [n], x) {
      assert x >= s[0] >= n && (x in s || x == n);
    }
  }
}
