/** Grouping by several keys: the bridge folds a row's key values into one int32 code, the planner
    takes a group's code apart again when it emits. Codes, guard and decoding together have to give
    every key tuple its own group. */
module GroupKeys {
  import opened AbsBound
  import opened Arith
  import opened GroupBy

  const INT32_HALF: int := 0x8000_0000

  /** One key: subtracted from the value, added back when emitting, and how many codes it has. */
  datatype KeySpec = KeySpec(offset: int, emitBase: int, card: nat)

  function Card(specs: seq<KeySpec>): nat {
    if specs == [] then 1 else Card(specs[..|specs| - 1]) * specs[|specs| - 1].card
  }

  /** The specifications the planner admits: every key has a code, and there are at most 65536 groups. */
  ghost predicate Admitted(specs: seq<KeySpec>) {
    specs != [] && Positive(specs) && Card(specs) <= 65_536
  }

  ghost predicate Positive(specs: seq<KeySpec>) {
    forall k :: 0 <= k < |specs| ==> specs[k].card > 0
  }

  // ---- Codes in exact arithmetic ----

  /** A row's key values relative to their offsets. */
  function Relative(values: seq<int>, specs: seq<KeySpec>): (d: seq<int>)
    requires |values| == |specs|
    ensures |d| == |specs|
  {
    seq(|specs|, k requires 0 <= k < |specs| => values[k] - specs[k].offset)
  }

  ghost predicate InRange(digits: seq<int>, specs: seq<KeySpec>) {
    |digits| == |specs| && forall k :: 0 <= k < |specs| ==> 0 <= digits[k] < specs[k].card
  }

  function Combined(digits: seq<int>, specs: seq<KeySpec>): int
    requires |digits| == |specs|
  {
    if digits == [] then 0
    else
      var n := |digits| - 1;
      Combined(digits[..n], specs[..n]) * specs[n].card + digits[n]
  }

  /** Division by repeated subtraction. */
  function Quotient(g: nat, c: nat): nat
    requires c > 0
  {
    if g < c then 0 else Quotient(g - c, c) + 1
  }

  function Remainder(g: nat, c: nat): (r: nat)
    requires c > 0
    ensures r < c
  {
    if g < c then g else Remainder(g - c, c)
  }

  lemma {:induction false} DivisionAgrees(g: nat, c: nat)
    requires c > 0
    ensures g / c == Quotient(g, c) && g % c == Remainder(g, c)
  {
    if g < c {
      SmallMod(g, c);
    } else {
      DivisionAgrees(g - c, c);
      AddModulus(g - c, c);
    }
  }

  /** The key indices of a code: the last key is the remainder, the quotient holds the others. */
  function Digits(g: nat, specs: seq<KeySpec>): (d: seq<nat>)
    requires Positive(specs)
    ensures |d| == |specs|
    decreases |specs|
  {
    if specs == [] then []
    else
      var n := |specs| - 1;
      Digits(Quotient(g, specs[n].card), specs[..n]) + [Remainder(g, specs[n].card)]
  }

  lemma {:induction false} CombinedBelow(digits: seq<int>, specs: seq<KeySpec>)
    requires InRange(digits, specs)
    ensures 0 <= Combined(digits, specs) < Card(specs)
  {
    if specs != [] {
      var n := |specs| - 1;
      CombinedBelow(digits[..n], specs[..n]);
      SlotBelow(Combined(digits[..n], specs[..n]), Card(specs[..n]), specs[n].card, digits[n]);
    }
  }

  /** Decoding undoes encoding. */
  lemma {:induction false} DigitsOfCombined(digits: seq<int>, specs: seq<KeySpec>)
    requires InRange(digits, specs) && Positive(specs)
    ensures Combined(digits, specs) >= 0 && Digits(Combined(digits, specs), specs) == digits
  {
    CombinedBelow(digits, specs);
    if specs != [] {
      var n := |specs| - 1;
      CombinedBelow(digits[..n], specs[..n]);
      DigitsOfCombined(digits[..n], specs[..n]);
      LastDigit(Combined(digits[..n], specs[..n]), specs[n].card, digits[n]);
      assert digits == digits[..n] + [digits[n]];
    }
  }

  lemma {:induction false} LastDigit(front: nat, c: nat, d: nat)
    requires d < c
    ensures Quotient(front * c + d, c) == front && Remainder(front * c + d, c) == d
  {
    SlotInverse(front, c, d);
    DivisionAgrees(front * c + d, c);
  }

  /** Encoding undoes decoding: every code below the group count is some tuple's code. */
  lemma {:induction false} CombinedOfDigits(g: nat, specs: seq<KeySpec>)
    requires Positive(specs) && g < Card(specs)
    ensures InRange(Digits(g, specs), specs) && Combined(Digits(g, specs), specs) == g
    decreases |specs|
  {
    if specs != [] {
      var n := |specs| - 1;
      SlotRange(g, Card(specs[..n]), specs[n].card);
      DivisionAgrees(g, specs[n].card);
      CombinedOfDigits(Quotient(g, specs[n].card), specs[..n]);
      assert Digits(g, specs)[..n] == Digits(Quotient(g, specs[n].card), specs[..n]);
    }
  }

  lemma {:induction false} DigitsInRange(g: nat, specs: seq<KeySpec>)
    requires Positive(specs)
    ensures InRange(Digits(g, specs), specs)
    decreases |specs|
  {
    if specs != [] {
      var n := |specs| - 1;
      DigitsInRange(Quotient(g, specs[n].card), specs[..n]);
      forall k | 0 <= k < |specs| ensures Digits(g, specs)[k] < specs[k].card {
        assert k < n ==> Digits(g, specs)[k] == Digits(Quotient(g, specs[n].card), specs[..n])[k];
      }
    }
  }

  // ---- Codes in int32 ----

  /** Reduction to int32 sees only the residue. */
  lemma {:induction false} WrapResidue(x: int, k: int)
    ensures Wrap(x + k * (2 * INT32_HALF), INT32_HALF) == Wrap(x, INT32_HALF)
  {
  }

  lemma {:induction false} WrapIsShift(x: int) returns (k: int)
    ensures Wrap(x, INT32_HALF) == x + k * (2 * INT32_HALF)
  {
    k := -((x + INT32_HALF) / (2 * INT32_HALF));
  }

  /** One step of the fold: wrapped operands give the wrapped result. */
  lemma {:induction false} WrapStep(a: int, c: int, d: int)
    ensures Wrap(Wrap(Wrap(a, INT32_HALF) * c, INT32_HALF) + Wrap(d, INT32_HALF), INT32_HALF) ==
            Wrap(a * c + d, INT32_HALF)
  {
    var i := WrapIsShift(a);
    var j := WrapIsShift(d);
    var l := WrapIsShift(Wrap(a, INT32_HALF) * c);
    var m := 2 * INT32_HALF;
    assert Wrap(a, INT32_HALF) * c == a * c + (i * c) * m by { Distributes(a, i, m, c); }
    assert Wrap(Wrap(a, INT32_HALF) * c, INT32_HALF) + Wrap(d, INT32_HALF) == a * c + d + (i * c + l + j) * m;
    WrapResidue(a * c + d, i * c + l + j);
  }

  lemma {:induction false} Distributes(a: int, i: int, m: int, c: int)
    ensures (a + i * m) * c == a * c + (i * c) * m
  {
    assert (i * m) * c == (i * c) * m;
  }

  /** The loop over the key columns: code * card + key, every operation in int32. */
  method CombineKeys(values: seq<int>, specs: seq<KeySpec>) returns (code: int)
    requires |values| == |specs| > 0 && Admitted(specs)
    ensures code == Wrap(Combined(Relative(values, specs), specs), INT32_HALF)
  {
    var digits := Relative(values, specs);
    code := Wrap(values[0] - specs[0].offset, INT32_HALF);
    assert digits[..1][..0] == [];
    for k := 1 to |specs|
      invariant code == Wrap(Combined(digits[..k], specs[..k]), INT32_HALF)
    {
      WrapStep(Combined(digits[..k], specs[..k]), specs[k].card, digits[k]);
      assert digits[..k + 1][..k] == digits[..k] && specs[..k + 1][..k] == specs[..k];
      code := Wrap(Wrap(code * specs[k].card, INT32_HALF) + Wrap(values[k] - specs[k].offset, INT32_HALF), INT32_HALF);
    }
    assert digits[..|specs|] == digits && specs[..|specs|] == specs;
  }

  /** The guard: a code outside the groups, or a row the filter rejects, goes to the dump slot. */
  method GuardedCode(values: seq<int>, specs: seq<KeySpec>, pass: bool) returns (code: nat)
    requires |values| == |specs| > 0 && Admitted(specs)
    ensures code == GroupOf(values, specs, pass)
  {
    code := Card(specs);
    var combined := CombineKeys(values, specs);
    if 0 <= combined < Card(specs) && pass {
      code := combined;
    }
  }

  /** The group a row is counted in, or Card(specs) for none. */
  function GroupOf(values: seq<int>, specs: seq<KeySpec>, pass: bool): (g: nat)
    requires |values| == |specs|
    ensures g <= Card(specs)
  {
    var code := Wrap(Combined(Relative(values, specs), specs), INT32_HALF);
    if 0 <= code < Card(specs) && pass then code else Card(specs)
  }

  /** The planner's decomposition of a group number, last key first. */
  method DecodeKeys(g: nat, specs: seq<KeySpec>) returns (codes: array<nat>)
    requires Positive(specs)
    ensures fresh(codes) && codes[..] == Digits(g, specs)
  {
    codes := new nat[|specs|];
    var rest: nat := g;
    var k := |specs|;
    assert specs[..k] == specs;
    while k > 0
      invariant 0 <= k <= |specs|
      invariant Digits(g, specs) == Digits(rest, specs[..k]) + codes[k..]
    {
      assert specs[..k][..k - 1] == specs[..k - 1];
      DivisionAgrees(rest, specs[k - 1].card);
      codes[k - 1] := rest % specs[k - 1].card;
      rest := rest / specs[k - 1].card;
      k := k - 1;
    }
  }

  // ---- Rows and groups ----

  /** A passing row is counted in the group that decodes to its own keys exactly when each key lies in
      its range. The guard alone is weaker: see OutOfRangeAliases. */
  lemma {:induction false} OwnGroupIff(values: seq<int>, specs: seq<KeySpec>)
    requires |values| == |specs| && Admitted(specs)
    ensures var g := GroupOf(values, specs, true);
            g < Card(specs) && Digits(g, specs) == Relative(values, specs) <==> InRange(Relative(values, specs), specs)
  {
    var digits, g := Relative(values, specs), GroupOf(values, specs, true);
    DigitsInRange(g, specs);
    if InRange(digits, specs) {
      CombinedBelow(digits, specs);
      DigitsOfCombined(digits, specs);
    }
  }

  function TwoKeys(): seq<KeySpec> { [KeySpec(0, 0, 2), KeySpec(0, 0, 3)] }

  /** Only the combined code is guarded: a second key one past its range is counted in the next
      first key's first group. */
  lemma {:induction false} OutOfRangeAliases()
    ensures Admitted(TwoKeys()) && !InRange(Relative([0, 3], TwoKeys()), TwoKeys())
    ensures GroupOf([0, 3], TwoKeys(), true) == GroupOf([1, 0], TwoKeys(), true) == 3 < Card(TwoKeys())
  {
    var specs := TwoKeys();
    assert specs[..1] == [KeySpec(0, 0, 2)] && specs[..1][..0] == [];
    assert Card(specs[..1]) == 2;
    assert Relative([0, 3], specs) == [0, 3] && Relative([1, 0], specs) == [1, 0];
    assert [0, 3][..1] == [0] && [1, 0][..1] == [1];
    assert [0][..0] == [] && [1][..0] == [];
    var none: seq<int> := [];
    assert Combined(none, specs[..1][..0]) == 0;
    assert Combined([0], specs[..1]) == 0 && Combined([1], specs[..1]) == 1;
    assert Combined([0, 3], specs) == 3 && Combined([1, 0], specs) == 3;
  }

  /** Keyed rows: the tuple of key values and the value to aggregate. */
  datatype KeyedRow = KeyedRow(keys: seq<int>, value: int)

  ghost predicate RowsInRange(rows: seq<KeyedRow>, specs: seq<KeySpec>) {
    forall r :: 0 <= r < |rows| ==> |rows[r].keys| == |specs| && InRange(Relative(rows[r].keys, specs), specs)
  }

  /** The rows as the grouped kernels see them. */
  function Coded(rows: seq<KeyedRow>, specs: seq<KeySpec>): (c: seq<Row>)
    requires forall r :: 0 <= r < |rows| ==> |rows[r].keys| == |specs|
    ensures |c| == |rows|
  {
    seq(|rows|, r requires 0 <= r < |rows| => Row(GroupOf(rows[r].keys, specs, true), rows[r].value))
  }

  function TupleSum(rows: seq<KeyedRow>, keys: seq<int>): int {
    if rows == [] then 0
    else TupleSum(rows[..|rows| - 1], keys) + if rows[|rows| - 1].keys == keys then rows[|rows| - 1].value else 0
  }

  function TupleCount(rows: seq<KeyedRow>, keys: seq<int>): nat {
    if rows == [] then 0
    else TupleCount(rows[..|rows| - 1], keys) + if rows[|rows| - 1].keys == keys then 1 else 0
  }

  /** The key values of a group. */
  function KeysOf(g: nat, specs: seq<KeySpec>): (v: seq<int>)
    requires Positive(specs)
    ensures |v| == |specs|
  {
    seq(|specs|, k requires 0 <= k < |specs| => Digits(g, specs)[k] + specs[k].offset)
  }

  /** Within range, a row is in group g exactly when its keys are the group's keys. */
  lemma {:induction false} GroupIsTuple(values: seq<int>, specs: seq<KeySpec>, g: nat)
    requires |values| == |specs| && Admitted(specs) && g < Card(specs)
    requires InRange(Relative(values, specs), specs)
    ensures GroupOf(values, specs, true) == g <==> values == KeysOf(g, specs)
  {
    OwnGroupIff(values, specs);
    var h, digits := GroupOf(values, specs, true), Relative(values, specs);
    if h == g {
      forall k | 0 <= k < |specs| ensures values[k] == KeysOf(g, specs)[k] {
        assert Digits(g, specs)[k] == digits[k];
      }
    }
    if values == KeysOf(g, specs) {
      CombinedOfDigits(g, specs);
      assert digits == Digits(g, specs);
      CombinedOfDigits(h, specs);
    }
  }

  /** Grouping by code is grouping by key tuple: sums and counts agree, group by group. */
  lemma {:induction false} CodesGroupTuples(rows: seq<KeyedRow>, specs: seq<KeySpec>, g: nat)
    requires Admitted(specs) && g < Card(specs) && RowsInRange(rows, specs)
    ensures KeySum(Coded(rows, specs), g) == TupleSum(rows, KeysOf(g, specs))
    ensures KeyCount(Coded(rows, specs), g) == TupleCount(rows, KeysOf(g, specs))
  {
    if rows != [] {
      var n := |rows| - 1;
      CodesGroupTuples(rows[..n], specs, g);
      GroupIsTuple(rows[n].keys, specs, g);
      assert Coded(rows, specs)[..n] == Coded(rows[..n], specs);
    }
  }

  // ---- Emitting ----

  /** A tuple as it is emitted, with each key's base taken off again. */
  function Unbased(tuple: seq<int>, specs: seq<KeySpec>): (d: seq<int>)
    requires |tuple| == |specs|
    ensures |d| == |specs|
  {
    seq(|specs|, k requires 0 <= k < |specs| => tuple[k] - specs[k].emitBase)
  }

  /** The tuple is the one whose code, counted from the bases, is the group's number. */
  ghost predicate EmittedFor(tuple: seq<int>, g: nat, specs: seq<KeySpec>) {
    |tuple| == |specs| && InRange(Unbased(tuple, specs), specs) && Combined(Unbased(tuple, specs), specs) == g
  }

  /** The emit loop: one tuple for every group that has rows, in group order. */
  method EmitGroups(rows: seq<nat>, specs: seq<KeySpec>) returns (out: seq<seq<int>>, ghost groups: seq<nat>)
    requires Positive(specs) && |rows| == Card(specs)
    ensures Emitted(out, groups, rows, specs)
  {
    out, groups := [], [];
    for g := 0 to |rows|
      invariant |out| == |groups|
      invariant forall i :: 0 <= i < |out| ==> groups[i] < g && EmittedFor(out[i], groups[i], specs)
      invariant forall h :: h in groups <==> 0 <= h < g && rows[h] > 0
      invariant forall i, j :: 0 <= i < j < |groups| ==> groups[i] < groups[j]
    {
      if rows[g] != 0 {
        var tuple := EmitGroup(g, specs);
        out, groups := out + [tuple], groups + [g];
      }
    }
  }

  method EmitGroup(g: nat, specs: seq<KeySpec>) returns (tuple: seq<int>)
    requires Positive(specs) && g < Card(specs)
    ensures EmittedFor(tuple, g, specs)
  {
    var codes := DecodeKeys(g, specs);
    tuple := [];
    for k := 0 to |specs|
      invariant |tuple| == k && forall j :: 0 <= j < k ==> tuple[j] - specs[j].emitBase == codes[j]
      invariant codes[..] == Digits(g, specs)
    {
      tuple := tuple + [codes[k] + specs[k].emitBase];
    }
    assert Unbased(tuple, specs) == codes[..];
    CombinedOfDigits(g, specs);
  }

  /** What the emit loop returns. */
  ghost predicate Emitted(out: seq<seq<int>>, groups: seq<nat>, rows: seq<nat>, specs: seq<KeySpec>) {
    && |out| == |groups|
    && (forall i :: 0 <= i < |out| ==> groups[i] < |rows| && EmittedFor(out[i], groups[i], specs))
    && (forall g :: g in groups <==> 0 <= g < |rows| && rows[g] > 0)
    && (forall i, j :: 0 <= i < j < |groups| ==> groups[i] < groups[j])
  }

  /** rows counts the rows of every group. */
  ghost predicate Counts(rows: seq<nat>, input: seq<KeyedRow>, specs: seq<KeySpec>)
    requires forall r :: 0 <= r < |input| ==> |input[r].keys| == |specs|
  {
    |rows| == Card(specs) && forall g :: 0 <= g < |rows| ==> rows[g] == KeyCount(Coded(input, specs), g)
  }

  /** Each key moved from where codes count from to where emitting counts from. */
  ghost predicate Moved(keys: seq<int>, specs: seq<KeySpec>, tuple: seq<int>)
    requires |keys| == |specs|
  {
    |tuple| == |specs| && forall k :: 0 <= k < |specs| ==> tuple[k] == keys[k] + (specs[k].emitBase - specs[k].offset)
  }

  ghost predicate Occurs(input: seq<KeyedRow>, specs: seq<KeySpec>, tuple: seq<int>)
    requires forall r :: 0 <= r < |input| ==> |input[r].keys| == |specs|
  {
    exists r :: 0 <= r < |input| && Moved(input[r].keys, specs, tuple)
  }

  /** Some key decides, and those before it are equal. */
  ghost predicate LexLess(a: seq<int>, b: seq<int>) {
    exists k :: 0 <= k < |a| && k < |b| && LessAt(a, b, k)
  }

  ghost predicate LessAt(a: seq<int>, b: seq<int>, k: nat)
    requires k < |a| && k < |b|
  {
    a[..k] == b[..k] && a[k] < b[k]
  }

  /** GROUP BY over key tuples, end to end: the loop emits the tuples that occur in the input, each once, in
      ascending order. */
  lemma {:induction false} EmitsOccurringTuples(input: seq<KeyedRow>, specs: seq<KeySpec>, rows: seq<nat>,
                                                groups: seq<nat>, out: seq<seq<int>>)
    requires Admitted(specs) && RowsInRange(input, specs)
    requires Counts(rows, input, specs) && Emitted(out, groups, rows, specs)
    ensures forall tuple :: tuple in out <==> Occurs(input, specs, tuple)
    ensures forall i, j :: 0 <= i < j < |out| ==> LexLess(out[i], out[j])
  {
    forall tuple ensures tuple in out <==> Occurs(input, specs, tuple) {
      if tuple in out {
        EmittedOccurs(input, specs, rows, groups, out, tuple);
      }
      if Occurs(input, specs, tuple) {
        OccurringEmitted(input, specs, rows, groups, out, tuple);
      }
    }
    forall i, j | 0 <= i < j < |out| ensures LexLess(out[i], out[j]) {
      EmittedAscending(out[i], out[j], groups[i], groups[j], specs);
    }
  }

  /** Counting rows of a group is finding one. */
  lemma {:induction false} GroupHasRow(input: seq<KeyedRow>, specs: seq<KeySpec>, g: nat)
    requires Admitted(specs) && RowsInRange(input, specs) && g < Card(specs)
    ensures KeyCount(Coded(input, specs), g) > 0 <==>
            exists r :: 0 <= r < |input| && Combined(Relative(input[r].keys, specs), specs) == g
  {
    if input != [] {
      var n := |input| - 1;
      GroupHasRow(input[..n], specs, g);
      CombinedBelow(Relative(input[n].keys, specs), specs);
      assert Coded(input, specs)[..n] == Coded(input[..n], specs);
      assert Coded(input, specs)[n].key == Combined(Relative(input[n].keys, specs), specs);
      if exists r :: 0 <= r < n && Combined(Relative(input[..n][r].keys, specs), specs) == g {
        var r :| 0 <= r < n && Combined(Relative(input[..n][r].keys, specs), specs) == g;
        assert Combined(Relative(input[r].keys, specs), specs) == g;
      }
    }
  }

  /** A moved tuple counted from the bases is the original counted from the offsets. */
  lemma {:induction false} MovedDigits(keys: seq<int>, specs: seq<KeySpec>, tuple: seq<int>)
    requires |keys| == |specs| == |tuple|
    ensures Moved(keys, specs, tuple) <==> Unbased(tuple, specs) == Relative(keys, specs)
  {
    if Unbased(tuple, specs) == Relative(keys, specs) {
      forall k | 0 <= k < |specs| ensures tuple[k] == keys[k] + (specs[k].emitBase - specs[k].offset) {
        assert Unbased(tuple, specs)[k] == Relative(keys, specs)[k];
      }
    }
  }

  lemma {:induction false} SameCode(a: seq<int>, b: seq<int>, specs: seq<KeySpec>)
    requires InRange(a, specs) && InRange(b, specs) && Positive(specs)
    requires Combined(a, specs) == Combined(b, specs)
    ensures a == b
  {
    DigitsOfCombined(a, specs);
    DigitsOfCombined(b, specs);
  }

  lemma {:induction false} EmittedOccurs(input: seq<KeyedRow>, specs: seq<KeySpec>, rows: seq<nat>, groups: seq<nat>,
                                         out: seq<seq<int>>, tuple: seq<int>)
    requires Admitted(specs) && RowsInRange(input, specs)
    requires Counts(rows, input, specs) && Emitted(out, groups, rows, specs) && tuple in out
    ensures Occurs(input, specs, tuple)
  {
    var i :| 0 <= i < |out| && out[i] == tuple;
    var g := groups[i];
    assert g in groups && EmittedFor(tuple, g, specs);
    GroupHasRow(input, specs, g);
    var r :| 0 <= r < |input| && Combined(Relative(input[r].keys, specs), specs) == g;
    SameCode(Unbased(tuple, specs), Relative(input[r].keys, specs), specs);
    MovedDigits(input[r].keys, specs, tuple);
  }

  lemma {:induction false} OccurringEmitted(input: seq<KeyedRow>, specs: seq<KeySpec>, rows: seq<nat>,
                                            groups: seq<nat>, out: seq<seq<int>>, tuple: seq<int>)
    requires Admitted(specs) && RowsInRange(input, specs)
    requires Counts(rows, input, specs) && Emitted(out, groups, rows, specs) && Occurs(input, specs, tuple)
    ensures tuple in out
  {
    var r :| 0 <= r < |input| && Moved(input[r].keys, specs, tuple);
    MovedDigits(input[r].keys, specs, tuple);
    var digits := Relative(input[r].keys, specs);
    CombinedBelow(digits, specs);
    var g := Combined(digits, specs);
    GroupHasRow(input, specs, g);
    assert g in groups;
    var i :| 0 <= i < |groups| && groups[i] == g;
    assert EmittedFor(out[i], g, specs);
    SameCode(Unbased(out[i], specs), digits, specs);
    MovedDigits(input[r].keys, specs, out[i]);
    assert out[i] == tuple;
  }

  // ---- Order ----

  lemma {:induction false} FrontLess(a: seq<int>, b: seq<int>, n: nat)
    requires n <= |a| && n <= |b| && LexLess(a[..n], b[..n])
    ensures LexLess(a, b)
  {
    var k :| 0 <= k < n && LessAt(a[..n], b[..n], k);
    assert a[..n][..k] == a[..k] && b[..n][..k] == b[..k];
    assert LessAt(a, b, k);
  }

  /** Codes order tuples by their first key, then by their second, and so on. */
  lemma {:induction false} CodesAreOrdered(a: seq<int>, b: seq<int>, specs: seq<KeySpec>)
    requires InRange(a, specs) && InRange(b, specs) && Positive(specs) && Combined(a, specs) < Combined(b, specs)
    ensures LexLess(a, b)
  {
    if specs != [] {
      var n, c := |specs| - 1, specs[|specs| - 1].card;
      var x, y := Combined(a[..n], specs[..n]), Combined(b[..n], specs[..n]);
      if x == y {
        SameCode(a[..n], b[..n], specs[..n]);
        assert LessAt(a, b, n);
      } else {
        CombinedBelow(a[..n], specs[..n]);
        CombinedBelow(b[..n], specs[..n]);
        FrontDecides(x, y, c, a[n], b[n]);
        CodesAreOrdered(a[..n], b[..n], specs[..n]);
        FrontLess(a, b, n);
      }
    }
  }

  lemma {:induction false} FrontDecides(x: nat, y: nat, c: nat, d: nat, e: nat)
    requires d < c && e < c
    ensures y < x ==> y * c + e < x * c + d
  {
    if y < x {
      SlotBelow(y, x, c, e);
    }
  }

  lemma {:induction false} EmittedAscending(a: seq<int>, b: seq<int>, g: nat, h: nat, specs: seq<KeySpec>)
    requires Positive(specs) && EmittedFor(a, g, specs) && EmittedFor(b, h, specs) && g < h
    ensures LexLess(a, b)
  {
    var x, y := Unbased(a, specs), Unbased(b, specs);
    CodesAreOrdered(x, y, specs);
    var k :| 0 <= k < |x| && LessAt(x, y, k);
    forall i | 0 <= i < k ensures a[i] == b[i] {
      assert x[..k][i] == y[..k][i];
    }
    assert LessAt(a, b, k);
  }

  /** Different groups are emitted as different tuples. */
  lemma {:induction false} EmittedDistinct(a: seq<int>, b: seq<int>, g: nat, h: nat, specs: seq<KeySpec>)
    requires Positive(specs) && EmittedFor(a, g, specs) && EmittedFor(b, h, specs)
    ensures a == b <==> g == h
  {
    if g == h {
      SameCode(Unbased(a, specs), Unbased(b, specs), specs);
      forall k | 0 <= k < |specs| ensures a[k] == b[k] {
        assert Unbased(a, specs)[k] == Unbased(b, specs)[k];
      }
    }
  }
}
