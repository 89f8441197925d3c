/** Dealing a range of rows out to threads with a fixed stride loses and repeats nothing. */
module Strides {
  import opened Arith
  import opened Sums

  /** The sum over the i in [lo, hi) that thread `lane` of `threads` visits. */
  function Strided(s: seq<int>, lo: nat, threads: nat, lane: nat, hi: nat): int
    requires lo <= hi <= |s| && threads > 0
  {
    if hi == lo then 0
    else Strided(s, lo, threads, lane, hi - 1) + if (hi - 1 - lo) % threads == lane then s[hi - 1] else 0
  }

  /** Between two rows of the same lane there is none of its own. */
  lemma {:induction false} StridedGap(s: seq<int>, lo: nat, threads: nat, lane: nat, row: nat, hi: nat)
    requires lo <= row < hi <= |s| && hi <= row + threads && threads > 0
    requires (row - lo) % threads == lane
    ensures Strided(s, lo, threads, lane, hi) == Strided(s, lo, threads, lane, row) + s[row]
  {
    if hi > row + 1 {
      StridedGap(s, lo, threads, lane, row, hi - 1);
      if (hi - 1 - lo) % threads == lane {
        SameResidue(row - lo, hi - 1 - lo, threads);
      }
    }
  }

  /** Before a lane's first row there is none of its own. */
  lemma {:induction false} StridedBeforeFirst(s: seq<int>, lo: nat, threads: nat, lane: nat, hi: nat)
    requires lo <= hi <= |s| && lane < threads && hi <= lo + lane
    ensures Strided(s, lo, threads, lane, hi) == 0
  {
    if hi > lo {
      StridedBeforeFirst(s, lo, threads, lane, hi - 1);
      SmallMod(hi - 1 - lo, threads);
    }
  }

  function Lanes(s: seq<int>, lo: nat, threads: nat, hi: nat): (r: seq<int>)
    requires lo <= hi <= |s| && threads > 0
    ensures |r| == threads
  {
    seq(threads, lane requires 0 <= lane < threads => Strided(s, lo, threads, lane, hi))
  }

  /** Every row belongs to exactly one lane: the lane sums add up to the range sum, whatever
      the row contributions are. */
  lemma {:induction false} LanesCoverRange(s: seq<int>, lo: nat, threads: nat, hi: nat)
    requires lo <= hi <= |s| && threads > 0
    ensures Sum(Lanes(s, lo, threads, hi)) == Prefix(s, hi) - Prefix(s, lo)
  {
    if hi == lo {
      SumZero(Lanes(s, lo, threads, hi), threads);
    } else {
      LanesCoverRange(s, lo, threads, hi - 1);
      var before, lane := Lanes(s, lo, threads, hi - 1), (hi - 1 - lo) % threads;
      assert Lanes(s, lo, threads, hi) == before[lane := before[lane] + s[hi - 1]];
      SumUpdate(before, lane, before[lane] + s[hi - 1]);
    }
  }
}
