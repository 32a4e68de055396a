/**
 The Hodges-Lehmann ranges and the Mann-Whitney p-values of tools/oracle_report.py, over exact
 reals: the range read off the sorted differences at the critical rank says the same as the
 test.
 */
module RankRanges {
  import opened Options
  import opened Times
  import opened RankCounts

  const TOLERANCE := 0.000_000_000_001
  const U_TOLERANCE := 0.000_000_001

  /** The share of the distribution each end of a range at `level` may leave out. */
  function Limit(level: real): real {
    (1.0 - level) / 2.0 + TOLERANCE
  }

  // ---- the critical rank ----

  /** A probability under the null: the orderings (or sign patterns) it counts, of all. */
  datatype Probability = Probability(favourable: nat, total: nat) {
    function Value(): real
      requires total > 0
    {
      favourable as real / total as real
    }

    predicate AtMost(limit: real)
      requires total > 0
    {
      Value() <= limit
    }

    /** One less the probability. */
    function Complement(): Probability
      requires favourable <= total
    {
      Probability(total - favourable, total)
    }
  }

  /** What the first `j` counts make up of all. */
  function Share(counts: seq<nat>, j: nat): Probability
    requires j <= |counts|
  {
    Probability(Prefix(counts, j), Prefix(counts, |counts|))
  }

  /** The last index from `u` on before the cumulative share passes `limit`, or `u - 1`. */
  function CriticalFrom(counts: seq<nat>, limit: real, u: nat): (c: int)
    requires u <= |counts| && Prefix(counts, |counts|) > 0
    ensures u - 1 <= c < |counts|
    decreases |counts| - u
  {
    if u == |counts| || !Share(counts, u + 1).AtMost(limit) then u - 1
    else CriticalFrom(counts, limit, u + 1)
  }

  function Critical(counts: seq<nat>, limit: real): (c: int)
    requires Prefix(counts, |counts|) > 0
    ensures -1 <= c < |counts|
  {
    CriticalFrom(counts, limit, 0)
  }

  /** The source's loop. */
  method CriticalRank(counts: seq<nat>, tail: real) returns (c: int)
    requires Prefix(counts, |counts|) > 0
    ensures c == Critical(counts, tail + TOLERANCE)
  {
    var total := Prefix(counts, |counts|);
    var cumulative := 0;
    c := -1;
    for u := 0 to |counts|
      invariant c == u - 1 && cumulative == Prefix(counts, u)
      invariant Critical(counts, tail + TOLERANCE) == CriticalFrom(counts, tail + TOLERANCE, u)
    {
      var count := counts[u];
      assert Prefix(counts, u + 1) == cumulative + count;
      if (cumulative + count) as real / total as real > tail + TOLERANCE {
        break;
      }
      cumulative := cumulative + count;
      c := u;
    }
  }

  lemma ShareMonotone(counts: seq<nat>, i: nat, j: nat, limit: real)
    requires i <= j <= |counts| && Prefix(counts, |counts|) > 0
    ensures Share(counts, j).AtMost(limit) ==> Share(counts, i).AtMost(limit)
  {
    PrefixMonotone(counts, i, j);
    Divided(Prefix(counts, i) as real, Prefix(counts, j) as real,
            Prefix(counts, |counts|) as real);
  }

  lemma Divided(a: real, b: real, t: real)
    requires a <= b && t > 0.0
    ensures a / t <= b / t
  {
  }

  /** An index is at most the critical rank exactly when its cumulative share is within the
      limit. */
  lemma {:induction false} CriticalMeets(counts: seq<nat>, limit: real, u: nat, k: nat)
    requires u <= k < |counts| && Prefix(counts, |counts|) > 0
    ensures k <= CriticalFrom(counts, limit, u) <==> Share(counts, k + 1).AtMost(limit)
    decreases |counts| - u
  {
    if !Share(counts, u + 1).AtMost(limit) {
      ShareMonotone(counts, u + 1, k + 1, limit);
    } else if u < k {
      CriticalMeets(counts, limit, u + 1, k);
    }
  }

  // ---- ranges ----

  /** What the source returns or raises: no data for a median, or a rank past the data. */
  datatype Outcome =
    | Range(estimate: Option<Time>, low: Time, high: Time)
    | NoData
    | RankOutOfRange

  /** The median and the elements at the ranks `c` from either end. */
  function RangeOf(sorted: seq<Time>, c: int): Outcome
    requires c >= -1
  {
    if sorted == [] then NoData
    else if c >= |sorted| then RankOutOfRange
    else Range(Median(sorted), LowEnd(sorted, c), HighEnd(sorted, c))
  }

  function LowEnd(sorted: seq<Time>, c: int): Time
    requires -1 <= c < |sorted|
  {
    if c < 0 then NegInf else sorted[c]
  }

  function HighEnd(sorted: seq<Time>, c: int): Time
    requires -1 <= c < |sorted|
  {
    if c < 0 then PosInf else sorted[|sorted| - c - 1]
  }

  lemma RangeParts(sorted: seq<Time>, c: int)
    requires c >= -1
    ensures RangeOf(sorted, c).Range? <==> 0 < |sorted| && c < |sorted|
    ensures RangeOf(sorted, c).Range? ==>
              && RangeOf(sorted, c).low == LowEnd(sorted, c)
              && RangeOf(sorted, c).high == HighEnd(sorted, c)
  {
  }

  /** The statements the two forms share once the critical rank is known. */
  method ReadRange(sorted: seq<Time>, c: int) returns (r: Outcome)
    requires sorted != [] && c >= -1
    ensures r == RangeOf(sorted, c)
  {
    var estimate := Median(sorted);
    if c < 0 {
      return Range(estimate, NegInf, PosInf);
    }
    if c >= |sorted| {
      return RankOutOfRange;
    }
    return Range(estimate, sorted[c], sorted[|sorted| - c - 1]);
  }

  /** In sorted data, the element at `i` is negative exactly when no more elements than follow
      it lie at or above zero ... */
  lemma NegativeRank(sorted: seq<Time>, i: nat)
    requires Ordered(sorted) && i < |sorted|
    ensures Negative(sorted[i]) <==> CountIf(sorted, NotNegative) <= |sorted| - i - 1
  {
    CountIfRank(sorted, Negative, i);
    CountIfComplement(sorted, Negative, NotNegative);
  }

  /** ... and positive exactly when no more elements than precede it lie at or below zero. */
  lemma PositiveRank(sorted: seq<Time>, i: nat)
    requires Ordered(sorted) && i < |sorted|
    ensures Positive(sorted[i]) <==> CountIf(sorted, NotPositive) <= i
  {
    CountIfRank(sorted, NotPositive, i);
  }

  /** A range ends below zero exactly when at most `c` of the data do not. */
  lemma HighAgainstRank(data: seq<Time>, sorted: seq<Time>, c: int)
    requires sorted == Sorted(data) && -1 <= c < |sorted|
    ensures Negative(HighEnd(sorted, c)) <==> 0 <= c && CountIf(data, NotNegative) <= c
  {
    if c >= 0 {
      assert Ordered(sorted) by { SortedOrdered(data); }
      NegativeRank(sorted, |sorted| - c - 1);
      CountIfSorted(data, NotNegative);
    }
  }

  /** ... and begins above zero exactly when at most `c` of the data do not. */
  lemma LowAgainstRank(data: seq<Time>, sorted: seq<Time>, c: int)
    requires sorted == Sorted(data) && -1 <= c < |sorted|
    ensures Positive(LowEnd(sorted, c)) <==> 0 <= c && CountIf(data, NotPositive) <= c
  {
    if c >= 0 {
      assert Ordered(sorted) by { SortedOrdered(data); }
      PositiveRank(sorted, c);
      CountIfSorted(data, NotPositive);
    }
  }

  /** A limit below one half leaves the critical rank short of the middle of a symmetric
      distribution. */
  lemma CriticalBelowMiddle(counts: seq<nat>, limit: real)
    requires Mirrored(counts, counts) && Prefix(counts, |counts|) > 0 && limit < 0.5
    ensures 2 * Critical(counts, limit) + 1 < |counts|
  {
    var c, n := Critical(counts, limit), |counts|;
    if 2 * c + 1 >= n && c >= 0 {
      CriticalMeets(counts, limit, 0, c);
      MirroredPrefix(counts, counts, c + 1);
      PrefixMonotone(counts, n - (c + 1), c + 1);
      HalfOrMore(Prefix(counts, c + 1), Prefix(counts, n));
    }
  }

  lemma HalfOrMore(part: nat, whole: nat)
    requires 2 * part >= whole > 0
    ensures part as real / whole as real >= 0.5
  {
  }

  /** With a limit below one half, low <= estimate <= high, and the estimate is a number when no
      element jumps from one infinity to the other. */
  lemma RangeIsOrdered(data: seq<Time>, counts: seq<nat>, limit: real)
    requires data != [] && |counts| == |data| + 1
    requires Mirrored(counts, counts) && Prefix(counts, |counts|) > 0 && limit < 0.5
    requires NegInf in data && PosInf in data ==> Fin(0.0) in data
    ensures var r := RangeOf(Sorted(data), Critical(counts, limit));
            && r.Range? && r.estimate.Some?
            && Leq(r.low, r.estimate.value) && Leq(r.estimate.value, r.high)
  {
    CriticalBelowMiddle(counts, limit);
    SortedOrdered(data);
    SortedMembers(data, NegInf);
    SortedMembers(data, PosInf);
    SortedMembers(data, Fin(0.0));
    MiddleInRange(Sorted(data), Critical(counts, limit));
  }

  lemma MiddleInRange(sorted: seq<Time>, c: int)
    requires Ordered(sorted) && sorted != [] && c >= -1 && 2 * c + 1 <= |sorted|
    requires NegInf in sorted && PosInf in sorted ==> Fin(0.0) in sorted
    ensures var r := RangeOf(sorted, c);
            && r.Range? && r.estimate.Some?
            && Leq(r.low, r.estimate.value) && Leq(r.estimate.value, r.high)
  {
    MedianBetween(sorted, if c < 0 then 0 else c);
  }
}
