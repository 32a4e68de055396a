/**
 The paired comparison of tools/oracle_report.py: the median of the Walsh averages, its range
 from the Wilcoxon signed-rank distribution, and Tukey's identity between the two.
 */
module SignedRank {
  import opened Options
  import opened Times
  import opened RankCounts
  import opened RankRanges

  /** The average of two differences, as the source writes it. */
  function Average(a: Time, b: Time): Time {
    Half(Difference(a, Negated(b)))
  }

  /** The averages of `d` with each of `ds`. */
  function Averages(d: Time, ds: seq<Time>): (row: seq<Time>)
    ensures |row| == |ds|
  {
    if ds == [] then [] else Averages(d, ds[..|ds| - 1]) + [Average(d, ds[|ds| - 1])]
  }

  /** Each difference averaged with itself and every later one. */
  function Walsh(diffs: seq<Time>): (averages: seq<Time>)
    ensures |averages| == Triangle(|diffs|)
  {
    if diffs == [] then [] else Averages(diffs[0], diffs) + Walsh(diffs[1..])
  }

  /** The critical rank of `n` pairs. */
  function PairedCritical(n: nat, level: real): (c: int)
    ensures c >= -1
  {
    SignedRankCountsTotal(n);
    Critical(SignedRankCounts(n), Limit(level))
  }

  function PairedShift(diffs: seq<Time>, level: real): Outcome {
    RangeOf(Sorted(Walsh(diffs)), PairedCritical(|diffs|, level))
  }

  method PairedHodgesLehmann(diffs: seq<Time>, level: real) returns (r: Outcome)
    ensures r == PairedShift(diffs, level)
  {
    var n := |diffs|;
    var walsh := Sorted(Walsh(diffs));
    if walsh == [] {
      return NoData;
    }
    var counts := ComputeSignedRankCounts(n);
    SignedRankCountsTotal(n);
    var c := CriticalRank(counts, (1.0 - level) / 2.0);
    r := ReadRange(walsh, c);
  }

  // ---- Tukey's identity ----

  function Magnitude(t: Time): Time {
    if Less(t, Fin(0.0)) then Negated(t) else t
  }

  predicate AtLeastAsLarge(a: Time, b: Time) {
    Leq(Magnitude(b), Magnitude(a))
  }

  /** A difference's rank: how many of `all` are no larger in magnitude. */
  function Rank(d: Time, all: seq<Time>): nat {
    CountIf(all, b => AtLeastAsLarge(d, b))
  }

  /** The ranks within `all` of the positive ones among `part`. */
  function PositiveRanks(part: seq<Time>, all: seq<Time>): nat {
    if part == [] then 0
    else
      var d := part[|part| - 1];
      PositiveRanks(part[..|part| - 1], all) + if Positive(d) then Rank(d, all) else 0
  }

  /** Wilcoxon's statistic. */
  function SignedRankSum(diffs: seq<Time>): nat {
    PositiveRanks(diffs, diffs)
  }

  /** No zero differences and no two of the same magnitude. */
  ghost predicate Untied(diffs: seq<Time>) {
    && (forall i | 0 <= i < |diffs| :: !Zero(diffs[i]))
    && forall i, j | 0 <= i < j < |diffs| :: Magnitude(diffs[i]) != Magnitude(diffs[j])
  }

  /** The larger of two differences decides the sign of their average. */
  lemma LargerDecides(a: Time, b: Time)
    requires Magnitude(a) != Magnitude(b)
    ensures AtLeastAsLarge(a, b) <==> !AtLeastAsLarge(b, a)
    ensures Positive(Average(a, b)) <==>
              (Positive(a) && AtLeastAsLarge(a, b)) || (Positive(b) && AtLeastAsLarge(b, a))
    ensures !Zero(Average(a, b))
  {
  }

  lemma OwnAverage(a: Time)
    requires !Zero(a)
    ensures Positive(Average(a, a)) <==> Positive(a)
    ensures !Zero(Average(a, a))
  {
  }

  /** The positive averages in a row: those `d` decides and those the others decide. */
  lemma {:induction false} RowPositives(d: Time, ds: seq<Time>)
    requires forall i | 0 <= i < |ds| :: Magnitude(d) != Magnitude(ds[i])
    ensures CountIf(Averages(d, ds), Positive)
         == (if Positive(d) then Rank(d, ds) else 0)
            + CountIf(ds, b => Positive(b) && AtLeastAsLarge(b, d))
    ensures CountIf(Averages(d, ds), Zero) == 0
  {
    if ds != [] {
      var rest, b := ds[..|ds| - 1], ds[|ds| - 1];
      RowPositives(d, rest);
      LargerDecides(d, b);
      var row := Averages(d, rest);
      assert (row + [Average(d, b)])[..|row|] == row;
    }
  }

  lemma {:induction false} RanksAmongOneMore(part: seq<Time>, d: Time, rest: seq<Time>)
    ensures PositiveRanks(part, [d] + rest)
         == PositiveRanks(part, rest) + CountIf(part, b => Positive(b) && AtLeastAsLarge(b, d))
  {
    if part != [] {
      var b := part[|part| - 1];
      RanksAmongOneMore(part[..|part| - 1], d, rest);
      CountIfConcat([d], rest, x => AtLeastAsLarge(b, x));
      assert [d] == [] + [d];
      CountIfOne(d, x => AtLeastAsLarge(b, x));
    }
  }

  lemma {:induction false} PositiveRanksConcat(a: seq<Time>, b: seq<Time>, all: seq<Time>)
    ensures PositiveRanks(a + b, all) == PositiveRanks(a, all) + PositiveRanks(b, all)
  {
    if b == [] {
      assert a + b == a;
    } else {
      PositiveRanksConcat(a, b[..|b| - 1], all);
      assert (a + b)[..|a + b| - 1] == a + b[..|b| - 1];
    }
  }

  /** The first difference's row of averages adds its own rank and moves the others' up. */
  lemma FirstRow(d: Time, rest: seq<Time>)
    requires Untied([d] + rest)
    ensures CountIf(Averages(d, [d] + rest), Positive) + SignedRankSum(rest)
         == SignedRankSum([d] + rest)
    ensures CountIf(Averages(d, [d] + rest), Zero) == 0
  {
    var all := [d] + rest;
    forall i | 0 <= i < |rest| ensures Magnitude(d) != Magnitude(rest[i]) {
      assert all[0] == d && all[i + 1] == rest[i];
    }
    RowPositives(d, rest);
    RanksAmongOneMore(rest, d, rest);
    PositiveRanksConcat([d], rest, all);
    assert PositiveRanks([d], all) == if Positive(d) then Rank(d, all) else 0 by {
      assert [d][..0] == [];
    }
    CountIfConcat([d], rest, b => AtLeastAsLarge(d, b));
    CountIfOne(d, b => AtLeastAsLarge(d, b));
    assert !Zero(all[0]);
    OwnAverage(d);
    AveragesConcat(d, [d], rest);
    assert Averages(d, [d]) == [Average(d, d)];
    CountIfConcat([Average(d, d)], Averages(d, rest), Positive);
    CountIfConcat([Average(d, d)], Averages(d, rest), Zero);
    CountIfOne(Average(d, d), Positive);
    CountIfOne(Average(d, d), Zero);
  }

  lemma {:induction false} AveragesConcat(d: Time, a: seq<Time>, b: seq<Time>)
    ensures Averages(d, a + b) == Averages(d, a) + Averages(d, b)
  {
    if b == [] {
      assert a + b == a;
    } else {
      AveragesConcat(d, a, b[..|b| - 1]);
      assert (a + b)[..|a + b| - 1] == a + b[..|b| - 1];
    }
  }

  /** Tukey: without zeros or tied magnitudes, the positive Walsh averages number the signed-rank
      sum, and none is zero. */
  lemma {:induction false} PositiveWalshIsSignedRank(diffs: seq<Time>)
    requires Untied(diffs)
    ensures CountIf(Walsh(diffs), Positive) == SignedRankSum(diffs)
    ensures CountIf(Walsh(diffs), Zero) == 0
  {
    if diffs != [] {
      var d, rest := diffs[0], diffs[1..];
      assert diffs == [d] + rest;
      assert Untied(rest) by {
        assert forall i | 0 <= i < |rest| :: rest[i] == diffs[i + 1];
      }
      PositiveWalshIsSignedRank(rest);
      FirstRow(d, rest);
      CountIfConcat(Averages(d, diffs), Walsh(rest), Positive);
      CountIfConcat(Averages(d, diffs), Walsh(rest), Zero);
    }
  }

  lemma {:induction false} SignsAddUp(s: seq<Time>)
    ensures CountIf(s, NotNegative) == CountIf(s, Positive) + CountIf(s, Zero)
    ensures CountIf(s, NotPositive) + CountIf(s, Positive) == |s|
  {
    if s != [] { SignsAddUp(s[..|s| - 1]); }
  }

  // ---- the range and the test agree ----

  /** P(T >= t) under the null. */
  function UpperTail(n: nat, t: nat): Probability
    requires t <= Triangle(n)
  {
    PrefixMonotone(SignedRankCounts(n), t, Triangle(n) + 1);
    Share(SignedRankCounts(n), t).Complement()
  }

  /** P(T <= t) under the null. */
  function LowerTail(n: nat, t: nat): Probability
    requires t <= Triangle(n)
  {
    Share(SignedRankCounts(n), t + 1)
  }

  lemma UpperTailAgainstCritical(n: nat, t: nat, limit: real)
    requires t <= Triangle(n)
    ensures UpperTail(n, t).total == Prefix(SignedRankCounts(n), Triangle(n) + 1) > 0
    ensures UpperTail(n, t).AtMost(limit)
       <==> Triangle(n) - t <= Critical(SignedRankCounts(n), limit)
  {
    SignedRankCountsTotal(n);
    UpperTailIsShare(n, t);
    CriticalMeets(SignedRankCounts(n), limit, 0, Triangle(n) - t);
  }

  lemma UpperTailIsShare(n: nat, t: nat)
    requires t <= Triangle(n)
    ensures UpperTail(n, t) == Share(SignedRankCounts(n), Triangle(n) - t + 1)
  {
    var counts, j := SignedRankCounts(n), Triangle(n) - t + 1;
    SignedRankCountsMirrored(n);
    TailIsPrefix(counts, t, j);
    PrefixMonotone(counts, t, |counts|);
    ComplementOfShare(counts, t, j);
  }

  lemma ComplementOfShare(counts: seq<nat>, t: nat, j: nat)
    requires t <= |counts| && j <= |counts| && Prefix(counts, |counts|) - Prefix(counts, t) == Prefix(counts, j)
    requires Prefix(counts, t) <= Prefix(counts, |counts|)
    ensures Share(counts, t).Complement() == Share(counts, j)
  {
  }

  lemma TailIsPrefix(counts: seq<nat>, t: nat, j: nat)
    requires Mirrored(counts, counts) && t + j == |counts|
    ensures Prefix(counts, |counts|) - Prefix(counts, t) == Prefix(counts, j)
  {
    MirroredPrefix(counts, counts, j);
    assert |counts| - j == t;
  }

  lemma LowerTailAgainstCritical(n: nat, t: nat, limit: real)
    requires t <= Triangle(n)
    ensures LowerTail(n, t).total == Prefix(SignedRankCounts(n), Triangle(n) + 1) > 0
    ensures LowerTail(n, t).AtMost(limit) <==> t <= Critical(SignedRankCounts(n), limit)
  {
    SignedRankCountsTotal(n);
    CriticalMeets(SignedRankCounts(n), limit, 0, t);
  }

  /** The ends of the paired range against the signed-rank sum, for whatever critical rank. */
  lemma EndsAgainstSum(diffs: seq<Time>, sorted: seq<Time>, c: int)
    requires Untied(diffs) && sorted == Sorted(Walsh(diffs)) && -1 <= c < |sorted|
    ensures SignedRankSum(diffs) <= Triangle(|diffs|)
    ensures Positive(LowEnd(sorted, c)) <==> Triangle(|diffs|) - SignedRankSum(diffs) <= c
    ensures Negative(HighEnd(sorted, c)) <==> SignedRankSum(diffs) <= c
  {
    PositiveWalshIsSignedRank(diffs);
    SignsAddUp(Walsh(diffs));
    HighAgainstRank(Walsh(diffs), sorted, c);
    LowAgainstRank(Walsh(diffs), sorted, c);
  }

  /** The same for the range read at `c`. */
  lemma RangeAgainstSum(diffs: seq<Time>, c: int)
    requires Untied(diffs) && c >= -1 && RangeOf(Sorted(Walsh(diffs)), c).Range?
    ensures var r := RangeOf(Sorted(Walsh(diffs)), c);
            && SignedRankSum(diffs) <= Triangle(|diffs|)
            && (Positive(r.low) <==> Triangle(|diffs|) - SignedRankSum(diffs) <= c)
            && (Negative(r.high) <==> SignedRankSum(diffs) <= c)
  {
    var sorted := Sorted(Walsh(diffs));
    RangeParts(sorted, c);
    EndsAgainstSum(diffs, sorted, c);
  }

  lemma PairedShiftAgainstSum(diffs: seq<Time>, level: real)
    requires Untied(diffs) && PairedShift(diffs, level).Range?
    ensures SignedRankSum(diffs) <= Triangle(|diffs|)
    ensures Positive(PairedShift(diffs, level).low)
       <==> Triangle(|diffs|) - SignedRankSum(diffs) <= PairedCritical(|diffs|, level)
    ensures Negative(PairedShift(diffs, level).high) <==> SignedRankSum(diffs) <= PairedCritical(|diffs|, level)
  {
    RangeAgainstSum(diffs, PairedCritical(|diffs|, level));
  }

  lemma TailsAgainstCritical(n: nat, t: nat, level: real)
    requires t <= Triangle(n)
    ensures UpperTail(n, t).total > 0 && LowerTail(n, t).total > 0
    ensures UpperTail(n, t).AtMost(Limit(level)) <==> Triangle(n) - t <= PairedCritical(n, level)
    ensures LowerTail(n, t).AtMost(Limit(level)) <==> t <= PairedCritical(n, level)
  {
    UpperTailAgainstCritical(n, t, Limit(level));
    LowerTailAgainstCritical(n, t, Limit(level));
  }

  /** Without ties, the paired range lies wholly above zero exactly when the signed-rank sum's
      upper tail is within the tail used, and wholly below zero ("faster") exactly when its
      lower tail is. */
  lemma PairedRangeAgreesWithTest(diffs: seq<Time>, level: real)
    requires Untied(diffs) && PairedShift(diffs, level).Range?
    ensures SignedRankSum(diffs) <= Triangle(|diffs|)
    ensures UpperTail(|diffs|, SignedRankSum(diffs)).total > 0
    ensures LowerTail(|diffs|, SignedRankSum(diffs)).total > 0
    ensures Positive(PairedShift(diffs, level).low)
       <==> UpperTail(|diffs|, SignedRankSum(diffs)).AtMost(Limit(level))
    ensures Negative(PairedShift(diffs, level).high)
       <==> LowerTail(|diffs|, SignedRankSum(diffs)).AtMost(Limit(level))
  {
    PairedShiftAgainstSum(diffs, level);
    TailsAgainstCritical(|diffs|, SignedRankSum(diffs), level);
  }

  // ---- the estimate ----

  /** For every level whose tail and tolerance stay below one half, the estimate is a number and
      lies in the range, whatever the differences. */
  lemma PairedEstimateInRange(diffs: seq<Time>, level: real)
    requires diffs != [] && Limit(level) < 0.5
    ensures var r := PairedShift(diffs, level);
            && r.Range? && r.estimate.Some?
            && Leq(r.low, r.estimate.value) && Leq(r.estimate.value, r.high)
  {
    var n, walsh := |diffs|, Walsh(diffs);
    SignedRankCountsTotal(n);
    SignedRankCountsMirrored(n);
    if NegInf in walsh && PosInf in walsh {
      InfinityFromDifference(diffs, NegInf);
      InfinityFromDifference(diffs, PosInf);
      var i :| 0 <= i < |diffs| && diffs[i] == NegInf;
      var j :| 0 <= j < |diffs| && diffs[j] == PosInf;
      AverageIsListed(diffs, if i < j then i else j, if i < j then j else i);
    }
    RangeIsOrdered(walsh, SignedRankCounts(n), Limit(level));
  }

  lemma {:induction false} InfinityFromDifference(diffs: seq<Time>, t: Time)
    requires !t.Fin? && t in Walsh(diffs)
    ensures t in diffs
  {
    var rest := diffs[1..];
    if t in Walsh(rest) {
      InfinityFromDifference(rest, t);
    } else {
      InfinityInRow(diffs[0], diffs, t);
    }
  }

  lemma {:induction false} InfinityInRow(d: Time, ds: seq<Time>, t: Time)
    requires !t.Fin? && t in Averages(d, ds)
    ensures t == d || t in ds
  {
    if t in Averages(d, ds[..|ds| - 1]) {
      InfinityInRow(d, ds[..|ds| - 1], t);
    }
  }

  lemma {:induction false} AverageIsListed(diffs: seq<Time>, i: nat, j: nat)
    requires i <= j < |diffs|
    ensures Average(diffs[i], diffs[j]) in Walsh(diffs)
  {
    if i > 0 {
      AverageIsListed(diffs[1..], i - 1, j - 1);
    } else {
      AverageInRow(diffs[0], diffs, j);
    }
  }

  lemma {:induction false} AverageInRow(d: Time, ds: seq<Time>, j: nat)
    requires j < |ds|
    ensures Average(d, ds[j]) in Averages(d, ds)
  {
    if j < |ds| - 1 { AverageInRow(d, ds[..|ds| - 1], j); }
  }

  // ---- identical differences ----

  /** Equal differences read a shift of just that, with a range that is a point or unbounded: a
      scenario the candidate never acted on reads zero. */
  lemma EqualDifferencesReadThemselves(diffs: seq<Time>, d: Time, level: real)
    requires d.Fin? && forall i | 0 <= i < |diffs| :: diffs[i] == d
    requires PairedShift(diffs, level).Range?
    ensures var r := PairedShift(diffs, level);
            && r.estimate == Some(d)
            && ((r.low == d && r.high == d) || (r.low == NegInf && r.high == PosInf))
  {
    EqualDifferencesRange(diffs, d, PairedCritical(|diffs|, level));
  }

  lemma EqualDifferencesRange(diffs: seq<Time>, d: Time, c: int)
    requires d.Fin? && forall i | 0 <= i < |diffs| :: diffs[i] == d
    requires c >= -1 && RangeOf(Sorted(Walsh(diffs)), c).Range?
    ensures var r := RangeOf(Sorted(Walsh(diffs)), c);
            && r.estimate == Some(d)
            && ((r.low == d && r.high == d) || (r.low == NegInf && r.high == PosInf))
  {
    OwnMean(d);
    EqualAverages(d, diffs);
    EqualSorted(d, Walsh(diffs));
    EqualRange(d, Sorted(Walsh(diffs)), c);
  }

  lemma EqualSorted(d: Time, s: seq<Time>)
    requires forall i | 0 <= i < |s| :: s[i] == d
    ensures forall i | 0 <= i < |Sorted(s)| :: Sorted(s)[i] == d
  {
    forall i | 0 <= i < |Sorted(s)| ensures Sorted(s)[i] == d {
      SortedMembers(s, Sorted(s)[i]);
    }
  }

  lemma EqualRange(d: Time, sorted: seq<Time>, c: int)
    requires c >= -1 && Mean(d, d) == Some(d) && forall i | 0 <= i < |sorted| :: sorted[i] == d
    ensures var r := RangeOf(sorted, c);
            r.Range? ==>
              && r.estimate == Some(d)
              && ((r.low == d && r.high == d) || (r.low == NegInf && r.high == PosInf))
  {
  }

  lemma {:induction false} EqualAverages(d: Time, diffs: seq<Time>)
    requires Average(d, d) == d && forall i | 0 <= i < |diffs| :: diffs[i] == d
    ensures forall i | 0 <= i < |Walsh(diffs)| :: Walsh(diffs)[i] == d
  {
    if diffs != [] {
      EqualAverages(d, diffs[1..]);
      EqualRow(d, diffs);
    }
  }

  lemma OwnMean(d: Time)
    requires d.Fin?
    ensures Average(d, d) == d && Mean(d, d) == Some(d)
  {
  }

  lemma {:induction false} EqualRow(d: Time, ds: seq<Time>)
    requires Average(d, d) == d && forall i | 0 <= i < |ds| :: ds[i] == d
    ensures forall i | 0 <= i < |ds| :: Averages(d, ds)[i] == d
  {
    if ds != [] {
      EqualRow(d, ds[..|ds| - 1]);
      assert ds[|ds| - 1] == d;
    }
  }
}
