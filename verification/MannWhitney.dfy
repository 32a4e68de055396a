/**
 The unpaired comparison of tools/oracle_report.py: the Mann-Whitney statistic and its p-values,
 the Hodges-Lehmann shift and Moses range, and how the two agree.
 */
module MannWhitney {
  import opened Options
  import opened Times
  import opened RankCounts
  import opened RankRanges

  /** Every pairwise difference, x by x. */
  function Differences(xs: seq<Time>, ys: seq<Time>): (diffs: seq<Time>)
    ensures |diffs| == |xs| * |ys|
  {
    if xs == [] then []
    else Differences(xs[..|xs| - 1], ys) + Row(xs[|xs| - 1], ys)
  }

  function Row(x: Time, ys: seq<Time>): (diffs: seq<Time>)
    ensures |diffs| == |ys|
  {
    if ys == [] then [] else Row(x, ys[..|ys| - 1]) + [Difference(x, ys[|ys| - 1])]
  }

  /** The U of `xs` over `ys`: a pair counts one, a half or nothing, as its x compares. */
  function UStatistic(xs: seq<Time>, ys: seq<Time>): real {
    if xs == [] then 0.0 else UStatistic(xs[..|xs| - 1], ys) + URow(xs[|xs| - 1], ys)
  }

  function URow(x: Time, ys: seq<Time>): real {
    if ys == [] then 0.0
    else URow(x, ys[..|ys| - 1]) + Win(x, ys[|ys| - 1])
  }

  function Win(x: Time, y: Time): real {
    if Less(y, x) then 1.0 else if x == y then 0.5 else 0.0
  }

  /** P(U <= u) under the null. */
  function UCdf(m: nat, n: nat, u: real): (p: Probability)
    ensures p.favourable <= p.total && p.total == Binomial(m + n, m) > 0
  {
    UCountsTotal(m, n);
    SumUpToAtMostAll(UCounts(m, n), u);
    Probability(SumUpTo(UCounts(m, n), u), Prefix(UCounts(m, n), m * n + 1))
  }

  /** The counts at indices `k <= u + 1e-9`. */
  function SumUpTo(counts: seq<nat>, u: real): nat {
    if counts == [] then 0
    else
      var k := |counts| - 1;
      SumUpTo(counts[..k], u) + if k as real <= u + U_TOLERANCE then counts[k] else 0
  }

  lemma {:induction false} SumUpToAtMostAll(counts: seq<nat>, u: real)
    ensures SumUpTo(counts, u) <= Prefix(counts, |counts|)
  {
    if counts != [] {
      var k := |counts| - 1;
      SumUpToAtMostAll(counts[..k], u);
      PrefixOfPrefix(counts, k, k);
    }
  }

  /** The p-values `compare_report` prints. */
  function PFaster(xs: seq<Time>, ys: seq<Time>): Probability {
    UCdf(|xs|, |ys|, UStatistic(xs, ys))
  }

  function PSlower(xs: seq<Time>, ys: seq<Time>): Probability {
    UCdf(|xs|, |ys|, UStatistic(xs, ys) - 0.5).Complement()
  }

  /** The shift of `xs` over `ys` and its range. */
  function Shift(xs: seq<Time>, ys: seq<Time>, level: real): Outcome {
    UCountsTotal(|xs|, |ys|);
    RangeOf(Sorted(Differences(xs, ys)), Critical(UCounts(|xs|, |ys|), Limit(level)))
  }

  method HodgesLehmann(xs: seq<Time>, ys: seq<Time>, level: real) returns (r: Outcome)
    ensures r == Shift(xs, ys, level)
  {
    var m, n := |xs|, |ys|;
    var diffs := Sorted(Differences(xs, ys));
    if diffs == [] {
      return NoData;
    }
    var counts := ComputeUCounts(m, n);
    UCountsTotal(m, n);
    var c := CriticalRank(counts, (1.0 - level) / 2.0);
    r := ReadRange(diffs, c);
  }

  // ---- the statistic against the signs of the differences ----

  /** U is the positive differences and half the zero ones. */
  lemma {:induction false} StatisticCountsSigns(xs: seq<Time>, ys: seq<Time>)
    ensures UStatistic(xs, ys)
         == CountIf(Differences(xs, ys), Positive) as real
            + CountIf(Differences(xs, ys), Zero) as real / 2.0
  {
    if xs != [] {
      var rest, x := xs[..|xs| - 1], xs[|xs| - 1];
      StatisticCountsSigns(rest, ys);
      RowCountsSigns(x, ys);
      CountIfConcat(Differences(rest, ys), Row(x, ys), Positive);
      CountIfConcat(Differences(rest, ys), Row(x, ys), Zero);
    }
  }

  lemma {:induction false} RowCountsSigns(x: Time, ys: seq<Time>)
    ensures URow(x, ys)
         == CountIf(Row(x, ys), Positive) as real + CountIf(Row(x, ys), Zero) as real / 2.0
  {
    if ys != [] {
      var rest, y := ys[..|ys| - 1], ys[|ys| - 1];
      RowCountsSigns(x, rest);
      DifferenceSign(x, y);
      CountIfConcat(Row(x, rest), [Difference(x, y)], Positive);
      CountIfConcat(Row(x, rest), [Difference(x, y)], Zero);
      CountIfOne(Difference(x, y), Positive);
      CountIfOne(Difference(x, y), Zero);
    }
  }

  ghost predicate NoTies(xs: seq<Time>, ys: seq<Time>) {
    forall i, j | 0 <= i < |xs| && 0 <= j < |ys| :: xs[i] != ys[j]
  }

  lemma {:induction false} NoTiesNoZeros(xs: seq<Time>, ys: seq<Time>)
    requires NoTies(xs, ys)
    ensures CountIf(Differences(xs, ys), Zero) == 0
  {
    if xs != [] {
      NoTiesNoZeros(xs[..|xs| - 1], ys);
      RowNoZeros(xs[|xs| - 1], ys);
      CountIfConcat(Differences(xs[..|xs| - 1], ys), Row(xs[|xs| - 1], ys), Zero);
    }
  }

  lemma {:induction false} RowNoZeros(x: Time, ys: seq<Time>)
    requires x !in ys
    ensures CountIf(Row(x, ys), Zero) == 0
  {
    if ys != [] {
      var rest, y := ys[..|ys| - 1], ys[|ys| - 1];
      RowNoZeros(x, rest);
      DifferenceSign(x, y);
      CountIfConcat(Row(x, rest), [Difference(x, y)], Zero);
      CountIfOne(Difference(x, y), Zero);
    }
  }

  lemma {:induction false} NotNegativeIsRest(s: seq<Time>)
    ensures CountIf(s, NotNegative) == CountIf(s, Positive) + CountIf(s, Zero)
    ensures CountIf(s, NotPositive) == CountIf(s, Negative) + CountIf(s, Zero)
    ensures |s| == CountIf(s, Positive) + CountIf(s, Zero) + CountIf(s, Negative)
  {
    if s != [] { NotNegativeIsRest(s[..|s| - 1]); }
  }

  // ---- the distribution at a half-integer ----

  /** How many indices `0 ... size - 1` are at most `h / 2`. */
  function Within(h: int, size: nat): nat {
    if h < 0 then 0 else if h / 2 + 1 <= size then h / 2 + 1 else size
  }

  lemma {:induction false} SumUpToHalf(counts: seq<nat>, u: real, h: int)
    requires u == h as real / 2.0
    ensures SumUpTo(counts, u) == Prefix(counts, Within(h, |counts|))
  {
    if counts != [] {
      var k := |counts| - 1;
      SumUpToHalf(counts[..k], u, h);
      HalfStep(k, h, u);
      PrefixOfPrefix(counts, k, Within(h, k));
    }
  }

  lemma HalfStep(k: nat, h: int, u: real)
    requires u == h as real / 2.0
    ensures k as real <= u + U_TOLERANCE <==> 2 * k <= h
  {
    assert 2.0 * k as real == (2 * k) as real;
  }

  lemma {:induction false} PrefixOfPrefix(counts: seq<nat>, k: nat, j: nat)
    requires j <= k <= |counts|
    ensures Prefix(counts[..k], j) == Prefix(counts, j)
  {
    if j > 0 { PrefixOfPrefix(counts, k, j - 1); }
  }

  /** Twice the statistic. */
  function HalfWins(xs: seq<Time>, ys: seq<Time>): int {
    2 * CountIf(Differences(xs, ys), Positive) + CountIf(Differences(xs, ys), Zero)
  }

  lemma StatisticIsHalf(xs: seq<Time>, ys: seq<Time>)
    ensures UStatistic(xs, ys) == HalfWins(xs, ys) as real / 2.0
    ensures 0 <= HalfWins(xs, ys) <= 2 * (|xs| * |ys|)
  {
    StatisticCountsSigns(xs, ys);
    NotNegativeIsRest(Differences(xs, ys));
  }

  lemma PFasterIsShare(xs: seq<Time>, ys: seq<Time>, counts: seq<nat>)
    requires counts == UCounts(|xs|, |ys|)
    ensures 0 <= HalfWins(xs, ys) / 2 < |counts|
    ensures PFaster(xs, ys) == Share(counts, HalfWins(xs, ys) / 2 + 1)
  {
    StatisticIsHalf(xs, ys);
    SumUpToHalf(counts, UStatistic(xs, ys), HalfWins(xs, ys));
  }

  // ---- the range and the test agree ----

  /** p(faster) is within a limit exactly when no more than the critical rank of pairs were won,
      ties counting half. */
  lemma TestAgainstCritical(xs: seq<Time>, ys: seq<Time>, limit: real)
    ensures PFaster(xs, ys).total == Prefix(UCounts(|xs|, |ys|), |xs| * |ys| + 1) > 0
    ensures PFaster(xs, ys).AtMost(limit)
       <==> HalfWins(xs, ys) / 2 <= Critical(UCounts(|xs|, |ys|), limit)
  {
    UCountsTotal(|xs|, |ys|);
    var counts := UCounts(|xs|, |ys|);
    PFasterIsShare(xs, ys, counts);
    CriticalMeets(counts, limit, 0, HalfWins(xs, ys) / 2);
  }

  lemma RangeAgainstCritical(xs: seq<Time>, ys: seq<Time>, level: real)
    requires Shift(xs, ys, level).Range?
    ensures Prefix(UCounts(|xs|, |ys|), |xs| * |ys| + 1) > 0
    ensures Negative(Shift(xs, ys, level).high)
       <==> CountIf(Differences(xs, ys), Positive) + CountIf(Differences(xs, ys), Zero)
              <= Critical(UCounts(|xs|, |ys|), Limit(level))
  {
    UCountsTotal(|xs|, |ys|);
    var diffs, c := Differences(xs, ys), Critical(UCounts(|xs|, |ys|), Limit(level));
    var sorted := Sorted(diffs);
    RangeParts(sorted, c);
    assert CountIf(diffs, NotNegative) == CountIf(diffs, Positive) + CountIf(diffs, Zero) by {
      NotNegativeIsRest(diffs);
    }
    HighAgainstRank(diffs, sorted, c);
  }

  /** A range that ends below zero ("faster") has p(faster) within the tail used, whatever the
      data; with no run of one build tied with a run of the other, the two say the same. */
  lemma FasterAgreesWithTest(xs: seq<Time>, ys: seq<Time>, level: real)
    requires Shift(xs, ys, level).Range?
    ensures PFaster(xs, ys).total > 0
    ensures Negative(Shift(xs, ys, level).high) ==> PFaster(xs, ys).AtMost(Limit(level))
    ensures NoTies(xs, ys) ==>
              (Negative(Shift(xs, ys, level).high) <==> PFaster(xs, ys).AtMost(Limit(level)))
  {
    TestAgainstCritical(xs, ys, Limit(level));
    RangeAgainstCritical(xs, ys, level);
    if NoTies(xs, ys) { NoTiesNoZeros(xs, ys); }
  }

  /** Too few runs for a critical rank: neither the verdict nor the test can say "faster". */
  lemma NoCriticalRankNoVerdict(xs: seq<Time>, ys: seq<Time>, level: real)
    requires Shift(xs, ys, level).Range?
    ensures PFaster(xs, ys).total == Prefix(UCounts(|xs|, |ys|), |xs| * |ys| + 1) > 0
    ensures Critical(UCounts(|xs|, |ys|), Limit(level)) < 0 ==>
              !Negative(Shift(xs, ys, level).high) && !PFaster(xs, ys).AtMost(Limit(level))
  {
    TestAgainstCritical(xs, ys, Limit(level));
    RangeAgainstCritical(xs, ys, level);
  }

  // ---- exchanging the builds ----

  lemma {:induction false} WinsExchange(xs: seq<Time>, ys: seq<Time>)
    ensures UStatistic(xs, ys) + UStatistic(ys, xs) == (|xs| * |ys|) as real
  {
    if xs == [] {
      NoWinsOverNone(ys);
    } else {
      var rest, x := xs[..|xs| - 1], xs[|xs| - 1];
      WinsExchange(rest, ys);
      WinsOverOneMore(ys, rest, x);
      assert rest + [x] == xs;
      RowExchange(x, ys);
      assert |xs| * |ys| == |rest| * |ys| + |ys|;
    }
  }

  lemma {:induction false} NoWinsOverNone(ys: seq<Time>)
    ensures UStatistic(ys, []) == 0.0
  {
    if ys != [] { NoWinsOverNone(ys[..|ys| - 1]); }
  }

  /** The wins of all `ys` over one x. */
  function UColumn(ys: seq<Time>, x: Time): real {
    if ys == [] then 0.0 else UColumn(ys[..|ys| - 1], x) + Win(ys[|ys| - 1], x)
  }

  lemma {:induction false} WinsOverOneMore(ys: seq<Time>, xs: seq<Time>, x: Time)
    ensures UStatistic(ys, xs + [x]) == UStatistic(ys, xs) + UColumn(ys, x)
  {
    if ys != [] {
      WinsOverOneMore(ys[..|ys| - 1], xs, x);
      assert (xs + [x])[..|xs|] == xs;
    }
  }

  lemma {:induction false} RowExchange(x: Time, ys: seq<Time>)
    ensures URow(x, ys) + UColumn(ys, x) == |ys| as real
  {
    if ys != [] { RowExchange(x, ys[..|ys| - 1]); }
  }

  /** Swapping the two builds exchanges p(faster) and p(slower) exactly, ties included. */
  lemma BuildsExchangePValues(xs: seq<Time>, ys: seq<Time>)
    ensures PSlower(xs, ys) == PFaster(ys, xs)
  {
    var counts, mirror := UCounts(|xs|, |ys|), UCounts(|ys|, |xs|);
    UCountsMirrored(|xs|, |ys|);
    HalfWinsExchange(xs, ys);
    StatisticIsHalf(xs, ys);
    PFasterIsShare(ys, xs, mirror);
    PSlowerIsShare(xs, ys, counts);
    ExchangedShares(counts, mirror, HalfWins(xs, ys), HalfWins(ys, xs));
  }

  lemma ExchangedShares(counts: seq<nat>, mirror: seq<nat>, h: int, k: int)
    requires Mirrored(counts, mirror)
    requires 0 <= h && 0 <= k && h + k == 2 * (|counts| - 1)
    ensures Share(counts, Within(h - 1, |counts|)).favourable <= Prefix(counts, |counts|)
    ensures Share(counts, Within(h - 1, |counts|)).Complement() == Share(mirror, k / 2 + 1)
  {
    var j, n := Within(h - 1, |counts|), |counts|;
    assert n - j == k / 2 + 1;
    MirroredPrefix(counts, mirror, n - j);
    MirroredPrefix(counts, mirror, n);
  }

  lemma HalfWinsExchange(xs: seq<Time>, ys: seq<Time>)
    ensures HalfWins(ys, xs) == 2 * (|xs| * |ys|) - HalfWins(xs, ys)
  {
    StatisticIsHalf(xs, ys);
    StatisticIsHalf(ys, xs);
    WinsExchange(xs, ys);
  }

  lemma PSlowerIsShare(xs: seq<Time>, ys: seq<Time>, counts: seq<nat>)
    requires counts == UCounts(|xs|, |ys|)
    ensures Share(counts, Within(HalfWins(xs, ys) - 1, |counts|)).favourable <= Prefix(counts, |counts|)
    ensures PSlower(xs, ys) == Share(counts, Within(HalfWins(xs, ys) - 1, |counts|)).Complement()
  {
    StatisticIsHalf(xs, ys);
    PrefixMonotone(counts, Within(HalfWins(xs, ys) - 1, |counts|), |counts|);
    SumUpToHalf(counts, UStatistic(xs, ys) - 0.5, HalfWins(xs, ys) - 1);
  }

  // ---- the estimate ----

  /** Runs as `log_time` gives them: a real or a lost transfer. */
  predicate AreRuns(xs: seq<Time>) {
    NegInf !in xs
  }

  /** For every level whose tail and tolerance stay below one half, the estimate is a number and
      lies in the range. */
  lemma EstimateInRange(xs: seq<Time>, ys: seq<Time>, level: real)
    requires xs != [] && ys != [] && AreRuns(xs) && AreRuns(ys) && Limit(level) < 0.5
    ensures var r := Shift(xs, ys, level);
            && r.Range? && r.estimate.Some?
            && Leq(r.low, r.estimate.value) && Leq(r.estimate.value, r.high)
  {
    var m, n, diffs := |xs|, |ys|, Differences(xs, ys);
    UCountsTotal(m, n);
    UCountsMirrored(m, n);
    assert m * n > 0;
    if NegInf in diffs && PosInf in diffs {
      var i, j := PairOf(xs, ys, NegInf);
      var k, l := PairOf(xs, ys, PosInf);
      assert ys[j] == PosInf && xs[k] == PosInf;
      DifferenceIsListed(xs, ys, k, j);
    }
    RangeIsOrdered(diffs, UCounts(m, n), Limit(level));
  }

  lemma {:induction false} PairOf(xs: seq<Time>, ys: seq<Time>, d: Time) returns (i: nat, j: nat)
    requires d in Differences(xs, ys)
    ensures i < |xs| && j < |ys| && Difference(xs[i], ys[j]) == d
  {
    var rest, x := xs[..|xs| - 1], xs[|xs| - 1];
    if d in Differences(rest, ys) {
      i, j := PairOf(rest, ys, d);
    } else {
      i := |xs| - 1;
      j := PairInRow(x, ys, d);
    }
  }

  lemma {:induction false} PairInRow(x: Time, ys: seq<Time>, d: Time) returns (j: nat)
    requires d in Row(x, ys)
    ensures j < |ys| && Difference(x, ys[j]) == d
  {
    if d in Row(x, ys[..|ys| - 1]) {
      j := PairInRow(x, ys[..|ys| - 1], d);
    } else {
      j := |ys| - 1;
    }
  }

  lemma {:induction false} DifferenceIsListed(xs: seq<Time>, ys: seq<Time>, i: nat, j: nat)
    requires i < |xs| && j < |ys|
    ensures Difference(xs[i], ys[j]) in Differences(xs, ys)
  {
    if i < |xs| - 1 {
      DifferenceIsListed(xs[..|xs| - 1], ys, i, j);
    } else {
      DifferenceInRow(xs[i], ys, j);
    }
  }

  lemma {:induction false} DifferenceInRow(x: Time, ys: seq<Time>, j: nat)
    requires j < |ys|
    ensures Difference(x, ys[j]) in Row(x, ys)
  {
    if j < |ys| - 1 { DifferenceInRow(x, ys[..|ys| - 1], j); }
  }
}
