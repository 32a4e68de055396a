/**
 The exact null distributions of tools/oracle_report.py: how many orderings of two samples
 give each Mann-Whitney U, and how many sign patterns give each Wilcoxon signed-rank sum.
 */
module RankCounts {

  // ---- Mann-Whitney ----

  /** Orderings of `m` x's and `n` y's with `u` pairs in which the x is larger, by which sample
      holds the largest value. */
  function UCount(m: nat, n: nat, u: int): nat {
    if u < 0 then 0
    else if m == 0 || n == 0 then if u == 0 then 1 else 0
    else UCount(m - 1, n, u - n) + UCount(m, n - 1, u)
  }

  lemma {:induction false} UCountPastTop(m: nat, n: nat, u: int)
    requires u > m * n
    ensures UCount(m, n, u) == 0
  {
    if m > 0 && n > 0 {
      UCountPastTop(m - 1, n, u - n);
      UCountPastTop(m, n - 1, u);
    }
  }

  /** The distribution as the source lays it out, U = 0 ... m * n. */
  function UCounts(m: nat, n: nat): (counts: seq<nat>)
    ensures |counts| == m * n + 1
    ensures forall u | 0 <= u <= m * n :: counts[u] == UCount(m, n, u)
  {
    seq(m * n + 1, u requires 0 <= u <= m * n => UCount(m, n, u))
  }

  /** The source's recursion over arrays. */
  method ComputeUCounts(m: nat, n: nat) returns (counts: seq<nat>)
    ensures counts == UCounts(m, n)
    decreases m, n
  {
    if m == 0 || n == 0 {
      return [1];
    }
    var withM := ComputeUCounts(m - 1, n);
    var withN := ComputeUCounts(m, n - 1);
    var out := AddCounts(m * n + 1, withM, n, withN);
    forall k | 0 <= k <= m * n ensures out[k] == UCount(m, n, k) {
      if k >= |withN| { UCountPastTop(m, n - 1, k); }
    }
    counts := out;
  }

  /** Two count arrays added into one of `size`, the first moved up by `shift`. */
  method AddCounts(size: nat, moved: seq<nat>, shift: nat, fixed: seq<nat>) returns (sum: seq<nat>)
    requires shift + |moved| <= size && |fixed| <= size
    ensures |sum| == size
    ensures forall k | 0 <= k < size :: sum[k] == At(moved, k - shift) + At(fixed, k)
  {
    var out := new nat[size](_ => 0);
    for u := 0 to |moved|
      invariant forall k | 0 <= k < size :: out[k] == if k - shift < u then At(moved, k - shift) else 0
    {
      out[u + shift] := out[u + shift] + moved[u];
    }
    for u := 0 to |fixed|
      invariant forall k | 0 <= k < size ::
                  out[k] == At(moved, k - shift) + if k < u then At(fixed, k) else 0
    {
      out[u] := out[u] + fixed[u];
    }
    sum := out[..];
  }

  function At(counts: seq<nat>, i: int): nat {
    if 0 <= i < |counts| then counts[i] else 0
  }

  /** Exchanging the samples turns U into m * n - U. */
  lemma {:induction false} UCountExchanged(m: nat, n: nat, u: int)
    ensures UCount(m, n, u) == UCount(n, m, m * n - u)
  {
    if u < 0 {
      UCountPastTop(n, m, m * n - u);
    } else if m > 0 && n > 0 {
      if u > m * n {
        UCountPastTop(m, n, u);
      } else {
        UCountExchanged(m - 1, n, u - n);
        UCountExchanged(m, n - 1, u);
        assert (m - 1) * n - (u - n) == m * n - u;
        assert m * (n - 1) - u == m * n - u - m;
      }
    }
  }

  /** The second recursion, by which sample holds the smallest value. */
  lemma {:induction false} UCountBySmallest(m: nat, n: nat, u: int)
    requires m > 0 && n > 0
    ensures UCount(m, n, u) == UCount(m - 1, n, u) + UCount(m, n - 1, u - m)
  {
    if u >= 0 {
      if m > 1 { UCountBySmallest(m - 1, n, u - n); }
      if n > 1 { UCountBySmallest(m, n - 1, u); }
    }
  }

  /** The distribution does not depend on which sample is called x ... */
  lemma {:induction false} UCountSwapped(m: nat, n: nat, u: int)
    ensures UCount(m, n, u) == UCount(n, m, u)
  {
    if m > 0 && n > 0 && u >= 0 {
      UCountSwapped(m - 1, n, u - n);
      UCountSwapped(m, n - 1, u);
      UCountBySmallest(n, m, u);
    }
  }

  /** ... and is symmetric. */
  lemma UCountSymmetric(m: nat, n: nat, u: int)
    ensures UCount(m, n, u) == UCount(m, n, m * n - u)
  {
    UCountExchanged(m, n, u);
    UCountSwapped(n, m, m * n - u);
  }

  // ---- sums of counts ----

  /** The sum of the first `j` counts. */
  function Prefix(counts: seq<nat>, j: nat): nat
    requires j <= |counts|
  {
    if j == 0 then 0 else Prefix(counts, j - 1) + counts[j - 1]
  }

  lemma {:induction false} PrefixMonotone(counts: seq<nat>, i: nat, j: nat)
    requires i <= j <= |counts|
    ensures Prefix(counts, i) <= Prefix(counts, j)
  {
    if i < j { PrefixMonotone(counts, i, j - 1); }
  }

  ghost predicate Mirrored(counts: seq<nat>, mirror: seq<nat>) {
    && |counts| == |mirror|
    && forall k | 0 <= k < |counts| :: counts[k] == mirror[|counts| - 1 - k]
  }

  /** A prefix and the mirror's complementary prefix make up the whole. */
  lemma {:induction false} MirroredPrefix(counts: seq<nat>, mirror: seq<nat>, j: nat)
    requires Mirrored(counts, mirror) && j <= |counts|
    ensures Prefix(mirror, j) + Prefix(counts, |counts| - j) == Prefix(counts, |counts|)
  {
    if j > 0 {
      MirroredPrefix(counts, mirror, j - 1);
      assert Prefix(counts, |counts| - (j - 1))
          == Prefix(counts, |counts| - j) + counts[|counts| - j];
    }
  }

  function Binomial(a: nat, b: nat): nat {
    if b == 0 then 1 else if a == 0 then 0 else Binomial(a - 1, b - 1) + Binomial(a - 1, b)
  }

  lemma {:induction false} BinomialPastTop(a: nat, b: nat)
    requires a < b
    ensures Binomial(a, b) == 0
  {
    if a > 0 {
      BinomialPastTop(a - 1, b - 1);
      BinomialPastTop(a - 1, b);
    }
  }

  lemma {:induction false} BinomialAll(a: nat)
    ensures Binomial(a, a) == 1
  {
    if a > 0 {
      BinomialAll(a - 1);
      BinomialPastTop(a - 1, a);
    }
  }

  /** The orderings with U below `j`. */
  function UBelow(m: nat, n: nat, j: int): nat {
    if j <= 0 then 0 else UBelow(m, n, j - 1) + UCount(m, n, j - 1)
  }

  lemma {:induction false} UBelowSplits(m: nat, n: nat, j: int)
    requires m > 0 && n > 0
    ensures UBelow(m, n, j) == UBelow(m - 1, n, j - n) + UBelow(m, n - 1, j)
  {
    if j > 0 {
      UBelowSplits(m, n, j - 1);
      assert UBelow(m - 1, n, j - n) == UBelow(m - 1, n, j - n - 1) + UCount(m - 1, n, j - n - 1);
    }
  }

  lemma {:induction false} UBelowAll(m: nat, n: nat, j: int)
    requires j > m * n
    ensures UBelow(m, n, j) == Binomial(m + n, m)
    decreases m + n
  {
    if m == 0 || n == 0 {
      UBelowTrivial(m, n, j);
      BinomialAll(m);
    } else {
      UBelowSplits(m, n, j);
      UBelowAll(m - 1, n, j - n);
      UBelowAll(m, n - 1, j);
    }
  }

  lemma {:induction false} UBelowTrivial(m: nat, n: nat, j: int)
    requires (m == 0 || n == 0) && j > 0
    ensures UBelow(m, n, j) == 1
  {
    if j > 1 { UBelowTrivial(m, n, j - 1); }
  }

  lemma {:induction false} PrefixIsUBelow(m: nat, n: nat, j: nat)
    requires j <= m * n + 1
    ensures Prefix(UCounts(m, n), j) == UBelow(m, n, j)
  {
    if j > 0 { PrefixIsUBelow(m, n, j - 1); }
  }

  /** All orderings are counted: the total is the binomial coefficient. */
  lemma UCountsTotal(m: nat, n: nat)
    ensures Prefix(UCounts(m, n), m * n + 1) == Binomial(m + n, m) > 0
  {
    PrefixIsUBelow(m, n, m * n + 1);
    UBelowAll(m, n, m * n + 1);
    BinomialPositive(m + n, m);
  }

  lemma {:induction false} BinomialPositive(a: nat, b: nat)
    requires b <= a
    ensures Binomial(a, b) > 0
  {
    if b > 0 { BinomialPositive(a - 1, b - 1); }
  }

  lemma UCountsMirrored(m: nat, n: nat)
    ensures m * n == n * m
    ensures Mirrored(UCounts(m, n), UCounts(n, m))
    ensures Mirrored(UCounts(m, n), UCounts(m, n))
  {
    forall u: nat | u <= m * n
      ensures UCount(m, n, u) == UCount(n, m, m * n - u)
      ensures UCount(m, n, u) == UCount(m, n, m * n - u)
    {
      UCountExchanged(m, n, u);
      UCountSymmetric(m, n, u);
    }
  }

  // ---- Wilcoxon ----

  /** Sign patterns of `n` ranks whose positive ranks sum to `t`. */
  function RankCount(n: nat, t: int): nat {
    if n == 0 then if t == 0 then 1 else 0
    else RankCount(n - 1, t) + RankCount(n - 1, t - n)
  }

  function Triangle(n: nat): nat {
    if n == 0 then 0 else Triangle(n - 1) + n
  }

  lemma {:induction false} TriangleClosedForm(n: nat)
    ensures 2 * Triangle(n) == n * (n + 1)
  {
    if n > 0 { TriangleClosedForm(n - 1); }
  }

  lemma {:induction false} RankCountOutside(n: nat, t: int)
    requires t < 0 || t > Triangle(n)
    ensures RankCount(n, t) == 0
  {
    if n > 0 {
      RankCountOutside(n - 1, t);
      RankCountOutside(n - 1, t - n);
    }
  }

  function SignedRankCounts(n: nat): (counts: seq<nat>)
    ensures |counts| == Triangle(n) + 1
    ensures forall t | 0 <= t <= Triangle(n) :: counts[t] == RankCount(n, t)
  {
    seq(Triangle(n) + 1, t requires 0 <= t <= Triangle(n) => RankCount(n, t))
  }

  /** The source's loop, one rank at a time. */
  method ComputeSignedRankCounts(n: nat) returns (counts: seq<nat>)
    ensures counts == SignedRankCounts(n)
  {
    counts := [1];
    for k := 1 to n + 1
      invariant counts == SignedRankCounts(k - 1)
    {
      counts := AddRank(counts, k);
    }
  }

  method AddRank(counts: seq<nat>, k: nat) returns (longer: seq<nat>)
    requires k > 0 && counts == SignedRankCounts(k - 1)
    ensures longer == SignedRankCounts(k)
  {
    var out := new nat[|counts| + k](_ => 0);
    for t := 0 to |counts|
      invariant forall i | 0 <= i < out.Length ::
                  out[i] == (if i < t then At(counts, i) else 0)
                            + if i - k < t then At(counts, i - k) else 0
    {
      out[t] := out[t] + counts[t];
      out[t + k] := out[t + k] + counts[t];
    }
    forall i | 0 <= i < out.Length ensures out[i] == RankCount(k, i) {
      AtIsRankCount(k - 1, i);
      AtIsRankCount(k - 1, i - k);
    }
    longer := out[..];
  }

  lemma AtIsRankCount(n: nat, i: int)
    ensures At(SignedRankCounts(n), i) == RankCount(n, i)
  {
    if !(0 <= i <= Triangle(n)) { RankCountOutside(n, i); }
  }

  /** Reversing every sign turns the sum into its complement. */
  lemma {:induction false} RankCountSymmetric(n: nat, t: int)
    ensures RankCount(n, t) == RankCount(n, Triangle(n) - t)
  {
    if n > 0 {
      RankCountSymmetric(n - 1, t);
      RankCountSymmetric(n - 1, t - n);
    }
  }

  lemma SignedRankCountsMirrored(n: nat)
    ensures Mirrored(SignedRankCounts(n), SignedRankCounts(n))
  {
    forall t | 0 <= t <= Triangle(n) ensures RankCount(n, t) == RankCount(n, Triangle(n) - t) {
      RankCountSymmetric(n, t);
    }
  }

  function RanksBelow(n: nat, j: int): nat
    decreases if j < 0 then 0 else j
  {
    if j <= 0 then 0 else RanksBelow(n, j - 1) + RankCount(n, j - 1)
  }

  lemma {:induction false} RanksBelowSplits(n: nat, j: int)
    requires n > 0
    ensures RanksBelow(n, j) == RanksBelow(n - 1, j) + RanksBelow(n - 1, j - n)
    decreases if j < 0 then 0 else j
  {
    if j > 0 {
      RanksBelowSplits(n, j - 1);
      if j - 1 - n < 0 { RankCountOutside(n - 1, j - 1 - n); }
    }
  }

  function TwoTo(n: nat): nat {
    if n == 0 then 1 else 2 * TwoTo(n - 1)
  }

  lemma {:induction false} RanksBelowAll(n: nat, j: int)
    requires j > Triangle(n)
    ensures RanksBelow(n, j) == TwoTo(n)
    decreases n, j
  {
    if n > 0 {
      RanksBelowSplits(n, j);
      RanksBelowAll(n - 1, j);
      RanksBelowAll(n - 1, j - n);
    } else if j > 1 {
      RanksBelowAll(0, j - 1);
    }
  }

  lemma {:induction false} PrefixIsRanksBelow(n: nat, j: nat)
    requires j <= Triangle(n) + 1
    ensures Prefix(SignedRankCounts(n), j) == RanksBelow(n, j)
  {
    if j > 0 { PrefixIsRanksBelow(n, j - 1); }
  }

  /** All sign patterns are counted. */
  lemma {:induction false} SignedRankCountsTotal(n: nat)
    ensures Prefix(SignedRankCounts(n), Triangle(n) + 1) == TwoTo(n) > 0
  {
    PrefixIsRanksBelow(n, Triangle(n) + 1);
    RanksBelowAll(n, Triangle(n) + 1);
    TwoToPositive(n);
  }

  lemma {:induction false} TwoToPositive(n: nat)
    ensures TwoTo(n) > 0
  {
    if n > 0 { TwoToPositive(n - 1); }
  }
}
