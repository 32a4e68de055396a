/**
 What tools/oracle_report.py says of a comparison: the verdict read off the upper end of the
 range, with the exponential and the logarithm as given increasing functions.
 */
module Verdicts {
  import opened Times
  import opened RankCounts
  import opened RankRanges
  import opened MannWhitney
  import opened SignedRank

  datatype Verdict = Faster | NotSlower | MayBeSlower

  /** Whether `exp(t)` is below one, the exponential of minus infinity being zero. */
  predicate ExpBelowOne(exp: real -> real, t: Time) {
    match t
    case NegInf => true
    case Fin(v) => exp(v) < 1.0
    case PosInf => false
  }

  predicate ExpAtMost(exp: real -> real, t: Time, bound: real) {
    match t
    case NegInf => 0.0 <= bound
    case Fin(v) => exp(v) <= bound
    case PosInf => false
  }

  function Judge(exp: real -> real, high: Time, margin: real): Verdict {
    if ExpBelowOne(exp, high) then Faster
    else if ExpAtMost(exp, high, 1.0 + margin) then NotSlower
    else MayBeSlower
  }

  /** A run's log time per bit; a lost transfer is infinitely long. */
  function LogTime(log: real -> real, rate: real): (t: Time)
    ensures t.PosInf? <==> rate <= 0.0
    ensures !t.NegInf?
  {
    if rate > 0.0 then Fin(-log(rate)) else PosInf
  }

  /** A run is the longer for a lower rate, all lost transfers being as long. */
  lemma LowerRateTakesLonger(log: real -> real, a: real, b: real)
    requires forall x, y | 0.0 < x < y :: log(x) < log(y)
    ensures Positive(Difference(LogTime(log, a), LogTime(log, b))) <==> a < b && b > 0.0
  {
    if 0.0 < a < b { assert log(a) < log(b); }
    if 0.0 < b < a { assert log(b) < log(a); }
  }

  /** The logarithm of a product is the sum of the two. */
  ghost predicate Sums(log: real -> real, x: real, y: real) {
    log(x * y) == log(x) + log(y)
  }

  ghost predicate IsLogarithm(log: real -> real) {
    log(1.0) == 0.0 && forall x, y {:trigger Sums(log, x, y)} | 0.0 < x && 0.0 < y :: Sums(log, x, y)
  }

  /** The times of two runs differ by the logarithm of the ratio between them, which is the other's rate
      to the one's. And a run at one bit a second takes one second a bit. */
  lemma TimesDifferByTheirRatio(log: real -> real, a: real, b: real, ratio: real)
    requires IsLogarithm(log) && a > 0.0 && ratio > 0.0 && a * ratio == b
    ensures Difference(LogTime(log, a), LogTime(log, b)) == Fin(log(ratio))
    ensures LogTime(log, 1.0) == Fin(0.0)
  {
    ProductIsPositive(a, ratio);
    assert Sums(log, a, ratio);
  }

  lemma ProductIsPositive(a: real, b: real)
    requires a > 0.0 && b > 0.0
    ensures a * b > 0.0
  {
  }

  ghost predicate Increasing(f: real -> real) {
    forall a, b | a < b :: f(a) < f(b)
  }

  /** "Faster" is exactly a range that ends below zero. */
  lemma FasterIsBelowZero(exp: real -> real, high: Time, margin: real)
    requires Increasing(exp) && exp(0.0) == 1.0
    ensures Judge(exp, high, margin) == Faster <==> Negative(high)
  {
    if high.Fin? && high.v > 0.0 {
      assert exp(0.0) < exp(high.v);
    }
  }

  /** Short of that, "not slower" is exactly a range that ends within the margin, where the exponential
      is one and the margin; and anything beyond may be slower. */
  lemma NotSlowerIsWithinMargin(exp: real -> real, high: Time, margin: real, bound: real)
    requires Increasing(exp) && exp(0.0) == 1.0 && exp(bound) == 1.0 + margin
    ensures Judge(exp, high, margin) == NotSlower <==> !Negative(high) && Leq(high, Fin(bound))
    ensures Judge(exp, high, margin) == MayBeSlower <==> !Negative(high) && Less(Fin(bound), high)
  {
    if high.Fin? {
      assert high.v < bound ==> exp(high.v) < exp(bound);
      assert high.v > bound ==> exp(high.v) > exp(bound);
      assert high.v > 0.0 ==> exp(0.0) < exp(high.v);
      assert high.v < 0.0 ==> exp(high.v) < exp(0.0);
    }
  }

  /** The unpaired verdict "faster" is backed by the printed p-value at any data, and is given
      whenever that p-value is within the tail if no two runs tie. */
  lemma UnpairedVerdict(exp: real -> real, xs: seq<Time>, ys: seq<Time>, level: real, margin: real)
    requires Increasing(exp) && exp(0.0) == 1.0 && Shift(xs, ys, level).Range?
    ensures PFaster(xs, ys).total > 0
    ensures Judge(exp, Shift(xs, ys, level).high, margin) == Faster ==>
              PFaster(xs, ys).Value() <= (1.0 - level) / 2.0 + 0.000_000_000_001
    ensures NoTies(xs, ys) && PFaster(xs, ys).Value() <= (1.0 - level) / 2.0 + 0.000_000_000_001 ==>
              Judge(exp, Shift(xs, ys, level).high, margin) == Faster
  {
    FasterAgreesWithTest(xs, ys, level);
    FasterIsBelowZero(exp, Shift(xs, ys, level).high, margin);
  }

  /** The paired verdict "faster", without ties, is the signed-rank test. */
  lemma PairedVerdict(exp: real -> real, diffs: seq<Time>, level: real, margin: real)
    requires Increasing(exp) && exp(0.0) == 1.0 && Untied(diffs) && PairedShift(diffs, level).Range?
    ensures SignedRankSum(diffs) <= Triangle(|diffs|)
    ensures LowerTail(|diffs|, SignedRankSum(diffs)).total > 0
    ensures Judge(exp, PairedShift(diffs, level).high, margin) == Faster
       <==> LowerTail(|diffs|, SignedRankSum(diffs)).Value() <= (1.0 - level) / 2.0 + 0.000_000_000_001
  {
    PairedRangeAgreesWithTest(diffs, level);
    FasterIsBelowZero(exp, PairedShift(diffs, level).high, margin);
  }
}
