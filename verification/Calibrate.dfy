/**
 The nested bisection of tools/calibrate_fading.py, over an abstract frame error rate and exact
 reals: where an ensemble loses one frame in ten, and the beta that puts it at a target.
 */
module Calibrate {

  const ONE_IN_TEN := 0.10
  const BELOW := 10.0
  const ABOVE := 45.0
  const LEAST_BETA := -3.0   // log10 of the beta searched
  const MOST_BETA := 3.0
  const CROSSING_STEPS := 40
  const BETA_STEPS := 30

  datatype Bracket = Bracket(lo: real, hi: real)

  function Middle(b: Bracket): real {
    0.5 * (b.lo + b.hi)
  }

  /** `n` halvings of a bracket, keeping `above` on its left end's side. */
  function Bisected(above: real -> bool, b: Bracket, n: nat): Bracket
    decreases n
  {
    if n == 0 then b
    else if above(Middle(b)) then Bisected(above, Bracket(Middle(b), b.hi), n - 1)
    else Bisected(above, Bracket(b.lo, Middle(b)), n - 1)
  }

  /** Where frame errors are above one in ten. */
  function Fails(fer: real -> real): real -> bool {
    x => fer(x) > ONE_IN_TEN
  }

  function Searched(awgn: real): Bracket {
    Bracket(awgn - BELOW, awgn + ABOVE)
  }

  /** What `steps` halvings of the searched bracket leave, its middle; the source takes 40. */
  function CrossingOf(fer: real -> real, awgn: real, steps: nat): real {
    Middle(Bisected(Fails(fer), Searched(awgn), steps))
  }

  method Crossing(fer: real -> real, awgn: real, steps: nat) returns (snr: real)
    ensures snr == CrossingOf(fer, awgn, steps)
    ensures awgn - BELOW <= snr <= awgn + ABOVE
  {
    CrossingIsSearched(fer, awgn, steps);
    var lo, hi := awgn - BELOW, awgn + ABOVE;
    for i := 0 to steps
      invariant Bisected(Fails(fer), Bracket(lo, hi), steps - i)
             == Bisected(Fails(fer), Searched(awgn), steps)
    {
      var mid := Middle(Bracket(lo, hi));
      if fer(mid) > ONE_IN_TEN {
        lo := mid;
      } else {
        hi := mid;
      }
    }
    snr := Middle(Bracket(lo, hi));
  }

  lemma CrossingIsSearched(fer: real -> real, awgn: real, steps: nat)
    ensures awgn - BELOW <= CrossingOf(fer, awgn, steps) <= awgn + ABOVE
  {
    BisectedKeeps(Fails(fer), Searched(awgn), steps);
    MiddleSplits(Bisected(Fails(fer), Searched(awgn), steps));
  }

  // ---- what halving keeps ----

  function TwoTo(n: nat): real {
    if n == 0 then 1.0 else 2.0 * TwoTo(n - 1)
  }

  lemma MiddleSplits(b: Bracket)
    ensures Middle(b) - b.lo == b.hi - Middle(b)
    ensures 2.0 * (Middle(b) - b.lo) == b.hi - b.lo
  {
  }

  /** The bracket shrinks by two to the number of halvings, inside where it began, and keeps a
      sign change it has. */
  lemma {:induction false} BisectedKeeps(above: real -> bool, b: Bracket, n: nat)
    requires b.lo <= b.hi
    ensures var r := Bisected(above, b, n);
            && b.lo <= r.lo <= r.hi <= b.hi
            && (r.hi - r.lo) * TwoTo(n) == b.hi - b.lo
            && (above(b.lo) ==> above(r.lo))
            && (!above(b.hi) ==> !above(r.hi))
    decreases n
  {
    if n > 0 {
      MiddleSplits(b);
      var half := if above(Middle(b)) then Bracket(Middle(b), b.hi) else Bracket(b.lo, Middle(b));
      BisectedKeeps(above, half, n - 1);
      var r := Bisected(above, b, n);
      Doubled(r.hi - r.lo, TwoTo(n - 1), half.hi - half.lo);
    }
  }

  lemma Doubled(w: real, p: real, h: real)
    requires w * p == h
    ensures w * (2.0 * p) == 2.0 * h
  {
  }

  /** A threshold function that fails wherever a smaller one does is crossed no earlier. */
  lemma {:induction false} BisectedMonotone(p: real -> bool, q: real -> bool, b: Bracket, n: nat)
    requires b.lo <= b.hi && forall x :: p(x) ==> q(x)
    ensures Bisected(p, b, n).lo <= Bisected(q, b, n).lo
    ensures Bisected(p, b, n).hi <= Bisected(q, b, n).hi
    decreases n
  {
    if n > 0 {
      MiddleSplits(b);
      var m := Middle(b);
      var left, right := Bracket(b.lo, m), Bracket(m, b.hi);
      if p(m) == q(m) {
        BisectedMonotone(p, q, if p(m) then right else left, n - 1);
      } else {
        BisectedKeeps(p, left, n - 1);
        BisectedKeeps(q, right, n - 1);
      }
    }
  }

  lemma TwoTo40()
    ensures TwoTo(40) == 1_099_511_627_776.0
  {
    TwoTo30();
    TwoToAdds(30, 10);
  }

  lemma TwoTo30()
    ensures TwoTo(30) == 1_073_741_824.0
    ensures TwoTo(10) == 1024.0
  {
    TwoToAdds(10, 10);
    TwoToAdds(20, 10);
  }

  lemma {:induction false} TwoToAdds(a: nat, b: nat)
    ensures TwoTo(a + b) == TwoTo(a) * TwoTo(b)
  {
    if b > 0 { TwoToAdds(a, b - 1); }
  }

  // ---- the crossing ----

  ghost predicate NonIncreasing(f: real -> real) {
    forall x, y | x <= y :: f(y) <= f(x)
  }

  /** If the ensemble loses more than one in ten at the bottom of the search and no more at the
      top, the result is within 55 * 2^-41 dB of the crossing: 2^41 times any shortfall or
      excess of a true crossing is at most 55. */
  lemma CrossingIsClose(fer: real -> real, awgn: real, p: real)
    requires fer(awgn - BELOW) > ONE_IN_TEN >= fer(awgn + ABOVE)
    requires (forall x | x < p :: fer(x) > ONE_IN_TEN) && (forall x | x > p :: fer(x) <= ONE_IN_TEN)
    ensures -55.0 <= (CrossingOf(fer, awgn, CROSSING_STEPS) - p) * 2_199_023_255_552.0 <= 55.0
  {
    var r := Bisected(Fails(fer), Searched(awgn), CROSSING_STEPS);
    BisectedKeeps(Fails(fer), Searched(awgn), CROSSING_STEPS);
    TwoTo40();
    MiddleSplits(r);
    assert r.lo <= p <= r.hi;
  }

  /** The same without naming the crossing: for a non-increasing error rate, everything further
      below the result loses more than one in ten, and everything further above does not. */
  lemma CrossingSeparates(fer: real -> real, awgn: real, x: real)
    requires NonIncreasing(fer) && fer(awgn - BELOW) > ONE_IN_TEN >= fer(awgn + ABOVE)
    ensures (CrossingOf(fer, awgn, CROSSING_STEPS) - x) * 2_199_023_255_552.0 >= 55.0 ==> fer(x) > ONE_IN_TEN
    ensures (x - CrossingOf(fer, awgn, CROSSING_STEPS)) * 2_199_023_255_552.0 >= 55.0 ==> fer(x) <= ONE_IN_TEN
  {
    var r := Bisected(Fails(fer), Searched(awgn), CROSSING_STEPS);
    BisectedKeeps(Fails(fer), Searched(awgn), CROSSING_STEPS);
    TwoTo40();
    MiddleSplits(r);
  }

  /** A worse error rate crosses no earlier. */
  lemma CrossingMonotone(f: real -> real, g: real -> real, awgn: real, steps: nat)
    requires forall x :: f(x) <= g(x)
    ensures CrossingOf(f, awgn, steps) <= CrossingOf(g, awgn, steps)
  {
    BisectedMonotone(Fails(f), Fails(g), Searched(awgn), steps);
  }

  // ---- the calibration ----

  /** What a calibration is over: the error rate at an SNR and a beta, the power of ten, the
      AWGN threshold, and the halvings of either search (40 and 30 in the source). */
  datatype Ensemble = Ensemble(
    fer: (real, real) -> real, pow: real -> real, awgn: real, crossingSteps: nat, betaSteps: nat)

  /** The error rate at an exponent of beta. */
  function AtBeta(f: Ensemble, e: real): real -> real {
    x => f.fer(x, f.pow(e))
  }

  /** The crossing there. */
  function CrossingAt(f: Ensemble, e: real): real {
    CrossingOf(AtBeta(f, e), f.awgn, f.crossingSteps)
  }

  function TooHigh(f: Ensemble, target: real): real -> bool {
    e => CrossingAt(f, e) > target
  }

  /** A fit: the exponent of its beta, the crossing that gives, and whether it is clamped. */
  datatype Fit = Fit(exponent: real, crossing: real, clamped: bool)

  function Exponents(): Bracket {
    Bracket(LEAST_BETA, MOST_BETA)
  }

  function Calibrated(f: Ensemble, target: real): Fit {
    var atLo, atHi := CrossingAt(f, LEAST_BETA), CrossingAt(f, MOST_BETA);
    if target >= atLo then Fit(LEAST_BETA, atLo, true)
    else if target <= atHi then Fit(MOST_BETA, atHi, true)
    else
      var b := Bisected(TooHigh(f, target), Exponents(), f.betaSteps);
      Fit(Middle(b), CrossingAt(f, Middle(b)), false)
  }

  method CalibrateBeta(f: Ensemble, target: real) returns (fit: Fit)
    ensures fit == Calibrated(f, target)
  {
    var atLo := Crossing(AtBeta(f, LEAST_BETA), f.awgn, f.crossingSteps);
    var atHi := Crossing(AtBeta(f, MOST_BETA), f.awgn, f.crossingSteps);
    if target >= atLo {
      return Fit(LEAST_BETA, atLo, true);
    }
    if target <= atHi {
      return Fit(MOST_BETA, atHi, true);
    }
    var exponent := SearchBeta(f, target, Exponents());
    var at := Crossing(AtBeta(f, exponent), f.awgn, f.crossingSteps);
    fit := Fit(exponent, at, false);
  }

  /** The loop over the exponents between `lo` and `hi`. */
  method SearchBeta(f: Ensemble, target: real, b: Bracket) returns (exponent: real)
    ensures exponent == Middle(Bisected(TooHigh(f, target), b, f.betaSteps))
  {
    var r := b;
    ghost var above := TooHigh(f, target);
    for i := 0 to f.betaSteps
      invariant Bisected(above, r, f.betaSteps - i) == Bisected(above, b, f.betaSteps)
    {
      var mid := Middle(r);
      var at := Crossing(AtBeta(f, mid), f.awgn, f.crossingSteps);
      assert above(mid) <==> at > target;
      r := if at > target then Bracket(mid, r.hi) else Bracket(r.lo, mid);
    }
    exponent := Middle(r);
  }

  /** Whatever the target, the crossing of the fit is that of its own exponent, which the search covers;
      a target no crossing reaches is fitted at the end of the search on its side. */
  lemma FitIsItsOwn(f: Ensemble, target: real)
    ensures var fit := Calibrated(f, target);
            && fit.crossing == CrossingAt(f, fit.exponent) && -3.0 <= fit.exponent <= 3.0
            && (target >= CrossingAt(f, -3.0) ==> fit.exponent == -3.0)
            && (CrossingAt(f, -3.0) > target && target <= CrossingAt(f, 3.0) ==> fit.exponent == 3.0)
  {
    BisectedKeeps(TooHigh(f, target), Exponents(), f.betaSteps);
    MiddleSplits(Bisected(TooHigh(f, target), Exponents(), f.betaSteps));
  }

  /** And where a larger beta makes errors rarer, no exponent of the search comes nearer to it. */
  lemma ClampedIsNearest(f: Ensemble, target: real, e: real)
    requires forall x, s, t | s <= t :: f.fer(x, t) <= f.fer(x, s)
    requires forall s, t | s <= t :: f.pow(s) <= f.pow(t)
    requires -3.0 <= e <= 3.0 && Calibrated(f, target).clamped
    ensures target >= CrossingAt(f, -3.0) ==> CrossingAt(f, e) <= Calibrated(f, target).crossing <= target
    ensures CrossingAt(f, -3.0) > target ==> target <= Calibrated(f, target).crossing <= CrossingAt(f, e)
  {
    CrossingFalls(f, -3.0, e);
    CrossingFalls(f, e, 3.0);
    FitIsItsOwn(f, target);
  }

  /** The fit is clamped exactly when the target is outside the reachable crossings; otherwise a
      sign change stays bracketed to 6 * 2^-30 decades around it. */
  lemma ClampedOrBracketed(f: Ensemble, target: real) returns (b: Bracket)
    requires f.betaSteps == BETA_STEPS
    ensures var fit := Calibrated(f, target);
            && (fit.clamped <==>
                  target >= CrossingAt(f, LEAST_BETA) || target <= CrossingAt(f, MOST_BETA))
            && (!fit.clamped ==>
                  && LEAST_BETA <= b.lo <= fit.exponent <= b.hi <= MOST_BETA
                  && (b.hi - b.lo) * 1_073_741_824.0 == 6.0
                  && fit.exponent - b.lo == b.hi - fit.exponent
                  && CrossingAt(f, b.lo) > target >= CrossingAt(f, b.hi))
  {
    var above := TooHigh(f, target);
    b := Bisected(above, Exponents(), f.betaSteps);
    BisectedKeeps(above, Exponents(), f.betaSteps);
    MiddleSplits(b);
    TwoTo30();
  }

  /** Where a larger beta makes errors rarer, the crossing falls as beta grows, so the fit's own
      crossing lies between its bracket's, and a beta that meets the target exactly is in the
      bracket, or beyond it on a stretch where the crossing stays at the target. */
  lemma FitIsClose(f: Ensemble, target: real, b: Bracket, e: real)
    requires forall x, s, t | s <= t :: f.fer(x, t) <= f.fer(x, s)
    requires forall s, t | s <= t :: f.pow(s) <= f.pow(t)
    requires b.lo <= b.hi && CrossingAt(f, b.lo) > target >= CrossingAt(f, b.hi)
    ensures b.lo <= e <= b.hi ==> CrossingAt(f, b.hi) <= CrossingAt(f, e) <= CrossingAt(f, b.lo)
    ensures CrossingAt(f, e) == target ==>
              b.lo < e && (e <= b.hi || CrossingAt(f, b.hi) == target)
  {
    CrossingFalls(f, b.lo, e);
    CrossingFalls(f, e, b.hi);
    CrossingFalls(f, e, b.lo);
    CrossingFalls(f, b.hi, e);
  }

  lemma CrossingFalls(f: Ensemble, s: real, t: real)
    requires forall x, s, t | s <= t :: f.fer(x, t) <= f.fer(x, s)
    requires forall s, t | s <= t :: f.pow(s) <= f.pow(t)
    ensures s <= t ==> CrossingAt(f, t) <= CrossingAt(f, s)
  {
    if s <= t {
      CrossingMonotone(AtBeta(f, t), AtBeta(f, s), f.awgn, f.crossingSteps);
    }
  }
}
