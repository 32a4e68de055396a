/**
 What the two Hodges-Lehmann forms of tools/oracle_report.py measure: a shift in the unit of the data.
 Moving one build's runs moves estimate and range as far; equal runs differ by just their difference;
 and the builds exchanged read the opposite.
 */
module ShiftLaws {
  import opened Options
  import opened Times
  import opened RankCounts
  import opened RankRanges
  import opened MannWhitney
  import opened SignedRank

  // ---- moving the data ----

  /** A finite time moved by `d`; a lost transfer stays lost. */
  function Moved(t: Time, d: real): Time {
    if t.Fin? then Fin(t.v + d) else t
  }

  function MovedAll(s: seq<Time>, d: real): (m: seq<Time>)
    ensures |m| == |s| && forall i | 0 <= i < |s| :: m[i] == Moved(s[i], d)
  {
    seq(|s|, i requires 0 <= i < |s| => Moved(s[i], d))
  }

  function MovedRange(r: Outcome, d: real): Outcome {
    if !r.Range? then r
    else
      Range(if r.estimate.Some? then Some(Moved(r.estimate.value, d)) else None, Moved(r.low, d), Moved(r.high, d))
  }

  lemma {:induction false} InsertMoved(t: Time, s: seq<Time>, d: real)
    ensures Insert(Moved(t, d), MovedAll(s, d)) == MovedAll(Insert(t, s), d)
  {
    var m := MovedAll(s, d);
    if s != [] && Less(t, s[|s| - 1]) {
      InsertMoved(t, s[..|s| - 1], d);
      assert m[..|m| - 1] == MovedAll(s[..|s| - 1], d);
    }
  }

  lemma {:induction false} SortedMoved(s: seq<Time>, d: real)
    ensures Sorted(MovedAll(s, d)) == MovedAll(Sorted(s), d)
  {
    if s != [] {
      var rest, m := s[..|s| - 1], MovedAll(s, d);
      SortedMoved(rest, d);
      assert m[..|m| - 1] == MovedAll(rest, d);
      InsertMoved(s[|s| - 1], Sorted(rest), d);
    }
  }

  lemma RangeMoved(s: seq<Time>, c: int, d: real)
    requires c >= -1
    ensures RangeOf(MovedAll(s, d), c) == MovedRange(RangeOf(s, c), d)
  {
    if s != [] { MedianMoved(s, d); }
  }

  lemma MedianMoved(s: seq<Time>, d: real)
    requires s != []
    ensures Median(MovedAll(s, d)) == if Median(s).Some? then Some(Moved(Median(s).value, d)) else None
  {
  }

  /** No lost transfer of one build meets one of the other, where their difference is zero. */
  ghost predicate NoneLostInBoth(xs: seq<Time>, ys: seq<Time>) {
    forall i, j | 0 <= i < |xs| && 0 <= j < |ys| :: xs[i].Fin? || xs[i] != ys[j]
  }

  lemma {:induction false} RowMoved(x: Time, ys: seq<Time>, d: real)
    requires forall j | 0 <= j < |ys| :: x.Fin? || x != ys[j]
    ensures Row(Moved(x, d), ys) == MovedAll(Row(x, ys), d)
  {
    if ys != [] { RowMoved(x, ys[..|ys| - 1], d); }
  }

  lemma {:induction false} DifferencesMoved(xs: seq<Time>, ys: seq<Time>, d: real)
    requires NoneLostInBoth(xs, ys)
    ensures Differences(MovedAll(xs, d), ys) == MovedAll(Differences(xs, ys), d)
  {
    if xs != [] {
      var rest, m := xs[..|xs| - 1], MovedAll(xs, d);
      DifferencesMoved(rest, ys, d);
      assert m[..|m| - 1] == MovedAll(rest, d);
      RowMoved(xs[|xs| - 1], ys, d);
    }
  }

  /** Runs that all take `d` longer read a shift `d` larger, and the range moves with it. */
  lemma ShiftMoves(xs: seq<Time>, ys: seq<Time>, level: real, d: real)
    requires NoneLostInBoth(xs, ys)
    ensures Shift(MovedAll(xs, d), ys, level) == MovedRange(Shift(xs, ys, level), d)
  {
    UCountsTotal(|xs|, |ys|);
    DifferencesMoved(xs, ys, d);
    SortedMoved(Differences(xs, ys), d);
    RangeMoved(Sorted(Differences(xs, ys)), Critical(UCounts(|xs|, |ys|), Limit(level)), d);
  }

  /** But two lost transfers read a shift of zero, wherever the others are. */
  lemma LostInBothStay(xs: seq<Time>, level: real, d: real)
    requires xs == [PosInf]
    ensures MovedAll(xs, d) == xs
    ensures Shift(xs, xs, level).Range? ==> Shift(xs, xs, level).estimate == Some(Fin(0.0))
  {
    UCountsTotal(1, 1);
    LostReadZero(xs, Critical(UCounts(1, 1), Limit(level)));
  }

  lemma LostReadZero(xs: seq<Time>, c: int)
    requires xs == [PosInf] && c >= -1
    ensures RangeOf(Sorted(Differences(xs, xs)), c).Range? ==>
              RangeOf(Sorted(Differences(xs, xs)), c).estimate == Some(Fin(0.0))
  {
    OneDifference(PosInf, PosInf);
    OneIsSorted(Fin(0.0));
  }

  lemma OneDifference(x: Time, y: Time)
    ensures Differences([x], [y]) == [Difference(x, y)]
  {
    var xs, ys := [x], [y];
    assert xs[..0] == [] && ys[..0] == [];
    assert Row(x, ys) == Row(x, ys[..0]) + [Difference(x, y)];
  }

  lemma OneIsSorted(t: Time)
    ensures Sorted([t]) == [t]
  {
    var s := [t];
    assert s[..0] == [];
  }

  /** Not both infinities among the differences. */
  ghost predicate OneSided(diffs: seq<Time>) {
    NegInf !in diffs || PosInf !in diffs
  }

  lemma {:induction false} AveragesAt(d: Time, ds: seq<Time>, i: nat)
    requires i < |ds|
    ensures Averages(d, ds)[i] == Average(d, ds[i])
  {
    if i < |ds| - 1 { AveragesAt(d, ds[..|ds| - 1], i); }
  }

  lemma AveragesMoved(t: Time, ds: seq<Time>, d: real)
    requires forall i | 0 <= i < |ds| :: t.Fin? || ds[i].Fin? || t == ds[i]
    ensures Averages(Moved(t, d), MovedAll(ds, d)) == MovedAll(Averages(t, ds), d)
  {
    forall i | 0 <= i < |ds|
      ensures Averages(Moved(t, d), MovedAll(ds, d))[i] == MovedAll(Averages(t, ds), d)[i]
    {
      AveragesAt(t, ds, i);
      AveragesAt(Moved(t, d), MovedAll(ds, d), i);
      AverageMoved(t, ds[i], d);
    }
  }

  lemma AverageMoved(a: Time, b: Time, d: real)
    requires a.Fin? || b.Fin? || a == b
    ensures Average(Moved(a, d), Moved(b, d)) == Moved(Average(a, b), d)
  {
  }

  lemma FirstIsOneSided(diffs: seq<Time>)
    requires OneSided(diffs) && diffs != []
    ensures OneSided(diffs[1..])
    ensures forall i | 0 <= i < |diffs| :: diffs[0].Fin? || diffs[i].Fin? || diffs[0] == diffs[i]
  {
    assert diffs[0] in diffs && forall i | 0 <= i < |diffs| :: diffs[i] in diffs;
  }

  lemma {:induction false} WalshMoved(diffs: seq<Time>, d: real)
    requires OneSided(diffs)
    ensures Walsh(MovedAll(diffs, d)) == MovedAll(Walsh(diffs), d)
  {
    if diffs != [] {
      var rest, m := diffs[1..], MovedAll(diffs, d);
      FirstIsOneSided(diffs);
      WalshMoved(rest, d);
      AveragesMoved(diffs[0], diffs, d);
      assert m[1..] == MovedAll(rest, d);
      MovedConcat(Averages(diffs[0], diffs), Walsh(rest), d);
    }
  }

  lemma MovedConcat(a: seq<Time>, b: seq<Time>, d: real)
    ensures MovedAll(a + b, d) == MovedAll(a, d) + MovedAll(b, d)
  {
  }

  /** Pairs that all differ by `d` more read a shift `d` larger. */
  lemma PairedShiftMoves(diffs: seq<Time>, level: real, d: real)
    requires OneSided(diffs)
    ensures PairedShift(MovedAll(diffs, d), level) == MovedRange(PairedShift(diffs, level), d)
  {
    WalshMoved(diffs, d);
    SortedMoved(Walsh(diffs), d);
    RangeMoved(Sorted(Walsh(diffs)), PairedCritical(|diffs|, level), d);
  }

  // ---- equal runs ----

  /** Runs of `a` against runs of `b` read a shift of `a - b`, with a range that is a point or
      unbounded. */
  lemma EqualRunsReadTheirDifference(xs: seq<Time>, ys: seq<Time>, a: real, b: real, level: real)
    requires (forall i | 0 <= i < |xs| :: xs[i] == Fin(a)) && (forall j | 0 <= j < |ys| :: ys[j] == Fin(b))
    requires Shift(xs, ys, level).Range?
    ensures var r, d := Shift(xs, ys, level), Fin(a - b);
            && r.estimate == Some(d)
            && ((r.low == d && r.high == d) || (r.low == NegInf && r.high == PosInf))
  {
    UCountsTotal(|xs|, |ys|);
    EqualRunsRange(xs, ys, a, b, Critical(UCounts(|xs|, |ys|), Limit(level)));
  }

  lemma EqualRunsRange(xs: seq<Time>, ys: seq<Time>, a: real, b: real, c: int)
    requires (forall i | 0 <= i < |xs| :: xs[i] == Fin(a)) && (forall j | 0 <= j < |ys| :: ys[j] == Fin(b))
    requires c >= -1 && RangeOf(Sorted(Differences(xs, ys)), c).Range?
    ensures var r, d := RangeOf(Sorted(Differences(xs, ys)), c), Fin(a - b);
            && r.estimate == Some(d)
            && ((r.low == d && r.high == d) || (r.low == NegInf && r.high == PosInf))
  {
    OwnMean(Fin(a - b));
    EqualDifferences(xs, ys, a, b);
    EqualSorted(Fin(a - b), Differences(xs, ys));
    EqualRange(Fin(a - b), Sorted(Differences(xs, ys)), c);
  }

  lemma {:induction false} EqualDifferences(xs: seq<Time>, ys: seq<Time>, a: real, b: real)
    requires (forall i | 0 <= i < |xs| :: xs[i] == Fin(a)) && (forall j | 0 <= j < |ys| :: ys[j] == Fin(b))
    ensures forall k | 0 <= k < |Differences(xs, ys)| :: Differences(xs, ys)[k] == Fin(a - b)
  {
    if xs != [] {
      EqualDifferences(xs[..|xs| - 1], ys, a, b);
      EqualDifferencesRow(ys, a, b);
    }
  }

  lemma {:induction false} EqualDifferencesRow(ys: seq<Time>, a: real, b: real)
    requires forall j | 0 <= j < |ys| :: ys[j] == Fin(b)
    ensures forall k | 0 <= k < |Row(Fin(a), ys)| :: Row(Fin(a), ys)[k] == Fin(a - b)
  {
    if ys != [] { EqualDifferencesRow(ys[..|ys| - 1], a, b); }
  }

  // ---- the builds exchanged ----

  function NegatedAll(s: seq<Time>): (m: seq<Time>)
    ensures |m| == |s| && forall i | 0 <= i < |s| :: m[i] == Negated(s[i])
  {
    seq(|s|, i requires 0 <= i < |s| => Negated(s[i]))
  }

  function Backwards(s: seq<Time>): (m: seq<Time>)
    ensures |m| == |s| && forall i | 0 <= i < |s| :: m[i] == s[|s| - 1 - i]
  {
    seq(|s|, i requires 0 <= i < |s| => s[|s| - 1 - i])
  }

  /** Estimate and range of the opposite comparison. */
  function Opposite(r: Outcome): Outcome {
    if !r.Range? then r
    else
      Range(if r.estimate.Some? then Some(Negated(r.estimate.value)) else None, Negated(r.high), Negated(r.low))
  }

  lemma {:induction false} BackwardsPermutes(s: seq<Time>)
    ensures multiset(Backwards(s)) == multiset(s)
  {
    if s != [] {
      var rest, last := s[..|s| - 1], s[|s| - 1];
      BackwardsPermutes(rest);
      assert Backwards(s) == [last] + Backwards(rest);
      assert s == rest + [last];
    }
  }

  lemma {:induction false} NegatedCounts(s: seq<Time>, t: Time)
    ensures multiset(NegatedAll(s))[t] == multiset(s)[Negated(t)]
  {
    if s != [] {
      var rest, last := s[..|s| - 1], s[|s| - 1];
      NegatedCounts(rest, t);
      assert NegatedAll(s) == NegatedAll(rest) + [Negated(last)];
      assert s == rest + [last];
      assert Negated(Negated(t)) == t && Negated(Negated(last)) == last;
    }
  }

  lemma NegatedPermutes(a: seq<Time>, b: seq<Time>)
    requires multiset(a) == multiset(b)
    ensures multiset(NegatedAll(a)) == multiset(NegatedAll(b))
  {
    forall t: Time ensures multiset(NegatedAll(a))[t] == multiset(NegatedAll(b))[t] {
      NegatedCounts(a, t);
      NegatedCounts(b, t);
    }
  }

  lemma GreatestIsLast(a: seq<Time>, b: seq<Time>)
    requires Ordered(a) && Ordered(b) && multiset(a) == multiset(b) && a != []
    ensures |a| == |b| && a[|a| - 1] == b[|b| - 1]
  {
    assert |a| == |multiset(a)| && |b| == |multiset(b)|;
    var x, y := a[|a| - 1], b[|b| - 1];
    assert x in multiset(b) && y in multiset(a);
    assert Leq(x, y) by {
      var i :| 0 <= i < |b| && b[i] == x;
      assert i == |b| - 1 || Leq(b[i], y);
    }
    assert Leq(y, x) by {
      var i :| 0 <= i < |a| && a[i] == y;
      assert i == |a| - 1 || Leq(a[i], x);
    }
  }

  lemma WithoutGreatest(a: seq<Time>, b: seq<Time>, n: nat)
    requires |a| == |b| == n + 1 && multiset(a) == multiset(b) && a[n] == b[n]
    ensures multiset(a[..n]) == multiset(b[..n])
  {
    MultisetOfLast(a);
    MultisetOfLast(b);
    assert multiset(a[..n]) == multiset(a) - multiset{a[n]} == multiset(b[..n]);
  }

  /** There is one way only to sort. */
  lemma {:induction false} SortedIsUnique(a: seq<Time>, b: seq<Time>)
    requires Ordered(a) && Ordered(b) && multiset(a) == multiset(b)
    ensures a == b
  {
    if a == [] {
      assert |multiset(b)| == 0;
    } else {
      GreatestIsLast(a, b);
      WithoutGreatest(a, b, |a| - 1);
      SortedIsUnique(a[..|a| - 1], b[..|a| - 1]);
      SameFront(a, b, |a| - 1);
    }
  }

  lemma SameFront(a: seq<Time>, b: seq<Time>, n: nat)
    requires |a| == |b| == n + 1 && a[..n] == b[..n] && a[n] == b[n]
    ensures a == b
  {
    assert a == a[..n] + [a[n]] && b == b[..n] + [b[n]];
  }

  lemma SortedOfSame(a: seq<Time>, b: seq<Time>)
    requires multiset(a) == multiset(b)
    ensures Sorted(a) == Sorted(b)
  {
    SortedOrdered(a);
    SortedOrdered(b);
    SortedPermutes(a);
    SortedPermutes(b);
    SortedIsUnique(Sorted(a), Sorted(b));
  }

  lemma SortedOpposite(s: seq<Time>)
    ensures Sorted(NegatedAll(s)) == Backwards(NegatedAll(Sorted(s)))
  {
    var up := Backwards(NegatedAll(Sorted(s)));
    SortedOrdered(s);
    SortedPermutes(s);
    BackwardsPermutes(NegatedAll(Sorted(s)));
    NegatedPermutes(Sorted(s), s);
    SortedOrdered(NegatedAll(s));
    SortedPermutes(NegatedAll(s));
    assert Ordered(up) by { NegatedBackwardsOrdered(Sorted(s)); }
    SortedIsUnique(Sorted(NegatedAll(s)), up);
  }

  lemma NegatedBackwardsOrdered(s: seq<Time>)
    requires Ordered(s)
    ensures Ordered(Backwards(NegatedAll(s)))
  {
    var up := Backwards(NegatedAll(s));
    forall i, j | 0 <= i < j < |up| ensures Leq(up[i], up[j]) {
      assert Leq(s[|s| - 1 - j], s[|s| - 1 - i]);
    }
  }

  lemma RangeOpposite(s: seq<Time>, c: int)
    requires c >= -1
    ensures RangeOf(Backwards(NegatedAll(s)), c) == Opposite(RangeOf(s, c))
  {
    if s != [] { MedianOpposite(s); }
  }

  lemma MedianOpposite(s: seq<Time>)
    requires s != []
    ensures Median(Backwards(NegatedAll(s))) == if Median(s).Some? then Some(Negated(Median(s).value)) else None
  {
    var up, k := Backwards(NegatedAll(s)), |s| / 2;
    if |s| % 2 == 1 {
      assert up[k] == Negated(s[k]);
    } else {
      assert up[k - 1] == Negated(s[k]) && up[k] == Negated(s[k - 1]);
    }
  }

  /** The differences of all `ys` over one x. */
  function Column(ys: seq<Time>, x: Time): seq<Time> {
    if ys == [] then [] else Column(ys[..|ys| - 1], x) + [Difference(ys[|ys| - 1], x)]
  }

  lemma {:induction false} ColumnIsRow(ys: seq<Time>, x: Time)
    ensures Column(ys, x) == NegatedAll(Row(x, ys))
  {
    if ys != [] {
      var rest := ys[..|ys| - 1];
      ColumnIsRow(rest, x);
      assert Difference(ys[|ys| - 1], x) == Negated(Difference(x, ys[|ys| - 1]));
    }
  }

  lemma {:induction false} OneColumnMore(ys: seq<Time>, xs: seq<Time>, x: Time)
    ensures multiset(Differences(ys, xs + [x])) == multiset(Differences(ys, xs)) + multiset(Column(ys, x))
  {
    if ys != [] {
      var rest, y := ys[..|ys| - 1], ys[|ys| - 1];
      OneColumnMore(rest, xs, x);
      assert (xs + [x])[..|xs|] == xs;
      assert Row(y, xs + [x]) == Row(y, xs) + [Difference(y, x)];
    }
  }

  lemma {:induction false} NoDifferences(ys: seq<Time>)
    ensures Differences(ys, []) == []
  {
    if ys != [] { NoDifferences(ys[..|ys| - 1]); }
  }

  lemma {:induction false} DifferencesOpposite(xs: seq<Time>, ys: seq<Time>)
    ensures multiset(Differences(ys, xs)) == multiset(NegatedAll(Differences(xs, ys)))
  {
    if xs == [] {
      NoDifferences(ys);
    } else {
      var rest, x := xs[..|xs| - 1], xs[|xs| - 1];
      DifferencesOpposite(rest, ys);
      OneColumnMore(ys, rest, x);
      assert rest + [x] == xs;
      ColumnIsRow(ys, x);
      NegatedConcat(Differences(rest, ys), Row(x, ys));
    }
  }

  lemma NegatedConcat(a: seq<Time>, b: seq<Time>)
    ensures multiset(NegatedAll(a + b)) == multiset(NegatedAll(a)) + multiset(NegatedAll(b))
  {
    assert NegatedAll(a + b) == NegatedAll(a) + NegatedAll(b);
  }

  lemma CountsOfExchanged(m: nat, n: nat)
    ensures UCounts(m, n) == UCounts(n, m)
  {
    assert m * n == n * m;
    forall u | 0 <= u <= m * n ensures UCount(m, n, u) == UCount(n, m, u) {
      UCountSwapped(m, n, u);
    }
  }

  /** The builds exchanged read the opposite shift, and the opposite range the other way round. */
  lemma ShiftExchanges(xs: seq<Time>, ys: seq<Time>, level: real)
    ensures Shift(ys, xs, level) == Opposite(Shift(xs, ys, level))
  {
    UCountsTotal(|xs|, |ys|);
    CountsOfExchanged(|xs|, |ys|);
    var diffs, c := Differences(xs, ys), Critical(UCounts(|xs|, |ys|), Limit(level));
    DifferencesOpposite(xs, ys);
    SortedOfSame(Differences(ys, xs), NegatedAll(diffs));
    SortedOpposite(diffs);
    RangeOpposite(Sorted(diffs), c);
  }

  lemma AveragesOpposite(d: Time, ds: seq<Time>)
    ensures Averages(Negated(d), NegatedAll(ds)) == NegatedAll(Averages(d, ds))
  {
    forall i | 0 <= i < |ds| ensures Averages(Negated(d), NegatedAll(ds))[i] == NegatedAll(Averages(d, ds))[i] {
      AveragesAt(d, ds, i);
      AveragesAt(Negated(d), NegatedAll(ds), i);
      AverageOpposite(d, ds[i]);
    }
  }

  lemma AverageOpposite(a: Time, b: Time)
    ensures Average(Negated(a), Negated(b)) == Negated(Average(a, b))
  {
  }

  lemma {:induction false} WalshOpposite(diffs: seq<Time>)
    ensures Walsh(NegatedAll(diffs)) == NegatedAll(Walsh(diffs))
  {
    if diffs != [] {
      var rest, m := diffs[1..], NegatedAll(diffs);
      assert m[1..] == NegatedAll(rest);
      WalshOpposite(rest);
      AveragesOpposite(diffs[0], diffs);
    }
  }

  /** So do the paired differences taken the other way. */
  lemma PairedShiftExchanges(diffs: seq<Time>, level: real)
    ensures PairedShift(NegatedAll(diffs), level) == Opposite(PairedShift(diffs, level))
  {
    WalshOpposite(diffs);
    SortedOpposite(Walsh(diffs));
    RangeOpposite(Sorted(Walsh(diffs)), PairedCritical(|diffs|, level));
  }
}
