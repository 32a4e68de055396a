/**
 Log transfer times as tools/oracle_report.py handles them: reals with both infinities, a lost
 transfer being infinitely long, and the parts of Python they go through (`sorted`,
 `statistics.median`, IEEE subtraction and halving).
 */
module Times {
  import opened Options

  datatype Time = NegInf | Fin(v: real) | PosInf

  predicate Less(a: Time, b: Time) {
    match (a, b)
    case (Fin(x), Fin(y)) => x < y
    case (NegInf, _) => !b.NegInf?
    case (_, PosInf) => !a.PosInf?
    case _ => false
  }

  predicate Leq(a: Time, b: Time) {
    !Less(b, a)
  }

  /** Subtraction, where an infinity less itself is zero. */
  function Difference(x: Time, y: Time): Time {
    if x == y && !x.Fin? then Fin(0.0)
    else
      match (x, y)
      case (Fin(a), Fin(b)) => Fin(a - b)
      case (PosInf, _) => PosInf
      case (_, NegInf) => PosInf
      case _ => NegInf
  }

  function Negated(x: Time): Time {
    match x
    case Fin(v) => Fin(-v)
    case PosInf => NegInf
    case NegInf => PosInf
  }

  function Half(x: Time): Time {
    if x.Fin? then Fin(x.v / 2.0) else x
  }

  /** IEEE addition then halving; infinities of opposite sign add to no number at all. */
  function Mean(a: Time, b: Time): Option<Time> {
    match (a, b)
    case (Fin(x), Fin(y)) => Some(Fin((x + y) / 2.0))
    case (PosInf, NegInf) => None
    case (NegInf, PosInf) => None
    case (Fin(_), _) => Some(b)
    case (_, _) => Some(a)
  }

  predicate Negative(t: Time) { Less(t, Fin(0.0)) }
  predicate Positive(t: Time) { Less(Fin(0.0), t) }
  predicate NotNegative(t: Time) { !Negative(t) }
  predicate NotPositive(t: Time) { !Positive(t) }
  predicate Zero(t: Time) { t == Fin(0.0) }

  /** A difference has the sign of its comparison, infinities included. */
  lemma DifferenceSign(x: Time, y: Time)
    ensures Positive(Difference(x, y)) <==> Less(y, x)
    ensures Zero(Difference(x, y)) <==> x == y
    ensures Negative(Difference(x, y)) <==> Less(x, y)
  {
  }

  // ---- sorting and counting ----

  ghost predicate Ordered(s: seq<Time>) {
    forall i, j | 0 <= i < j < |s| :: Leq(s[i], s[j])
  }

  function Insert(t: Time, s: seq<Time>): seq<Time> {
    if s == [] || !Less(t, s[|s| - 1]) then s + [t]
    else Insert(t, s[..|s| - 1]) + [s[|s| - 1]]
  }

  /** Python's `sorted`. */
  function Sorted(s: seq<Time>): seq<Time> {
    if s == [] then [] else Insert(s[|s| - 1], Sorted(s[..|s| - 1]))
  }

  lemma MultisetOfLast(s: seq<Time>)
    requires s != []
    ensures multiset(s) == multiset(s[..|s| - 1]) + multiset{s[|s| - 1]}
  {
    assert s == s[..|s| - 1] + [s[|s| - 1]];
  }

  lemma {:induction false} InsertAdds(t: Time, s: seq<Time>)
    ensures multiset(Insert(t, s)) == multiset(s) + multiset{t}
  {
    if s != [] && Less(t, s[|s| - 1]) {
      InsertAdds(t, s[..|s| - 1]);
      MultisetOfLast(s);
    }
  }

  lemma {:induction false} SortedPermutes(s: seq<Time>)
    ensures multiset(Sorted(s)) == multiset(s)
  {
    if s != [] {
      SortedPermutes(s[..|s| - 1]);
      InsertAdds(s[|s| - 1], Sorted(s[..|s| - 1]));
      MultisetOfLast(s);
    }
  }

  lemma {:induction false} InsertLonger(t: Time, s: seq<Time>)
    ensures |Insert(t, s)| == |s| + 1
  {
    if s != [] && Less(t, s[|s| - 1]) { InsertLonger(t, s[..|s| - 1]); }
  }

  lemma {:induction false} InsertOrdered(t: Time, s: seq<Time>)
    requires Ordered(s)
    ensures Ordered(Insert(t, s))
  {
    if s != [] && Less(t, s[|s| - 1]) {
      var before, last := s[..|s| - 1], s[|s| - 1];
      InsertOrdered(t, before);
      InsertBelow(t, before, last);
    }
  }

  lemma {:induction false} InsertBelow(t: Time, s: seq<Time>, top: Time)
    requires Leq(t, top) && forall i | 0 <= i < |s| :: Leq(s[i], top)
    ensures forall i | 0 <= i < |Insert(t, s)| :: Leq(Insert(t, s)[i], top)
  {
    if s != [] && Less(t, s[|s| - 1]) { InsertBelow(t, s[..|s| - 1], top); }
  }

  lemma {:induction false} SortedOrdered(s: seq<Time>)
    ensures Ordered(Sorted(s)) && |Sorted(s)| == |s|
  {
    if s != [] {
      SortedOrdered(s[..|s| - 1]);
      InsertLonger(s[|s| - 1], Sorted(s[..|s| - 1]));
      InsertOrdered(s[|s| - 1], Sorted(s[..|s| - 1]));
    }
  }

  lemma SortedMembers(s: seq<Time>, t: Time)
    ensures t in Sorted(s) <==> t in s
  {
    SortedPermutes(s);
    assert t in multiset(Sorted(s)) <==> t in multiset(s);
  }

  function CountIf(s: seq<Time>, p: Time -> bool): (k: nat)
    ensures k <= |s|
  {
    if s == [] then 0 else CountIf(s[..|s| - 1], p) + if p(s[|s| - 1]) then 1 else 0
  }

  lemma CountIfOne(t: Time, p: Time -> bool)
    ensures CountIf([t], p) == if p(t) then 1 else 0
  {
  }

  lemma {:induction false} CountIfConcat(s: seq<Time>, t: seq<Time>, p: Time -> bool)
    ensures CountIf(s + t, p) == CountIf(s, p) + CountIf(t, p)
  {
    if t == [] {
      assert s + t == s;
    } else {
      CountIfConcat(s, t[..|t| - 1], p);
      assert (s + t)[..|s + t| - 1] == s + t[..|t| - 1];
    }
  }

  lemma {:induction false} CountIfInsert(t: Time, s: seq<Time>, p: Time -> bool)
    ensures CountIf(Insert(t, s), p) == CountIf(s, p) + if p(t) then 1 else 0
  {
    if s != [] && Less(t, s[|s| - 1]) {
      CountIfInsert(t, s[..|s| - 1], p);
      var r, last := Insert(t, s[..|s| - 1]), s[|s| - 1];
      assert (r + [last])[..|r|] == r;
    } else {
      assert (s + [t])[..|s|] == s;
    }
  }

  /** Sorting changes no count. */
  lemma {:induction false} CountIfSorted(s: seq<Time>, p: Time -> bool)
    ensures CountIf(Sorted(s), p) == CountIf(s, p)
  {
    if s != [] {
      CountIfSorted(s[..|s| - 1], p);
      CountIfInsert(s[|s| - 1], Sorted(s[..|s| - 1]), p);
    }
  }

  lemma {:induction false} CountIfComplement(s: seq<Time>, p: Time -> bool, q: Time -> bool)
    requires forall t :: p(t) <==> !q(t)
    ensures CountIf(s, p) + CountIf(s, q) == |s|
  {
    if s != [] { CountIfComplement(s[..|s| - 1], p, q); }
  }

  /** In sorted data, the elements with a downward-closed property come first. */
  lemma {:induction false} CountIfRank(s: seq<Time>, p: Time -> bool, i: nat)
    requires Ordered(s) && i < |s|
    requires forall a, b :: Leq(a, b) && p(b) ==> p(a)
    ensures p(s[i]) <==> i < CountIf(s, p)
  {
    var n := |s| - 1;
    if p(s[n]) {
      assert Leq(s[i], s[n]);
      AllCounted(s, p);
    } else if i < n {
      CountIfRank(s[..n], p, i);
    }
  }

  lemma {:induction false} AllCounted(s: seq<Time>, p: Time -> bool)
    requires forall i | 0 <= i < |s| :: p(s[i])
    ensures CountIf(s, p) == |s|
  {
    if s != [] { AllCounted(s[..|s| - 1], p); }
  }

  lemma {:induction false} NoneCounted(s: seq<Time>, p: Time -> bool)
    requires forall i | 0 <= i < |s| :: !p(s[i])
    ensures CountIf(s, p) == 0
  {
    if s != [] { NoneCounted(s[..|s| - 1], p); }
  }

  // ---- the median ----

  /** `statistics.median` of sorted data; None stands for "not a number". */
  function Median(s: seq<Time>): Option<Time>
    requires s != []
  {
    if |s| % 2 == 1 then Some(s[|s| / 2]) else Mean(s[|s| / 2 - 1], s[|s| / 2])
  }

  lemma NoJump(s: seq<Time>, k: nat)
    requires Ordered(s) && 0 < k < |s|
    requires NegInf in s && PosInf in s ==> Fin(0.0) in s
    ensures !(s[k - 1].NegInf? && s[k].PosInf?)
  {
    assert s[k - 1] in s && s[k] in s;
  }

  /** Sorted data with no jump from one infinity to the other has a median, between the
      elements either side of the middle. */
  lemma MedianBetween(s: seq<Time>, c: nat)
    requires Ordered(s) && 2 * c + 1 <= |s|
    requires NegInf in s && PosInf in s ==> Fin(0.0) in s
    ensures Median(s).Some?
    ensures Leq(s[c], Median(s).value) && Leq(Median(s).value, s[|s| - c - 1])
  {
    var k := |s| / 2;
    if |s| % 2 == 0 {
      var a, b := s[k - 1], s[k];
      assert a in s && b in s && Leq(a, b);
      NoJump(s, k);
      assert c <= k - 1 && k <= |s| - c - 1;
      assert Leq(s[c], a) && Leq(b, s[|s| - c - 1]);
    } else {
      assert Leq(s[c], s[k]) && Leq(s[k], s[|s| - c - 1]);
    }
  }
}
