/**
 What the counts of `RankCounts` count: the orderings of two samples, enumerated as words (true
 where the next larger value is an x), by the very statistic the comparison uses; and the sign
 patterns of ranked differences by their signed-rank sum.
 */
module RankOrderings {
  import opened Times
  import opened RankCounts
  import opened MannWhitney

  ghost function Words(k: nat): set<seq<bool>> {
    if k == 0 then {[]} else Appended(Words(k - 1), true) + Appended(Words(k - 1), false)
  }

  ghost function Appended(ws: set<seq<bool>>, b: bool): set<seq<bool>> {
    set w | w in ws :: w + [b]
  }

  lemma InAppended(ws: set<seq<bool>>, b: bool, w: seq<bool>)
    ensures w in Appended(ws, b) <==> w != [] && w[|w| - 1] == b && w[..|w| - 1] in ws
  {
    if w != [] && w[|w| - 1] == b && w[..|w| - 1] in ws {
      assert w == w[..|w| - 1] + [b];
    }
    if w in Appended(ws, b) {
      var v :| v in ws && w == v + [b];
      assert w[..|w| - 1] == v;
    }
  }

  lemma {:induction false} AppendedSize(ws: set<seq<bool>>, b: bool)
    ensures |Appended(ws, b)| == |ws|
  {
    if ws == {} {
      assert Appended(ws, b) == {};
    } else {
      var w :| w in ws;
      var fewer := ws - {w};
      AppendedSize(fewer, b);
      InAppended(fewer, b, w + [b]);
      assert (w + [b])[..|w|] == w;
      assert Appended(ws, b) == Appended(fewer, b) + {w + [b]};
    }
  }

  lemma {:induction false} WordsAreAll(k: nat, w: seq<bool>)
    ensures w in Words(k) <==> |w| == k
  {
    if k > 0 {
      InAppended(Words(k - 1), true, w);
      InAppended(Words(k - 1), false, w);
      if w != [] { WordsAreAll(k - 1, w[..|w| - 1]); }
    }
  }

  // ---- orderings ----

  /** The places, as values, of one sample in an ordering of both. */
  function Places(w: seq<bool>, x: bool): seq<Time> {
    if w == [] then []
    else
      var before := Places(w[..|w| - 1], x);
      if w[|w| - 1] == x then before + [Fin((|w| - 1) as real)] else before
  }

  /** An ordering's Mann-Whitney U, by the comparison's own statistic. */
  function Statistic(w: seq<bool>): real {
    UStatistic(Places(w, true), Places(w, false))
  }

  function Trues(w: seq<bool>): nat {
    if w == [] then 0 else Trues(w[..|w| - 1]) + if w[|w| - 1] then 1 else 0
  }

  /** The orderings of `m` x's and `n` y's in which U is `u`. */
  ghost function Orderings(m: nat, n: nat, u: int): set<seq<bool>> {
    set w | w in Words(m + n) && Trues(w) == m && Statistic(w) == u as real
  }

  lemma {:induction false} PlacesBelow(w: seq<bool>, x: bool, top: real)
    requires |w| as real <= top
    ensures forall i | 0 <= i < |Places(w, x)| :: Less(Places(w, x)[i], Fin(top))
  {
    if w != [] { PlacesBelow(w[..|w| - 1], x, top); }
  }

  lemma {:induction false} PlacesLength(w: seq<bool>)
    ensures |Places(w, true)| == Trues(w) <= |w|
    ensures |Places(w, false)| == |w| - Trues(w)
  {
    if w != [] { PlacesLength(w[..|w| - 1]); }
  }

  lemma {:induction false} RowOfWins(x: Time, ys: seq<Time>)
    requires forall i | 0 <= i < |ys| :: Less(ys[i], x)
    ensures URow(x, ys) == |ys| as real
  {
    if ys != [] { RowOfWins(x, ys[..|ys| - 1]); }
  }

  lemma {:induction false} ColumnOfLosses(xs: seq<Time>, y: Time)
    requires forall i | 0 <= i < |xs| :: Less(xs[i], y)
    ensures UColumn(xs, y) == 0.0
  {
    if xs != [] { ColumnOfLosses(xs[..|xs| - 1], y); }
  }

  /** A largest x wins over every y ... */
  lemma LargestIsX(rest: seq<bool>)
    ensures Statistic(rest + [true]) == Statistic(rest) + (|rest| - Trues(rest)) as real
  {
    var xs, ys, top := Places(rest, true), Places(rest, false), Fin(|rest| as real);
    PlacesLength(rest);
    PlacesBelow(rest, false, |rest| as real);
    RowOfWins(top, ys);
    assert (rest + [true])[..|rest|] == rest;
    assert Places(rest + [true], true) == xs + [top] && Places(rest + [true], false) == ys;
    assert (xs + [top])[..|xs|] == xs;
  }

  /** ... and a largest y loses to none. */
  lemma LargestIsY(rest: seq<bool>)
    ensures Statistic(rest + [false]) == Statistic(rest)
  {
    var xs, ys, top := Places(rest, true), Places(rest, false), Fin(|rest| as real);
    PlacesBelow(rest, true, |rest| as real);
    ColumnOfLosses(xs, top);
    WinsOverOneMore(xs, ys, top);
    assert (rest + [false])[..|rest|] == rest;
    assert Places(rest + [false], true) == xs && Places(rest + [false], false) == ys + [top];
  }

  /** The same statistic as a whole number. */
  function Wins(w: seq<bool>): nat {
    if w == [] then 0
    else
      var rest := w[..|w| - 1];
      PlacesLength(rest);
      Wins(rest) + if w[|w| - 1] then |rest| - Trues(rest) else 0
  }

  lemma {:induction false} StatisticIsWins(w: seq<bool>)
    ensures Statistic(w) == Wins(w) as real
  {
    if w != [] {
      var rest := w[..|w| - 1];
      StatisticIsWins(rest);
      PlacesLength(rest);
      assert w == rest + [w[|w| - 1]];
      if w[|w| - 1] { LargestIsX(rest); } else { LargestIsY(rest); }
    }
  }

  lemma InOrderings(m: nat, n: nat, u: int, w: seq<bool>)
    ensures w in Orderings(m, n, u) <==> |w| == m + n && Trues(w) == m && Wins(w) == u
  {
    WordsAreAll(m + n, w);
    StatisticIsWins(w);
  }

  ghost function EndingInX(m: nat, n: nat, u: int): set<seq<bool>> {
    if m > 0 then Appended(Orderings(m - 1, n, u - n), true) else {}
  }

  ghost function EndingInY(m: nat, n: nat, u: int): set<seq<bool>> {
    if n > 0 then Appended(Orderings(m, n - 1, u), false) else {}
  }

  /** An ordering ends with an x over an ordering of one x fewer, or with a y. */
  lemma OrderingsByLargest(m: nat, n: nat, u: int, w: seq<bool>)
    requires m + n > 0
    ensures w in Orderings(m, n, u) <==> w in EndingInX(m, n, u) || w in EndingInY(m, n, u)
  {
    InOrderings(m, n, u, w);
    if w != [] {
      var rest := w[..|w| - 1];
      PlacesLength(rest);
      if m > 0 { InOrderings(m - 1, n, u - n, rest); }
      if n > 0 { InOrderings(m, n - 1, u, rest); }
    }
    InEndings(m, n, u, w);
  }

  lemma InEndings(m: nat, n: nat, u: int, w: seq<bool>)
    ensures w in EndingInX(m, n, u) <==>
              m > 0 && w != [] && w[|w| - 1] && w[..|w| - 1] in Orderings(m - 1, n, u - n)
    ensures w in EndingInY(m, n, u) <==>
              n > 0 && w != [] && !w[|w| - 1] && w[..|w| - 1] in Orderings(m, n - 1, u)
  {
    if m > 0 { InAppended(Orderings(m - 1, n, u - n), true, w); }
    if n > 0 { InAppended(Orderings(m, n - 1, u), false, w); }
  }

  lemma EndingsAreDisjoint(m: nat, n: nat, u: int)
    ensures EndingInX(m, n, u) !! EndingInY(m, n, u)
  {
    forall w | w in EndingInX(m, n, u) ensures w !in EndingInY(m, n, u) {
      InEndings(m, n, u, w);
    }
  }

  lemma DisjointSizes<T>(a: set<T>, b: set<T>)
    requires a !! b
    ensures |a + b| == |a| + |b|
  {
  }

  lemma UCountByLargest(m: nat, n: nat, u: nat)
    requires m + n > 0
    ensures UCount(m, n, u)
         == (if m > 0 then UCount(m - 1, n, u - n) else 0)
            + if n > 0 then UCount(m, n - 1, u) else 0
  {
  }

  /** The counts are the numbers of orderings. */
  lemma {:induction false} CountIsOrderings(m: nat, n: nat, u: int)
    ensures |Orderings(m, n, u)| == UCount(m, n, u)
    decreases m + n
  {
    if u < 0 {
      forall w ensures w !in Orderings(m, n, u) { InOrderings(m, n, u, w); }
      assert Orderings(m, n, u) == {};
    } else if m + n == 0 {
      OrderingsOfNone(u);
    } else {
      SplitByLargest(m, n, u);
      EndingSizes(m, n, u);
      UCountByLargest(m, n, u);
    }
  }

  lemma OrderingsOfNone(u: nat)
    ensures |Orderings(0, 0, u)| == if u == 0 then 1 else 0
  {
    assert Orderings(0, 0, u) == if u == 0 then {[]} else {} by {
      forall w ensures w in Orderings(0, 0, u) <==> w == [] && u == 0 { InOrderings(0, 0, u, w); }
    }
  }

  lemma SplitByLargest(m: nat, n: nat, u: int)
    requires m + n > 0
    ensures |Orderings(m, n, u)| == |EndingInX(m, n, u)| + |EndingInY(m, n, u)|
  {
    assert Orderings(m, n, u) == EndingInX(m, n, u) + EndingInY(m, n, u) by {
      forall w ensures w in Orderings(m, n, u) <==> w in EndingInX(m, n, u) + EndingInY(m, n, u) {
        OrderingsByLargest(m, n, u, w);
      }
    }
    EndingsAreDisjoint(m, n, u);
    DisjointSizes(EndingInX(m, n, u), EndingInY(m, n, u));
  }

  lemma {:induction false} EndingSizes(m: nat, n: nat, u: int)
    requires m + n > 0
    ensures |EndingInX(m, n, u)| == if m > 0 then UCount(m - 1, n, u - n) else 0
    ensures |EndingInY(m, n, u)| == if n > 0 then UCount(m, n - 1, u) else 0
    decreases m + n, 0
  {
    if m > 0 {
      AppendedSize(Orderings(m - 1, n, u - n), true);
      CountIsOrderings(m - 1, n, u - n);
    }
    if n > 0 {
      AppendedSize(Orderings(m, n - 1, u), false);
      CountIsOrderings(m, n - 1, u);
    }
  }

  // ---- sign patterns ----

  /** The signed-rank sum of a sign pattern: the sum of the ranks whose sign is positive. */
  function RankSum(signs: seq<bool>): nat {
    if signs == [] then 0
    else RankSum(signs[..|signs| - 1]) + if signs[|signs| - 1] then |signs| else 0
  }

  /** The sign patterns of `n` ranks that sum to `t`. */
  ghost function Patterns(n: nat, t: int): set<seq<bool>> {
    set w | w in Words(n) && RankSum(w) == t
  }

  lemma PatternsByLargest(n: nat, t: int, w: seq<bool>)
    requires n > 0
    ensures w in Patterns(n, t) <==>
              w in Appended(Patterns(n - 1, t - n), true) || w in Appended(Patterns(n - 1, t), false)
  {
    WordsAreAll(n, w);
    InAppended(Patterns(n - 1, t - n), true, w);
    InAppended(Patterns(n - 1, t), false, w);
    if w != [] { WordsAreAll(n - 1, w[..|w| - 1]); }
  }

  lemma SplitBySign(n: nat, t: int)
    requires n > 0
    ensures |Patterns(n, t)| == |Patterns(n - 1, t - n)| + |Patterns(n - 1, t)|
  {
    var up, down := Appended(Patterns(n - 1, t - n), true), Appended(Patterns(n - 1, t), false);
    assert Patterns(n, t) == up + down by {
      forall w ensures w in Patterns(n, t) <==> w in up + down { PatternsByLargest(n, t, w); }
    }
    assert up !! down by {
      forall w | w in up ensures w !in down {
        InAppended(Patterns(n - 1, t - n), true, w);
        InAppended(Patterns(n - 1, t), false, w);
      }
    }
    DisjointSizes(up, down);
    AppendedSize(Patterns(n - 1, t - n), true);
    AppendedSize(Patterns(n - 1, t), false);
  }

  /** The counts are the numbers of sign patterns. */
  lemma {:induction false} CountIsPatterns(n: nat, t: int)
    ensures |Patterns(n, t)| == RankCount(n, t)
  {
    if n == 0 {
      assert RankSum([]) == 0;
      assert Patterns(0, t) == if t == 0 then {[]} else {};
    } else {
      SplitBySign(n, t);
      CountIsPatterns(n - 1, t - n);
      CountIsPatterns(n - 1, t);
    }
  }
}
