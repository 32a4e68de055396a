/**
 The one notion behind every "stretch" these tools report: the groups of the true positions
 of a flag sequence in which neighbours are at most `reach` apart. With `reach == 1` they are
 the maximal runs (floor_trace, turnaround_plot, collisions); with a larger reach short gaps
 are bridged (tx_envelope's bursts, a VOX's hold).
 */
module Runs {

  /** A half-open range of positions. */
  datatype Run = Run(start: nat, end: nat)

  /** The groups of `flags`, read left to right: a true position joins the last group when it
      is at most `reach` after that group's last position, and opens a group otherwise. */
  function Group(flags: seq<bool>, reach: nat): seq<Run>
  {
    if flags == [] then []
    else
      var t := |flags| - 1;
      var before := Group(flags[..t], reach);
      if !flags[t] then before else Extended(before, t, reach)
  }

  /** One more true position `t` after the groups found so far. */
  function Extended(runs: seq<Run>, t: nat, reach: nat): seq<Run> {
    var n := |runs|;
    if n > 0 && t - (runs[n - 1].end - 1) <= reach then
      runs[n - 1 := runs[n - 1].(end := t + 1)]
    else
      runs + [Run(t, t + 1)]
  }

  /** What the groups of `flags` are, without reference to how they are found. */
  ghost predicate IsGrouping(flags: seq<bool>, reach: nat, runs: seq<Run>) {
    && BeginsAndEndsTrue(flags, runs)
    && Apart(runs, reach)
    && CoversTrue(flags, runs)
    && forall i | 0 <= i < |runs| :: Connected(flags, reach, runs[i])
  }

  ghost predicate BeginsAndEndsTrue(flags: seq<bool>, runs: seq<Run>) {
    forall i | 0 <= i < |runs| ::
      runs[i].start < runs[i].end <= |flags| && flags[runs[i].start] && flags[runs[i].end - 1]
  }

  /** In order, with more than `reach` from the last position of one to the first of a later. */
  ghost predicate Apart(runs: seq<Run>, reach: nat) {
    forall i, j | 0 <= i < j < |runs| :: runs[i].end - 1 + reach < runs[j].start
  }

  ghost predicate CoversTrue(flags: seq<bool>, runs: seq<Run>) {
    forall k {:trigger Covered(runs, k)} | 0 <= k < |flags| && flags[k] :: Covered(runs, k)
  }

  ghost predicate Covered(runs: seq<Run>, k: int) {
    exists i | 0 <= i < |runs| :: runs[i].start <= k < runs[i].end
  }

  /** Inside the run, true positions with nothing true between them are at most `reach` apart. */
  ghost predicate Connected(flags: seq<bool>, reach: nat, r: Run)
    requires r.end <= |flags|
  {
    forall a, b | r.start <= a < b < r.end && flags[a] && flags[b] && QuietBetween(flags, a, b) ::
      b - a <= reach
  }

  ghost predicate QuietBetween(flags: seq<bool>, a: int, b: int)
    requires 0 <= a <= b <= |flags|
  {
    forall k | a < k < b :: !flags[k]
  }

  /** Existence: `Group` computes a grouping. */
  lemma {:induction false} GroupIsGrouping(flags: seq<bool>, reach: nat)
    ensures IsGrouping(flags, reach, Group(flags, reach))
  {
    if flags != [] {
      var t := |flags| - 1;
      var before := Group(flags[..t], reach);
      GroupIsGrouping(flags[..t], reach);
      LongerKeeps(flags, t, reach, before);
      if flags[t] {
        StepKeepsGrouping(flags, reach, before);
      }
    }
  }

  /** Seen from the longer sequence, a prefix's grouping lacks at most covering what follows. */
  lemma LongerKeeps(flags: seq<bool>, t: nat, reach: nat, runs: seq<Run>)
    requires t <= |flags| && IsGrouping(flags[..t], reach, runs)
    ensures BeginsAndEndsTrue(flags, runs)
    ensures forall k {:trigger Covered(runs, k)} | 0 <= k < t && flags[k] :: Covered(runs, k)
    ensures forall i | 0 <= i < |runs| :: runs[i].end <= t && Connected(flags, reach, runs[i])
  {
    var shorter := flags[..t];
    forall i | 0 <= i < |runs| ensures Connected(flags, reach, runs[i]) {
      var r := runs[i];
      assert Connected(shorter, reach, r);
      forall a, b | r.start <= a < b < r.end && flags[a] && flags[b] && QuietBetween(flags, a, b)
        ensures b - a <= reach
      {
        assert QuietBetween(shorter, a, b);
      }
    }
  }

  lemma StepKeepsGrouping(flags: seq<bool>, reach: nat, before: seq<Run>)
    requires flags != [] && flags[|flags| - 1]
    requires BeginsAndEndsTrue(flags, before) && Apart(before, reach)
    requires forall k {:trigger Covered(before, k)} | 0 <= k < |flags| - 1 && flags[k] ::
               Covered(before, k)
    requires forall i | 0 <= i < |before| ::
               before[i].end <= |flags| - 1 && Connected(flags, reach, before[i])
    ensures IsGrouping(flags, reach, Extended(before, |flags| - 1, reach))
  {
    var t, n := |flags| - 1, |before|;
    var after := Extended(before, t, reach);
    ExtendedCovers(flags, reach, before);
    ExtendedIsTrue(flags, reach, before);
    ExtendedIsApart(t, reach, before);
    forall i | 0 <= i < |after| ensures Connected(flags, reach, after[i]) {
      if i < n && after[i] == before[i] {
      } else if i < n {
        ExtendedRunConnected(flags, reach, before);
      }
    }
  }

  lemma ExtendedIsTrue(flags: seq<bool>, reach: nat, before: seq<Run>)
    requires flags != [] && flags[|flags| - 1] && BeginsAndEndsTrue(flags, before)
    ensures BeginsAndEndsTrue(flags, Extended(before, |flags| - 1, reach))
  {
  }

  lemma ExtendedIsApart(t: nat, reach: nat, before: seq<Run>)
    requires Apart(before, reach) && forall i | 0 <= i < |before| :: before[i].start < before[i].end <= t
    ensures Apart(Extended(before, t, reach), reach)
  {
  }

  lemma ExtendedCovers(flags: seq<bool>, reach: nat, before: seq<Run>)
    requires flags != [] && forall r <- before :: r.start < r.end <= |flags| - 1
    requires forall k {:trigger Covered(before, k)} | 0 <= k < |flags| - 1 && flags[k] ::
               Covered(before, k)
    ensures CoversTrue(flags, Extended(before, |flags| - 1, reach))
  {
    var t, n := |flags| - 1, |before|;
    var after := Extended(before, t, reach);
    assert Covered(after, t) by { assert after[|after| - 1].start <= t < after[|after| - 1].end; }
    forall k | 0 <= k < t && flags[k] ensures Covered(after, k) {
      assert Covered(before, k);
      var i :| 0 <= i < n && before[i].start <= k < before[i].end;
      assert after[i].start <= k < after[i].end;
    }
  }

  lemma ExtendedRunConnected(flags: seq<bool>, reach: nat, before: seq<Run>)
    requires flags != [] && before != [] && BeginsAndEndsTrue(flags, before) && Apart(before, reach)
    requires forall k {:trigger Covered(before, k)} | 0 <= k < |flags| - 1 && flags[k] ::
               Covered(before, k)
    requires before[|before| - 1].end <= |flags| - 1
    requires Connected(flags, reach, before[|before| - 1])
    requires |flags| - before[|before| - 1].end <= reach
    ensures Connected(flags, reach, before[|before| - 1].(end := |flags|))
  {
    var t, r := |flags| - 1, before[|before| - 1];
    forall a, b | r.start <= a < b <= t && flags[a] && flags[b] && QuietBetween(flags, a, b)
      ensures b - a <= reach
    {
      if b == t {
        assert a >= r.end - 1;
      } else {
        assert Covered(before, b);
        var i :| 0 <= i < |before| && before[i].start <= b < before[i].end;
        assert i == |before| - 1;
      }
    }
  }

  /** Uniqueness: the conditions of `IsGrouping` leave one answer. */
  lemma {:induction false} GroupingIsUnique(flags: seq<bool>, reach: nat, runs: seq<Run>)
    requires IsGrouping(flags, reach, runs)
    ensures runs == Group(flags, reach)
  {
    if flags == [] {
      assert runs == [];
    } else {
      var t := |flags| - 1;
      if flags[t] { EndsWithLast(flags, reach, runs); }
      if !flags[t] {
        DropQuiet(flags, reach, runs);
        GroupingIsUnique(flags[..t], reach, runs);
      } else if runs[|runs| - 1].start == t {
        DropSingleton(flags, reach, runs);
        GroupingIsUnique(flags[..t], reach, runs[..|runs| - 1]);
      } else {
        var r := runs[|runs| - 1];
        var u := LastTrueBefore(flags, r.start, t);
        var shortened := runs[|runs| - 1 := r.(end := u + 1)];
        ShortenLast(flags, reach, runs, u);
        GroupingIsUnique(flags[..t], reach, shortened);
      }
    }
  }

  lemma EndsWithLast(flags: seq<bool>, reach: nat, runs: seq<Run>)
    requires flags != [] && flags[|flags| - 1]
    requires BeginsAndEndsTrue(flags, runs) && Apart(runs, reach) && CoversTrue(flags, runs)
    ensures runs != [] && runs[|runs| - 1].end == |flags|
  {
    var t := |flags| - 1;
    assert Covered(runs, t);
    var i :| 0 <= i < |runs| && runs[i].start <= t < runs[i].end;
    assert runs[|runs| - 1].start <= t;
  }

  lemma LastTrueBefore(flags: seq<bool>, s: nat, t: nat) returns (u: nat)
    requires s < t < |flags| && flags[s]
    ensures s <= u < t && flags[u] && QuietBetween(flags, u, t)
    decreases t
  {
    if flags[t - 1] {
      u := t - 1;
    } else {
      u := LastTrueBefore(flags, s, t - 1);
    }
  }

  lemma DropQuiet(flags: seq<bool>, reach: nat, runs: seq<Run>)
    requires flags != [] && !flags[|flags| - 1] && IsGrouping(flags, reach, runs)
    ensures IsGrouping(flags[..|flags| - 1], reach, runs)
  {
    forall i | 0 <= i < |runs| ensures runs[i].end <= |flags| - 1 {
      assert flags[runs[i].end - 1];
    }
    forall i | 0 <= i < |runs| ensures Connected(flags[..|flags| - 1], reach, runs[i]) {
      ConnectedInShorter(flags, |flags| - 1, reach, runs[i]);
    }
  }

  lemma ConnectedInShorter(flags: seq<bool>, t: nat, reach: nat, r: Run)
    requires r.end <= t <= |flags| && Connected(flags, reach, r)
    ensures Connected(flags[..t], reach, r)
  {
    var shorter := flags[..t];
    forall a, b | r.start <= a < b < r.end && shorter[a] && shorter[b] && QuietBetween(shorter, a, b)
      ensures b - a <= reach
    {
      assert QuietBetween(flags, a, b);
    }
  }

  lemma DropSingleton(flags: seq<bool>, reach: nat, runs: seq<Run>)
    requires flags != [] && runs != [] && runs[|runs| - 1] == Run(|flags| - 1, |flags|)
    requires IsGrouping(flags, reach, runs)
    ensures IsGrouping(flags[..|flags| - 1], reach, runs[..|runs| - 1])
    ensures Extended(runs[..|runs| - 1], |flags| - 1, reach) == runs
  {
    var t, n := |flags| - 1, |runs| - 1;
    var shorter, fewer := flags[..t], runs[..n];
    SingletonRejoins(flags, reach, runs);
    FewerCovers(flags, runs);
    forall i | 0 <= i < n ensures Connected(shorter, reach, fewer[i]) {
      ConnectedInShorter(flags, t, reach, runs[i]);
    }
  }

  lemma FewerCovers(flags: seq<bool>, runs: seq<Run>)
    requires flags != [] && runs != [] && runs[|runs| - 1].start == |flags| - 1
    requires CoversTrue(flags, runs)
    ensures CoversTrue(flags[..|flags| - 1], runs[..|runs| - 1])
  {
    var fewer := runs[..|runs| - 1];
    forall k | 0 <= k < |flags| - 1 && flags[k] ensures Covered(fewer, k) {
      assert Covered(runs, k);
      var i :| 0 <= i < |runs| && runs[i].start <= k < runs[i].end;
      assert fewer[i].start <= k < fewer[i].end;
    }
  }

  lemma SingletonRejoins(flags: seq<bool>, reach: nat, runs: seq<Run>)
    requires flags != [] && runs != [] && runs[|runs| - 1] == Run(|flags| - 1, |flags|)
    requires BeginsAndEndsTrue(flags, runs) && Apart(runs, reach)
    ensures Extended(runs[..|runs| - 1], |flags| - 1, reach) == runs
    ensures BeginsAndEndsTrue(flags[..|flags| - 1], runs[..|runs| - 1])
  {
  }

  lemma ShortenLast(flags: seq<bool>, reach: nat, runs: seq<Run>, u: nat)
    requires flags != [] && runs != [] && runs[|runs| - 1].end == |flags|
    requires runs[|runs| - 1].start <= u < |flags| - 1 && flags[u]
    requires QuietBetween(flags, u, |flags| - 1)
    requires IsGrouping(flags, reach, runs)
    ensures var shortened := runs[|runs| - 1 := runs[|runs| - 1].(end := u + 1)];
            && IsGrouping(flags[..|flags| - 1], reach, shortened)
            && Extended(shortened, |flags| - 1, reach) == runs
  {
    var t, n := |flags| - 1, |runs| - 1;
    var shorter, shortened := flags[..t], runs[n := runs[n].(end := u + 1)];
    assert t - u <= reach by { assert Connected(flags, reach, runs[n]) && QuietBetween(flags, u, t); }
    ShortenedCovers(flags, reach, runs, u);
    ShortenedStaysApart(flags, reach, runs, u);
    ShortenedRejoins(t, reach, runs, u);
    forall i | 0 <= i <= n ensures Connected(shorter, reach, shortened[i]) {
      if i == n { assert Connected(flags, reach, shortened[n]); }
      ConnectedInShorter(flags, t, reach, shortened[i]);
    }
  }

  lemma ShortenedStaysApart(flags: seq<bool>, reach: nat, runs: seq<Run>, u: nat)
    requires flags != [] && runs != [] && runs[|runs| - 1].end == |flags|
    requires runs[|runs| - 1].start <= u < |flags| - 1 && flags[u]
    requires BeginsAndEndsTrue(flags, runs) && Apart(runs, reach)
    ensures BeginsAndEndsTrue(flags[..|flags| - 1], runs[|runs| - 1 := runs[|runs| - 1].(end := u + 1)])
    ensures Apart(runs[|runs| - 1 := runs[|runs| - 1].(end := u + 1)], reach)
  {
    var n := |runs| - 1;
    assert forall i | 0 <= i < n :: runs[i].end <= runs[n].start;
  }

  lemma ShortenedRejoins(t: nat, reach: nat, runs: seq<Run>, u: nat)
    requires runs != [] && runs[|runs| - 1].end == t + 1 && u < t && t - u <= reach
    ensures Extended(runs[|runs| - 1 := runs[|runs| - 1].(end := u + 1)], t, reach) == runs
  {
    var n := |runs| - 1;
    assert runs[n].(end := u + 1).(end := t + 1) == runs[n];
  }

  lemma ShortenedCovers(flags: seq<bool>, reach: nat, runs: seq<Run>, u: nat)
    requires flags != [] && runs != [] && runs[|runs| - 1].end == |flags|
    requires runs[|runs| - 1].start <= u < |flags| - 1 && QuietBetween(flags, u, |flags| - 1)
    requires CoversTrue(flags, runs)
    ensures CoversTrue(flags[..|flags| - 1], runs[|runs| - 1 := runs[|runs| - 1].(end := u + 1)])
  {
    var t, n := |flags| - 1, |runs| - 1;
    var shortened := runs[n := runs[n].(end := u + 1)];
    forall k | 0 <= k < t && flags[k] ensures Covered(shortened, k) {
      assert Covered(runs, k);
      var i :| 0 <= i < |runs| && runs[i].start <= k < runs[i].end;
      assert shortened[i].start <= k < shortened[i].end;
    }
  }

  /** One more position of a longer sequence: quiet, joining the last group, or opening one. */
  lemma GroupQuiet(flags: seq<bool>, i: nat, reach: nat)
    requires i < |flags| && !flags[i]
    ensures Group(flags[..i + 1], reach) == Group(flags[..i], reach)
  {
    assert flags[..i + 1][..i] == flags[..i];
  }

  lemma GroupGrows(flags: seq<bool>, i: nat, reach: nat, done: seq<Run>, r: Run)
    requires i < |flags| && flags[i] && Group(flags[..i], reach) == done + [r]
    requires i - (r.end - 1) <= reach
    ensures Group(flags[..i + 1], reach) == done + [r.(end := i + 1)]
  {
    assert flags[..i + 1][..i] == flags[..i];
  }

  lemma GroupOpens(flags: seq<bool>, i: nat, reach: nat, done: seq<Run>)
    requires i < |flags| && flags[i] && Group(flags[..i], reach) == done
    requires done != [] ==> i - (done[|done| - 1].end - 1) > reach
    ensures Group(flags[..i + 1], reach) == done + [Run(i, i + 1)]
  {
    assert flags[..i + 1][..i] == flags[..i];
  }

  /** The last group reaches the end exactly when the last position is true. */
  lemma LastGroupEnd(flags: seq<bool>, reach: nat)
    requires flags != []
    ensures var runs := Group(flags, reach);
            && (runs != [] ==> runs[|runs| - 1].end <= |flags|)
            && (flags[|flags| - 1] <==> runs != [] && runs[|runs| - 1].end == |flags|)
  {
    GroupIsGrouping(flags, reach);
    var runs := Group(flags, reach);
    if flags[|flags| - 1] { EndsWithLast(flags, reach, runs); }
  }

  /** A group of quiet positions at the end changes nothing. */
  lemma {:induction false} QuietTail(flags: seq<bool>, from: nat, reach: nat)
    requires from <= |flags| && forall k | from <= k < |flags| :: !flags[k]
    ensures Group(flags, reach) == Group(flags[..from], reach)
    decreases |flags|
  {
    if from < |flags| {
      var shorter := flags[..|flags| - 1];
      QuietTail(shorter, from, reach);
      assert shorter[..from] == flags[..from];
    } else {
      assert flags[..from] == flags;
    }
  }

  lemma GroupUpTo(flags: seq<bool>, from: nat, to: nat, reach: nat)
    requires from <= to <= |flags| && forall k | from <= k < to :: !flags[k]
    ensures Group(flags[..to], reach) == Group(flags[..from], reach)
  {
    QuietTail(flags[..to], from, reach);
    assert flags[..to][..from] == flags[..from];
  }

  function CountTrue(flags: seq<bool>): nat {
    if flags == [] then 0
    else CountTrue(flags[..|flags| - 1]) + if flags[|flags| - 1] then 1 else 0
  }

  function TotalLength(runs: seq<Run>): int {
    if runs == [] then 0
    else TotalLength(runs[..|runs| - 1]) + runs[|runs| - 1].end - runs[|runs| - 1].start
  }

  /** Unbridged runs hold exactly the true positions, so their lengths add up to the count. */
  lemma {:induction false} LengthIsCount(flags: seq<bool>)
    ensures TotalLength(Group(flags, 1)) == CountTrue(flags)
  {
    if flags != [] {
      var t := |flags| - 1;
      var before := Group(flags[..t], 1);
      LengthIsCount(flags[..t]);
      if flags[t] {
        var after, n := Extended(before, t, 1), |before|;
        if |after| == n {
          LastGroupEnd(flags[..t], 1);
          assert after[..n - 1] == before[..n - 1];
        } else {
          assert after[..n] == before;
        }
      }
    }
  }

  /** The runs that satisfy `p`, in order. */
  function Keep(runs: seq<Run>, p: Run -> bool): seq<Run> {
    if runs == [] then []
    else Keep(runs[..|runs| - 1], p) + if p(runs[|runs| - 1]) then [runs[|runs| - 1]] else []
  }

  lemma KeepOneMore(runs: seq<Run>, r: Run, p: Run -> bool)
    ensures Keep(runs + [r], p) == if p(r) then Keep(runs, p) + [r] else Keep(runs, p)
  {
    assert (runs + [r])[..|runs|] == runs;
  }

  lemma {:induction false} KeepMembers(runs: seq<Run>, p: Run -> bool)
    ensures forall r :: r in Keep(runs, p) <==> r in runs && p(r)
  {
    if runs != [] {
      var n := |runs| - 1;
      KeepMembers(runs[..n], p);
      assert runs == runs[..n] + [runs[n]];
    }
  }

  /** What a filter keeps stays in order and apart. */
  lemma {:induction false} KeepApart(runs: seq<Run>, p: Run -> bool, reach: nat)
    requires Apart(runs, reach)
    ensures Apart(Keep(runs, p), reach)
  {
    if runs != [] {
      var n := |runs| - 1;
      KeepApart(runs[..n], p, reach);
      var kept := Keep(runs[..n], p);
      forall i | 0 <= i < |kept| ensures kept[i].end - 1 + reach < runs[n].start {
        KeepMembers(runs[..n], p);
        assert kept[i] in runs[..n];
      }
    }
  }

  /** A stretch of true positions that nothing true adjoins. */
  ghost predicate IsMaximal(flags: seq<bool>, r: Run) {
    && r.start < r.end <= |flags|
    && (forall k | r.start <= k < r.end :: flags[k])
    && (r.start > 0 ==> !flags[r.start - 1])
    && (r.end < |flags| ==> !flags[r.end])
  }

  /** Unbridged groups are exactly the maximal runs. */
  lemma GroupsAreMaximalRuns(flags: seq<bool>, r: Run)
    ensures r in Group(flags, 1) <==> IsMaximal(flags, r)
  {
    var runs := Group(flags, 1);
    GroupIsGrouping(flags, 1);
    if r in runs {
      var i :| 0 <= i < |runs| && runs[i] == r;
      GroupIsMaximal(flags, runs, i);
    }
    if IsMaximal(flags, r) {
      assert Covered(runs, r.start);
      var i :| 0 <= i < |runs| && runs[i].start <= r.start < runs[i].end;
      GroupIsMaximal(flags, runs, i);
      SameMaximal(flags, r, runs[i]);
    }
  }

  lemma SameMaximal(flags: seq<bool>, r: Run, s: Run)
    requires IsMaximal(flags, r) && IsMaximal(flags, s) && s.start <= r.start < s.end
    ensures r == s
  {
  }

  lemma GroupIsMaximal(flags: seq<bool>, runs: seq<Run>, i: nat)
    requires IsGrouping(flags, 1, runs) && i < |runs|
    ensures IsMaximal(flags, runs[i])
  {
    var r := runs[i];
    forall k | r.start <= k < r.end ensures flags[k] {
      assert Connected(flags, 1, r);
      TrueThroughout(flags, r, k);
    }
    if r.start > 0 { NothingAdjoins(flags, runs, i, r.start - 1); }
    if r.end < |flags| { NothingAdjoins(flags, runs, i, r.end); }
  }

  lemma NothingAdjoins(flags: seq<bool>, runs: seq<Run>, i: nat, k: nat)
    requires BeginsAndEndsTrue(flags, runs) && Apart(runs, 1) && CoversTrue(flags, runs)
    requires i < |runs| && k < |flags| && (k == runs[i].start - 1 || k == runs[i].end)
    ensures !flags[k]
  {
    var covered := Covered(runs, k);
  }

  lemma {:induction false} TrueThroughout(flags: seq<bool>, r: Run, k: nat)
    requires r.start <= k < r.end <= |flags| && flags[r.start] && flags[r.end - 1]
    requires Connected(flags, 1, r)
    ensures flags[k]
  {
    if k > r.start && !flags[k] {
      TrueThroughout(flags, r, k - 1);
      var b := k + 1;
      while !flags[b]
        invariant k < b < r.end && forall j | k <= j < b :: !flags[j]
        decreases r.end - b
      {
        b := b + 1;
      }
      var gap := QuietBetween(flags, k - 1, b);
    }
  }
}
