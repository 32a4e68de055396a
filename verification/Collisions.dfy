/**
 The account of the time two or more stations were keyed at once (tools/channel_server.py): the
 stretches of it, what each sample of it was, and the stretches in which both radiated. `both` says
 of every air sample so far whether it counts, and `kinds` what it was if it does.
 */
module Collisions {
  import opened Options
  import opened Runs

  /** How a sample of overlap is classed. */
  datatype Kind = Radiated | Vox | Guard

  datatype Split = Split(radiated: nat, vox: nat, guard: nat) {
    function Total(): nat {
      radiated + vox + guard
    }

    function With(kind: Kind): Split {
      match kind
      case Radiated => this.(radiated := radiated + 1)
      case Vox => this.(vox := vox + 1)
      case Guard => this.(guard := guard + 1)
    }

    function Plus(s: Split): Split {
      Split(radiated + s.radiated, vox + s.vox, guard + s.guard)
    }
  }

  const NOTHING := Split(0, 0, 0)

  /** The server's fields. */
  datatype Tally = Tally(bothKeyed: nat, collisions: seq<Run>, since: Option<nat>, overlap: Split,
                         splits: seq<Split>, rfOverlaps: seq<Run>, rfSince: Option<nat>)

  /** A stretch that ended just before `t` goes on; otherwise one begins. */
  function Stretched(runs: seq<Run>, since: Option<nat>, t: nat): seq<Run> {
    if since.None? || t > since.value + 1 || runs == [] then runs + [Run(t, t + 1)]
    else runs[|runs| - 1 := runs[|runs| - 1].(end := t + 1)]
  }

  /** A sample credited to a new stretch, or to the last. */
  function Credited(splits: seq<Split>, opens: bool, kind: Kind): seq<Split> {
    var n := |splits|;
    if opens || n == 0 then splits + [NOTHING.With(kind)] else splits[n - 1 := splits[n - 1].With(kind)]
  }

  /** One sample of overlap at `t`. */
  function Noted(y: Tally, t: nat, kind: Kind): Tally {
    var collisions := Stretched(y.collisions, y.since, t);
    var splits := Credited(y.splits, |collisions| > |y.collisions|, kind);
    var counted := y.(collisions := collisions, since := Some(t), overlap := y.overlap.With(kind), splits := splits);
    if kind != Radiated then counted
    else counted.(rfOverlaps := Stretched(y.rfOverlaps, y.rfSince, t), rfSince := Some(t))
  }

  // ---- what the account says ----

  /** The samples from `a` up to `b` that count, by what they were. */
  function Between(both: seq<bool>, kinds: seq<Kind>, a: nat, b: nat): Split
    requires b <= |both| == |kinds|
  {
    if b <= a then NOTHING
    else
      var before := Between(both, kinds, a, b - 1);
      if both[b - 1] then before.With(kinds[b - 1]) else before
  }

  /** Where two radiated at once. */
  function Radio(both: seq<bool>, kinds: seq<Kind>): (r: seq<bool>)
    requires |both| == |kinds|
    ensures |r| == |both|
  {
    seq(|both|, i requires 0 <= i < |both| => both[i] && kinds[i] == Radiated)
  }

  function Sum(splits: seq<Split>): Split {
    if splits == [] then NOTHING else Sum(splits[..|splits| - 1]).Plus(splits[|splits| - 1])
  }

  /** The stretches are the runs of `flags`, and `since` the last of their samples. */
  ghost predicate Follows(flags: seq<bool>, runs: seq<Run>, since: Option<nat>) {
    && runs == Group(flags, 1)
    && (since.None? <==> runs == [])
    && (since.Some? ==> runs[|runs| - 1].end == since.value + 1)
  }

  ghost predicate Right(y: Tally, both: seq<bool>, kinds: seq<Kind>) {
    && |both| == |kinds|
    && y.bothKeyed == CountTrue(both)
    && Follows(both, y.collisions, y.since)
    && Follows(Radio(both, kinds), y.rfOverlaps, y.rfSince)
    && y.overlap == Between(both, kinds, 0, |both|)
    && EachRight(y.splits, y.collisions, both, kinds)
    && Sum(y.splits) == y.overlap
  }

  /** Each collision's split counts its samples. */
  ghost predicate EachRight(splits: seq<Split>, runs: seq<Run>, both: seq<bool>, kinds: seq<Kind>)
    requires |both| == |kinds|
  {
    && |splits| == |runs|
    && forall i | 0 <= i < |runs| ::
         runs[i].end <= |both| && splits[i] == Between(both, kinds, runs[i].start, runs[i].end)
  }

  // ---- a sample at a time ----

  lemma {:induction false} BetweenGrows(both: seq<bool>, kinds: seq<Kind>, x: bool, k: Kind, a: nat, b: nat)
    requires b <= |both| == |kinds|
    ensures Between(both + [x], kinds + [k], a, b) == Between(both, kinds, a, b)
    decreases b
  {
    if b > a { BetweenGrows(both, kinds, x, k, a, b - 1); }
  }

  lemma FollowsQuiet(flags: seq<bool>, runs: seq<Run>, since: Option<nat>)
    requires Follows(flags, runs, since)
    ensures Follows(flags + [false], runs, since)
  {
    assert (flags + [false])[..|flags|] == flags;
  }

  lemma FollowsTrue(flags: seq<bool>, runs: seq<Run>, since: Option<nat>)
    requires Follows(flags, runs, since)
    ensures Follows(flags + [true], Stretched(runs, since, |flags|), Some(|flags|))
  {
    assert (flags + [true])[..|flags|] == flags;
    if flags != [] { LastGroupEnd(flags, 1); }
  }

  lemma RadioGrows(both: seq<bool>, kinds: seq<Kind>, x: bool, k: Kind)
    requires |both| == |kinds|
    ensures Radio(both + [x], kinds + [k]) == Radio(both, kinds) + [x && k == Radiated]
  {
  }

  lemma QuietIsRight(y: Tally, both: seq<bool>, kinds: seq<Kind>, k: Kind)
    requires Right(y, both, kinds)
    ensures Right(y, both + [false], kinds + [k])
  {
    assert (both + [false])[..|both|] == both;
    FollowsQuiet(both, y.collisions, y.since);
    RadioGrows(both, kinds, false, k);
    FollowsQuiet(Radio(both, kinds), y.rfOverlaps, y.rfSince);
    BetweenGrows(both, kinds, false, k, 0, |both|);
    forall i | 0 <= i < |y.collisions|
      ensures Between(both + [false], kinds + [k], y.collisions[i].start, y.collisions[i].end)
              == Between(both, kinds, y.collisions[i].start, y.collisions[i].end)
    {
      BetweenGrows(both, kinds, false, k, y.collisions[i].start, y.collisions[i].end);
    }
  }

  lemma SumWith(splits: seq<Split>, k: Kind)
    ensures Sum(splits + [NOTHING.With(k)]) == Sum(splits).With(k)
    ensures splits != [] ==>
              var n := |splits| - 1; Sum(splits[n := splits[n].With(k)]) == Sum(splits).With(k)
  {
    assert (splits + [NOTHING.With(k)])[..|splits|] == splits;
    if splits != [] {
      var n := |splits| - 1;
      assert splits[n := splits[n].With(k)][..n] == splits[..n];
    }
  }

  lemma NotedIsRight(y: Tally, both: seq<bool>, kinds: seq<Kind>, k: Kind)
    requires Right(y, both, kinds)
    ensures Right(Noted(y, |both|, k).(bothKeyed := y.bothKeyed + 1), both + [true], kinds + [k])
  {
    assert (both + [true])[..|both|] == both;
    FollowsTrue(both, y.collisions, y.since);
    RadioGrows(both, kinds, true, k);
    if k == Radiated {
      FollowsTrue(Radio(both, kinds), y.rfOverlaps, y.rfSince);
    } else {
      FollowsQuiet(Radio(both, kinds), y.rfOverlaps, y.rfSince);
    }
    BetweenGrows(both, kinds, true, k, 0, |both|);
    NotedSplits(y, both, kinds, k);
    SumWith(y.splits, k);
  }

  lemma NotedSplits(y: Tally, both: seq<bool>, kinds: seq<Kind>, k: Kind)
    requires |both| == |kinds| && Follows(both, y.collisions, y.since)
    requires EachRight(y.splits, y.collisions, both, kinds)
    ensures var after := Noted(y, |both|, k);
            EachRight(after.splits, after.collisions, both + [true], kinds + [k])
  {
    var t, more, kindsNow := |both|, both + [true], kinds + [k];
    var after := Noted(y, t, k);
    forall i | 0 <= i < |y.collisions|
      ensures Between(more, kindsNow, y.collisions[i].start, y.collisions[i].end)
              == Between(both, kinds, y.collisions[i].start, y.collisions[i].end)
    {
      BetweenGrows(both, kinds, true, k, y.collisions[i].start, y.collisions[i].end);
    }
    if both != [] { LastGroupEnd(both, 1); }
    if |after.collisions| > |y.collisions| {
      assert Between(more, kindsNow, t, t) == NOTHING;
    } else {
      var n := |y.collisions| - 1;
      assert y.collisions[n].end == t;
      GroupIsGrouping(both, 1);
      assert Between(more, kindsNow, y.collisions[n].start, t + 1)
             == Between(more, kindsNow, y.collisions[n].start, t).With(k);
    }
  }

  // ---- what it conserves ----

  lemma {:induction false} BetweenIsCount(both: seq<bool>, kinds: seq<Kind>)
    requires |both| == |kinds|
    ensures Between(both, kinds, 0, |both|).Total() == CountTrue(both)
    ensures Between(both, kinds, 0, |both|).radiated == CountTrue(Radio(both, kinds))
  {
    if both != [] {
      var n := |both| - 1;
      BetweenIsCount(both[..n], kinds[..n]);
      BetweenGrows(both[..n], kinds[..n], both[n], kinds[n], 0, n);
      RadioGrows(both[..n], kinds[..n], both[n], kinds[n]);
      assert both == both[..n] + [both[n]] && kinds == kinds[..n] + [kinds[n]];
      assert Radio(both, kinds)[..n] == Radio(both[..n], kinds[..n]);
    }
  }

  /** The samples that count and were of one kind. */
  function OfKind(both: seq<bool>, kinds: seq<Kind>, kind: Kind): (r: seq<bool>)
    requires |both| == |kinds|
    ensures |r| == |both|
    ensures forall i | 0 <= i < |both| :: r[i] <==> both[i] && kinds[i] == kind
  {
    seq(|both|, i requires 0 <= i < |both| => both[i] && kinds[i] == kind)
  }

  /** Each class of a stretch's overlap is the number of its samples of that kind. */
  lemma BetweenByKind(both: seq<bool>, kinds: seq<Kind>, a: nat, b: nat)
    requires a <= b <= |both| == |kinds|
    ensures Between(both, kinds, a, b).radiated == CountTrue(OfKind(both, kinds, Radiated)[a..b])
    ensures Between(both, kinds, a, b).vox == CountTrue(OfKind(both, kinds, Vox)[a..b])
    ensures Between(both, kinds, a, b).guard == CountTrue(OfKind(both, kinds, Guard)[a..b])
  {
    BetweenOfKind(both, kinds, a, b, Radiated);
    BetweenOfKind(both, kinds, a, b, Vox);
    BetweenOfKind(both, kinds, a, b, Guard);
  }

  function Share(s: Split, kind: Kind): nat {
    match kind
    case Radiated => s.radiated
    case Vox => s.vox
    case Guard => s.guard
  }

  lemma {:induction false} BetweenOfKind(both: seq<bool>, kinds: seq<Kind>, a: nat, b: nat, kind: Kind)
    requires a <= b <= |both| == |kinds|
    ensures Share(Between(both, kinds, a, b), kind) == CountTrue(OfKind(both, kinds, kind)[a..b])
    decreases b
  {
    if b > a {
      BetweenOfKind(both, kinds, a, b - 1, kind);
      assert OfKind(both, kinds, kind)[a..b][..b - 1 - a] == OfKind(both, kinds, kind)[a..b - 1];
    }
  }

  lemma {:induction false} BetweenIsLength(both: seq<bool>, kinds: seq<Kind>, a: nat, b: nat)
    requires a <= b <= |both| == |kinds| && forall i | a <= i < b :: both[i]
    ensures Between(both, kinds, a, b).Total() == b - a
    decreases b
  {
    if b > a { BetweenIsLength(both, kinds, a, b - 1); }
  }

  /** No time is lost or counted twice, over any run: what was keyed at once is the length of the
      collisions, the sum of what it was, and the sum over the collisions of what each was; and the
      time radiated at once is the length of its stretches. */
  lemma TimeIsConserved(y: Tally, both: seq<bool>, kinds: seq<Kind>)
    requires Right(y, both, kinds)
    ensures y.bothKeyed == TotalLength(y.collisions) == y.overlap.Total() == Sum(y.splits).Total()
    ensures TotalLength(y.rfOverlaps) == y.overlap.radiated == Sum(y.splits).radiated
  {
    LengthIsCount(both);
    LengthIsCount(Radio(both, kinds));
    BetweenIsCount(both, kinds);
  }

  /** Each collision is a longest stretch of overlap, and its split counts its samples by their kinds,
      which add up to its length. */
  lemma CollisionIsWhole(y: Tally, both: seq<bool>, kinds: seq<Kind>, i: nat)
    requires Right(y, both, kinds) && i < |y.collisions|
    ensures IsMaximal(both, y.collisions[i])
    ensures y.splits[i].Total() == y.collisions[i].end - y.collisions[i].start
    ensures var r, split := y.collisions[i], y.splits[i];
            && split.radiated == CountTrue(OfKind(both, kinds, Radiated)[r.start..r.end])
            && split.vox == CountTrue(OfKind(both, kinds, Vox)[r.start..r.end])
            && split.guard == CountTrue(OfKind(both, kinds, Guard)[r.start..r.end])
  {
    var r := y.collisions[i];
    assert r in Group(both, 1);
    GroupsAreMaximalRuns(both, r);
    BetweenByKind(both, kinds, r.start, r.end);
    BetweenIsLength(both, kinds, r.start, r.end);
  }

  /** And every longest stretch of overlap is a collision; every longest one of signal from two, a
      stretch radiated at once. */
  lemma EveryStretchIsNoted(y: Tally, both: seq<bool>, kinds: seq<Kind>, r: Run)
    requires Right(y, both, kinds)
    ensures r in y.collisions <==> IsMaximal(both, r)
    ensures r in y.rfOverlaps <==> IsMaximal(OfKind(both, kinds, Radiated), r)
    ensures Apart(y.collisions, 1) && Apart(y.rfOverlaps, 1)
  {
    assert Radio(both, kinds) == OfKind(both, kinds, Radiated);
    GroupsAreMaximalRuns(both, r);
    GroupsAreMaximalRuns(Radio(both, kinds), r);
    GroupIsGrouping(both, 1);
    GroupIsGrouping(Radio(both, kinds), 1);
  }

  /** The radiated stretches lie within the collisions. */
  lemma RadioWithin(y: Tally, both: seq<bool>, kinds: seq<Kind>, t: nat)
    requires Right(y, both, kinds) && Covered(y.rfOverlaps, t)
    ensures Covered(y.collisions, t)
  {
    var i :| 0 <= i < |y.rfOverlaps| && y.rfOverlaps[i].start <= t < y.rfOverlaps[i].end;
    assert y.rfOverlaps[i] in Group(Radio(both, kinds), 1);
    GroupsAreMaximalRuns(Radio(both, kinds), y.rfOverlaps[i]);
    assert Radio(both, kinds)[t];
    GroupIsGrouping(both, 1);
    assert both[t];
  }

  // ---- who is on at once ----

  /** Two of the rows at once. */
  ghost predicate Two(rows: seq<seq<bool>>, k: nat)
    requires forall r <- rows :: k < |r|
  {
    exists i, j | 0 <= i < j < |rows| :: rows[i][k] && rows[j][k]
  }

  ghost predicate Any(rows: seq<seq<bool>>, k: nat)
    requires forall r <- rows :: k < |r|
  {
    exists i | 0 <= i < |rows| :: rows[i][k]
  }

  ghost predicate TwoTrue(flags: seq<bool>) {
    exists i, j | 0 <= i < j < |flags| :: flags[i] && flags[j]
  }

  ghost predicate AnyTrue(flags: seq<bool>) {
    exists i | 0 <= i < |flags| :: flags[i]
  }

  lemma TwoFlags(rows: seq<seq<bool>>, k: nat, flags: seq<bool>)
    requires |flags| == |rows| && forall r <- rows :: k < |r|
    requires forall i | 0 <= i < |rows| :: rows[i][k] == flags[i]
    ensures Two(rows, k) == TwoTrue(flags)
  {
  }

  lemma AnyFlags(rows: seq<seq<bool>>, k: nat, flags: seq<bool>)
    requires |flags| == |rows| && forall r <- rows :: k < |r|
    requires forall i | 0 <= i < |rows| :: rows[i][k] == flags[i]
    ensures Any(rows, k) == AnyTrue(flags)
  {
  }

  function HowMany(rows: seq<seq<bool>>, k: nat): nat
    requires forall r <- rows :: k < |r|
  {
    if rows == [] then 0
    else HowMany(rows[..|rows| - 1], k) + if rows[|rows| - 1][k] then 1 else 0
  }

  lemma {:induction false} HowManyMeans(rows: seq<seq<bool>>, k: nat)
    requires forall r <- rows :: k < |r|
    ensures HowMany(rows, k) >= 1 <==> Any(rows, k)
    ensures HowMany(rows, k) >= 2 <==> Two(rows, k)
  {
    if rows != [] {
      var n := |rows| - 1;
      HowManyMeans(rows[..n], k);
      if Any(rows[..n], k) {
        var i :| 0 <= i < n && rows[..n][i][k];
        assert rows[i][k];
      }
      if Two(rows[..n], k) {
        var i, j :| 0 <= i < j < n && rows[..n][i][k] && rows[..n][j][k];
        assert rows[i][k] && rows[j][k];
      }
      if Two(rows, k) && !Two(rows[..n], k) {
        var i, j :| 0 <= i < j < |rows| && rows[i][k] && rows[j][k];
        assert rows[..n][i][k];
      }
    }
  }

  method Count(rows: seq<seq<bool>>, k: nat) returns (c: nat)
    requires forall r <- rows :: k < |r|
    ensures c == HowMany(rows, k)
  {
    c := 0;
    for i := 0 to |rows|
      invariant c == HowMany(rows[..i], k)
    {
      assert rows[..i + 1][..i] == rows[..i];
      if rows[i][k] { c := c + 1; }
    }
    assert rows[..|rows|] == rows;
  }

  /** Where at least two rows are on. */
  method AtLeastTwo(rows: seq<seq<bool>>, n: nat) returns (two: seq<bool>)
    requires forall r <- rows :: |r| == n
    ensures |two| == n && forall k: nat | k < n :: two[k] == Two(rows, k)
  {
    two := [];
    for k := 0 to n
      invariant |two| == k && forall j: nat | j < k :: two[j] == Two(rows, j)
    {
      var c := Count(rows, k);
      HowManyMeans(rows, k);
      two := two + [c >= 2];
    }
  }

  /** Where any row is on. */
  method AnyOf(rows: seq<seq<bool>>, n: nat) returns (any: seq<bool>)
    requires forall r <- rows :: |r| == n
    ensures |any| == n && forall k: nat | k < n :: any[k] == Any(rows, k)
  {
    any := [];
    for k := 0 to n
      invariant |any| == k && forall j: nat | j < k :: any[j] == Any(rows, j)
    {
      var c := Count(rows, k);
      HowManyMeans(rows, k);
      any := any + [c >= 1];
    }
  }

  /** What a sample of overlap is, radiated first. */
  function KindOf(radiated: bool, held: bool): Kind {
    if radiated then Radiated else if held then Vox else Guard
  }

  lemma {:induction false} CountMore(a: seq<bool>, b: seq<bool>)
    ensures CountTrue(a + b) == CountTrue(a) + CountTrue(b)
  {
    if b == [] {
      assert a + b == a;
    } else {
      var n := |b| - 1;
      assert (a + b)[..|a + b| - 1] == a + b[..n];
      CountMore(a, b[..n]);
    }
  }

  lemma OneMore<T>(before: seq<T>, s: seq<T>, i: nat)
    requires i < |s|
    ensures before + s[..i] + [s[i]] == before + s[..i + 1]
  {
  }

  // ---- the account, kept in place ----

  /** The server's fields for it, and all it has counted so far. */
  class Overlaps {
    var bothKeyed: nat
    var collisions: seq<Run>
    var collidingSince: Option<nat>
    var overlap: Split
    var collisionSplit: seq<Split>
    var rfOverlaps: seq<Run>
    var rfSince: Option<nat>
    ghost var both: seq<bool>
    ghost var kinds: seq<Kind>

    constructor ()
      ensures Valid() && both == []
    {
      bothKeyed, collisions, collidingSince := 0, [], None;
      overlap, collisionSplit, rfOverlaps, rfSince := NOTHING, [], [], None;
      both, kinds := [], [];
    }

    ghost function Now(): Tally
      reads this
    {
      Tally.Tally(bothKeyed, collisions, collidingSince, overlap, collisionSplit, rfOverlaps, rfSince)
    }

    ghost predicate Valid()
      reads this
    {
      Right(Now(), both, kinds)
    }

    /** One sample of overlap, at `at`. */
    method Note(at: nat, kind: Kind)
      requires collisions == [] <==> collidingSince.None?
      requires rfOverlaps == [] <==> rfSince.None?
      requires |collisionSplit| == |collisions|
      modifies this`collisions, this`collidingSince, this`overlap, this`collisionSplit
      modifies this`rfOverlaps, this`rfSince
      ensures Now() == Noted(old(Now()), at, kind)
    {
      NoteCollision(at, kind);
      overlap := overlap.With(kind);
      if kind == Radiated { NoteRadio(at); }
    }

    method NoteCollision(at: nat, kind: Kind)
      requires collisions == [] <==> collidingSince.None?
      requires |collisionSplit| == |collisions|
      modifies this`collisions, this`collidingSince, this`collisionSplit
      ensures collisions == Stretched(old(collisions), old(collidingSince), at) && collidingSince == Some(at)
      ensures collisionSplit == Credited(old(collisionSplit), |collisions| > |old(collisions)|, kind)
    {
      if collidingSince.None? || at > collidingSince.value + 1 {
        collisions := collisions + [Run(at, at + 1)];
        collisionSplit := collisionSplit + [NOTHING];
      }
      var n := |collisions| - 1;
      collisions := collisions[n := collisions[n].(end := at + 1)];
      collidingSince := Some(at);
      collisionSplit := collisionSplit[n := collisionSplit[n].With(kind)];
    }

    method NoteRadio(at: nat)
      requires rfOverlaps == [] <==> rfSince.None?
      modifies this`rfOverlaps, this`rfSince
      ensures rfOverlaps == Stretched(old(rfOverlaps), old(rfSince), at) && rfSince == Some(at)
    {
      if rfSince.None? || at > rfSince.value + 1 {
        rfOverlaps := rfOverlaps + [Run(at, at + 1)];
      }
      var m := |rfOverlaps| - 1;
      rfOverlaps := rfOverlaps[m := rfOverlaps[m].(end := at + 1)];
      rfSince := Some(at);
    }

    /** A tick of it from air sample `t` on: which samples count, and what each was. */
    method CountTick(t: nat, now: seq<bool>, what: seq<Kind>)
      requires Valid() && t == |both| && |now| == |what|
      modifies this
      ensures Valid() && both == old(both) + now && kinds == old(kinds) + what
    {
      CountMore(both, now);
      bothKeyed := bothKeyed + CountTrue(now);
      CountSamples(t, now, what);
    }

    /** Its samples, one by one; the total is added apart. */
    method CountSamples(t: nat, now: seq<bool>, what: seq<Kind>)
      requires Right(Now().(bothKeyed := CountTrue(both)), both, kinds)
      requires t == |both| && |now| == |what|
      modifies this`collisions, this`collidingSince, this`overlap, this`collisionSplit
      modifies this`rfOverlaps, this`rfSince, this`both, this`kinds
      ensures Right(Now().(bothKeyed := CountTrue(both)), both, kinds)
      ensures both == old(both) + now && kinds == old(kinds) + what
    {
      for i := 0 to |now|
        invariant both == old(both) + now[..i] && kinds == old(kinds) + what[..i]
        invariant Right(Now().(bothKeyed := CountTrue(both)), both, kinds)
      {
        OneMore(old(both), now, i);
        OneMore(old(kinds), what, i);
        CountSample(t + i, now[i], what[i]);
      }
      assert now[..|now|] == now && what[..|what|] == what;
    }

    method CountSample(at: nat, counts: bool, kind: Kind)
      requires at == |both| && Right(Now().(bothKeyed := CountTrue(both)), both, kinds)
      modifies this`collisions, this`collidingSince, this`overlap, this`collisionSplit
      modifies this`rfOverlaps, this`rfSince, this`both, this`kinds
      ensures both == old(both) + [counts] && kinds == old(kinds) + [kind]
      ensures Right(Now().(bothKeyed := CountTrue(both)), both, kinds)
    {
      ghost var y := Now().(bothKeyed := CountTrue(both));
      CountMore(both, [counts]);
      if counts {
        NotedIsRight(y, both, kinds, kind);
        Note(at, kind);
      } else {
        QuietIsRight(y, both, kinds, kind);
      }
      both, kinds := both + [counts], kinds + [kind];
    }
  }
}
