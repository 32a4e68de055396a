/**
 The run and burst extraction of tools/floor_trace.py, tools/tx_envelope.py and
 tools/turnaround_plot.py: each loop against the groups of `Runs`. Levels are exact reals, and
 a recording's quiet and steady levels (a percentile, a median) are given.
 */
module Recordings {
  import opened Options
  import opened Rounding
  import opened Runs

  const BURST_MARGIN_DB := 10.0
  const BRIDGE_S := 0.3
  const MIN_BURST_S := 0.3
  const HOLE_DB := 15.0
  const HOLE_MIN_S := 0.02
  const SILENCE_DBFS := -70.0
  const MIN_SILENCE_S := 0.2

  function Above(levels: seq<real>, threshold: real): (flags: seq<bool>)
    ensures |flags| == |levels| && forall i | 0 <= i < |levels| :: flags[i] <==> levels[i] > threshold
  {
    seq(|levels|, i requires 0 <= i < |levels| => levels[i] > threshold)
  }

  function Below(levels: seq<real>, threshold: real): (flags: seq<bool>)
    ensures |flags| == |levels| && forall i | 0 <= i < |levels| :: flags[i] <==> levels[i] < threshold
  {
    seq(|levels|, i requires 0 <= i < |levels| => levels[i] < threshold)
  }

  /** How long `steps` positions are at `stepS` seconds each. */
  function Seconds(steps: int, stepS: real): real {
    steps as real * stepS
  }

  predicate Lasts(r: Run, stepS: real, least: real) {
    Seconds(r.end - r.start, stepS) >= least
  }

  /** Runs of true, as half-open index pairs (floor_trace.py). */
  method Spans(flag: seq<bool>) returns (out: seq<Run>)
    ensures out == Group(flag, 1)
  {
    var start: Option<nat> := None;
    out := [];
    for i := 0 to |flag|
      invariant i > 0 ==> (flag[i - 1] <==> start.Some?)
      invariant start.Some? ==> start.value < i
      invariant Group(flag[..i], 1) == if start.None? then out else out + [Run(start.value, i)]
    {
      if flag[i] && start.None? {
        if i > 0 { LastGroupEnd(flag[..i], 1); }
        GroupOpens(flag, i, 1, out);
        start := Some(i);
      } else if !flag[i] && start.Some? {
        GroupQuiet(flag, i, 1);
        out := out + [Run(start.value, i)];
        start := None;
      } else if flag[i] {
        GroupGrows(flag, i, 1, out, Run(start.value, i));
      } else {
        GroupQuiet(flag, i, 1);
      }
    }
    assert flag[..|flag|] == flag;
    if start.Some? {
      out := out + [Run(start.value, |flag|)];
    }
  }

  /** The whole number of steps nearest to three tenths of a second. */
  function BridgeSteps(stepS: real): (n: nat)
    requires stepS > 0.0
    ensures -stepS <= 2.0 * (n as real * stepS - 0.3) <= stepS
  {
    var n := RoundHalfEven(BRIDGE_S / stepS);
    assert BRIDGE_S / stepS > 0.0;
    NearestSteps(BRIDGE_S, stepS, BRIDGE_S / stepS, n as real);
    n
  }

  lemma NearestSteps(length: real, stepS: real, steps: real, n: real)
    requires stepS > 0.0 && steps == length / stepS && -0.5 <= steps - n <= 0.5
    ensures -stepS <= 2.0 * (n * stepS - length) <= stepS
  {
    assert steps * stepS == length;
    var d := n - steps;
    assert n * stepS - length == d * stepS;
    assert -0.5 * stepS <= d * stepS <= 0.5 * stepS;
  }

  /** The step ranges that carry a burst: groups of loud steps bridged over `BRIDGE_S`, less
      the ones too short (tx_envelope.py). */
  method FindBursts(rms: seq<real>, quiet: real, stepS: real) returns (bursts: seq<Run>)
    requires stepS > 0.0
    ensures bursts == Keep(Group(Above(rms, quiet + BURST_MARGIN_DB), BridgeSteps(stepS)),
                           r => Lasts(r, stepS, MIN_BURST_S))
  {
    bursts := BurstsOf(Above(rms, quiet + BURST_MARGIN_DB), BridgeSteps(stepS), stepS);
  }

  method BurstsOf(loud: seq<bool>, bridge: nat, stepS: real) returns (bursts: seq<Run>)
    ensures bursts == Keep(Group(loud, bridge), r => Lasts(r, stepS, MIN_BURST_S))
  {
    var long := r => Lasts(r, stepS, MIN_BURST_S);
    bursts := [];
    var i := 0;
    while i < |loud|
      invariant 0 <= i <= |loud|
      invariant bursts == Keep(Group(loud[..i], bridge), long)
      invariant Closed(loud, Group(loud[..i], bridge), i, bridge)
    {
      ghost var found := Group(loud[..i], bridge);
      if !loud[i] {
        GroupQuiet(loud, i, bridge);
        i := i + 1;
        continue;
      }
      var end := BurstEnd(loud, i, bridge, found);
      KeepOneMore(found, Run(i, end), long);
      if Seconds(end - i, stepS) >= MIN_BURST_S {
        bursts := bursts + [Run(i, end)];
      }
      i := end;
    }
    assert loud[..i] == loud;
  }

  /** The inner loop: how far the burst that opens at `i` reaches over quiet gaps. */
  method BurstEnd(loud: seq<bool>, i: nat, bridge: nat, ghost found: seq<Run>) returns (end: nat)
    requires i < |loud| && loud[i] && found == Group(loud[..i], bridge)
    requires Closed(loud, found, i, bridge)
    ensures i < end <= |loud|
    ensures Group(loud[..end], bridge) == found + [Run(i, end)]
    ensures Closed(loud, found + [Run(i, end)], end, bridge)
  {
    GroupOpens(loud, i, bridge, found);
    var j := i;
    var last := i;
    while j < |loud| && j - last <= bridge
      invariant i <= last <= j <= |loud| && (last < j || j == i)
      invariant j > i ==> Group(loud[..j], bridge) == found + [Run(i, last + 1)]
      invariant forall k | last < k < j :: !loud[k]
    {
      if loud[j] {
        if j > i { GroupGrows(loud, j, bridge, found, Run(i, last + 1)); }
        last := j;
      } else {
        GroupQuiet(loud, j, bridge);
      }
      j := j + 1;
    }
    GroupUpTo(loud, last + 1, j, bridge);
    end := last + 1;
  }

  /** Nothing from `i` on can still join the groups found before it. */
  ghost predicate Closed(loud: seq<bool>, found: seq<Run>, i: nat, bridge: nat) {
    found != [] ==>
      forall k | i <= k < |loud| && k - (found[|found| - 1].end - 1) <= bridge :: !loud[k]
  }

  /** The times of the ends of the silent stretches long enough to be transmissions, of those
      something follows (turnaround_plot.py). */
  method DetectReleases(levels: seq<real>, stepS: real) returns (releases: seq<real>)
    ensures releases == ReleaseTimes(Group(Below(levels, SILENCE_DBFS), 1), |levels|, stepS)
  {
    releases := ReleasesOf(Below(levels, SILENCE_DBFS), stepS);
  }

  method ReleasesOf(silent: seq<bool>, stepS: real) returns (releases: seq<real>)
    ensures releases == ReleaseTimes(Group(silent, 1), |silent|, stepS)
  {
    releases := [];
    var run := 0;
    ghost var done := [];
    for i := 0 to |silent|
      invariant 0 <= run <= i
      invariant i > 0 ==> (silent[i - 1] <==> run > 0)
      invariant Group(silent[..i], 1) == if run > 0 then done + [Run(i - run, i)] else done
      invariant releases == ReleaseTimes(done, |silent|, stepS)
    {
      if silent[i] {
        if run == 0 {
          if i > 0 { LastGroupEnd(silent[..i], 1); }
          GroupOpens(silent, i, 1, done);
        } else {
          GroupGrows(silent, i, 1, done, Run(i - run, i));
        }
        run := run + 1;
        continue;
      }
      GroupQuiet(silent, i, 1);
      if run > 0 {
        ReleaseOneMore(done, Run(i - run, i), |silent|, stepS);
        done := done + [Run(i - run, i)];
      }
      if Seconds(run, stepS) >= MIN_SILENCE_S {
        releases := releases + [Seconds(i, stepS)];
      }
      run := 0;
    }
    assert silent[..|silent|] == silent;
    if run > 0 { ReleaseOneMore(done, Run(|silent| - run, |silent|), |silent|, stepS); }
  }

  function ReleaseTimes(runs: seq<Run>, n: nat, stepS: real): seq<real> {
    if runs == [] then []
    else
      var before, r := ReleaseTimes(runs[..|runs| - 1], n, stepS), runs[|runs| - 1];
      if IsRelease(r, n, stepS) then before + [Seconds(r.end, stepS)] else before
  }

  predicate IsRelease(r: Run, n: nat, stepS: real) {
    r.end < n && Lasts(r, stepS, MIN_SILENCE_S)
  }

  lemma ReleaseOneMore(runs: seq<Run>, r: Run, n: nat, stepS: real)
    ensures ReleaseTimes(runs + [r], n, stepS)
         == if IsRelease(r, n, stepS) then ReleaseTimes(runs, n, stepS) + [Seconds(r.end, stepS)]
            else ReleaseTimes(runs, n, stepS)
  {
    assert (runs + [r])[..|runs|] == runs && (runs + [r])[|runs|] == r;
  }

  /** The holes of a burst: its low stretches long enough that neither begin nor end it
      (tx_envelope.py's `analyse`), as offsets and lengths in seconds, to the millisecond. */
  method Holes(segment: seq<real>, steady: real, stepS: real) returns (holes: seq<(real, real)>)
    ensures holes == HoleTimes(Group(Below(segment, steady - HOLE_DB), 1), |segment|, stepS)
  {
    holes := HolesOf(Below(segment, steady - HOLE_DB), stepS);
  }

  method HolesOf(low: seq<bool>, stepS: real) returns (holes: seq<(real, real)>)
    ensures holes == HoleTimes(Group(low, 1), |low|, stepS)
  {
    holes := [];
    var holeSince: Option<nat> := None;
    ghost var done := [];
    for k := 0 to |low|
      invariant k > 0 ==> (low[k - 1] <==> holeSince.Some?)
      invariant holeSince.Some? ==> holeSince.value < k
      invariant Group(low[..k], 1)
             == if holeSince.None? then done else done + [Run(holeSince.value, k)]
      invariant holes == HoleTimes(done, |low|, stepS)
    {
      if low[k] && holeSince.None? {
        if k > 0 { LastGroupEnd(low[..k], 1); }
        GroupOpens(low, k, 1, done);
        holeSince := Some(k);
      } else if low[k] {
        GroupGrows(low, k, 1, done, Run(holeSince.value, k));
      } else {
        GroupQuiet(low, k, 1);
        if holeSince.Some? {
          var since := holeSince.value;
          HoleOneMore(done, Run(since, k), |low|, stepS);
          done := done + [Run(since, k)];
          var length := Seconds(k - since, stepS);
          if length >= HOLE_MIN_S && since > 0 {
            holes := holes + [(Milli(Seconds(since, stepS)), Milli(length))];
          }
          holeSince := None;
        }
      }
    }
    assert low[..|low|] == low;
    if holeSince.Some? { HoleOneMore(done, Run(holeSince.value, |low|), |low|, stepS); }
  }

  function HoleTimes(runs: seq<Run>, n: nat, stepS: real): seq<(real, real)> {
    if runs == [] then []
    else
      var before, r := HoleTimes(runs[..|runs| - 1], n, stepS), runs[|runs| - 1];
      if IsHole(r, n, stepS) then before + [HoleTime(r, stepS)] else before
  }

  /** To three decimals. */
  function Milli(x: real): real {
    RoundHalfEven(x * 1000.0) as real / 1000.0
  }

  predicate IsHole(r: Run, n: nat, stepS: real) {
    0 < r.start && r.end < n && Lasts(r, stepS, HOLE_MIN_S)
  }

  function HoleTime(r: Run, stepS: real): (real, real) {
    (Milli(Seconds(r.start, stepS)), Milli(Seconds(r.end - r.start, stepS)))
  }

  lemma HoleOneMore(runs: seq<Run>, r: Run, n: nat, stepS: real)
    ensures HoleTimes(runs + [r], n, stepS)
         == if IsHole(r, n, stepS) then HoleTimes(runs, n, stepS) + [HoleTime(r, stepS)]
            else HoleTimes(runs, n, stepS)
  {
    assert (runs + [r])[..|runs|] == runs && (runs + [r])[|runs|] == r;
  }

  /** Bursts are bridged groups, in order and more than the bridge apart. */
  lemma BurstsAreApart(loud: seq<bool>, bridge: nat, stepS: real)
    ensures var bursts := Keep(Group(loud, bridge), r => Lasts(r, stepS, MIN_BURST_S));
            && Apart(bursts, bridge)
            && forall r <- bursts ::
                 && r.start < r.end <= |loud| && loud[r.start] && loud[r.end - 1]
                 && Connected(loud, bridge, r) && Lasts(r, stepS, MIN_BURST_S)
  {
    var groups, long := Group(loud, bridge), r => Lasts(r, stepS, MIN_BURST_S);
    KeepMembers(groups, long);
    forall r | r in groups
      ensures r.start < r.end <= |loud| && loud[r.start] && loud[r.end - 1] && Connected(loud, bridge, r)
    {
      GroupIsWhole(loud, bridge, r);
    }
    assert Apart(groups, bridge) by { GroupIsGrouping(loud, bridge); }
    KeepApart(groups, long, bridge);
  }

  lemma GroupIsWhole(loud: seq<bool>, bridge: nat, r: Run)
    requires r in Group(loud, bridge)
    ensures r.start < r.end <= |loud| && loud[r.start] && loud[r.end - 1] && Connected(loud, bridge, r)
  {
    var i :| 0 <= i < |Group(loud, bridge)| && Group(loud, bridge)[i] == r;
    GroupIsGrouping(loud, bridge);
  }

  /** Every loud step is in a burst, or in a group too short to be one. */
  lemma BurstsAccountForLoudSteps(loud: seq<bool>, bridge: nat, stepS: real, k: nat)
    requires k < |loud| && loud[k]
    ensures exists r <- Group(loud, bridge) ::
              && r.start <= k < r.end
              && (r in Keep(Group(loud, bridge), r => Lasts(r, stepS, MIN_BURST_S))
                  || !Lasts(r, stepS, MIN_BURST_S))
  {
    var groups, long := Group(loud, bridge), r => Lasts(r, stepS, MIN_BURST_S);
    GroupIsGrouping(loud, bridge);
    KeepMembers(groups, long);
    assert Covered(groups, k);
    var i :| 0 <= i < |groups| && groups[i].start <= k < groups[i].end;
    assert groups[i] in groups;
  }

  /** A release is exactly a step that is not silent, ends a silent stretch, and finds it long
      enough. */
  lemma ReleasesEndSilence(silent: seq<bool>, stepS: real, i: nat)
    requires i < |silent|
    ensures (exists r <- Group(silent, 1) :: r.end == i && IsRelease(r, |silent|, stepS))
       <==> (exists s: nat | s < i :: IsMaximal(silent, Run(s, i)) && !silent[i]
               && Lasts(Run(s, i), stepS, MIN_SILENCE_S))
  {
    forall s: nat | s < i ensures Run(s, i) in Group(silent, 1) <==> IsMaximal(silent, Run(s, i)) {
      GroupsAreMaximalRuns(silent, Run(s, i));
    }
    if r :| r in Group(silent, 1) && r.end == i && IsRelease(r, |silent|, stepS) {
      GroupsAreMaximalRuns(silent, r);
      assert r == Run(r.start, i);
    }
  }

  // ---- the lists, stretch by stretch ----

  /** The times of the releases are those of the ends of the stretches that end in one, in order: the
      maximal silent ones with something after them, a fifth of a second long or more. */
  lemma ReleasesAreOfStretches(silent: seq<bool>, stepS: real)
    ensures var n := |silent|;
            var ending := Keep(Group(silent, 1), r => IsRelease(r, n, stepS));
            && Apart(ending, 1)
            && |ReleaseTimes(Group(silent, 1), n, stepS)| == |ending|
            && (forall k | 0 <= k < |ending| ::
                  ReleaseTimes(Group(silent, 1), n, stepS)[k] == ending[k].end as real * stepS)
            && forall r :: r in ending
                 <==> IsMaximal(silent, r) && r.end < n && (r.end - r.start) as real * stepS >= 0.2
  {
    var groups, kept := Group(silent, 1), r => IsRelease(r, |silent|, stepS);
    KeptStretches(silent, kept);
    ReleaseTimesOfKept(groups, |silent|, stepS);
    forall r ensures r in Keep(groups, kept) <==> IsMaximal(silent, r) && IsRelease(r, |silent|, stepS) {
      assert r in Keep(groups, kept) <==> IsMaximal(silent, r) && kept(r);
    }
  }

  lemma KeptStretches(flags: seq<bool>, kept: Run -> bool)
    ensures Apart(Keep(Group(flags, 1), kept), 1)
    ensures forall r :: r in Keep(Group(flags, 1), kept) <==> IsMaximal(flags, r) && kept(r)
  {
    var groups := Group(flags, 1);
    assert Apart(groups, 1) by { GroupIsGrouping(flags, 1); }
    KeepApart(groups, kept, 1);
    KeepMembers(groups, kept);
    forall r ensures r in groups <==> IsMaximal(flags, r) {
      GroupsAreMaximalRuns(flags, r);
    }
  }

  lemma {:induction false} ReleaseTimesOfKept(runs: seq<Run>, n: nat, stepS: real)
    ensures var ending := Keep(runs, r => IsRelease(r, n, stepS));
            && |ReleaseTimes(runs, n, stepS)| == |ending|
            && forall k | 0 <= k < |ending| :: ReleaseTimes(runs, n, stepS)[k] == ending[k].end as real * stepS
  {
    if runs != [] { ReleaseTimesOfKept(runs[..|runs| - 1], n, stepS); }
  }

  /** The holes of a burst are, in order, the offsets and lengths to the millisecond of its low
      stretches: the maximal ones that neither begin nor end it, a fiftieth of a second long or more. */
  lemma HolesAreStretches(low: seq<bool>, stepS: real)
    ensures var n := |low|;
            var stretches := Keep(Group(low, 1), r => IsHole(r, n, stepS));
            && Apart(stretches, 1)
            && |HoleTimes(Group(low, 1), n, stepS)| == |stretches|
            && (forall k | 0 <= k < |stretches| ::
                  HoleTimes(Group(low, 1), n, stepS)[k]
                  == (Milli(stretches[k].start as real * stepS),
                      Milli((stretches[k].end - stretches[k].start) as real * stepS)))
            && forall r :: r in stretches
                 <==> IsMaximal(low, r) && 0 < r.start && r.end < n && (r.end - r.start) as real * stepS >= 0.02
  {
    var groups, kept := Group(low, 1), r => IsHole(r, |low|, stepS);
    KeptStretches(low, kept);
    HoleTimesOfKept(groups, |low|, stepS);
    forall r ensures r in Keep(groups, kept) <==> IsMaximal(low, r) && IsHole(r, |low|, stepS) {
      assert r in Keep(groups, kept) <==> IsMaximal(low, r) && kept(r);
    }
  }

  lemma {:induction false} HoleTimesOfKept(runs: seq<Run>, n: nat, stepS: real)
    ensures var stretches := Keep(runs, r => IsHole(r, n, stepS));
            && |HoleTimes(runs, n, stepS)| == |stretches|
            && forall k | 0 <= k < |stretches| :: HoleTimes(runs, n, stepS)[k] == HoleTime(stretches[k], stepS)
  {
    if runs != [] { HoleTimesOfKept(runs[..|runs| - 1], n, stepS); }
  }

  /** Rounding to the millisecond moves a time by half of one at most, to a whole number of them. */
  lemma MilliIsNearest(x: real)
    ensures -0.5 <= 1000.0 * (Milli(x) - x) <= 0.5
    ensures exists n: int {:trigger n as real} :: 1000.0 * Milli(x) == n as real
  {
    var n := RoundHalfEven(x * 1000.0);
    assert 1000.0 * Milli(x) == n as real;
  }
}
