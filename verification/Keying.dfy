/**
 When a station is keyed on the air (tools/channel_server.py): its own keyed samples bridged over
 its VOX's hold, what of that radiates, and where its receiver hears nothing. `own` is the
 station's own keyed flag for every air sample so far.
 */
module Keying {
  import opened Bytes
  import opened Options
  import opened Runs

  /** What `last_keyed` starts from. */
  const NEVER: int := -1_000_000_000_000

  /** Louder than one part in 10^9, as a 32-bit float's bits: NaN is not. */
  predicate Loud(w: Word) {
    0x3089_705F < w % 0x8000_0000 <= 0x7F80_0000
  }

  function LastKeyed(own: seq<bool>): int {
    if own == [] then NEVER
    else if own[|own| - 1] then |own| - 1
    else LastKeyed(own[..|own| - 1])
  }

  /** The transmitter is on at `t`: keyed, or held by the VOX. */
  predicate OnAt(own: seq<bool>, hold: nat, t: nat)
    requires t < |own|
  {
    t - LastKeyed(own[..t + 1]) <= hold
  }

  /** The sample at `t` radiates: it is keyed, and the transmitter came on `delay` before. */
  predicate RadiatesAt(own: seq<bool>, hold: nat, delay: nat, t: nat)
    requires t < |own|
  {
    own[t] && t - Current(own[..t + 1], hold).start >= delay
  }

  /** The last keyed interval. */
  function Current(own: seq<bool>, hold: nat): Run
    requires own != [] && own[|own| - 1]
  {
    LastGroupEnd(own, hold + 1);
    var runs := Group(own, hold + 1);
    runs[|runs| - 1]
  }

  /** The fields that track the key, after the samples `own`. */
  ghost predicate Tracks(own: seq<bool>, hold: nat, since: Option<nat>, last: int, intervals: seq<Run>) {
    && intervals == Group(own, hold + 1)
    && last == LastKeyed(own)
    && (last >= 0 ==> intervals != [] && intervals[|intervals| - 1].end == last + 1)
    && (last < 0 ==> intervals == [])
    && (since.Some? <==> last >= 0 && |own| - 1 - last <= hold)
    && (since.Some? ==> since.value == intervals[|intervals| - 1].start)
  }

  lemma LastKeyedBounds(own: seq<bool>)
    ensures LastKeyed(own) < |own|
    ensures LastKeyed(own) >= 0 || LastKeyed(own) == NEVER
    ensures LastKeyed(own) >= 0 ==> own[LastKeyed(own)]
    ensures forall s | 0 <= s < |own| && own[s] :: s <= LastKeyed(own)
  {
    if own != [] { LastKeyedBounds(own[..|own| - 1]); }
  }

  lemma NeverKeyed(hold: nat)
    ensures Tracks([], hold, None, NEVER, [])
  {
  }

  /** A keyed sample after the key came up opens an interval. */
  lemma KeyDown(own: seq<bool>, t: nat, hold: nat, last: int, intervals: seq<Run>)
    requires t < |own| && own[t] && Tracks(own[..t], hold, None, last, intervals)
    ensures Tracks(own[..t + 1], hold, Some(t), t, intervals + [Run(t, t + 1)])
  {
    assert own[..t + 1][..t] == own[..t];
    LastKeyedBounds(own[..t]);
    GroupOpens(own, t, hold + 1, intervals);
  }

  /** A keyed sample while the key is held extends the interval. */
  lemma KeyHeld(own: seq<bool>, t: nat, hold: nat, since: nat, last: int, intervals: seq<Run>)
    requires t < |own| && own[t] && Tracks(own[..t], hold, Some(since), last, intervals)
    ensures var n := |intervals| - 1;
            Tracks(own[..t + 1], hold, Some(since), t, intervals[n := intervals[n].(end := t + 1)])
  {
    var n := |intervals| - 1;
    assert own[..t + 1][..t] == own[..t];
    assert intervals == intervals[..n] + [intervals[n]];
    GroupGrows(own, t, hold + 1, intervals[..n], intervals[n]);
  }

  /** A sample not keyed lets the hold run, and ends it when it has. */
  lemma KeyUp(own: seq<bool>, t: nat, hold: nat, since: Option<nat>, last: int, intervals: seq<Run>)
    requires t < |own| && !own[t] && Tracks(own[..t], hold, since, last, intervals)
    ensures Tracks(own[..t + 1], hold, if t - last > hold then None else since, last, intervals)
  {
    assert own[..t + 1][..t] == own[..t];
    LastKeyedBounds(own[..t]);
    GroupQuiet(own, t, hold + 1);
  }

  // ---- what it means ----

  ghost predicate KeyedWithin(own: seq<bool>, t: nat, reach: int)
    requires t < |own|
  {
    exists s | 0 <= s <= t :: own[s] && t - s <= reach
  }

  ghost predicate KeyedLater(own: seq<bool>, t: nat) {
    exists s | t < s < |own| :: own[s]
  }

  /** On exactly within the hold of a keyed sample (a hold of 10^12 samples, 241 days, reaches the
      starting value). */
  lemma OnMeans(own: seq<bool>, hold: nat, t: nat)
    requires t < |own|
    ensures OnAt(own, hold, t) <==>
            KeyedWithin(own, t, hold) || (LastKeyed(own[..t + 1]) < 0 && t + 1_000_000_000_000 <= hold)
  {
    var upTo := own[..t + 1];
    LastKeyedBounds(upTo);
    var last := LastKeyed(upTo);
    if last >= 0 {
      assert own[last];
    }
  }

  /** On without a break since the keyed sample `s`: never more than the hold since one at or after it. */
  ghost predicate OnSince(own: seq<bool>, hold: nat, s: nat, t: nat) {
    && s <= t < |own| && own[s]
    && forall k: nat | s <= k <= t :: KeyedSince(own, hold, s, k)
  }

  ghost predicate KeyedSince(own: seq<bool>, hold: nat, s: nat, k: nat) {
    exists j: nat | s <= j <= k && j < |own| :: own[j] && k - j <= hold
  }

  /** A keyed sample radiates exactly when the transmitter has been on without a break for the delay. */
  lemma RadiatesMeans(own: seq<bool>, hold: nat, delay: nat, t: nat)
    requires t < |own|
    ensures RadiatesAt(own, hold, delay, t) <==>
            own[t] && exists s: nat :: s + delay <= t && OnSince(own, hold, s, t)
  {
    if own[t] {
      var r := Current(own[..t + 1], hold);
      CurrentIsOn(own, hold, t);
      forall s: nat | OnSince(own, hold, s, t) ensures r.start <= s {
        CurrentIsFirst(own, hold, t, s);
      }
    }
  }

  lemma CurrentIsOn(own: seq<bool>, hold: nat, t: nat)
    requires t < |own| && own[t]
    ensures OnSince(own, hold, Current(own[..t + 1], hold).start, t)
  {
    var upTo := own[..t + 1];
    var runs, r := Group(upTo, hold + 1), Current(upTo, hold);
    LastGroupEnd(upTo, hold + 1);
    GroupHas(upTo, hold + 1, |runs| - 1);
    forall k: nat | r.start <= k <= t ensures KeyedSince(own, hold, r.start, k) {
      LastUpTo(upTo, k, r.start);
      ConnectedIsOn(upTo, hold, r, LastKeyed(upTo[..k + 1]), k);
      assert own[LastKeyed(upTo[..k + 1])];
    }
  }

  lemma CurrentIsFirst(own: seq<bool>, hold: nat, t: nat, s: nat)
    requires t < |own| && own[t]
    ensures OnSince(own, hold, s, t) ==> Current(own[..t + 1], hold).start <= s
  {
    var upTo := own[..t + 1];
    var runs := Group(upTo, hold + 1);
    LastGroupEnd(upTo, hold + 1);
    GroupIsGrouping(upTo, hold + 1);
    if s < runs[|runs| - 1].start && own[s] {
      var k := BrokenBefore(upTo, hold, runs, s);
      assert forall j: nat | s <= j <= k :: own[j] == upTo[j];
      assert !KeyedSince(own, hold, s, k);
    }
  }

  lemma PreviousCovers(own: seq<bool>, reach: nat, runs: seq<Run>, s: nat)
    requires IsGrouping(own, reach, runs) && runs != [] && s < runs[|runs| - 1].start && s < |own| && own[s]
    ensures |runs| > 1 && s < runs[|runs| - 2].end
  {
    assert Covered(runs, s);
    EndsInOrder(own, reach, runs);
  }

  lemma EndsInOrder(own: seq<bool>, reach: nat, runs: seq<Run>)
    requires IsGrouping(own, reach, runs)
    ensures forall i, j | 0 <= i < j < |runs| :: runs[i].end <= runs[j].start < runs[j].end
  {
  }

  /** Between a true position and a later group there is a break longer than the hold. */
  lemma BrokenBefore(own: seq<bool>, hold: nat, runs: seq<Run>, s: nat) returns (k: nat)
    requires IsGrouping(own, hold + 1, runs) && runs != [] && s < runs[|runs| - 1].start && s < |own| && own[s]
    ensures s <= k < runs[|runs| - 1].start
    ensures forall j | s <= j <= k && j < |own| && own[j] :: k - j > hold
  {
    var n := |runs| - 1;
    PreviousCovers(own, hold + 1, runs, s);
    k := runs[n - 1].end + hold;
    forall j: nat | s <= j <= k && j < |own| ensures own[j] ==> k - j > hold {
      if j >= runs[n - 1].end { GapIsQuiet(own, hold + 1, runs, n - 1, j); }
    }
  }

  /** Between one group and the next nothing is true. */
  lemma GapIsQuiet(own: seq<bool>, reach: nat, runs: seq<Run>, i: nat, j: nat)
    requires IsGrouping(own, reach, runs) && i + 1 < |runs| && runs[i].end <= j < runs[i + 1].start
    ensures j < |own| && !own[j]
  {
    assert own[j] ==> Covered(runs, j);
  }

  /** What is heard, by the bits of its float: more than one part in 10^9 either way, and a number. */
  lemma LoudMeans(w: Word)
    ensures w < 0x8000_0000 ==> (Loud(w) <==> 0x3089_7060 <= w <= 0x7F80_0000)
    ensures w < 0x8000_0000 ==> Loud(w + 0x8000_0000) == Loud(w)
  {
  }

  /** The receiver's deafness, as the end of a tick judges it: `own` ends with the tick. */
  predicate DeafAt(own: seq<bool>, hold: nat, recovery: nat, t: nat)
    requires t < |own|
  {
    OnAt(own, hold, t) || t - LastKeyed(own) <= hold + recovery
  }

  /** Deaf exactly within the hold and the recovery of a keyed sample, or ahead of a keying later
      in the same tick. */
  lemma DeafMeans(own: seq<bool>, hold: nat, recovery: nat, t: nat)
    requires t < |own|
    ensures DeafAt(own, hold, recovery, t) <==>
            || KeyedWithin(own, t, hold + recovery)
            || KeyedLater(own, t)
            || (LastKeyed(own) < 0 && t + 1_000_000_000_000 <= hold + recovery)
  {
    LastKeyedBounds(own);
    LastKeyedBounds(own[..t + 1]);
    OnMeans(own, hold, t);
    var last, upTo := LastKeyed(own), LastKeyed(own[..t + 1]);
    if last >= 0 { assert own[last]; }
    if upTo >= 0 { assert own[upTo]; }
    if KeyedWithin(own, t, hold) {
      var s :| 0 <= s <= t && own[s] && t - s <= hold;
      assert t - s <= hold + recovery;
    }
  }

  /** So a sample that nothing keyed before it reaches is deaf because the next one is keyed. */
  lemma DeafAhead(hold: nat, recovery: nat)
    ensures DeafAt([false, true], hold, recovery, 0) && !KeyedWithin([false, true], 0, hold + recovery)
    ensures hold < 1_000_000_000_000 ==> !OnAt([false, true], hold, 0)
  {
    LastKeyedBounds([false, true]);
    LastKeyedBounds([false, true][..1]);
  }

  /** Throughout a keyed interval the transmitter is on. */
  lemma IntervalsAreOn(own: seq<bool>, hold: nat, t: nat)
    requires t < |own| && Covered(Group(own, hold + 1), t)
    ensures OnAt(own, hold, t)
  {
    var r := RunAround(own, hold + 1, t);
    LastUpTo(own, t, r.start);
    ConnectedIsOn(own, hold, r, LastKeyed(own[..t + 1]), t);
  }

  lemma RunAround(own: seq<bool>, reach: nat, t: nat) returns (r: Run)
    requires Covered(Group(own, reach), t)
    ensures r.start <= t < r.end <= |own| && own[r.start] && own[r.end - 1]
    ensures Connected(own, reach, r)
  {
    var runs := Group(own, reach);
    var i :| 0 <= i < |runs| && runs[i].start <= t < runs[i].end;
    r := runs[i];
    GroupHas(own, reach, i);
  }

  lemma GroupHas(own: seq<bool>, reach: nat, i: nat)
    requires i < |Group(own, reach)|
    ensures var r := Group(own, reach)[i];
            r.start < r.end <= |own| && own[r.start] && own[r.end - 1] && Connected(own, reach, r)
  {
    GroupIsGrouping(own, reach);
  }

  lemma LastUpTo(own: seq<bool>, t: nat, a: nat)
    requires a <= t < |own| && own[a]
    ensures var s := LastKeyed(own[..t + 1]);
            a <= s <= t && own[s] && forall k | s < k <= t :: !own[k]
  {
    var upTo := own[..t + 1];
    LastKeyedBounds(upTo);
    assert upTo[a];
    assert forall k | 0 <= k <= t :: upTo[k] == own[k];
  }

  lemma ConnectedIsOn(own: seq<bool>, hold: nat, r: Run, s: nat, t: nat)
    requires r.start <= s <= t < r.end <= |own| && own[s] && own[r.end - 1]
    requires forall k | s < k <= t :: !own[k]
    requires Connected(own, hold + 1, r)
    ensures t - s <= hold
  {
    var next := NextKeyed(own, t, r.end - 1);
    var gap := QuietBetween(own, s, next);
  }

  lemma NextKeyed(own: seq<bool>, t: nat, e: nat) returns (next: nat)
    requires t <= e < |own| && own[e]
    ensures t <= next <= e && own[next] && forall k | t <= k < next :: !own[k]
    decreases e - t
  {
    next := t;
    while !own[next]
      invariant t <= next <= e && forall k | t <= k < next :: !own[k]
      decreases e - next
    {
      next := next + 1;
    }
  }

  /** Samples of a radiated block: a millisecond. */
  const RADIATED_BLOCK: nat := 48

  // ---- what it radiates ----

  /** Of the samples that reach the air from `t` on: what goes out, when the transmitter is on, and
      when only its VOX holds it. */
  ghost predicate IsRadiation(own: seq<bool>, samples: seq<Word>, voxHold: nat, txDelay: nat, t: nat,
                              audio: seq<Word>, on: seq<bool>, vox: seq<bool>)
    requires t + |samples| <= |own|
  {
    && |audio| == |on| == |vox| == |samples|
    && forall i: nat | i < |samples| ::
         && audio[i] == (if RadiatesAt(own, voxHold, txDelay, t + i) then samples[i] else SILENT)
         && on[i] == OnAt(own, voxHold, t + i)
         && vox[i] == (on[i] && !own[t + i])
  }

  /** Anything heard among a block's samples. */
  predicate AnyLoud(audio: seq<Word>, from: nat, to: nat)
    requires from <= to <= |audio|
  {
    exists j: nat | from <= j < to :: Loud(audio[j])
  }

  /** A block carries signal throughout when anything in it is heard. */
  ghost predicate IsSignal(audio: seq<Word>, signal: seq<bool>) {
    && |signal| == |audio|
    && forall b: nat, k: nat {:trigger InBlock(b, k)} | k < RADIATED_BLOCK && InBlock(b, RADIATED_BLOCK) <= |audio| ::
         signal[InBlock(b, k)] == AnyLoud(audio, InBlock(b, 0), InBlock(b, RADIATED_BLOCK))
  }

  function InBlock(b: nat, k: nat): nat {
    b * RADIATED_BLOCK + k
  }

  method Signal(audio: seq<Word>) returns (signal: seq<bool>)
    requires |audio| % RADIATED_BLOCK == 0
    ensures IsSignal(audio, signal)
  {
    signal := [];
    for b := 0 to |audio| / RADIATED_BLOCK
      invariant |signal| == InBlock(b, 0) <= |audio|
      invariant forall c: nat, k: nat {:trigger InBlock(c, k)} | c < b && k < RADIATED_BLOCK ::
                  signal[InBlock(c, k)] == AnyLoud(audio, InBlock(c, 0), InBlock(c, RADIATED_BLOCK))
    {
      var any := AnyLoud(audio, InBlock(b, 0), InBlock(b, RADIATED_BLOCK));
      signal := signal + seq(RADIATED_BLOCK, _ => any);
    }
  }

  /** The first flag of each block. */
  function ByBlock(signal: seq<bool>): (blocks: seq<bool>)
    ensures |blocks| == |signal| / RADIATED_BLOCK
  {
    seq(|signal| / RADIATED_BLOCK, b requires 0 <= b < |signal| / RADIATED_BLOCK => signal[b * RADIATED_BLOCK])
  }

  /** The station radiated something heard in block `b` of the air. */
  ghost predicate RadiatesIn(own: seq<bool>, emitted: seq<Word>, hold: nat, delay: nat, b: nat)
    requires |own| == |emitted|
  {
    exists k | InBlock(b, 0) <= k < InBlock(b, RADIATED_BLOCK) && k < |own| ::
      RadiatesAt(own, hold, delay, k) && Loud(emitted[k])
  }

  /** The radiated blocks are those in which it radiated something heard. */
  ghost predicate BlocksRight(own: seq<bool>, emitted: seq<Word>, hold: nat, delay: nat, blocks: seq<bool>) {
    && |own| == |emitted| == InBlock(|blocks|, 0)
    && forall b: nat | b < |blocks| :: blocks[b] == RadiatesIn(own, emitted, hold, delay, b)
  }

  lemma RadiatesInStays(own: seq<bool>, emitted: seq<Word>, hold: nat, delay: nat, b: nat,
                        moreOwn: seq<bool>, moreEmitted: seq<Word>)
    requires |own| == |emitted| && |moreOwn| == |moreEmitted| && InBlock(b, RADIATED_BLOCK) <= |own|
    requires own <= moreOwn && emitted <= moreEmitted
    ensures RadiatesIn(moreOwn, moreEmitted, hold, delay, b) == RadiatesIn(own, emitted, hold, delay, b)
  {
    forall k | 0 <= k < |own| ensures RadiatesAt(moreOwn, hold, delay, k) == RadiatesAt(own, hold, delay, k) {
      assert moreOwn[..k + 1] == own[..k + 1];
    }
  }

  /** What a tick puts out at sample `j` is heard exactly when the station radiates there and is
      heard. */
  ghost predicate OutAs(own: seq<bool>, emitted: seq<Word>, hold: nat, delay: nat, t: nat, out: seq<Word>)
    requires t + |out| == |own| == |emitted|
  {
    forall j: nat | j < |out| :: Loud(out[j]) <==> RadiatesAt(own, hold, delay, t + j) && Loud(emitted[t + j])
  }

  lemma RadiationIsOut(own: seq<bool>, emitted: seq<Word>, hold: nat, delay: nat, t: nat, out: seq<Word>,
                       on: seq<bool>, vox: seq<bool>)
    requires t + |out| == |own| == |emitted|
    requires IsRadiation(own, emitted[t..], hold, delay, t, out, on, vox)
    ensures OutAs(own, emitted, hold, delay, t, out)
  {
  }

  lemma LoudIsRadiated(own: seq<bool>, emitted: seq<Word>, hold: nat, delay: nat, base: nat, out: seq<Word>, c: nat)
    requires InBlock(base, 0) + |out| == |own| == |emitted| && InBlock(c, RADIATED_BLOCK) <= |out|
    requires OutAs(own, emitted, hold, delay, InBlock(base, 0), out)
    ensures AnyLoud(out, InBlock(c, 0), InBlock(c, RADIATED_BLOCK)) == RadiatesIn(own, emitted, hold, delay, base + c)
  {
    var t := InBlock(base, 0);
    assert InBlock(base + c, 0) == t + InBlock(c, 0);
    if AnyLoud(out, InBlock(c, 0), InBlock(c, RADIATED_BLOCK)) {
      var j: nat :| InBlock(c, 0) <= j < InBlock(c, RADIATED_BLOCK) && Loud(out[j]);
      assert RadiatesAt(own, hold, delay, t + j) && Loud(emitted[t + j]);
    }
    if RadiatesIn(own, emitted, hold, delay, base + c) {
      var k :| InBlock(base + c, 0) <= k < InBlock(base + c, RADIATED_BLOCK) && k < |own|
               && RadiatesAt(own, hold, delay, k) && Loud(emitted[k]);
      var j: nat := k - t;
      assert t + j == k && Loud(out[j]);
    }
  }

  /** A tick's block carries signal exactly when the station radiated something heard in it. */
  lemma SignalOfBlock(own: seq<bool>, emitted: seq<Word>, hold: nat, delay: nat, base: nat, out: seq<Word>,
                      signal: seq<bool>, c: nat)
    requires InBlock(base, 0) + |out| == |own| == |emitted| && InBlock(c, RADIATED_BLOCK) <= |out|
    requires OutAs(own, emitted, hold, delay, InBlock(base, 0), out) && IsSignal(out, signal)
    ensures signal[InBlock(c, 0)] == RadiatesIn(own, emitted, hold, delay, base + c)
  {
    assert signal[InBlock(c, 0)] == AnyLoud(out, InBlock(c, 0), InBlock(c, RADIATED_BLOCK));
    LoudIsRadiated(own, emitted, hold, delay, base, out, c);
  }

  lemma BlocksStayRight(own: seq<bool>, emitted: seq<Word>, hold: nat, delay: nat, blocks: seq<bool>,
                        moreOwn: seq<bool>, moreEmitted: seq<Word>,
                        out: seq<Word>, on: seq<bool>, vox: seq<bool>, signal: seq<bool>)
    requires BlocksRight(own, emitted, hold, delay, blocks)
    requires own <= moreOwn && emitted <= moreEmitted
    requires |moreEmitted| == |moreOwn| == |own| + |out| && |out| % RADIATED_BLOCK == 0
    requires IsRadiation(moreOwn, moreEmitted[|own|..], hold, delay, |own|, out, on, vox)
    requires IsSignal(out, signal)
    ensures BlocksRight(moreOwn, moreEmitted, hold, delay, blocks + ByBlock(signal))
  {
    var more := blocks + ByBlock(signal);
    RadiationIsOut(moreOwn, moreEmitted, hold, delay, |own|, out, on, vox);
    forall b: nat | b < |more| ensures more[b] == RadiatesIn(moreOwn, moreEmitted, hold, delay, b) {
      if b < |blocks| {
        RadiatesInStays(own, emitted, hold, delay, b, moreOwn, moreEmitted);
      } else {
        SignalOfBlock(moreOwn, moreEmitted, hold, delay, |blocks|, out, signal, b - |blocks|);
      }
    }
  }

  /** The radiated intervals are the runs of radiated blocks; the last still goes on if the last
      block radiated. */
  ghost predicate RadiatedRight(since: Option<nat>, radiated: seq<Run>, blocks: seq<bool>) {
    && radiated == InSamples(Group(blocks, 1))
    && (since.Some? <==> blocks != [] && blocks[|blocks| - 1])
  }

  /** Runs of blocks, in samples. */
  function InSamples(runs: seq<Run>): (s: seq<Run>)
    ensures |s| == |runs|
  {
    seq(|runs|, i requires 0 <= i < |runs| =>
      Run(RADIATED_BLOCK * runs[i].start, RADIATED_BLOCK * runs[i].end))
  }

  /** The runs with one more block: as they were, one more, or the last one longer. */
  function WithBlock(runs: seq<Run>, b: nat, on: bool, last: bool): seq<Run> {
    if !on then runs
    else if last && runs != [] then runs[|runs| - 1 := runs[|runs| - 1].(end := b + 1)]
    else runs + [Run(b, b + 1)]
  }

  lemma GroupWithBlock(blocks: seq<bool>, on: bool)
    ensures var last := blocks != [] && blocks[|blocks| - 1];
            && (last ==> Group(blocks, 1) != [])
            && Group(blocks + [on], 1) == WithBlock(Group(blocks, 1), |blocks|, on, last)
  {
    var more, b, runs := blocks + [on], |blocks|, Group(blocks, 1);
    assert more[..b] == blocks;
    if blocks != [] { LastGroupEnd(blocks, 1); }
  }

  lemma SamplesWithBlock(runs: seq<Run>, b: nat, on: bool, last: bool)
    ensures var samples := InSamples(runs);
            InSamples(WithBlock(runs, b, on, last)) ==
              if !on then samples
              else if last && runs != []
                then samples[|runs| - 1 := samples[|runs| - 1].(end := RADIATED_BLOCK * b + RADIATED_BLOCK)]
              else samples + [Run(RADIATED_BLOCK * b, RADIATED_BLOCK * b + RADIATED_BLOCK)]
  {
  }

  /** What one more block does to the radiated intervals: none more, the last longer, or a new one. */
  function WithRadiated(since: Option<nat>, radiated: seq<Run>, t: nat, on: bool): seq<Run> {
    if !on then radiated
    else if since.Some? && radiated != [] then
      radiated[|radiated| - 1 := radiated[|radiated| - 1].(end := t + RADIATED_BLOCK)]
    else radiated + [Run(t, t + RADIATED_BLOCK)]
  }

  lemma RadiatedWithBlock(since: Option<nat>, radiated: seq<Run>, blocks: seq<bool>, on: bool, next: Option<nat>)
    requires RadiatedRight(since, radiated, blocks) && (next.Some? <==> on)
    ensures since.Some? ==> radiated != []
    ensures RadiatedRight(next, WithRadiated(since, radiated, RADIATED_BLOCK * |blocks|, on), blocks + [on])
  {
    var last := blocks != [] && blocks[|blocks| - 1];
    GroupWithBlock(blocks, on);
    SamplesWithBlock(Group(blocks, 1), |blocks|, on, last);
  }
}
