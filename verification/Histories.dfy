/**
 What has happened to each station, as the server of tools/channel_server.py can tell: what it put on
 the air and when it was keyed, what it heard, what it was sent, and the stalls asked of it. From the
 stations' pasts alone follow what each hears of a tick, and the overlap between them.
 */
module Histories {
  import opened Bytes
  import opened Options
  import opened Keying
  import opened Capture
  import opened Stalls
  import opened Collisions

  datatype Radio = Radio(voxHold: nat, txDelay: nat, recovery: nat)

  /** What was sent can be rebuilt from the intake, which also has what waits and what was lost. */
  datatype Past = Past(radio: Radio, machine: Machine, own: seq<bool>, emitted: seq<Word>, consumed: int,
                       heard: seq<Word>, sent: seq<Sent>, intake: Intake<Word>, requests: seq<Request>,
                       due: Due)

  /** What a station's machine has drawn and not come to: its next stall, its next skip, and what is left
      to skip of the last. */
  datatype Due = Due(stall: Option<int>, skip: Option<int>, left: nat)

  /** The draws one call may make: a first wait, a length, and the wait after it. */
  datatype Draws = Draws(first: int, length: int, next: int)

  /** When a machine that draws events has its next one, asked at air sample `t`: the first wait is
      drawn then. */
  function Awaited(draws: bool, next: Option<int>, t: int, d: Draws): Option<int> {
    if draws && next.None? then Some(t + d.first) else next
  }

  /** Whether it has come. */
  predicate Comes(draws: bool, next: Option<int>, t: int, d: Draws) {
    draws && t >= Awaited(draws, next, t, d).value
  }

  /** A skip is of one sample at least. */
  function SkipLength(d: Draws): nat {
    if d.length > 1 then d.length else 1
  }

  /** What of a block of `n` is skipped: what an earlier skip left, and a new one when it comes. */
  function ToSkip(draws: bool, next: Option<int>, left: nat, t: int, d: Draws, n: nat): nat {
    var all := left + if Comes(draws, next, t, d) then SkipLength(d) else 0;
    if all < n then all else n
  }

  /** A machine's first event comes the first wait after it is first asked, and any later one when
      what was drawn for it has come; a machine that draws none has none. */
  lemma EventsAreAwaited(draws: bool, next: Option<int>, t: int, d: Draws)
    ensures !draws ==> !Comes(draws, next, t, d) && Awaited(draws, next, t, d) == next
    ensures draws && next.None? ==>
              Awaited(draws, next, t, d) == Some(t + d.first) && (Comes(draws, next, t, d) <==> d.first <= 0)
    ensures draws && next.Some? ==>
              Awaited(draws, next, t, d) == next && (Comes(draws, next, t, d) <==> t >= next.value)
  {
  }

  /** A block is skipped from its beginning until it or what is owed runs out: what an earlier skip left,
      and the length of one that comes, which is never less than a sample. */
  lemma SkipsWhatIsOwed(draws: bool, next: Option<int>, left: nat, t: int, d: Draws, n: nat, owed: nat)
    requires !Comes(draws, next, t, d) ==> owed == left
    requires Comes(draws, next, t, d) ==> owed == left + d.length || (d.length <= 0 && owed == left + 1)
    requires Comes(draws, next, t, d) ==> owed > left
    ensures ToSkip(draws, next, left, t, d, n) <= owed && ToSkip(draws, next, left, t, d, n) <= n
    ensures ToSkip(draws, next, left, t, d, n) == owed || ToSkip(draws, next, left, t, d, n) == n
  {
  }

  /** A tick of a station's output: its samples; when its transmitter is on; when it radiates signal;
      and when only its VOX holds it. */
  datatype Output = Output(audio: seq<Word>, on: seq<bool>, signal: seq<bool>, vox: seq<bool>) {
    predicate Length(n: nat) {
      |audio| == |on| == |signal| == |vox| == n
    }
  }

  // ---- conditions passed along closed ----

  /** The verdict on a condition. */
  datatype Condition = Sound | Unsound

  /** Long conditions are stated under a key, for the verifier's sake: it passes them along closed, and
      opens them only where a key is in hand. */
  predicate Opens(lock: Lock, key: nat) {
    key >= 0
  }

  datatype Lock = StandLock | TalksLock | KeyedLock | HearsLock | WireLock | SpeechLock | SignalLock | PlayLock | KeyLock
                | RadiatedLock | StallsLock | SkipsLock | HearLock | OwedLock | PutLock | OverlapLock
                | AnswersLock | HandedLock | GaveLock | AskedLock

  // ---- at an air sample ----

  predicate OnThen(p: Past, k: nat) {
    k < |p.own| && OnAt(p.own, p.radio.voxHold, k)
  }

  /** Only the VOX holds it on. */
  predicate HeldThen(p: Past, k: nat) {
    OnThen(p, k) && !p.own[k]
  }

  /** It radiates something heard in this millisecond. */
  ghost predicate SignalThen(p: Past, k: nat) {
    && k < |p.own| == |p.emitted|
    && RadiatesIn(p.own, p.emitted, p.radio.voxHold, p.radio.txDelay, k / RADIATED_BLOCK)
  }

  ghost predicate TwoOn(ps: seq<Past>, k: nat) {
    exists i, j | 0 <= i < j < |ps| :: OnThen(ps[i], k) && OnThen(ps[j], k)
  }

  ghost predicate TwoSignal(ps: seq<Past>, k: nat) {
    exists i, j | 0 <= i < j < |ps| :: SignalThen(ps[i], k) && SignalThen(ps[j], k)
  }

  ghost predicate AnyHeld(ps: seq<Past>, k: nat) {
    exists i | 0 <= i < |ps| :: HeldThen(ps[i], k)
  }

  ghost function OnFlags(ps: seq<Past>, k: nat): (flags: seq<bool>)
    ensures |flags| == |ps| && forall i | 0 <= i < |ps| :: flags[i] == OnThen(ps[i], k)
    ensures TwoTrue(flags) == TwoOn(ps, k)
  {
    seq(|ps|, i requires 0 <= i < |ps| => OnThen(ps[i], k))
  }

  ghost function SignalFlags(ps: seq<Past>, k: nat): (flags: seq<bool>)
    ensures |flags| == |ps| && forall i | 0 <= i < |ps| :: flags[i] == SignalThen(ps[i], k)
    ensures TwoTrue(flags) == TwoSignal(ps, k)
  {
    seq(|ps|, i requires 0 <= i < |ps| => SignalThen(ps[i], k))
  }

  ghost function HeldFlags(ps: seq<Past>, k: nat): (flags: seq<bool>)
    ensures |flags| == |ps| && forall i | 0 <= i < |ps| :: flags[i] == HeldThen(ps[i], k)
    ensures AnyTrue(flags) == AnyHeld(ps, k)
  {
    seq(|ps|, i requires 0 <= i < |ps| => HeldThen(ps[i], k))
  }

  /** What a sample of overlap is: signal from two at once, else a VOX's hold, else a keyed silence. */
  ghost function KindThen(ps: seq<Past>, k: nat): Kind {
    KindOf(TwoSignal(ps, k), AnyHeld(ps, k))
  }

  // ---- a station's tick ----

  /** The past grows: nothing of what went on the air changes. */
  ghost predicate Airs(p: Past, q: Past, t: nat) {
    && q == p.(own := q.own, emitted := q.emitted, consumed := q.consumed) && p.own <= q.own && p.emitted <= q.emitted
    && |p.own| == |p.emitted| == t && |q.own| == |q.emitted| == t + TICK
  }

  /** Whether the output is what a station put on the air in the tick from `t` on, its last. */
  ghost function PutOut(r: Radio, own: seq<bool>, emitted: seq<Word>, t: nat, out: Output): Condition {
    if forall key: nat {:trigger Opens(PutLock, key)} | Opens(PutLock, key) ::
         && t <= |emitted| == |own|
         && IsRadiation(own, emitted[t..], r.voxHold, r.txDelay, t, out.audio, out.on, out.vox)
         && IsSignal(out.audio, out.signal)
    then Sound else Unsound
  }

  lemma OpenOutput(r: Radio, own: seq<bool>, emitted: seq<Word>, t: nat, out: Output)
    requires PutOut(r, own, emitted, t, out) == Sound
    ensures t <= |emitted| == |own|
    ensures IsRadiation(own, emitted[t..], r.voxHold, r.txDelay, t, out.audio, out.on, out.vox)
    ensures IsSignal(out.audio, out.signal)
  {
    var open := Opens(PutLock, 0);
  }

  /** The output shows what the past tells. */
  lemma OutputShows(p: Past, t: nat, out: Output, k: nat)
    requires PutOut(p.radio, p.own, p.emitted, t, out) == Sound && out.Length(TICK) && |p.own| == t + TICK
    requires t % RADIATED_BLOCK == 0 && k < TICK
    ensures out.on[k] == OnThen(p, t + k) && out.vox[k] == HeldThen(p, t + k)
    ensures out.signal[k] == SignalThen(p, t + k)
    ensures |p.emitted| == |p.own|
    ensures out.audio[k] == if RadiatesAt(p.own, p.radio.voxHold, p.radio.txDelay, t + k) then p.emitted[t + k] else SILENT
  {
    OpenOutput(p.radio, p.own, p.emitted, t, out);
    OutputSignals(p, t, out, k);
  }

  lemma OutputSignals(p: Past, t: nat, out: Output, k: nat)
    requires t + TICK == |p.emitted| == |p.own| && out.Length(TICK) && t % RADIATED_BLOCK == 0 && k < TICK
    requires IsRadiation(p.own, p.emitted[t..], p.radio.voxHold, p.radio.txDelay, t, out.audio, out.on, out.vox)
    requires IsSignal(out.audio, out.signal)
    ensures out.signal[k] == SignalThen(p, t + k)
  {
    var base, c := t / RADIATED_BLOCK, k / RADIATED_BLOCK;
    assert t == InBlock(base, 0) && k == InBlock(c, k % RADIATED_BLOCK);
    assert (t + k) / RADIATED_BLOCK == base + c;
    RadiationIsOut(p.own, p.emitted, p.radio.voxHold, p.radio.txDelay, t, out.audio, out.on, out.vox);
    assert InBlock(c, RADIATED_BLOCK) <= TICK;
    LoudIsRadiated(p.own, p.emitted, p.radio.voxHold, p.radio.txDelay, base, out.audio, c);
    assert out.signal[InBlock(c, k % RADIATED_BLOCK)] == AnyLoud(out.audio, InBlock(c, 0), InBlock(c, RADIATED_BLOCK));
  }

  /** Nothing where the receiver is deaf, and what arrives where it is not. */
  ghost predicate IsHeard(p: Past, t: nat, arriving: seq<Word>, heard: seq<Word>) {
    && |heard| == |arriving| == TICK && t + TICK <= |p.own|
    && forall k: nat | k < TICK ::
         heard[k] == if DeafAt(p.own, p.radio.voxHold, p.radio.recovery, t + k) then SILENT else arriving[k]
  }

  /** What a station makes of the samples heard: it keeps them and is sent nothing if it stands still;
      otherwise its capture skips what its draws say, and the rest is handed over with what waits, under
      the clock of the last sample and with the count of what it has played. */
  ghost predicate HandedTo(p: Past, q: Past, samples: seq<Word>, stalled: bool, d: Draws) {
    && q == p.(heard := p.heard + samples, sent := q.sent, intake := q.intake, due := q.due)
    && Sends(p.sent, q.sent, |q.heard|, q.consumed)
    && q.intake.stream == Rebuilt(q.sent)
    && if stalled then q.sent == p.sent && q.intake == Kept(p.intake, samples) && q.due == p.due
       else Skips(p, q, samples, d, ToSkip(p.machine.skips, p.due.skip, p.due.left, |p.heard|, d, |samples|))
  }

  ghost predicate Skips(p: Past, q: Past, samples: seq<Word>, d: Draws, k: nat) {
    && k <= |samples|
    && q.sent == p.sent + SentOf(p.intake, samples, k, |q.heard|, q.consumed, p.machine.backlogLimit, p.machine.daemon)
    && q.intake == Heard(p.intake, samples, k, p.machine.backlogLimit, p.machine.daemon)
    && q.due.stall == p.due.stall
    && (if Comes(p.machine.skips, p.due.skip, |p.heard|, d) then
          q.due.left + k == p.due.left + SkipLength(d) && q.due.skip == Some(|p.heard| + SkipLength(d) + d.next)
        else
          q.due.left + k == p.due.left && q.due.skip == Awaited(p.machine.skips, p.due.skip, |p.heard|, d))
  }

  ghost function Delivered(p: Past, q: Past, samples: seq<Word>, stalled: bool, d: Draws): Condition {
    if forall key: nat {:trigger Opens(HandedLock, key)} | Opens(HandedLock, key) :: HandedTo(p, q, samples, stalled, d)
    then Sound else Unsound
  }

  lemma CloseDelivered(p: Past, q: Past, samples: seq<Word>, stalled: bool, d: Draws, k: nat)
    requires q == p.(heard := p.heard + samples, sent := q.sent, intake := q.intake, due := q.due)
    requires Sends(p.sent, q.sent, |q.heard|, q.consumed) && q.intake.stream == Rebuilt(q.sent)
    requires stalled ==> q.sent == p.sent && q.intake == Kept(p.intake, samples) && q.due == p.due
    requires !stalled ==>
               && k == ToSkip(p.machine.skips, p.due.skip, p.due.left, |p.heard|, d, |samples|)
               && Skips(p, q, samples, d, k)
    ensures Delivered(p, q, samples, stalled, d) == Sound
  {
  }

  lemma OpenDelivered(p: Past, q: Past, samples: seq<Word>, stalled: bool, d: Draws)
    requires Delivered(p, q, samples, stalled, d) == Sound
    ensures HandedTo(p, q, samples, stalled, d)
  {
    var open := Opens(HandedLock, 0);
  }

  /** A station asked at `t` whether it stands still: its machine may stall it, and then draws the wait
      from where all that was asked for ends. */
  function AskedAt(p: Past, t: int, d: Draws): Past {
    if Comes(p.machine.stalls, p.due.stall, t, d) then
      var requests := p.requests + [Request(t, d.length)];
      p.(requests := requests, due := p.due.(stall := Some(Furthest(requests) + d.next)))
    else p.(due := p.due.(stall := Awaited(p.machine.stalls, p.due.stall, t, d)))
  }

  /** That is, from the latest that any request reaches, and never before the air began. */
  lemma NextStallIsAfterAll(p: Past, t: nat, d: Draws, end: nat)
    requires Comes(p.machine.stalls, p.due.stall, t, d)
    requires forall i | 0 <= i < |p.requests| :: p.requests[i].at + p.requests[i].samples <= end
    requires t + d.length <= end
    requires || end == 0 || end == t + d.length
             || exists i | 0 <= i < |p.requests| :: p.requests[i].at + p.requests[i].samples == end
    ensures AskedAt(p, t, d).requests == p.requests + [Request(t, d.length)]
    ensures AskedAt(p, t, d).due == p.due.(stall := Some(end + d.next))
  {
    FurthestMeans(p.requests);
    FurthestOneMore(p.requests, Request(t, d.length));
  }

  /** What a whole tick from `t` on makes of a station's past: it is asked whether it stands still, puts
      more on the air, hears what arrives where it is not deaf, and is handed that, or stands still if a
      stall asked for covers `t`. */
  ghost predicate Ticked(p: Past, q: Past, t: nat, arriving: seq<Word>, stall: Draws, skip: Draws) {
    && q.radio == p.radio && q.machine == p.machine && q.requests == AskedAt(p, t, stall).requests
    && p.own <= q.own && p.emitted <= q.emitted && |q.own| == |q.emitted| == t + TICK
    && |p.heard| == t && |q.heard| == t + TICK && p.heard <= q.heard
    && IsHeard(q, t, arriving, q.heard[t..])
    && HandedTo(q.(heard := p.heard, sent := p.sent, intake := p.intake, due := AskedAt(p, t, stall).due), q,
                q.heard[t..], Requested(q.requests, t), skip)
  }

  /** So of a tick a station hears silence where its receiver is deaf: within the hold and the recovery
      of a keyed sample, or ahead of one later in the tick; and elsewhere what arrives. */
  lemma TickedHears(p: Past, q: Past, t: nat, arriving: seq<Word>, stall: Draws, skip: Draws, k: nat)
    requires Ticked(p, q, t, arriving, stall, skip) && k < TICK
    ensures |arriving| == TICK && |q.heard| == |q.own| == t + TICK
    ensures q.heard[t + k]
         == if || KeyedWithin(q.own, t + k, q.radio.voxHold + q.radio.recovery)
               || KeyedLater(q.own, t + k)
               || (LastKeyed(q.own) < 0 && t + k + 1_000_000_000_000 <= q.radio.voxHold + q.radio.recovery)
            then SILENT else arriving[k]
  {
    HeardMeans(q, t, arriving, q.heard[t..], k);
    assert q.heard[t..][k] == q.heard[t + k];
  }

  lemma HeardMeans(q: Past, t: nat, arriving: seq<Word>, heard: seq<Word>, k: nat)
    requires IsHeard(q, t, arriving, heard) && |q.own| == t + TICK && k < TICK
    ensures heard[k]
         == if || KeyedWithin(q.own, t + k, q.radio.voxHold + q.radio.recovery)
               || KeyedLater(q.own, t + k)
               || (LastKeyed(q.own) < 0 && t + k + 1_000_000_000_000 <= q.radio.voxHold + q.radio.recovery)
            then SILENT else arriving[k]
  {
    DeafMeans(q.own, q.radio.voxHold, q.radio.recovery, t + k);
  }

  // ---- the stations' pasts together ----

  /** All have put `air` samples on the air, and heard `ear`. */
  ghost predicate AllAt(ps: seq<Past>, air: nat, ear: nat) {
    forall i | 0 <= i < |ps| :: |ps[i].own| == |ps[i].emitted| == air && |ps[i].heard| == ear
  }

  /** Each has been asked whether it stands still at `t`. */
  ghost predicate AllAsked(ps: seq<Past>, qs: seq<Past>, stalled: seq<bool>, t: nat, draws: seq<Draws>) {
    && |qs| == |stalled| == |draws| == |ps|
    && forall i {:trigger stalled[i]} | 0 <= i < |ps| :: Asking(ps[i], qs[i], stalled[i], t, draws[i]) == Sound
  }

  ghost predicate ToldStill(p: Past, q: Past, stalled: bool, t: nat, d: Draws) {
    q == AskedAt(p, t, d) && stalled == Requested(q.requests, t)
  }

  ghost function Asking(p: Past, q: Past, stalled: bool, t: nat, d: Draws): Condition {
    if forall key: nat {:trigger Opens(AskedLock, key)} | Opens(AskedLock, key) :: ToldStill(p, q, stalled, t, d)
    then Sound else Unsound
  }

  lemma OpenAsking(p: Past, q: Past, stalled: bool, t: nat, d: Draws)
    requires Asking(p, q, stalled, t, d) == Sound
    ensures ToldStill(p, q, stalled, t, d)
  {
    var open := Opens(AskedLock, 0);
  }

  ghost predicate AllAir(ps: seq<Past>, qs: seq<Past>, t: nat) {
    |qs| == |ps| && forall i | 0 <= i < |ps| :: Airs(ps[i], qs[i], t)
  }

  ghost predicate ArePutOut(ps: seq<Past>, outs: seq<Output>, t: nat) {
    |outs| == |ps| && forall i | 0 <= i < |ps| ::
      outs[i].Length(TICK) && PutOut(ps[i].radio, ps[i].own, ps[i].emitted, t, outs[i]) == Sound
  }

  ghost predicate AllHear(ps: seq<Past>, t: nat, arriving: seq<seq<Word>>, heard: seq<seq<Word>>) {
    |arriving| == |heard| == |ps| && forall i | 0 <= i < |ps| :: IsHeard(ps[i], t, arriving[i], heard[i])
  }

  /** Each has been handed what it heard. */
  ghost predicate AllDelivered(ps: seq<Past>, qs: seq<Past>, heard: seq<seq<Word>>, stalled: seq<bool>,
                               draws: seq<Draws>)
  {
    && |qs| == |heard| == |stalled| == |draws| == |ps|
    && forall i | 0 <= i < |ps| :: Delivered(ps[i], qs[i], heard[i], stalled[i], draws[i]) == Sound
  }

  ghost predicate AllTicked(ps: seq<Past>, qs: seq<Past>, t: nat, arriving: seq<seq<Word>>, stalls: seq<Draws>,
                            skips: seq<Draws>)
  {
    && |qs| == |arriving| == |stalls| == |skips| == |ps|
    && forall i {:trigger arriving[i]} | 0 <= i < |ps| :: Ticked(ps[i], qs[i], t, arriving[i], stalls[i], skips[i])
  }

  /** One more station's past replaced, the later ones still as they were. */
  lemma OneReplaced(ps: seq<Past>, was: seq<Past>, i: nat, p: Past)
    requires |ps| == |was| && i < |ps| && ps[i..] == was[i..]
    ensures ps[i] == was[i] && ps[i := p][i + 1..] == was[i + 1..]
    ensures ps[i := p][..i + 1] == ps[..i] + [p] && was[..i + 1] == was[..i] + [was[i]]
  {
    assert ps[i..][0] == was[i..][0];
    assert ps[i..][1..] == ps[i + 1..] && was[i..][1..] == was[i + 1..];
  }

  lemma AskedKeeps(ps: seq<Past>, qs: seq<Past>, stalled: seq<bool>, t: nat, draws: seq<Draws>)
    requires AllAsked(ps, qs, stalled, t, draws) && AllAt(ps, t, t)
    ensures AllAt(qs, t, t) && SameAir(ps, qs)
    ensures forall i | 0 <= i < |ps| :: qs[i].sent == ps[i].sent
  {
    forall i | 0 <= i < |ps| ensures qs[i] == ps[i].(requests := qs[i].requests, due := qs[i].due) {
      OpenAsking(ps[i], qs[i], stalled[i], t, draws[i]);
    }
  }

  lemma AirKeeps(ps: seq<Past>, qs: seq<Past>, t: nat)
    requires AllAir(ps, qs, t) && AllAt(ps, t, t)
    ensures AllAt(qs, t + TICK, t)
  {
  }

  lemma DeliveredKeeps(ps: seq<Past>, qs: seq<Past>, heard: seq<seq<Word>>, stalled: seq<bool>, draws: seq<Draws>, t: nat)
    requires AllDelivered(ps, qs, heard, stalled, draws) && AllAt(ps, t + TICK, t)
    requires forall i | 0 <= i < |heard| :: |heard[i]| == TICK
    ensures AllAt(qs, t + TICK, t + TICK) && SameAir(ps, qs)
  {
    forall i | 0 <= i < |ps|
      ensures qs[i].radio == ps[i].radio && qs[i].own == ps[i].own && qs[i].emitted == ps[i].emitted
      ensures qs[i].heard == ps[i].heard + heard[i]
    {
      OpenDelivered(ps[i], qs[i], heard[i], stalled[i], draws[i]);
    }
  }

  /** The steps of a tick, station by station, make the tick. */
  lemma TickedBySteps(ps: seq<Past>, asked: seq<Past>, aired: seq<Past>, qs: seq<Past>, t: nat,
                      arriving: seq<seq<Word>>, heard: seq<seq<Word>>, stalled: seq<bool>, stalls: seq<Draws>,
                      skips: seq<Draws>)
    requires AllAt(ps, t, t) && AllAsked(ps, asked, stalled, t, stalls) && AllAir(asked, aired, t)
    requires AllHear(aired, t, arriving, heard) && AllDelivered(aired, qs, heard, stalled, skips)
    ensures AllTicked(ps, qs, t, arriving, stalls, skips)
  {
    forall i | 0 <= i < |ps| ensures Ticked(ps[i], qs[i], t, arriving[i], stalls[i], skips[i]) {
      OpenAsking(ps[i], asked[i], stalled[i], t, stalls[i]);
      assert Airs(asked[i], aired[i], t);
      assert IsHeard(aired[i], t, arriving[i], heard[i]);
      OpenDelivered(aired[i], qs[i], heard[i], stalled[i], skips[i]);
      TickedByParts(ps[i], asked[i], aired[i], qs[i], t, arriving[i], heard[i], stalled[i], stalls[i], skips[i]);
    }
  }

  lemma TickedByParts(p: Past, asked: Past, aired: Past, q: Past, t: nat, arriving: seq<Word>, heard: seq<Word>,
                      stalled: bool, stall: Draws, skip: Draws)
    requires |p.own| == |p.emitted| == |p.heard| == t && ToldStill(p, asked, stalled, t, stall)
    requires Airs(asked, aired, t) && IsHeard(aired, t, arriving, heard) && HandedTo(aired, q, heard, stalled, skip)
    ensures Ticked(p, q, t, arriving, stall, skip)
  {
    assert q.heard == p.heard + heard && q.heard[t..] == heard;
    assert aired == q.(heard := p.heard, sent := p.sent, intake := p.intake, due := AskedAt(p, t, stall).due);
  }

  // ---- the overlap ----

  /** The account of the overlap is of these pasts: a sample counts when two were on at once, unless
      the paths were cut. */
  ghost predicate OverlapRight(ps: seq<Past>, cut: seq<bool>, both: seq<bool>, kinds: seq<Kind>) {
    && |cut| == |both| == |kinds|
    && forall k: nat | k < |both| :: both[k] == (!cut[k] && TwoOn(ps, k)) && kinds[k] == KindThen(ps, k)
  }

  ghost function OverlapSound(ps: seq<Past>, cut: seq<bool>, both: seq<bool>, kinds: seq<Kind>): Condition {
    if forall key: nat {:trigger Opens(OverlapLock, key)} | Opens(OverlapLock, key) ::
         OverlapRight(ps, cut, both, kinds)
    then Sound else Unsound
  }

  lemma OpenOverlap(ps: seq<Past>, cut: seq<bool>, both: seq<bool>, kinds: seq<Kind>)
    requires OverlapSound(ps, cut, both, kinds) == Sound
    ensures OverlapRight(ps, cut, both, kinds)
  {
    var open := Opens(OverlapLock, 0);
  }

  /** A sample once on the air stays what it was. */
  lemma ThenStays(p: Past, q: Past, t: nat, k: nat)
    requires Airs(p, q, t) && t % RADIATED_BLOCK == 0 && k < t
    ensures OnThen(q, k) == OnThen(p, k) && HeldThen(q, k) == HeldThen(p, k)
    ensures SignalThen(q, k) == SignalThen(p, k)
  {
    assert q.own[..k + 1] == p.own[..k + 1];
    RadiatesInStays(p.own, p.emitted, p.radio.voxHold, p.radio.txDelay, k / RADIATED_BLOCK, q.own, q.emitted);
  }

  lemma OverlapStays(ps: seq<Past>, qs: seq<Past>, t: nat, k: nat)
    requires AllAir(ps, qs, t) && t % RADIATED_BLOCK == 0 && k < t
    ensures TwoOn(qs, k) == TwoOn(ps, k) && KindThen(qs, k) == KindThen(ps, k)
  {
    forall i | 0 <= i < |ps|
      ensures OnThen(qs[i], k) == OnThen(ps[i], k) && HeldThen(qs[i], k) == HeldThen(ps[i], k)
      ensures SignalThen(qs[i], k) == SignalThen(ps[i], k)
    {
      ThenStays(ps[i], qs[i], t, k);
    }
  }

  /** The same at every sample of a tick. */
  ghost function Throughout(out: bool): (s: seq<bool>)
    ensures |s| == TICK && forall k | 0 <= k < TICK :: s[k] == out
  {
    seq(TICK, _ => out)
  }

  ghost predicate TickOverlap(qs: seq<Past>, t: nat, out: bool, now: seq<bool>, what: seq<Kind>) {
    && |now| == |what| == TICK
    && forall k: nat | k < TICK :: now[k] == (!out && TwoOn(qs, t + k)) && what[k] == KindThen(qs, t + k)
  }

  /** A tick's overlap added to the account. */
  lemma OverlapWithTick(ps: seq<Past>, qs: seq<Past>, cut: seq<bool>, both: seq<bool>, kinds: seq<Kind>,
                        t: nat, out: bool, now: seq<bool>, what: seq<Kind>)
    requires OverlapSound(ps, cut, both, kinds) == Sound && |both| == t && t % RADIATED_BLOCK == 0
    requires AllAir(ps, qs, t) && TickOverlap(qs, t, out, now, what)
    ensures OverlapSound(qs, cut + Throughout(out), both + now, kinds + what) == Sound
  {
    OpenOverlap(ps, cut, both, kinds);
    forall k: nat | k < t ensures both[k] == (!cut[k] && TwoOn(qs, k)) && kinds[k] == KindThen(qs, k) {
      OverlapStays(ps, qs, t, k);
    }
    OverlapJoined(qs, cut, both, kinds, out, now, what);
  }

  lemma OverlapJoined(qs: seq<Past>, cut: seq<bool>, both: seq<bool>, kinds: seq<Kind>, out: bool, now: seq<bool>,
                      what: seq<Kind>)
    requires OverlapRight(qs, cut, both, kinds) && TickOverlap(qs, |both|, out, now, what)
    ensures OverlapRight(qs, cut + Throughout(out), both + now, kinds + what)
  {
    JoinedBy((k: nat) => TwoOn(qs, k), (k: nat) => KindThen(qs, k), cut, both, kinds, out, now, what);
  }

  lemma JoinedBy(two: nat -> bool, kind: nat -> Kind, cut: seq<bool>, both: seq<bool>, kinds: seq<Kind>, out: bool,
                 now: seq<bool>, what: seq<Kind>)
    requires |cut| == |both| == |kinds| && |now| == |what| == TICK
    requires forall k: nat | k < |both| :: both[k] == (!cut[k] && two(k)) && kinds[k] == kind(k)
    requires forall j: nat | j < TICK :: now[j] == (!out && two(|both| + j)) && what[j] == kind(|both| + j)
    ensures forall k: nat | k < |both + now| ::
              (both + now)[k] == (!(cut + Throughout(out))[k] && two(k)) && (kinds + what)[k] == kind(k)
  {
    forall k: nat | k < |both + now|
      ensures (both + now)[k] == (!(cut + Throughout(out))[k] && two(k)) && (kinds + what)[k] == kind(k)
    {
      if k >= |both| {
        var j: nat := k - |both|;
        assert now[j] == (!out && two(|both| + j));
      }
    }
  }

  /** What else changes of a past does not change the overlap. */
  ghost predicate SameAir(ps: seq<Past>, qs: seq<Past>) {
    |qs| == |ps| && forall i | 0 <= i < |ps| ::
      qs[i].radio == ps[i].radio && qs[i].own == ps[i].own && qs[i].emitted == ps[i].emitted
  }

  lemma OverlapOfAir(ps: seq<Past>, qs: seq<Past>, cut: seq<bool>, both: seq<bool>, kinds: seq<Kind>)
    requires OverlapSound(ps, cut, both, kinds) == Sound && SameAir(ps, qs)
    ensures OverlapSound(qs, cut, both, kinds) == Sound
  {
    OpenOverlap(ps, cut, both, kinds);
    forall k: nat | k < |both| ensures TwoOn(qs, k) == TwoOn(ps, k) && KindThen(qs, k) == KindThen(ps, k) {
      forall i | 0 <= i < |ps|
        ensures OnThen(qs[i], k) == OnThen(ps[i], k) && HeldThen(qs[i], k) == HeldThen(ps[i], k)
        ensures SignalThen(qs[i], k) == SignalThen(ps[i], k)
      {
      }
    }
  }
}
