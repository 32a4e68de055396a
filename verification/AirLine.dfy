/**
 From a station's queue to the air (tools/channel_server.py): the blocks taken from the head of the
 queue, and the line that holds a quarter of a second of them, with which are the station's own.
 */
module AirLine {
  import opened Bytes
  import opened Messages
  import opened Playback
  import opened Keying

  /** Which samples of the air are the station's own, keyed: a VOX keys on what is heard. */
  function OwnKeys(h: Story, voxHold: nat): (s: seq<bool>)
    ensures |s| == |h.aired|
  {
    var air := OnAir(h);
    seq(|h.aired|, i requires 0 <= i < |h.aired| => h.aired[i].Carries? && (voxHold > 0 ==> Loud(air[i])))
  }

  /** Which those are: what the air carries, and under a VOX what of it is heard. */
  lemma OwnKeysMean(d: Deck, h: Story, voxHold: nat, a: nat)
    requires Coherent(d, h) && a < |h.aired|
    ensures OwnKeys(h, voxHold)[a] <==>
            h.aired[a].Carries? && (voxHold == 0 || Loud(Queued(h.log)[h.aired[a].id]))
  {
    AirCarries(d, h, a);
  }

  /** The line holds the last `latency` samples of what goes on the air, and everything before has
      left it. */
  ghost predicate IsLine(h: Story, voxHold: nat, latency: nat,
                         air: seq<Word>, airKeyed: seq<bool>, emitted: seq<Word>, own: seq<bool>)
  {
    && |air| == latency && |airKeyed| == latency
    && Line(OnAir(h), emitted, air)
    && Line(OwnKeys(h, voxHold), own, airKeyed)
  }

  function Unkeyed(n: nat): (s: seq<bool>)
    ensures |s| == n
  {
    seq(n, _ => false)
  }

  lemma StartIsSilent(h: Story, emitted: seq<Word>, own: seq<bool>, n: nat, voxHold: nat)
    requires |emitted| < 1 && |own| < 1 && h.aired == Slots(0, 0, n)
    ensures Line(OnAir(h), emitted, Played([], n))
    ensures Line(OwnKeys(h, voxHold), own, Unkeyed(n))
  {
  }

  /** A station joins the air with nothing said and a line of silence. */
  lemma JoinsSilently(d: Deck, h: Story, emitted: seq<Word>, own: seq<bool>, n: nat, voxHold: nat)
    requires Unsaid(d, h) && |emitted| < 1 && |own| < 1 && h.aired == Slots(0, 0, n)
    ensures Coherent(d, h)
    ensures IsLine(h, voxHold, n, Played([], n), Unkeyed(n), emitted, own)
  {
    StartIsSilent(h, emitted, own, n, voxHold);
    UnsaidIsCoherent(d, h);
  }

  /** What is said changes nothing already on its way to the air. */
  lemma ToldAllKeepsLine(d: Deck, h: Story, ms: seq<Message>, voxHold: nat)
    requires Coherent(d, h)
    ensures OnAir(ToldAllStory(h, ms)) == OnAir(h)
    ensures OwnKeys(ToldAllStory(h, ms), voxHold) == OwnKeys(h, voxHold)
  {
    ToldAllKeepsAir(d, h, ms);
  }

  /** Which of `n` samples taken are the station's own. */
  function Own(line: seq<Word>, n: nat): (s: seq<bool>)
    ensures |s| == n
  {
    seq(n, i requires 0 <= i < n => i < |line|)
  }

  /** Which of them are keyed: all, or under a VOX those that are heard. */
  function OwnPlayed(line: seq<Word>, n: nat, voxHold: nat): (s: seq<bool>)
    ensures |s| == n
  {
    seq(n, i requires 0 <= i < n => i < |line| && (voxHold > 0 ==> Loud(Played(line, n)[i])))
  }

  /** A tick's effect: `n` samples drawn, and the accounts they reach placed from `start` on. */
  function DeckAfter(d: Deck, start: nat, n: nat): Deck {
    PlacedAll(Drawn(d, n), start, d.consumed)
  }

  function StoryAfter(d: Deck, h: Story, start: nat, n: nat): Story {
    PlacedAllStory(Drawn(d, n), DrawnStory(d, h, n), start, d.consumed)
  }

  lemma TickIsCoherent(d: Deck, h: Story, n: nat)
    requires Coherent(d, h)
    ensures Coherent(DeckAfter(d, |h.aired|, n), StoryAfter(d, h, |h.aired|, n))
  {
    DrawnIsPlacing(d, h, n);
    PlacedAllIsCoherent(Drawn(d, n), DrawnStory(d, h, n), |h.aired|, d.consumed);
  }

  /** A tick plays from the front of the queue, and is idle only once the queue is empty. */
  lemma TickPlaysWhatWaits(d: Deck, h: Story, start: nat, n: nat)
    requires Coherent(d, h)
    ensures var after, left := StoryAfter(d, h, start, n).aired, |DeckAfter(d, start, n).line|;
            && |after| == |h.aired| + n && left <= |d.line|
            && DeckAfter(d, start, n).line == d.line[|d.line| - left..]
            && (forall a | |h.aired| <= a < |after| ::
                  after[a].Carries? <==> a - |h.aired| < |d.line| - left)
            && (left > 0 ==> |d.line| - left == n)
            && (forall a | |h.aired| <= a < |after| && after[a].Carries? ::
                  after[a].id == |Queued(h.log)| - |d.line| + (a - |h.aired|))
  {
    PlacedAllMoves(Drawn(d, n), DrawnStory(d, h, n), start, d.consumed);
    PlacedAllKeepsLine(Drawn(d, n), start, d.consumed);
  }

  lemma {:induction false} PlacedAllKeepsLine(d: Deck, start: nat, before: int)
    ensures PlacedAll(d, start, before).line == d.line
    decreases |d.waiting|
  {
    if d.waiting != [] && d.waiting[0].offset < d.consumed {
      PlacedAllKeepsLine(PlacedOne(d, start, before), start, before);
    }
  }

  lemma TickGoesOnAir(d: Deck, h: Story, start: nat, n: nat, voxHold: nat)
    requires Coherent(d, h)
    ensures OnAir(StoryAfter(d, h, start, n)) == OnAir(h) + Played(d.line, n)
    ensures OwnKeys(StoryAfter(d, h, start, n), voxHold) == OwnKeys(h, voxHold) + OwnPlayed(d.line, n, voxHold)
  {
    PlacedAllMoves(Drawn(d, n), DrawnStory(d, h, n), start, d.consumed);
    DrawnGoesOnAir(d, h, n);
  }

  lemma TickMovesLine(d: Deck, h: Story, n: nat, voxHold: nat,
                      emitted: seq<Word>, air: seq<Word>, own: seq<bool>, airKeyed: seq<bool>)
    requires Coherent(d, h)
    requires Line(OnAir(h), emitted, air) && Line(OwnKeys(h, voxHold), own, airKeyed)
    ensures var played, mine := Played(d.line, n), OwnPlayed(d.line, n, voxHold);
            var after := StoryAfter(d, h, |h.aired|, n);
            && Line(OnAir(after), emitted + (air + played)[..n], (air + played)[n..])
            && Line(OwnKeys(after, voxHold), own + (airKeyed + mine)[..n], (airKeyed + mine)[n..])
  {
    TickGoesOnAir(d, h, |h.aired|, n, voxHold);
    LineMoves(OnAir(h), emitted, air, Played(d.line, n));
    LineMoves(OwnKeys(h, voxHold), own, airKeyed, OwnPlayed(d.line, n, voxHold));
  }

  /** The queue less the first `k` samples of its head. */
  function Behind(queue: seq<seq<Word>>, k: nat): (rest: seq<seq<Word>>)
    requires queue != [] && k <= |queue[0]|
  {
    if k == |queue[0]| then queue[1..] else [queue[0][k..]] + queue[1..]
  }

  lemma FlatBehind(queue: seq<seq<Word>>, k: nat)
    requires queue != [] && k <= |queue[0]|
    ensures Flat(Behind(queue, k)) == Flat(queue)[k..]
    ensures k <= |Flat(queue)| && Flat(queue)[..k] == queue[0][..k]
  {
    var head, later := queue[0], Flat(queue[1..]);
    assert Flat(queue) == head + later;
    if k < |head| {
      assert Behind(queue, k)[1..] == queue[1..];
      assert (head + later)[k..] == head[k..] + later;
    }
  }

  lemma TakeHead(line: seq<Word>, filled: nat, queue: seq<seq<Word>>, k: nat)
    requires queue != [] && filled <= |line| && Flat(queue) == line[filled..] && k <= |queue[0]|
    ensures filled + k <= |line|
    ensures line[..filled] + queue[0][..k] == line[..filled + k]
    ensures Flat(Behind(queue, k)) == line[filled + k..]
  {
    FlatBehind(queue, k);
    assert line[filled + k..] == line[filled..][k..];
    assert line[..filled + k] == line[..filled] + line[filled..][..k];
  }

  // ---- any run ----

  /** What can befall a station's playback: a message taken, or a tick of so many samples. */
  datatype Event = Takes(message: Message) | Ticks(n: nat)

  /** The playback after a run, its line `latency` long. */
  function DeckRun(latency: nat, events: seq<Event>): Deck
    decreases events, 0
  {
    if events == [] then Deck([], 0, 0, 0, [], [])
    else
      var n := |events| - 1;
      var before := DeckRun(latency, events[..n]);
      match events[n]
      case Takes(m) => Told(before, m)
      case Ticks(k) => DeckAfter(before, |StoryRun(latency, events[..n]).aired|, k)
  }

  function StoryRun(latency: nat, events: seq<Event>): Story
    decreases events, 1
  {
    if events == [] then AtStart(latency)
    else
      var n := |events| - 1;
      var before := StoryRun(latency, events[..n]);
      match events[n]
      case Takes(m) => ToldStory(before, m)
      case Ticks(k) => StoryAfter(DeckRun(latency, events[..n]), before, |before.aired|, k)
  }

  function AirTime(events: seq<Event>): nat {
    if events == [] then 0
    else AirTime(events[..|events| - 1]) + if events[|events| - 1].Ticks? then events[|events| - 1].n else 0
  }

  /** Over any run of PLAY, TAG, CLEAR and ticks the playback is coherent, so that every account is
      on time and none is lost; and the line neither grows nor shrinks. */
  lemma {:induction false} RunIsCoherent(latency: nat, events: seq<Event>)
    ensures Coherent(DeckRun(latency, events), StoryRun(latency, events))
    ensures |StoryRun(latency, events).aired| == latency + AirTime(events)
  {
    if events == [] {
      StartIsCoherent(DeckRun(latency, events), latency);
    } else {
      var n := |events| - 1;
      var d, h := DeckRun(latency, events[..n]), StoryRun(latency, events[..n]);
      RunIsCoherent(latency, events[..n]);
      match events[n]
      case Takes(m) => ToldKeeps(d, h, m);
      case Ticks(k) =>
        TickIsCoherent(d, h, k);
        PlacedAllMoves(Drawn(d, k), DrawnStory(d, h, k), |h.aired|, d.consumed);
    }
  }

  lemma StartIsCoherent(d: Deck, latency: nat)
    requires |d.line| < 1 && d.queued == |d.line| && d.queuedTotal == d.consumed + d.queued && d.consumed == |d.line|
    requires |d.waiting| < 1 && |d.placed| < 1
    ensures Coherent(d, AtStart(latency))
  {
    UnsaidIsCoherent(d, AtStart(latency));
  }
}
