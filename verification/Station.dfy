/**
 One station of tools/channel_server.py: its socket, what it plays, its key, its stalls and what
 it is given to hear, updated in place. The theory is in Messages, Playback, Keying, Stalls and
 Capture; here each method is tied to it. The random draws are arguments.
 */
module Stations {
  import opened Bytes
  import opened Messages
  import opened Playback
  import opened Keying
  import opened AirLine
  import opened Runs
  import opened Stalls
  import opened Capture
  import opened Options
  import opened Histories

  // What holds of a station's socket, its playback, its key, the radiated intervals, its stalls, its
  // skips, its hearing and its debt of READYs.

  ghost function WireSound(inbox: seq<Byte>, at: nat, sock: seq<seq<Byte>>, returned: seq<Byte>, writes: seq<Byte>): Condition {
    if forall key: nat {:trigger Opens(WireLock, key)} | Opens(WireLock, key) ::
         && at <= |inbox| && (forall i | 0 <= i < |sock| :: sock[i] != [])
         && returned + (inbox[at..] + Flat(sock)) == writes
    then Sound else Unsound
  }

  /** What was said is what was read; of a station that has left, the front of what it writes. */
  ghost function SpeechSound(returned: seq<Byte>, writes: seq<Byte>, said: seq<Message>, readys: nat, left: bool): Condition {
    if forall key: nat {:trigger Opens(SpeechLock, key)} | Opens(SpeechLock, key) ::
         && FitsAll(said) && readys == Readys(said)
         && (if left then WrittenAll(said) <= writes else WrittenAll(said) == returned)
    then Sound else Unsound
  }

  lemma OpenSpeech(returned: seq<Byte>, writes: seq<Byte>, said: seq<Message>, readys: nat, left: bool)
    requires SpeechSound(returned, writes, said, readys, left) == Sound
    ensures FitsAll(said) && readys == Readys(said)
    ensures if left then WrittenAll(said) <= writes else WrittenAll(said) == returned
  {
    var open := Opens(SpeechLock, 0);
  }

  /** Whether what a station writes says as many READYs as it was sent blocks, and the first. */
  ghost function Answering(writes: seq<Byte>, sent: seq<Sent>): Condition {
    if forall key: nat {:trigger Opens(AnswersLock, key)} | Opens(AnswersLock, key) ::
         Readys(ReadAll(writes)) > Blocks(sent)
    then Sound else Unsound
  }

  lemma AnsweringMeans(writes: seq<Byte>, sent: seq<Sent>)
    ensures Answering(writes, sent) == Sound <==> Readys(ReadAll(writes)) >= 1 + Blocks(sent)
  {
    var open := Opens(AnswersLock, 0);
  }

  /** One more message read off the stream. */
  lemma SpeechWithMessage(returned: seq<Byte>, pending: seq<Byte>, later: seq<Byte>, said: seq<Message>, readys: nat,
                          m: Message, rest: seq<Byte>)
    requires SpeechSound(returned, returned + pending, said, readys, false) == Sound
    requires Next(pending) == Got(m, rest) && later + rest == returned + pending
    ensures SpeechSound(later, later + rest, said + [m], readys + if m.Ready? then 1 else 0, false) == Sound
  {
    OpenSpeech(returned, returned + pending, said, readys, false);
    ReadOneMore(said, pending, m, rest, later);
    ReadysOneMore(said, m);
  }

  lemma SpeechBroken(returned: seq<Byte>, writes: seq<Byte>, later: seq<Byte>, said: seq<Message>, readys: nat)
    requires SpeechSound(returned, writes, said, readys, false) == Sound && returned <= writes
    ensures SpeechSound(later, writes, said, readys, true) == Sound
  {
    OpenSpeech(returned, writes, said, readys, false);
  }

  ghost function PlaySound(d: Deck, h: Story, voxHold: nat, latency: nat,
                           air: seq<Word>, airKeyed: seq<bool>, emitted: seq<Word>, own: seq<bool>): Condition {
    if forall key: nat {:trigger Opens(PlayLock, key)} | Opens(PlayLock, key) ::
         Coherent(d, h) && IsLine(h, voxHold, latency, air, airKeyed, emitted, own)
    then Sound else Unsound
  }

  lemma SilentIsSound(d: Deck, h: Story, voxHold: nat, n: nat, emitted: seq<Word>, own: seq<bool>)
    requires Unsaid(d, h) && |emitted| < 1 && |own| < 1 && h.aired == Slots(0, 0, n)
    ensures PlaySound(d, h, voxHold, n, Played([], n), Unkeyed(n), emitted, own) == Sound
  {
    JoinsSilently(d, h, emitted, own, n, voxHold);
  }

  ghost function KeySound(own: seq<bool>, voxHold: nat, since: Option<nat>, last: int, intervals: seq<Run>): Condition {
    if forall key: nat {:trigger Opens(KeyLock, key)} | Opens(KeyLock, key) ::
         Tracks(own, voxHold, since, last, intervals)
    then Sound else Unsound
  }

  ghost function RadiatedSound(since: Option<nat>, radiated: seq<Run>, blocks: seq<bool>, air: nat): Condition {
    if forall key: nat {:trigger Opens(RadiatedLock, key)} | Opens(RadiatedLock, key) ::
         RadiatedRight(since, radiated, blocks) && air == RADIATED_BLOCK * |blocks|
    then Sound else Unsound
  }

  ghost function SignalSound(own: seq<bool>, emitted: seq<Word>, voxHold: nat, txDelay: nat, blocks: seq<bool>): Condition {
    if forall key: nat {:trigger Opens(SignalLock, key)} | Opens(SignalLock, key) ::
         BlocksRight(own, emitted, voxHold, txDelay, blocks)
    then Sound else Unsound
  }

  /** The blocks of a tick put out, added to those before. */
  lemma SignalWithTick(own: seq<bool>, emitted: seq<Word>, voxHold: nat, txDelay: nat, blocks: seq<bool>,
                       moreOwn: seq<bool>, moreEmitted: seq<Word>, recovery: nat, out: Output)
    requires SignalSound(own, emitted, voxHold, txDelay, blocks) == Sound
    requires own <= moreOwn && emitted <= moreEmitted && |out.signal| % RADIATED_BLOCK == 0
    requires |moreOwn| == |own| + |out.signal|
    requires PutOut(Radio(voxHold, txDelay, recovery), moreOwn, moreEmitted, |own|, out) == Sound
    ensures SignalSound(moreOwn, moreEmitted, voxHold, txDelay, blocks + ByBlock(out.signal)) == Sound
  {
    var open := Opens(SignalLock, 0);
    OpenOutput(Radio(voxHold, txDelay, recovery), moreOwn, moreEmitted, |own|, out);
    BlocksStayRight(own, emitted, voxHold, txDelay, blocks, moreOwn, moreEmitted, out.audio, out.on, out.vox, out.signal);
  }

  ghost function StallsSound(s: Record, requests: seq<Request>, now: int): Condition {
    if forall key: nat {:trigger Opens(StallsLock, key)} | Opens(StallsLock, key) ::
         Keeps(s, requests, now)
    then Sound else Unsound
  }

  ghost function SkipsSound(skips: seq<Missed>, skipped: nat, left: nat): Condition {
    if forall key: nat {:trigger Opens(SkipsLock, key)} | Opens(SkipsLock, key) ::
         TotalMissed(skips) == skipped + left
    then Sound else Unsound
  }

  ghost function HearSound(i: Intake<Word>, l: Ledger, machine: Machine): Condition {
    if forall key: nat {:trigger Opens(HearLock, key)} | Opens(HearLock, key) ::
         Accounted(i, l, machine)
    then Sound else Unsound
  }

  ghost function OwedSound(owed: int, outbox: seq<Sent>, readys: nat): Condition {
    if forall key: nat {:trigger Opens(OwedLock, key)} | Opens(OwedLock, key) ::
         owed == 1 + Blocks(outbox) - readys && owed >= 0
    then Sound else Unsound
  }

  class Station {
    const txDelay: nat
    const voxHold: nat
    const recovery: nat

    // The socket: the pieces it has still to give before the station closes it, and what has
    // come and not been taken, from `at` on.
    var sock: seq<seq<Byte>>
    var inbox: seq<Byte>
    var at: nat
    var bytesRead: nat
    ghost var returned: seq<Byte>   // all that has been taken
    ghost const writes: seq<Byte>   // all that the station ever writes
    ghost var left: bool            // its stream ended, or said something else, before a READY

    // What it plays.
    var queue: seq<seq<Word>>
    var queued: int
    var consumed: int
    var queuedTotal: int
    var tagsWaiting: seq<Waiting>
    var transmissions: seq<Transmission>
    ghost var story: Story

    // On the air, a card's latency later.
    var air: seq<Word>
    var airKeyed: seq<bool>
    ghost var latency: nat          // how long the line is
    ghost var emitted: seq<Word>    // all that has left the line
    ghost var own: seq<bool>        // and whether each sample was the station's own, keyed

    // Its key, and the milliseconds in which it radiated.
    var keyedSince: Option<nat>
    var lastKeyed: int
    var intervals: seq<Run>
    var radiatingSince: Option<nat>
    var radiated: seq<Run>
    ghost var radiatedBlocks: seq<bool>

    // Its machine. `owed` counts the READYs to wait for: one for each block, and the first.
    const machine: Machine
    var owed: int
    var nextStall: Option<int>
    var stallFrom: int
    var stallUntil: int
    var stalls: seq<Stretch>
    var nextSkip: Option<int>
    var skipLeft: nat
    var skipPending: nat
    var skips: seq<Missed>
    var backlog: seq<seq<Word>>
    var stallDropped: nat
    var outbox: seq<Sent>           // what it has been sent
    ghost var readys: nat           // the READYs read from it
    ghost var requests: seq<Request>
    ghost var skipped: nat          // how much of what its receiver gave its capture skipped
    ghost var ledger: Ledger

    constructor (txDelay: nat, voxHold: nat, recovery: nat, machine: Machine, sock: seq<seq<Byte>>)
      requires forall i | 0 <= i < |sock| :: sock[i] != []
      ensures this.txDelay == txDelay && this.voxHold == voxHold && this.recovery == recovery
      ensures this.machine == machine
      ensures writes == Flat(sock) && returned == [] && WireValid()
      ensures Silent() && Unread() && Deafened() && Untouched() && Fresh() == Sound && !left
    {
      this.txDelay, this.voxHold, this.recovery := txDelay, voxHold, recovery;
      this.sock, inbox, at, bytesRead, returned, left := sock, [], 0, 0, [], false;
      writes := Flat(sock);
      queue, queued, consumed, queuedTotal := [], 0, 0, 0;
      tagsWaiting, transmissions := [], [];
      story, emitted, own := Story([], [], [], []), [], [];
      air, airKeyed := [], [];
      keyedSince, lastKeyed, intervals := None, NEVER, [];
      radiatingSince, radiated, radiatedBlocks := None, [], [];
      this.machine, owed, readys, outbox := machine, 1, 0, [];
      nextStall, stallFrom, stallUntil, stalls, requests := None, 0, 0, [], [];
      nextSkip, skipLeft, skipPending, skips, skipped := None, 0, 0, [], 0;
      backlog, stallDropped, ledger := [], 0, Ledger([], 0, {});
      NothingTaken(sock);
      new;
      CloseWire();
    }

    /** Nothing said, nothing played, nothing on the air. */
    ghost predicate Silent()
      reads this`queue, this`queued, this`consumed, this`queuedTotal, this`tagsWaiting,
            this`transmissions, this`story, this`emitted, this`own
    {
      && |queue| < 1 && queued == |queue| && queuedTotal == consumed + queued && consumed == |queue|
      && |tagsWaiting| < 1 && |transmissions| < 1
      && |story.log| < 1 && |story.aired| < 1 && |story.waitingAt| < 1 && |story.placedAt| < 1
      && |emitted| < 1 && |own| < 1
    }

    /** Nothing read. */
    ghost predicate Unread()
      reads this`returned, this`readys, this`left
    {
      |returned| < 1 && readys < 1 && !left
    }

    lemma NothingReadYet()
      requires Silent() && Unread()
      ensures SpeechValid()
    {
      assert Saids(story.log) == [] && returned == [];
    }

    /** Nothing heard, nothing sent. */
    ghost predicate Deafened()
      reads this`outbox, this`skipPending, this`backlog, this`stallDropped, this`skipped, this`ledger
    {
      && |outbox| < 1 && |backlog| < 1
      && |ledger.heard| < 1 && ledger.settled < 1 && |ledger.doubt| < 1
      && skipPending == stallDropped == skipped && skipped < 1
    }

    /** The station joins the air, with a line of silence as long as its card's latency. */
    method JoinAir(n: nat)
      requires Quiet() == Sound
      modifies this`air, this`airKeyed, this`story, this`latency
      ensures latency == n && |story.aired| == n && story.log == old(story.log)
      ensures PlayValid()
    {
      ghost var h := story.(aired := Slots(0, 0, n));
      QuietIsSound(h, n);
      air, airKeyed := Played([], n), Unkeyed(n);
      story, latency := h, n;
    }

    ghost function Quiet(): Condition
      reads this`queue, this`queued, this`consumed, this`queuedTotal, this`tagsWaiting,
            this`transmissions, this`story, this`emitted, this`own
    {
      if forall key: nat {:trigger Opens(StandLock, key)} | Opens(StandLock, key) :: Silent()
      then Sound else Unsound
    }

    lemma QuietIsSound(h: Story, n: nat)
      requires Quiet() == Sound && h == story.(aired := Slots(0, 0, n))
      ensures PlaySound(Deck(), h, voxHold, n, Played([], n), Unkeyed(n), emitted, own) == Sound
    {
      var open := Opens(StandLock, 0);
      assert Flat(queue) == [];
      SilentIsSound(Deck(), h, voxHold, n, emitted, own);
    }

    lemma NothingHeardYet()
      requires Deafened()
      ensures HearValid()
    {
      NothingHeard(Intake(), ledger, machine);
    }

    /** Never keyed, stalled or skipped; only the first READY owed. */
    ghost predicate Untouched()
      reads this`keyedSince, this`lastKeyed, this`intervals, this`own
      reads this`radiatingSince, this`radiated, this`radiatedBlocks
      reads this`stallFrom, this`stallUntil, this`stalls, this`requests
      reads this`skips, this`skipped, this`skipLeft, this`owed, this`outbox, this`readys
      reads this`nextStall, this`nextSkip
    {
      && nextStall.None? && nextSkip.None?
      && keyedSince.None? && lastKeyed == NEVER && |intervals| < 1 && |own| < 1
      && radiatingSince.None? && |radiated| < 1 && |radiatedBlocks| < 1
      && stallFrom == stallUntil && stallUntil == 0 && |stalls| < 1 && |requests| < 1
      && |skips| < 1 && skipped == skipLeft && skipLeft < 1
      && owed == 1 && |outbox| < 1 && readys < 1
    }

    lemma NothingKeyedYet()
      requires Untouched()
      ensures KeyValid(own) && RadiatedTo(|own|)
    {
      NeverKeyed(voxHold);
      assert own == [] && intervals == [] && radiatedBlocks == [];
      CloseKey(own);
      CloseRadiated(|own|);
    }

    lemma NothingRadiatedYet()
      requires Silent() && Untouched()
      ensures SignalValid()
    {
      assert own == [] && emitted == [] && radiatedBlocks == [];
    }

    lemma NothingOwedYet()
      requires Untouched()
      ensures StallsValid(0) && SkipsValid() && OwedValid()
    {
      CloseStalls(0);
      CloseSkips();
      CloseOwed();
    }

    // ---- the socket ----

    /** What has come or will come, and has not been taken. */
    ghost function Pending(): seq<Byte>
      requires at <= |inbox|
      reads this`inbox, this`at, this`sock
    {
      inbox[at..] + Flat(sock)
    }

    /** What was taken is the front of what the station writes, however the socket splits it. */
    ghost predicate WireValid()
      reads this`inbox, this`at, this`sock, this`returned
    {
      at <= |inbox| && WireSound(inbox, at, sock, returned, writes) == Sound
    }

    lemma OpenWire()
      requires WireValid()
      ensures && at <= |inbox|
              && (forall i | 0 <= i < |sock| :: sock[i] != [])
              && returned + Pending() == writes
    {
      var open := Opens(WireLock, 0);
    }

    lemma CloseWire()
      requires && at <= |inbox|
               && (forall i | 0 <= i < |sock| :: sock[i] != [])
               && returned + Pending() == writes
      ensures WireValid()
    {
    }

    /** The steps' messages are those the bytes taken say, READYs included. */
    ghost predicate SpeechValid()
      reads this`returned, this`story, this`readys, this`left
    {
      SpeechSound(returned, writes, Saids(story.log), readys, left) == Sound
    }

    /** So the bytes tell what the station was told, and how many READYs are still owed. */
    lemma SaidIsRead()
      requires WireValid() && SpeechValid() && OwedValid() && !left
      ensures returned <= writes && ReadAll(returned) == Saids(story.log)
      ensures owed == 1 + Blocks(outbox) - Readys(ReadAll(returned)) >= 0
    {
      OpenWire();
      OpenSpeech(returned, writes, Saids(story.log), readys, left);
      WrittenAllIsRead(Saids(story.log));
      OpenOwed();
    }

    /** The next `n` bytes, or None when the station closes its socket before they have come. */
    method ReadExact(n: nat) returns (data: Option<seq<Byte>>)
      requires WireValid()
      modifies this`inbox, this`at, this`sock, this`bytesRead, this`returned
      ensures WireValid()
      ensures data.Some? <==> n <= |old(Pending())|
      ensures data.Some? ==> data.value == old(Pending())[..n] && Pending() == old(Pending())[n..]
      ensures data.Some? ==> returned == old(returned) + data.value
      ensures data.None? ==> returned == old(returned) && Pending() == old(Pending())
    {
      OpenWire();
      while |inbox| - at < n
        invariant at <= |inbox| && forall i | 0 <= i < |sock| :: sock[i] != []
        invariant Pending() == old(Pending()) && returned == old(returned)
        decreases |sock|
      {
        if sock == [] {
          NothingMore(inbox, at);
          CloseWire();
          return None;
        }
        Receive();
      }
      Front(inbox, at, sock, n);
      TakenSoFar(returned, inbox, at, sock, n);
      data := Some(inbox[at..at + n]);
      at, returned := at + n, returned + inbox[at..at + n];
      CloseWire();
    }

    /** One piece from the socket, the taken bytes let go. */
    method Receive()
      requires at <= |inbox| && sock != []
      modifies this`inbox, this`at, this`sock, this`bytesRead
      ensures at <= |inbox| && sock == old(sock)[1..]
      ensures Pending() == old(Pending())
    {
      OnePieceMore(inbox[at..], sock);
      assert (inbox + sock[0])[at..] == inbox[at..] + sock[0];
      if at > 0 {
        inbox, at := inbox[at..], 0;
      }
      var got := sock[0];
      sock := sock[1..];
      inbox := inbox + got;
      bytesRead := bytesRead + |got|;
    }

    // ---- what the station says ----

    ghost function Deck(): Deck
      reads this`queue, this`queued, this`consumed, this`queuedTotal, this`tagsWaiting, this`transmissions
    {
      Playback.Deck(Flat(queue), queued, consumed, queuedTotal, tagsWaiting, transmissions)
    }

    /** The queue, the accounts and the line are what the messages and the ticks so far made them. */
    ghost predicate PlayValid()
      reads this`queue, this`queued, this`consumed, this`queuedTotal, this`tagsWaiting,
            this`transmissions, this`story
      reads this`air, this`airKeyed, this`emitted, this`own, this`latency
    {
      PlaySound(Deck(), story, voxHold, latency, air, airKeyed, emitted, own) == Sound
    }

    lemma OpenPlay()
      requires PlayValid()
      ensures Coherent(Deck(), story) && LineValid()
    {
      var open := Opens(PlayLock, 0);
    }

    lemma ClosePlay()
      requires Coherent(Deck(), story) && LineValid()
      ensures PlayValid()
    {
    }

    ghost predicate LineValid()
      reads this`air, this`airKeyed, this`emitted, this`own, this`story, this`latency
    {
      IsLine(story, voxHold, latency, air, airKeyed, emitted, own)
    }

    /** The playback fields are what a message makes of what they were. */
    ghost predicate Obeys(d: Deck, h: Story, m: Message)
      reads this`queue, this`queued, this`consumed, this`queuedTotal, this`tagsWaiting,
            this`transmissions, this`story
    {
      Deck() == Told(d, m) && story == ToldStory(h, m)
    }

    method QueueSamples(samples: seq<Word>)
      modifies this`queue, this`queued, this`queuedTotal, this`story
      ensures Obeys(old(Deck()), old(story), Play(samples))
    {
      FlatAppend(queue, samples);
      queue, queued, queuedTotal := queue + [samples], queued + |samples|, queuedTotal + |samples|;
      story := ToldStory(story, Play(samples));
    }

    /** CLEAR empties the queue, and counts the next sample from what has been played. */
    method ClearQueue()
      modifies this`queue, this`queued, this`queuedTotal, this`tagsWaiting, this`story
      ensures Obeys(old(Deck()), old(story), Clear)
    {
      queue, queued, queuedTotal, tagsWaiting := [], 0, consumed, [];
      story := ToldStory(story, Clear);
    }

    method QueueTag(account: Account)
      modifies this`tagsWaiting, this`story
      ensures Obeys(old(Deck()), old(story), Tag(account))
    {
      tagsWaiting := tagsWaiting + [Waiting(queuedTotal, account)];
      story := ToldStory(story, Tag(account));
    }

    /** A message's kind. */
    method ReadKind() returns (kind: Option<Byte>)
      requires WireValid()
      modifies this`inbox, this`at, this`sock, this`bytesRead, this`returned
      ensures WireValid()
      ensures kind.Some? <==> old(Pending()) != []
      ensures kind.Some? ==> kind.value == old(Pending())[0] && Pending() == old(Pending())[1..]
    {
      var data := ReadExact(1);
      kind := if data.Some? then Some(data.value[0]) else None;
    }

    /** A message's count, and the bytes it counts. */
    method ReadCount() returns (n: Option<nat>)
      requires WireValid()
      modifies this`inbox, this`at, this`sock, this`bytesRead, this`returned
      ensures WireValid()
      ensures n.Some? <==> |old(Pending())| >= 4
      ensures n.Some? ==> n.value == Unpacked(old(Pending())[..4]) && Pending() == old(Pending())[4..]
    {
      var data := ReadExact(4);
      n := if data.Some? then Some(Unpacked(data.value)) else None;
    }

    /** The rest of a PLAY message. */
    method TakePlay() returns (ok: bool)
      requires WireValid()
      modifies this`inbox, this`at, this`sock, this`bytesRead, this`returned
      modifies this`queue, this`queued, this`queuedTotal, this`story
      ensures WireValid()
      ensures ok <==> PlayIn(old(Pending())).Got?
      ensures ok ==> Pending() == PlayIn(old(Pending())).rest
      ensures ok ==> Obeys(old(Deck()), old(story), PlayIn(old(Pending())).message)
      ensures !ok ==> Deck() == old(Deck()) && story == old(story)
    {
      var n := ReadCount();
      if n.None? { return false; }
      var data := ReadExact(4 * n.value);
      if data.None? { return false; }
      QueueSamples(UnpackedAll(data.value, n.value));
      ok := true;
    }

    /** The rest of a TAG message. */
    method TakeTag() returns (ok: bool)
      requires WireValid()
      modifies this`inbox, this`at, this`sock, this`bytesRead, this`returned
      modifies this`tagsWaiting, this`story
      ensures WireValid()
      ensures ok <==> TagIn(old(Pending())).Got?
      ensures ok ==> Pending() == TagIn(old(Pending())).rest
      ensures ok ==> Obeys(old(Deck()), old(story), TagIn(old(Pending())).message)
      ensures !ok ==> Deck() == old(Deck()) && story == old(story)
    {
      var n := ReadCount();
      if n.None? { return false; }
      var account := ReadExact(n.value);
      if account.None? { return false; }
      QueueTag(account.value);
      ok := true;
    }

    /** A READY answers one block. */
    method TakeReady()
      modifies this`story, this`readys
      ensures Obeys(old(Deck()), old(story), Ready) && readys == old(readys) + 1
    {
      story, readys := ToldStory(story, Ready), readys + 1;
    }

    /** One message off the socket, and whether it was understood. */
    method TakeNext() returns (ok: bool, ready: bool)
      requires WireValid()
      modifies this`inbox, this`at, this`sock, this`bytesRead, this`returned
      modifies this`queue, this`queued, this`queuedTotal, this`tagsWaiting, this`story, this`readys
      ensures WireValid()
      ensures var p := Next(old(Pending()));
              && ok == p.Got? && ready == (p.Got? && p.message.Ready?)
              && (ok ==> Pending() == p.rest && Obeys(old(Deck()), old(story), p.message))
              && (!ok ==> Deck() == old(Deck()) && story == old(story))
      ensures readys == old(readys) + if ready then 1 else 0
    {
      ghost var p := Pending();
      var kind := ReadKind();
      if kind.None? { return false, false; }
      NextByKind(p);
      ok, ready := true, false;
      if kind.value == READY {
        TakeReady();
        ready := true;
      } else if kind.value == PLAY {
        ok := TakePlay();
      } else if kind.value == CLEAR {
        ClearQueue();
      } else if kind.value == TAG {
        ok := TakeTag();
      } else {
        ok := false;
      }
    }

    /** The same, the account of what was said kept: it leaves when it is not understood. */
    method TakeMessage() returns (ok: bool, ready: bool)
      requires WireValid() && SpeechValid() && !left
      modifies this`inbox, this`at, this`sock, this`bytesRead, this`returned, this`left
      modifies this`queue, this`queued, this`queuedTotal, this`tagsWaiting, this`story, this`readys
      ensures WireValid() && SpeechValid() && left == !ok
      ensures var p := Next(old(Pending()));
              && ok == p.Got? && ready == (p.Got? && p.message.Ready?)
              && (ok ==> Pending() == p.rest && Obeys(old(Deck()), old(story), p.message))
              && (!ok ==> Deck() == old(Deck()) && story == old(story))
      ensures readys == old(readys) + if ready then 1 else 0
    {
      ghost var bytes, p, log, n := returned, Pending(), story.log, readys;
      OpenWire();
      ok, ready := TakeNext();
      OpenWire();
      left := !ok;
      if ok {
        SaidOneMore(log, Said(Next(p).message));
        SpeechWithMessage(bytes, p, returned, Saids(log), n, Next(p).message, Pending());
      } else {
        SpeechBroken(bytes, writes, returned, Saids(log), n);
      }
    }

    /** Messages up to a READY, and with it; false when the stream breaks off first. */
    method UntilReady() returns (ok: bool)
      requires WireValid() && SpeechValid() && !left
      modifies this`inbox, this`at, this`sock, this`bytesRead, this`returned, this`left
      modifies this`queue, this`queued, this`queuedTotal, this`tagsWaiting, this`story, this`readys
      ensures WireValid() && SpeechValid() && left == !ok
      ensures var o := Messages.UntilReady(old(Pending()));
              && ok == o.Asked?
              && (ok ==> Pending() == o.rest)
              && Deck() == ToldAll(old(Deck()), o.taken)
              && story == ToldAllStory(old(story), o.taken)
      ensures readys == old(readys) + if ok then 1 else 0
    {
      ghost var d, h, taken := Deck(), story, [];
      var ready := false;
      ReachedStart(Pending());
      ok := true;
      while ok && !ready
        invariant WireValid() && SpeechValid() && left == !ok
        invariant readys == old(readys) + if ok && ready then 1 else 0
        invariant Deck() == ToldAll(d, taken) && story == ToldAllStory(h, taken)
        invariant Reached(old(Pending()), taken, ok, ready, Pending())
        decreases ok && !ready, |Pending()|
      {
        ghost var p := Pending();
        ok, ready := TakeMessage();
        ReachedMore(old(Pending()), taken, p, Pending());
        if Next(p).Got? {
          ghost var m := Next(p).message;
          NextIsShorter(p);
          ToldOneMore(d, h, taken, m);
          taken := taken + [m];
        }
      }
      ReachedEnd(old(Pending()), taken, ok, Pending());
    }

    /** The next READY of those owed. */
    method AwaitOne() returns (ok: bool)
      requires WireValid() && SpeechValid() && OwedValid() && owed > 0 && !left
      modifies this`inbox, this`at, this`sock, this`bytesRead, this`returned, this`left
      modifies this`queue, this`queued, this`queuedTotal, this`tagsWaiting, this`story
      modifies this`owed, this`readys
      ensures WireValid() && SpeechValid() && OwedValid() && left == !ok
      ensures var o := Messages.UntilReady(old(Pending()));
              && ok == o.Asked?
              && (ok ==> Pending() == o.rest)
              && Deck() == ToldAll(old(Deck()), o.taken)
              && story == ToldAllStory(old(story), o.taken)
      ensures owed == old(owed) - if ok then 1 else 0
    {
      OpenOwed();
      ok := UntilReady();
      if ok { owed := owed - 1; }
      CloseOwed();
    }

    /** The same, once so much of the stream `s` was taken. */
    method AwaitNext(ghost s: seq<Byte>, ghost n: nat, ghost before: seq<Message>) returns (ok: bool, ghost taken: seq<Message>)
      requires WireValid() && SpeechValid() && OwedValid() && owed > 0 && !left
      requires Awaiting(s, n, before, owed, Pending())
      modifies this`inbox, this`at, this`sock, this`bytesRead, this`returned, this`left
      modifies this`queue, this`queued, this`queuedTotal, this`tagsWaiting, this`story
      modifies this`owed, this`readys
      ensures WireValid() && SpeechValid() && OwedValid() && left == !ok
      ensures Deck() == ToldAll(old(Deck()), taken) && story == ToldAllStory(old(story), taken)
      ensures owed == old(owed) - if ok then 1 else 0
      ensures if ok then Awaiting(s, n, before + taken, owed, Pending()) else UntilReadys(s, n) == Broken(before + taken)
    {
      AwaitingMore(s, n, before, owed, Pending());
      ok := AwaitOne();
      taken := Messages.UntilReady(old(Pending())).taken;
    }

    /** READYs are awaited until each block it was sent is answered: nothing is taken past the last. */
    method AwaitReadys() returns (ok: bool, ghost taken: seq<Message>)
      requires WireValid() && SpeechValid() && OwedValid() && owed >= 0 && !left
      modifies this`inbox, this`at, this`sock, this`bytesRead, this`returned, this`left
      modifies this`queue, this`queued, this`queuedTotal, this`tagsWaiting, this`story
      modifies this`owed, this`readys
      ensures WireValid() && SpeechValid() && OwedValid() && left == !ok
      ensures Deck() == ToldAll(old(Deck()), taken) && story == ToldAllStory(old(story), taken)
      ensures ok ==> owed == 0
      ensures UntilReadys(old(Pending()), old(owed)) == if ok then Asked(taken, Pending()) else Broken(taken)
    {
      ok, taken := true, [];
      ghost var s, n, d, h := Pending(), owed, Deck(), story;
      AwaitingStart(s, n);
      while ok && owed > 0
        invariant WireValid() && SpeechValid() && OwedValid() && left == !ok && owed >= 0
        invariant Deck() == ToldAll(d, taken) && story == ToldAllStory(h, taken)
        invariant if ok then Awaiting(s, n, taken, owed, Pending()) else UntilReadys(s, n) == Broken(taken)
        decreases ok, owed
      {
        ghost var more;
        ok, more := AwaitNext(s, n, taken);
        ToldMore(d, h, taken, more);
        taken := taken + more;
      }
      if ok { AwaitingEnd(s, n, taken, Pending()); }
    }

    /** Every READY the station says it writes is read already, or yet to come. */
    lemma ReadysAhead()
      requires WireValid() && SpeechValid() && !left
      ensures Readys(ReadAll(writes)) == readys + Readys(ReadAll(Pending()))
    {
      OpenWire();
      OpenSpeech(returned, writes, Saids(story.log), readys, left);
      ReadAllOfWritten(Saids(story.log), Pending());
      ReadysTogether(Saids(story.log), ReadAll(Pending()));
    }

    /** So what it writes tells whether it answers all that it owes. */
    lemma AnswersAll()
      requires WireValid() && SpeechValid() && OwedValid() && owed >= 0 && !left
      ensures UntilReadys(Pending(), owed).Asked? <==> Answering(writes, outbox) == Sound
    {
      OpenOwed();
      ReadysAhead();
      AnswersExactly(Pending(), owed);
      AnsweringMeans(writes, outbox);
    }

    /** The same, its account of the air kept. False when the station leaves first: exactly when what it
        writes does not say as many READYs as it was sent blocks, and the first. */
    method CatchUp() returns (ok: bool, ghost taken: seq<Message>)
      requires WireValid() && SpeechValid() && PlayValid() && OwedValid() && owed >= 0 && !left
      modifies this`inbox, this`at, this`sock, this`bytesRead, this`returned, this`left
      modifies this`queue, this`queued, this`queuedTotal, this`tagsWaiting, this`story
      modifies this`owed, this`readys
      ensures WireValid() && SpeechValid() && PlayValid() && OwedValid() && left == !ok
      ensures Deck() == ToldAll(old(Deck()), taken) && story == ToldAllStory(old(story), taken)
      ensures ok ==> owed == 0
      ensures UntilReadys(old(Pending()), old(owed)) == if ok then Asked(taken, Pending()) else Broken(taken)
      ensures ok <==> Answering(writes, outbox) == Sound
    {
      OpenPlay();
      AnswersAll();
      ghost var d, h := Deck(), story;
      ok, taken := AwaitReadys();
      ToldAllKeeps(d, h, taken);
      ToldAllKeepsLine(d, h, taken, voxHold);
      ClosePlay();
    }

    // ---- what it plays ----

    /** The first `n` samples of the queue, or all there are. */
    method Fill(n: nat) returns (out: seq<Word>)
      modifies this`queue
      ensures |out| <= n && |out| <= |old(Flat(queue))| && (queue != [] ==> |out| == n)
      ensures out == old(Flat(queue))[..|out|] && Flat(queue) == old(Flat(queue))[|out|..]
    {
      ghost var line := Flat(queue);
      out := [];
      while |out| < n && queue != []
        invariant |out| <= n && |out| <= |line|
        invariant out == line[..|out|] && Flat(queue) == line[|out|..]
        decreases |queue|, n - |out|
      {
        var head := queue[0];
        var k := if n - |out| < |head| then n - |out| else |head|;
        TakeHead(line, |out|, queue, k);
        out := out + head[..k];
        queue := Behind(queue, k);
      }
    }

    /** The head of the queue, filled up to `n` with silence; the flags tell which is which. Nothing is
        left in the queue if any of it is silence. */
    method Take(n: nat) returns (out: seq<Word>, mine: seq<bool>)
      requires queued == |Flat(queue)|
      modifies this`queue, this`queued, this`consumed
      ensures Deck() == Drawn(old(Deck()), n)
      ensures out == Played(old(Deck()).line, n) && mine == Own(old(Deck()).line, n)
      ensures queue != [] ==> forall i | 0 <= i < n :: mine[i]
    {
      ghost var line := Flat(queue);
      out := Fill(n);
      assert |out| == if n < |line| then n else |line|;
      queued, consumed := queued - |out|, consumed + |out|;
      mine := seq(n, i requires 0 <= i < n => i < |out|);
      out := out + seq(n - |out|, _ => SILENT);
    }

    /** The accounts whose samples have gone are placed, as far after `start` as their samples. */
    method PlaceTags(start: nat, before: int)
      modifies this`tagsWaiting, this`transmissions
      ensures Deck() == PlacedAll(old(Deck()), start, before)
    {
      ghost var d := Deck();
      while tagsWaiting != [] && tagsWaiting[0].offset < consumed
        invariant PlacedAll(Deck(), start, before) == PlacedAll(d, start, before)
        decreases |tagsWaiting|
      {
        var tag := tagsWaiting[0];
        var late := tag.offset - before;
        transmissions := transmissions + [Transmission(start + if late > 0 then late else 0, tag.account)];
        tagsWaiting := tagsWaiting[1..];
      }
    }

    /** `n` samples taken, to reach the air from `start` on, and the accounts they reach placed. */
    method Draw(start: nat, n: nat) returns (played: seq<Word>, mine: seq<bool>)
      requires queued == |Flat(queue)|
      modifies this`queue, this`queued, this`consumed, this`tagsWaiting, this`transmissions
      ensures played == Played(old(Deck()).line, n) && mine == OwnPlayed(old(Deck()).line, n, voxHold)
      ensures Deck() == DeckAfter(old(Deck()), start, n)
    {
      ghost var line := Deck().line;
      var before := consumed;
      played, mine := Take(n);
      if voxHold > 0 {
        mine := seq(n, i requires 0 <= i < n => mine[i] && Loud(played[i]));
      }
      assert mine == OwnPlayed(line, n, voxHold);
      PlaceTags(start, before);
    }

    /** A block into the line, and as much out of it. */
    method MoveLine(played: seq<Word>, mine: seq<bool>) returns (audio: seq<Word>, keyed: seq<bool>)
      requires |mine| == |played| && |air| == |airKeyed|
      modifies this`air, this`airKeyed, this`emitted, this`own
      ensures var n, line, keyedLine := |played|, old(air) + played, old(airKeyed) + mine;
              && audio == line[..n] && air == line[n..]
              && keyed == keyedLine[..n] && airKeyed == keyedLine[n..]
              && emitted == old(emitted) + audio && own == old(own) + keyed
    {
      air, airKeyed := air + played, airKeyed + mine;
      audio, keyed := air[..|played|], airKeyed[..|played|];
      air, airKeyed := air[|played|..], airKeyed[|played|..];
      emitted, own := emitted + audio, own + keyed;
    }

    method Advance(start: nat, n: nat) returns (audio: seq<Word>, keyed: seq<bool>)
      requires queued == |Flat(queue)| && |air| == |airKeyed|
      modifies this`queue, this`queued, this`consumed, this`tagsWaiting, this`transmissions
      modifies this`air, this`airKeyed, this`emitted, this`own
      ensures Deck() == DeckAfter(old(Deck()), start, n)
      ensures var line := old(air) + Played(old(Deck()).line, n);
              audio == line[..n] && air == line[n..] && emitted == old(emitted) + audio
      ensures var line := old(airKeyed) + OwnPlayed(old(Deck()).line, n, voxHold);
              keyed == line[..n] && airKeyed == line[n..] && own == old(own) + keyed
    {
      var played, mine := Draw(start, n);
      audio, keyed := MoveLine(played, mine);
    }

    /** A tick of what it plays: the samples that reach the air, and which of them are keyed. */
    method PlayTick(start: nat, n: nat) returns (audio: seq<Word>, keyed: seq<bool>)
      requires PlayValid() && start == |emitted| + latency
      modifies this`queue, this`queued, this`consumed, this`tagsWaiting, this`transmissions, this`story
      modifies this`air, this`airKeyed, this`emitted, this`own
      ensures PlayValid()
      ensures |audio| == |keyed| == n && emitted == old(emitted) + audio && own == old(own) + keyed
      ensures Deck() == DeckAfter(old(Deck()), start, n)
      ensures story == StoryAfter(old(Deck()), old(story), start, n)
    {
      OpenPlay();
      ghost var d, h := Deck(), story;
      TickMovesLine(d, h, n, voxHold, emitted, air, own, airKeyed);
      TickIsCoherent(d, h, n);
      audio, keyed := Advance(start, n);
      story := StoryAfter(d, h, start, n);
      ClosePlay();
    }

    // ---- its key ----

    ghost predicate KeyValid(soFar: seq<bool>)
      reads this`keyedSince, this`lastKeyed, this`intervals
    {
      KeySound(soFar, voxHold, keyedSince, lastKeyed, intervals) == Sound
    }

    lemma OpenKey(soFar: seq<bool>)
      requires KeyValid(soFar)
      ensures Tracks(soFar, voxHold, keyedSince, lastKeyed, intervals)
    {
      var open := Opens(KeyLock, 0);
    }

    lemma CloseKey(soFar: seq<bool>)
      requires Tracks(soFar, voxHold, keyedSince, lastKeyed, intervals)
      ensures KeyValid(soFar)
    {
    }

    /** One air sample of the key: whether the transmitter is on, and whether it radiates. */
    method KeySample(ghost whole: seq<bool>, t: nat, keyed: bool) returns (on: bool, radiates: bool)
      requires t < |whole| && whole[t] == keyed && KeyValid(whole[..t])
      modifies this`keyedSince, this`lastKeyed, this`intervals
      ensures KeyValid(whole[..t + 1])
      ensures on == OnAt(whole, voxHold, t) && radiates == RadiatesAt(whole, voxHold, txDelay, t)
    {
      OpenKey(whole[..t]);
      radiates := keyed;
      if keyed {
        if keyedSince.None? {
          KeyDown(whole, t, voxHold, lastKeyed, intervals);
          keyedSince := Some(t);
          intervals := intervals + [Run(t, t + 1)];
        } else {
          KeyHeld(whole, t, voxHold, keyedSince.value, lastKeyed, intervals);
          var n := |intervals| - 1;
          intervals := intervals[n := intervals[n].(end := t + 1)];
        }
        lastKeyed := t;
        if t - keyedSince.value < txDelay { radiates := false; }
      } else {
        KeyUp(whole, t, voxHold, keyedSince, lastKeyed, intervals);
        if keyedSince.Some? && t - lastKeyed > voxHold {
          keyedSince := None;
        }
      }
      on := keyed || t - lastKeyed <= voxHold;
      CloseKey(whole[..t + 1]);
    }

    /** A tick of the key from air sample `t` on. */
    method Key(ghost whole: seq<bool>, t: nat, keyed: seq<bool>) returns (on: seq<bool>, radiating: seq<bool>)
      requires t + |keyed| == |whole| && whole[t..] == keyed && KeyValid(whole[..t])
      modifies this`keyedSince, this`lastKeyed, this`intervals
      ensures KeyValid(whole)
      ensures |on| == |radiating| == |keyed|
      ensures forall i: nat | i < |keyed| :: on[i] == OnAt(whole, voxHold, t + i)
      ensures forall i: nat | i < |keyed| :: radiating[i] == RadiatesAt(whole, voxHold, txDelay, t + i)
    {
      on, radiating := [], [];
      for i := 0 to |keyed|
        invariant KeyValid(whole[..t + i]) && |on| == |radiating| == i
        invariant forall k: nat | k < i :: on[k] == OnAt(whole, voxHold, t + k)
        invariant forall k: nat | k < i :: radiating[k] == RadiatesAt(whole, voxHold, txDelay, t + k)
      {
        assert whole[t + i] == keyed[i];
        var held, radiates := KeySample(whole, t + i, keyed[i]);
        on, radiating := on + [held], radiating + [radiates];
      }
      assert whole[..t + |keyed|] == whole;
    }

    /** What radiates of a tick's samples, the key worked by them. */
    method Transmit(t: nat, samples: seq<Word>, keyed: seq<bool>)
      returns (audio: seq<Word>, on: seq<bool>, signal: seq<bool>, vox: seq<bool>)
      requires |samples| == |keyed| && |keyed| % RADIATED_BLOCK == 0
      requires t + |keyed| == |own| && own[t..] == keyed && KeyValid(own[..t])
      modifies this`keyedSince, this`lastKeyed, this`intervals
      ensures KeyValid(own)
      ensures IsRadiation(own, samples, voxHold, txDelay, t, audio, on, vox)
      ensures IsSignal(audio, signal)
    {
      var radiating;
      on, radiating := Key(own, t, keyed);
      audio := seq(|keyed|, i requires 0 <= i < |keyed| => if radiating[i] then samples[i] else SILENT);
      signal := Signal(audio);
      vox := seq(|keyed|, i requires 0 <= i < |keyed| => on[i] && !keyed[i]);
      assert forall i: nat | i < |keyed| :: own[t + i] == keyed[i];
    }

    /** The line and the key worked for `n` samples: the fields of an Output. */
    method Radiate(start: nat, t: nat, n: nat)
      returns (audio: seq<Word>, on: seq<bool>, signal: seq<bool>, vox: seq<bool>)
      requires PlayValid() && KeyValid(own)
      requires t == |own| && start == t + latency && n % RADIATED_BLOCK == 0
      modifies this`queue, this`queued, this`consumed, this`tagsWaiting, this`transmissions, this`story
      modifies this`air, this`airKeyed, this`emitted, this`own
      modifies this`keyedSince, this`lastKeyed, this`intervals
      ensures PlayValid() && KeyValid(own)
      ensures |own| == |emitted| == t + n && old(own) == own[..t] && old(emitted) == emitted[..t]
      ensures Deck() == DeckAfter(old(Deck()), start, n)
      ensures story == StoryAfter(old(Deck()), old(story), start, n)
      ensures IsRadiation(own, emitted[t..], voxHold, txDelay, t, audio, on, vox)
      ensures IsSignal(audio, signal)
    {
      assert |emitted| == |own| by { OpenPlay(); }
      var samples, keyed := PlayTick(start, n);
      assert own[..t] == old(own) && own[t..] == keyed;
      assert emitted[..t] == old(emitted) && emitted[t..] == samples;
      audio, on, signal, vox := Transmit(t, samples, keyed);
    }

    /** The receiver's deafness over the tick from `t` on, given when the transmitter was on. */
    method Deaf(t: nat, on: seq<bool>) returns (deaf: seq<bool>)
      requires KeyValid(own) && t + |on| == |own|
      requires forall i: nat | i < |on| :: on[i] == OnAt(own, voxHold, t + i)
      ensures |deaf| == |on|
      ensures forall i: nat | i < |on| :: deaf[i] == DeafAt(own, voxHold, recovery, t + i)
    {
      OpenKey(own);
      var last, reach := lastKeyed, voxHold + recovery;
      deaf := seq(|on|, i requires 0 <= i < |on| => on[i] || t + i - last <= reach);
    }

    // ---- where it radiated ----

    ghost predicate RadiatedTo(air: nat)
      reads this`radiatingSince, this`radiated, this`radiatedBlocks
    {
      RadiatedSound(radiatingSince, radiated, radiatedBlocks, air) == Sound
    }

    lemma OpenRadiated(air: nat)
      requires RadiatedTo(air)
      ensures RadiatedValid() && air == RADIATED_BLOCK * |radiatedBlocks|
    {
      var open := Opens(RadiatedLock, 0);
    }

    lemma CloseRadiated(air: nat)
      requires RadiatedValid() && air == RADIATED_BLOCK * |radiatedBlocks|
      ensures RadiatedTo(air)
    {
    }

    ghost predicate RadiatedValid()
      reads this`radiatingSince, this`radiated, this`radiatedBlocks
    {
      RadiatedRight(radiatingSince, radiated, radiatedBlocks)
    }

    /** The radiated blocks are those in which it radiated something heard. */
    ghost predicate SignalValid()
      reads this`own, this`emitted, this`radiatedBlocks
    {
      SignalSound(own, emitted, voxHold, txDelay, radiatedBlocks) == Sound
    }

    /** Extends the radiated intervals by the tick from `t` on, a block at a time. */
    method NoteRadiated(t: nat, signal: seq<bool>)
      requires RadiatedTo(t)
      modifies this`radiatingSince, this`radiated, this`radiatedBlocks
      ensures RadiatedTo(t + RADIATED_BLOCK * (|signal| / RADIATED_BLOCK))
      ensures radiatedBlocks == old(radiatedBlocks) + ByBlock(signal)
    {
      ghost var blocks := ByBlock(signal);
      for b := 0 to |signal| / RADIATED_BLOCK
        invariant RadiatedTo(t + b * RADIATED_BLOCK)
        invariant radiatedBlocks == old(radiatedBlocks) + blocks[..b]
      {
        NoteBlock(t + b * RADIATED_BLOCK, signal[b * RADIATED_BLOCK]);
      }
      assert blocks[..|blocks|] == blocks;
    }

    method NoteBlock(t: nat, on: bool)
      requires RadiatedTo(t)
      modifies this`radiatingSince, this`radiated, this`radiatedBlocks
      ensures RadiatedTo(t + RADIATED_BLOCK) && radiatedBlocks == old(radiatedBlocks) + [on]
    {
      OpenRadiated(t);
      ghost var next := if !on then None else if radiatingSince.Some? then radiatingSince else Some(t);
      RadiatedWithBlock(radiatingSince, radiated, radiatedBlocks, on, next);
      if on {
        if radiatingSince.None? {
          radiatingSince, radiated := Some(t), radiated + [Run(t, t)];
        }
        var n := |radiated| - 1;
        radiated := radiated[n := radiated[n].(end := t + RADIATED_BLOCK)];
      } else if radiatingSince.Some? {
        radiatingSince := None;
      }
      radiatedBlocks := radiatedBlocks + [on];
      CloseRadiated(t + RADIATED_BLOCK);
    }

    // ---- when it stands still ----

    ghost function Stalls(): Record
      reads this`stallFrom, this`stallUntil, this`stalls
    {
      Record(stallFrom, stallUntil, stalls)
    }

    /** What is kept of the stalls is what was asked for, up to air sample `now`. */
    ghost predicate StallsValid(now: int)
      reads this`stallFrom, this`stallUntil, this`stalls, this`requests
    {
      StallsSound(Stalls(), requests, now) == Sound
    }

    lemma OpenStalls(now: int)
      requires StallsValid(now)
      ensures Keeps(Stalls(), requests, now)
    {
      var open := Opens(StallsLock, 0);
    }

    lemma CloseStalls(now: int)
      requires Keeps(Stalls(), requests, now)
      ensures StallsValid(now)
    {
    }

    /** The clock may move on. */
    lemma StallsStayValid(now: int, later: int)
      requires StallsValid(now) && now <= later
      ensures StallsValid(later)
    {
      OpenStalls(now);
      KeepsLater(Stalls(), requests, now, later);
      CloseStalls(later);
    }

    /** Stalls from air sample `t`, where the clock stands, for `samples`. */
    method Stall(ghost now: int, t: int, samples: int)
      requires StallsValid(now) && now <= t
      modifies this`stallFrom, this`stallUntil, this`stalls, this`requests
      ensures StallsValid(t) && requests == old(requests) + [Request(t, samples)] && stallUntil == Furthest(requests)
    {
      OpenStalls(now);
      ExtendedKeeps(Stalls(), requests, now, t, samples);
      requests := requests + [Request(t, samples)];
      var until := t + samples;
      if until > stallUntil {
        if stallFrom <= t < stallUntil {
          var n := |stalls| - 1;
          stalls := stalls[n := stalls[n].(end := until)];
        } else {
          stalls := stalls + [Stretch(t, until)];
          stallFrom := t;
        }
        stallUntil := until;
      }
      CloseStalls(t);
    }

    /** Whether the station stands still at air sample `t`, drawing its machine's next stall when
        it is due: exactly when some stall asked for covers `t`. */
    method Stalled(ghost now: int, t: int, draws: Draws) returns (yes: bool)
      requires StallsValid(now) && now <= t
      modifies this`stallFrom, this`stallUntil, this`stalls, this`requests, this`nextStall
      ensures StallsValid(t) && yes == Requested(requests, t)
      ensures var due := Comes(machine.stalls, old(nextStall), t, draws);
              && requests == (if due then old(requests) + [Request(t, draws.length)] else old(requests))
              && nextStall == if due then Some(Furthest(requests) + draws.next)
                              else Awaited(machine.stalls, old(nextStall), t, draws)
    {
      if machine.stalls {
        if nextStall.None? { nextStall := Some(t + draws.first); }
        if t >= nextStall.value {
          Stall(now, t, draws.length);
          nextStall := Some(stallUntil + draws.next);
        }
      }
      yes := stallFrom <= t < stallUntil;
      if requests == old(requests) { StallsStayValid(now, t); }
      assert yes == Requested(requests, t) by {
        OpenStalls(t);
        CurrentTells(Stalls(), requests, t, t);
      }
    }

    // ---- what its capture skips ----

    /** Every sample drawn to be skipped has been, or is still to be. */
    ghost predicate SkipsValid()
      reads this`skips, this`skipped, this`skipLeft
    {
      SkipsSound(skips, skipped, skipLeft) == Sound
    }

    lemma OpenSkips()
      requires SkipsValid()
      ensures TotalMissed(skips) == skipped + skipLeft
    {
      var open := Opens(SkipsLock, 0);
    }

    lemma CloseSkips()
      requires TotalMissed(skips) == skipped + skipLeft
      ensures SkipsValid()
    {
    }

    /** The skips as a draw at air sample `t` leaves them, `k` samples then skipped. */
    ghost predicate SkipDrawn(next: Option<int>, before: nat, known: seq<Missed>, t: int, draws: Draws, k: nat)
      reads this`nextSkip, this`skipLeft, this`skips
    {
      if Comes(machine.skips, next, t, draws) then
        var lost := SkipLength(draws);
        && skips == known + [Missed(t, lost)] && skipLeft + k == before + lost
        && nextSkip == Some(t + lost + draws.next)
      else
        skips == known && skipLeft + k == before && nextSkip == Awaited(machine.skips, next, t, draws)
    }

    method AddSkip(t: int, lost: nat)
      requires SkipsValid()
      modifies this`skipLeft, this`skips
      ensures SkipsValid() && skips == old(skips) + [Missed(t, lost)] && skipLeft == old(skipLeft) + lost
    {
      OpenSkips();
      MissedOneMore(skips, Missed(t, lost));
      skipLeft, skips := skipLeft + lost, skips + [Missed(t, lost)];
      CloseSkips();
    }

    method DrawSkip(t: int, draws: Draws)
      requires SkipsValid()
      modifies this`nextSkip, this`skipLeft, this`skips
      ensures SkipsValid()
      ensures SkipDrawn(old(nextSkip), old(skipLeft), old(skips), t, draws, 0)
    {
      if machine.skips {
        if nextSkip.None? { nextSkip := Some(t + draws.first); }
        if t >= nextSkip.value {
          var lost := SkipLength(draws);
          AddSkip(t, lost);
          nextSkip := Some(t + lost + draws.next);
        }
      }
    }

    /** The block heard from air sample `t`, less its first `k`, which the capture skipped. */
    method Skipped(t: int, samples: seq<Word>, draws: Draws) returns (kept: seq<Word>, ghost k: nat)
      requires SkipsValid()
      modifies this`nextSkip, this`skipLeft, this`skips, this`skipPending, this`skipped
      ensures SkipsValid() && k <= |samples| && kept == samples[k..]
      ensures k == ToSkip(machine.skips, old(nextSkip), old(skipLeft), t, draws, |samples|)
      ensures SkipDrawn(old(nextSkip), old(skipLeft), old(skips), t, draws, k)
      ensures skipPending == old(skipPending) + k && skipped == old(skipped) + k
      ensures Intake() == Skipping(old(Intake()), k)
    {
      DrawSkip(t, draws);
      OpenSkips();
      var n := if skipLeft < |samples| then skipLeft else |samples|;
      skipLeft, skipPending, skipped := skipLeft - n, skipPending + n, skipped + n;
      k, kept := n, samples[n..];
      CloseSkips();
    }

    // ---- what it is given to hear ----

    /** What its machine has drawn and not come to. */
    ghost function Upcoming(): Due
      reads this`nextStall, this`nextSkip, this`skipLeft
    {
      Due(nextStall, nextSkip, skipLeft)
    }

    /** Whether of a block heard up to air sample `clock`, by a station where this was so before, its capture
        skipped the first `k`, as its draws say, and the rest was sent. */
    ghost function Gave(i: Intake<Word>, was: Due, known: seq<Missed>, before: seq<Sent>, clock: int, samples: seq<Word>,
                        draws: Draws, k: nat): Condition
      reads this`nextSkip, this`skipLeft, this`skips, this`outbox, this`consumed
    {
      if forall key: nat {:trigger Opens(GaveLock, key)} | Opens(GaveLock, key) ::
           && k <= |samples| && k == ToSkip(machine.skips, was.skip, was.left, clock - |samples|, draws, |samples|)
           && SkipDrawn(was.skip, was.left, known, clock - |samples|, draws, k)
           && outbox == before + SentOf(i, samples, k, clock, consumed, machine.backlogLimit, machine.daemon)
      then Sound else Unsound
    }

    lemma OpenGave(i: Intake<Word>, was: Due, known: seq<Missed>, before: seq<Sent>, clock: int, samples: seq<Word>,
                   draws: Draws, k: nat)
      requires Gave(i, was, known, before, clock, samples, draws, k) == Sound
      ensures k <= |samples| && k == ToSkip(machine.skips, was.skip, was.left, clock - |samples|, draws, |samples|)
      ensures SkipDrawn(was.skip, was.left, known, clock - |samples|, draws, k)
      ensures outbox == before + SentOf(i, samples, k, clock, consumed, machine.backlogLimit, machine.daemon)
    {
      var open := Opens(GaveLock, 0);
    }

    ghost function Intake(): Intake<Word>
      reads this`outbox, this`skipPending, this`backlog, this`stallDropped, this`skipped
    {
      Capture.Intake(Rebuilt(outbox), skipPending, Flat(backlog), stallDropped, skipped)
    }

    /** Nothing heard is lost but what the station is told of, or what the machine cost it. */
    ghost predicate HearValid()
      reads this`outbox, this`skipPending, this`backlog, this`stallDropped, this`skipped, this`ledger
    {
      && (backlog == [] <==> Flat(backlog) == [])
      && HearSound(Intake(), ledger, machine) == Sound
    }

    lemma OpenHearing()
      requires HearValid()
      ensures Accounted(Intake(), ledger, machine)
    {
      var open := Opens(HearLock, 0);
    }

    lemma CloseHearing()
      requires Accounted(Intake(), ledger, machine) && (backlog == [] <==> Flat(backlog) == [])
      ensures HearValid()
    {
    }

    /** The block, with the air clock and the playback clock. */
    method SendBlock(clock: int, samples: seq<Word>)
      requires OwedValid()
      modifies this`outbox, this`owed
      ensures OwedValid() && outbox == old(outbox) + [Block(clock, consumed, samples)]
    {
      OpenOwed();
      SentOneMore(outbox, Block(clock, consumed, samples));
      outbox := outbox + [Block(clock, consumed, samples)];
      owed := owed + 1;
      CloseOwed();
    }

    /** A pile, a tick's block at a time. */
    method SendPile(clock: int, pile: seq<Word>)
      requires OwedValid()
      modifies this`outbox, this`owed
      ensures OwedValid() && outbox == old(outbox) + Blocked(pile, clock, consumed)
      ensures Rebuilt(outbox) == Rebuilt(old(outbox)) + Sounding(pile)
    {
      ghost var blocks, n := Blocked(pile, clock, consumed), 0;
      var i := 0;
      while i < |pile|
        invariant 0 <= i <= |pile| && OwedValid()
        invariant 0 <= n <= |blocks| && i == (if n < |blocks| then n * TICK else |pile|)
        invariant outbox == old(outbox) + blocks[..n]
      {
        var j := if i + TICK < |pile| then i + TICK else |pile|;
        BlockedAt(pile, clock, consumed, n, i);
        SendBlock(clock, pile[i..j]);
        i, n := j, n + 1;
      }
      PileIsSent(old(outbox), pile, clock, consumed);
    }

    /** Tells the station of what its capture skipped, if it reads skips. */
    method Announce()
      requires OwedValid()
      modifies this`outbox, this`skipPending
      ensures OwedValid() && forall clock, played :: Sends(old(outbox), outbox, clock, played)
      ensures Intake() == Announced(old(Intake()), machine.daemon)
      ensures outbox == old(outbox) + SkipTold(machine.daemon, old(skipPending))
    {
      NoSilence(Rebuilt(outbox));
      if skipPending > 0 {
        if machine.daemon.skips { Send(Skip(skipPending)); }
        skipPending := 0;
      }
    }

    /** An announcement: nothing is owed for it. */
    method Send(m: Sent)
      requires OwedValid() && !m.Block?
      modifies this`outbox
      ensures OwedValid() && outbox == old(outbox) + [m]
      ensures Rebuilt(outbox) == Rebuilt(old(outbox)) + Silence(m.lost)
    {
      OpenOwed();
      SentOneMore(outbox, m);
      outbox := outbox + [m];
      CloseOwed();
    }

    /** A pile over the limit loses its oldest, and the station is told if it reads gaps. */
    method CutPile(whole: seq<Word>) returns (pile: seq<Word>)
      requires OwedValid()
      modifies this`outbox, this`stallDropped
      ensures OwedValid() && forall clock, played :: Sends(old(outbox), outbox, clock, played)
      ensures pile == Cut(whole, machine.backlogLimit)
      ensures var lost := Lost(|whole|, machine.backlogLimit);
              && stallDropped == old(stallDropped) + lost
              && Rebuilt(outbox) == Rebuilt(old(outbox)) + (if machine.daemon.gaps then Silence(lost) else [])
              && outbox == old(outbox) + GapTold(machine.daemon, lost)
    {
      pile := whole;
      NoSilence(Rebuilt(outbox));
      if |pile| > machine.backlogLimit {
        var lost := |pile| - machine.backlogLimit;
        stallDropped := stallDropped + lost;
        pile := Newest(pile, machine.backlogLimit);
        if machine.daemon.gaps { Send(Gap(lost)); }
      }
    }

    /** A pile that waited, the block behind it. */
    method HandPile(clock: int, whole: seq<Word>)
      requires OwedValid()
      modifies this`outbox, this`owed, this`stallDropped
      ensures OwedValid() && stallDropped == old(stallDropped) + Lost(|whole|, machine.backlogLimit)
      ensures outbox == old(outbox) + (GapTold(machine.daemon, Lost(|whole|, machine.backlogLimit))
                                       + Blocked(Cut(whole, machine.backlogLimit), clock, consumed))
    {
      var pile := CutPile(whole);
      SendPile(clock, pile);
      Together(old(outbox), GapTold(machine.daemon, Lost(|whole|, machine.backlogLimit)), Blocked(pile, clock, consumed));
    }

    /** The pile, if there is one, and the block. */
    method HandOver(clock: int, block: seq<Word>)
      requires OwedValid() && (backlog == [] <==> Flat(backlog) == [])
      modifies this`outbox, this`owed, this`backlog, this`stallDropped
      ensures OwedValid() && backlog == []
      ensures Sends(old(outbox), outbox, clock, consumed)
      ensures machine.backlogLimit >= 1 && block != [] ==> EndsInBlock(old(outbox), outbox)
      ensures Intake() == HandedOver(old(Intake()), block, machine.backlogLimit, machine.daemon)
      ensures outbox
           == old(outbox) + SentOver(old(Flat(backlog)), block, clock, consumed, machine.backlogLimit, machine.daemon)
    {
      if backlog != [] {
        var whole := Flat(backlog) + block;
        backlog := [];
        HandPile(clock, whole);
      } else {
        SendBlock(clock, block);
      }
      OverIsSent(old(outbox), old(Intake()), block, clock, consumed, machine.backlogLimit, machine.daemon);
    }

    /** What its capture has skipped told first. */
    method Hand(clock: int, block: seq<Word>)
      requires OwedValid() && (backlog == [] <==> Flat(backlog) == [])
      modifies this`outbox, this`owed, this`backlog, this`stallDropped, this`skipPending
      ensures OwedValid() && backlog == [] && skipPending == 0
      ensures Sends(old(outbox), outbox, clock, consumed)
      ensures machine.backlogLimit >= 1 && block != [] ==> EndsInBlock(old(outbox), outbox)
      ensures Intake()
           == HandedOver(Announced(old(Intake()), machine.daemon), block, machine.backlogLimit, machine.daemon)
      ensures outbox
           == old(outbox) + (SkipTold(machine.daemon, old(skipPending))
                             + SentOver(old(Flat(backlog)), block, clock, consumed, machine.backlogLimit, machine.daemon))
    {
      Announce();
      ghost var told := outbox;
      HandOver(clock, block);
      SendsMore(old(outbox), told, outbox, clock, consumed);
      Together(old(outbox), SkipTold(machine.daemon, old(skipPending)),
               SentOver(old(Flat(backlog)), block, clock, consumed, machine.backlogLimit, machine.daemon));
    }

    /** A block heard while the station stands still is kept. */
    method Keep(samples: seq<Word>)
      requires HearValid() && samples != []
      modifies this`backlog, this`ledger
      ensures HearValid() && Intake() == Kept(old(Intake()), samples)
      ensures ledger == LedgerKept(old(ledger), samples)
    {
      OpenHearing();
      KeptIsAccounted(Intake(), ledger, samples, machine);
      FlatAppend(backlog, samples);
      backlog, ledger := backlog + [samples], LedgerKept(ledger, samples);
      CloseHearing();
    }

    /** What is left of a block with its first `k` samples skipped, where the station had `i` before. */
    method HandRest(clock: int, ghost i: Intake<Word>, samples: seq<Word>, ghost k: nat, rest: seq<Word>)
      requires OwedValid() && (backlog == [] <==> Flat(backlog) == [])
      requires k < |samples| && rest == samples[k..] && Intake() == Skipping(i, k)
      modifies this`outbox, this`owed, this`backlog, this`stallDropped, this`skipPending
      ensures OwedValid() && backlog == [] && skipPending == 0
      ensures Sends(old(outbox), outbox, clock, consumed)
      ensures machine.backlogLimit >= 1 ==> EndsInBlock(old(outbox), outbox)
      ensures Intake() == Heard(i, samples, k, machine.backlogLimit, machine.daemon)
      ensures outbox
           == old(outbox) + SentOf(i, samples, k, clock, consumed, machine.backlogLimit, machine.daemon)
    {
      Hand(clock, rest);
    }

    /** A block heard by a station that does not stand still, less what its capture skips. */
    method Give(clock: nat, samples: seq<Word>, draws: Draws) returns (ghost k: nat)
      requires OwedValid() && SkipsValid() && (backlog == [] <==> Flat(backlog) == [])
      modifies this`outbox, this`owed, this`backlog, this`stallDropped
      modifies this`nextSkip, this`skipLeft, this`skips, this`skipPending, this`skipped
      ensures OwedValid() && SkipsValid() && (backlog == [] <==> Flat(backlog) == [])
      ensures k <= |samples|
      ensures Gave(old(Intake()), old(Upcoming()), old(skips), old(outbox), clock, samples, draws, k) == Sound
      ensures Intake() == Heard(old(Intake()), samples, k, machine.backlogLimit, machine.daemon)
      ensures Sends(old(outbox), outbox, clock, consumed)
      ensures if k == |samples| then outbox == old(outbox) else backlog == [] && skipPending == 0
      ensures k < |samples| && machine.backlogLimit >= 1 ==> EndsInBlock(old(outbox), outbox)
    {
      var block;
      ghost var i := Intake();
      block, k := Skipped(clock - |samples|, samples, draws);
      if block == [] {
        assert outbox + [] == outbox;
        return;
      }
      HandRest(clock, i, samples, k, block);
    }

    /** The same, with the account of it kept. */
    method GiveAccounted(clock: nat, samples: seq<Word>, draws: Draws) returns (ghost k: nat)
      requires HearValid() && OwedValid() && SkipsValid()
      modifies this`outbox, this`owed, this`backlog, this`stallDropped
      modifies this`nextSkip, this`skipLeft, this`skips, this`skipPending, this`skipped, this`ledger
      ensures HearValid() && OwedValid() && SkipsValid()
      ensures GivenLess(old(Intake()), old(ledger), samples, k)
      ensures k <= |samples|
      ensures Gave(old(Intake()), old(Upcoming()), old(skips), old(outbox), clock, samples, draws, k) == Sound
      ensures Sends(old(outbox), outbox, clock, consumed)
      ensures if k == |samples| then outbox == old(outbox) else backlog == [] && skipPending == 0
      ensures k < |samples| && machine.backlogLimit >= 1 ==> EndsInBlock(old(outbox), outbox)
    {
      OpenHearing();
      ghost var i, l := Intake(), ledger;
      k := Give(clock, samples, draws);
      ledger := LedgerGiven(i, l, samples, k, machine.backlogLimit);
      HeardIsAccounted(i, l, samples, k, machine);
      CloseHearing();
    }

    /** The block heard up to air sample `clock`: kept while the station stands still, and otherwise
        given to it. Once it is sent anything, a station that reads gaps and skips is level. */
    method Deliver(clock: nat, samples: seq<Word>, stalled: bool, draws: Draws) returns (ghost k: nat)
      requires HearValid() && OwedValid() && SkipsValid()
      requires samples != [] && clock == |ledger.heard| + |samples|
      modifies this`outbox, this`owed, this`backlog, this`stallDropped
      modifies this`nextSkip, this`skipLeft, this`skips, this`skipPending, this`skipped, this`ledger
      ensures HearValid() && OwedValid() && SkipsValid()
      ensures ledger.heard == old(ledger.heard) + samples
      ensures stalled ==> outbox == old(outbox) && Intake() == Kept(old(Intake()), samples)
      ensures stalled ==> ledger == LedgerKept(old(ledger), samples)
      ensures !stalled ==> GivenLess(old(Intake()), old(ledger), samples, k)
      ensures !stalled ==> k <= |samples|
      ensures stalled ==> Upcoming() == old(Upcoming())
      ensures !stalled ==>
                Gave(old(Intake()), old(Upcoming()), old(skips), old(outbox), clock, samples, draws, k) == Sound
      ensures Sends(old(outbox), outbox, clock, consumed) && (outbox != old(outbox) ==> IsLevel(clock))
      ensures LastIsLevel(old(outbox), machine) ==> LastIsLevel(outbox, machine)
    {
      if stalled {
        k := 0;
        Keep(samples);
      } else {
        k := GiveAccounted(clock, samples, draws);
        if k < |samples| { Level(); }
      }
    }

    /** The same, with no more said of it than a tick needs. */
    method DeliverBlock(clock: nat, samples: seq<Word>, stalled: bool, draws: Draws) returns (ghost k: nat)
      requires |samples| > 0 && clock >= |samples| && Hears(clock - |samples|) == Sound && OwedValid()
      modifies this`outbox, this`owed, this`backlog, this`stallDropped
      modifies this`nextSkip, this`skipLeft, this`skips, this`skipPending, this`skipped, this`ledger
      ensures Hears(clock) == Sound && OwedValid()
      ensures ledger.heard == old(ledger.heard) + samples
      ensures Sends(old(outbox), outbox, clock, consumed)
      ensures stalled ==> outbox == old(outbox) && Intake() == Kept(old(Intake()), samples)
      ensures !stalled ==> k <= |samples|
      ensures stalled ==> Upcoming() == old(Upcoming())
      ensures !stalled ==>
                Gave(old(Intake()), old(Upcoming()), old(skips), old(outbox), clock, samples, draws, k) == Sound
      ensures !stalled ==> Intake() == Heard(old(Intake()), samples, k, machine.backlogLimit, machine.daemon)
    {
      OpenHears(clock - |samples|);
      StallsStayValid(|ledger.heard|, clock);
      k := Deliver(clock, samples, stalled, draws);
      CloseHears(clock);
    }

    /** A station that reads gaps and skips has been sent, or told of, all the air so far. */
    ghost predicate IsLevel(clock: nat)
      reads this`outbox
    {
      machine.backlogLimit >= 1 && machine.daemon == BOTH ==> |Rebuilt(outbox)| == clock
    }

    /** What waits is not told of, nor what was skipped since; with them the station is level with all
        the air heard. */
    lemma LevelButWaiting()
      requires HearValid()
      ensures Selected(Sounds(Rebuilt(outbox)) + Flat(backlog), ledger.heard)
      ensures machine.backlogLimit >= 1 && machine.daemon == BOTH ==>
                |Rebuilt(outbox)| + |Flat(backlog)| + skipPending == |ledger.heard|
    {
      OpenHearing();
      if machine.backlogLimit >= 1 && machine.daemon == BOTH {
        LevelWithTheAir(Intake(), |ledger.heard|, machine.daemon);
      }
    }

    lemma Level()
      requires HearValid() && backlog == [] && skipPending == 0
      ensures IsLevel(|ledger.heard|)
    {
      OpenHearing();
      if machine.backlogLimit >= 1 && machine.daemon == BOTH {
        LevelWithTheAir(Intake(), |ledger.heard|, machine.daemon);
      }
    }

    /** The station's hearing is what a block makes of it when its first `k` samples are skipped. */
    ghost predicate GivenLess(i: Intake<Word>, l: Ledger, samples: seq<Word>, k: nat)
      reads this`outbox, this`skipPending, this`backlog, this`stallDropped, this`skipped, this`ledger
    {
      && k <= |samples| && Intake() == Heard(i, samples, k, machine.backlogLimit, machine.daemon)
      && ledger == LedgerGiven(i, l, samples, k, machine.backlogLimit)
    }

    /** No block is unanswered but those owed for. */
    ghost predicate OwedValid()
      reads this`owed, this`outbox, this`readys
    {
      OwedSound(owed, outbox, readys) == Sound
    }

    lemma OpenOwed()
      requires OwedValid()
      ensures owed == 1 + Blocks(outbox) - readys && owed >= 0
    {
      var open := Opens(OwedLock, 0);
    }

    lemma CloseOwed()
      requires owed == 1 + Blocks(outbox) - readys && owed >= 0
      ensures OwedValid()
    {
    }

    // ---- its part of a tick ----

    /** Its key and its signal, `at` samples after it joined the air. */
    ghost function Keyed(at: nat): Condition
      reads this`keyedSince, this`lastKeyed, this`intervals, this`own, this`emitted
      reads this`radiatingSince, this`radiated, this`radiatedBlocks
    {
      if forall key: nat {:trigger Opens(KeyedLock, key)} | Opens(KeyedLock, key) ::
           KeyValid(own) && RadiatedTo(at) && SignalValid() && |own| == at
      then Sound else Unsound
    }

    lemma OpenKeyed(at: nat)
      requires Keyed(at) == Sound
      ensures KeyValid(own) && RadiatedTo(at) && SignalValid() && |own| == at
    {
      var open := Opens(KeyedLock, 0);
    }

    lemma CloseKeyed(at: nat)
      requires KeyValid(own) && RadiatedTo(at) && SignalValid() && |own| == at
      ensures Keyed(at) == Sound
    {
    }

    /** Its stalls, its skips and its hearing, `ear` samples heard. */
    ghost function Hears(ear: nat): Condition
      reads this`stallFrom, this`stallUntil, this`stalls, this`requests, this`skips, this`skipLeft
      reads this`outbox, this`skipPending, this`backlog, this`stallDropped, this`skipped, this`ledger
    {
      if forall key: nat {:trigger Opens(HearsLock, key)} | Opens(HearsLock, key) ::
           StallsValid(ear) && SkipsValid() && HearValid() && |ledger.heard| == ear && LastIsLevel(outbox, machine)
      then Sound else Unsound
    }

    lemma OpenHears(ear: nat)
      requires Hears(ear) == Sound
      ensures StallsValid(ear) && SkipsValid() && HearValid() && |ledger.heard| == ear && LastIsLevel(outbox, machine)
    {
      var open := Opens(HearsLock, 0);
    }

    lemma CloseHears(ear: nat)
      requires StallsValid(ear) && SkipsValid() && HearValid() && |ledger.heard| == ear && LastIsLevel(outbox, machine)
      ensures Hears(ear) == Sound
    {
    }

    /** What it says and plays, behind a line of `n`. */
    ghost function Talks(n: nat): Condition
      reads this`inbox, this`at, this`sock, this`returned, this`readys, this`left
      reads this`queue, this`queued, this`consumed, this`queuedTotal, this`tagsWaiting,
            this`transmissions, this`story
      reads this`air, this`airKeyed, this`emitted, this`own, this`latency
    {
      if forall key: nat {:trigger Opens(TalksLock, key)} | Opens(TalksLock, key) ::
           WireValid() && SpeechValid() && PlayValid() && latency == n
      then Sound else Unsound
    }

    lemma OpenTalks(n: nat)
      requires Talks(n) == Sound
      ensures WireValid() && SpeechValid() && PlayValid() && latency == n
    {
      var open := Opens(TalksLock, 0);
    }

    lemma CloseTalks(n: nat)
      requires WireValid() && SpeechValid() && PlayValid() && latency == n
      ensures Talks(n) == Sound
    {
    }

    /** All that holds of a station behind a line of `n`. */
    ghost predicate Valid(n: nat)
      reads this
    {
      Talks(n) == Sound && OwedValid() && Keyed(|own|) == Sound && Hears(|ledger.heard|) == Sound
    }

    function Card(): Radio {
      Radio(voxHold, txDelay, recovery)
    }

    ghost function History(): Past
      reads this`own, this`emitted, this`consumed, this`ledger, this`outbox, this`requests
      reads this`skipPending, this`backlog, this`stallDropped, this`skipped
      reads this`nextStall, this`nextSkip, this`skipLeft
    {
      Past(Card(), machine, own, emitted, consumed, ledger.heard, outbox, Intake(), requests,
           Upcoming())
    }

    /** Whether everything is right, behind a line of `n`, and this is the station's past. */
    ghost function Standing(n: nat, p: Past): Condition
      reads this
    {
      if forall key: nat {:trigger Opens(StandLock, key)} | Opens(StandLock, key) :: Valid(n) && p == History()
      then Sound else Unsound
    }

    lemma OpenStanding(n: nat, p: Past)
      requires Standing(n, p) == Sound
      ensures Valid(n) && p == History()
    {
      var open := Opens(StandLock, 0);
    }

    lemma CloseStanding(n: nat)
      requires Valid(n)
      ensures Standing(n, History()) == Sound
    {
    }

    /** The past of a station that has only just connected. */
    function Beginning(): Past {
      Past(Card(), machine, [], [], 0, [], [], Capture.Intake([], 0, [], 0, 0), [], Due(None, None, 0))
    }

    lemma OpenFresh()
      requires Fresh() == Sound
      ensures WireValid() && Silent() && Unread() && Deafened() && Untouched()
    {
      var open := Opens(StandLock, 0);
    }

    lemma NothingYet()
      requires Silent() && Unread() && Deafened() && Untouched()
      ensures History() == Beginning() && own == [] && ledger.heard == []
      ensures SpeechValid() && OwedValid() && Keyed(0) == Sound && Hears(0) == Sound
    {
      NothingHeardYet();
      NothingKeyedYet();
      NothingOwedYet();
      NothingReadYet();
      NothingRadiatedYet();
      assert own == [] && emitted == [] && ledger.heard == [] && outbox == [] && requests == [];
    }

    /** Whether it has only just connected. */
    ghost function Fresh(): Condition
      reads this
    {
      if forall key: nat {:trigger Opens(StandLock, key)} | Opens(StandLock, key) ::
           WireValid() && Silent() && Unread() && Deafened() && Untouched()
      then Sound else Unsound
    }

    /** Whether it has joined the air, with this past, or is about to. */
    ghost function Joining(n: nat, p: Past, joined: bool): Condition
      reads this
    {
      if joined then Standing(n, p) else Fresh()
    }

    /** A station just connected joins the air. */
    method Join(n: nat)
      requires Fresh() == Sound && !left
      modifies this
      ensures Joining(n, Beginning(), true) == Sound && !left
    {
      OpenFresh();
      NothingYet();
      JoinAir(n);
      CloseTalks(n);
      assert History() == Beginning();
      CloseStanding(n);
    }

    method AskStill(t: nat, ghost p: Past, draws: Draws) returns (stalled: bool, ghost q: Past)
      requires p == History() && Hears(t) == Sound
      modifies this`stallFrom, this`stallUntil, this`stalls, this`requests, this`nextStall
      ensures q == History() && Hears(t) == Sound
      ensures Asking(p, q, stalled, t, draws) == Sound
    {
      OpenHears(t);
      stalled := Stalled(t, t, draws);
      CloseHears(t);
      q := History();
    }

    /** Whether it stands still at the start of the tick. */
    method BeginTick(t: nat, ghost n: nat, ghost p: Past, draws: Draws) returns (stalled: bool, ghost q: Past)
      requires Standing(n, p) == Sound && |p.heard| == t
      modifies this
      ensures Standing(n, q) == Sound && left == old(left)
      ensures Asking(p, q, stalled, t, draws) == Sound
    {
      OpenStanding(n, p);
      stalled, q := AskStill(t, p, draws);
      CloseStanding(n);
    }

    /** A stall commanded between ticks. */
    method CommandStall(t: nat, ghost n: nat, ghost p: Past, samples: int) returns (ghost q: Past)
      requires Standing(n, p) == Sound && |p.heard| == t
      modifies this
      ensures Standing(n, q) == Sound && left == old(left)
      ensures q == p.(requests := p.requests + [Request(t, samples)])
    {
      OpenStanding(n, p);
      OpenHears(t);
      Stall(t, t, samples);
      CloseHears(t);
      CloseStanding(n);
      q := History();
    }

    method CatchUpTalks(ghost n: nat) returns (ok: bool)
      requires Talks(n) == Sound && OwedValid() && !left
      modifies this`inbox, this`at, this`sock, this`bytesRead, this`returned, this`left
      modifies this`queue, this`queued, this`queuedTotal, this`tagsWaiting, this`story
      modifies this`owed, this`readys
      ensures Talks(n) == Sound && OwedValid() && left == !ok
      ensures ok ==> owed == 0
      ensures ok <==> Answering(writes, outbox) == Sound
    {
      OpenTalks(n);
      OpenOwed();
      ghost var taken;
      ok, taken := CatchUp();
      CloseTalks(n);
    }

    /** Everything it was sent, answered; or it has left, not having answered it. */
    method CatchUpTick(ghost n: nat, ghost p: Past) returns (ok: bool)
      requires Standing(n, p) == Sound && !left
      modifies this
      ensures Standing(n, p) == Sound && left == !ok
      ensures ok ==> owed == 0
      ensures ok <==> Answering(writes, p.sent) == Sound
    {
      OpenStanding(n, p);
      ok := CatchUpTalks(n);
      CloseStanding(n);
    }

    /** What it puts on the air in the `n` samples from `t` on, and the account of it. */
    method PutOnAir(start: nat, t: nat, n: nat) returns (out: Output)
      requires PlayValid() && KeyValid(own) && RadiatedTo(t)
      requires t == |own| && start == t + latency && n % RADIATED_BLOCK == 0
      modifies this`queue, this`queued, this`consumed, this`tagsWaiting, this`transmissions, this`story
      modifies this`air, this`airKeyed, this`emitted, this`own
      modifies this`keyedSince, this`lastKeyed, this`intervals
      modifies this`radiatingSince, this`radiated, this`radiatedBlocks
      ensures PlayValid() && KeyValid(own) && RadiatedTo(t + n)
      ensures |own| == |emitted| == t + n && old(own) == own[..t] && old(emitted) == emitted[..t]
      ensures story == StoryAfter(old(Deck()), old(story), start, n)
      ensures out.Length(n) && PutOut(Card(), own, emitted, t, out) == Sound
      ensures radiatedBlocks == old(radiatedBlocks) + ByBlock(out.signal)
    {
      var audio, on, signal, vox := Radiate(start, t, n);
      out := Output(audio, on, signal, vox);
      NoteRadiated(t, signal);
    }

    /** The same, and what radiated agrees with it. */
    method PutOnAirKeyed(start: nat, t: nat, n: nat) returns (out: Output)
      requires PlayValid() && Keyed(t) == Sound
      requires start == t + latency && n % RADIATED_BLOCK == 0
      modifies this`queue, this`queued, this`consumed, this`tagsWaiting, this`transmissions, this`story
      modifies this`air, this`airKeyed, this`emitted, this`own
      modifies this`keyedSince, this`lastKeyed, this`intervals
      modifies this`radiatingSince, this`radiated, this`radiatedBlocks
      ensures PlayValid() && Keyed(t + n) == Sound
      ensures |own| == |emitted| == t + n && |old(emitted)| == t && old(own) <= own && old(emitted) <= emitted
      ensures story == StoryAfter(old(Deck()), old(story), start, n)
      ensures out.Length(n) && PutOut(Card(), own, emitted, t, out) == Sound
      ensures radiatedBlocks == old(radiatedBlocks) + ByBlock(out.signal)
    {
      OpenKeyed(t);
      out := PutOnAir(start, t, n);
      assert old(own) <= own && old(emitted) <= emitted;
      SignalWithTick(old(own), old(emitted), voxHold, txDelay, old(radiatedBlocks), own, emitted, recovery, out);
      CloseKeyed(t + n);
    }

    /** And nothing is said by it. */
    method PutOnAirSaid(start: nat, t: nat, n: nat) returns (out: Output)
      requires Talks(latency) == Sound && Keyed(t) == Sound
      requires start == t + latency && n % RADIATED_BLOCK == 0
      modifies this`queue, this`queued, this`consumed, this`tagsWaiting, this`transmissions, this`story
      modifies this`air, this`airKeyed, this`emitted, this`own
      modifies this`keyedSince, this`lastKeyed, this`intervals
      modifies this`radiatingSince, this`radiated, this`radiatedBlocks
      ensures Talks(latency) == Sound && Keyed(t + n) == Sound
      ensures |own| == |emitted| == t + n && |old(emitted)| == t && old(own) <= own && old(emitted) <= emitted
      ensures out.Length(n) && PutOut(Card(), own, emitted, t, out) == Sound
      ensures radiatedBlocks == old(radiatedBlocks) + ByBlock(out.signal)
    {
      OpenTalks(latency);
      TickSaysNothing(Deck(), story, start, n);
      out := PutOnAirKeyed(start, t, n);
      CloseTalks(latency);
    }

    /** Its part of the tick from `t` on: only once every block it was sent is answered. */
    method RadiateTick(t: nat, n: nat, ghost p: Past) returns (out: Output, ghost q: Past)
      requires Standing(n, p) == Sound && |p.own| == t && owed == 0
      modifies this
      ensures Standing(n, q) == Sound && left == old(left) && Airs(p, q, t)
      ensures out.Length(TICK) && PutOut(q.radio, q.own, q.emitted, t, out) == Sound
      ensures radiatedBlocks == old(radiatedBlocks) + ByBlock(out.signal)
    {
      OpenStanding(n, p);
      assert latency == n by { OpenTalks(n); }
      out := PutOnAirSaid(t + n, t, TICK);
      CloseStanding(n);
      q := History();
    }

    /** What it hears of the tick it has just put out, from `t` on: nothing where it is deaf. */
    method Hear(t: nat, ghost n: nat, ghost p: Past, arriving: seq<Word>, out: Output) returns (heard: seq<Word>)
      requires Standing(n, p) == Sound && |p.own| == t + TICK && |arriving| == TICK
      requires out.Length(TICK) && PutOut(p.radio, p.own, p.emitted, t, out) == Sound
      ensures IsHeard(p, t, arriving, heard)
    {
      OpenStanding(n, p);
      OpenKeyed(t + TICK);
      OpenOutput(p.radio, p.own, p.emitted, t, out);
      var deaf := Deaf(t, out.on);
      heard := seq(TICK, i requires 0 <= i < TICK => if deaf[i] then SILENT else arriving[i]);
    }

    method DeliverHeard(t: nat, ghost p: Past, samples: seq<Word>, stalled: bool, draws: Draws) returns (ghost q: Past)
      requires p == History() && Hears(t) == Sound && OwedValid() && |p.heard| == t && |samples| == TICK
      modifies this`outbox, this`owed, this`backlog, this`stallDropped
      modifies this`nextSkip, this`skipLeft, this`skips, this`skipPending, this`skipped, this`ledger
      ensures q == History() && Hears(t + TICK) == Sound && OwedValid()
      ensures Delivered(p, q, samples, stalled, draws) == Sound
    {
      ghost var k := DeliverBlock(t + TICK, samples, stalled, draws);
      q := History();
      if !stalled { OpenGave(p.intake, p.due, old(skips), p.sent, t + TICK, samples, draws, k); }
      CloseDelivered(p, q, samples, stalled, draws, k);
    }

    /** The tick heard, delivered. */
    method DeliverTick(t: nat, ghost n: nat, ghost p: Past, samples: seq<Word>, stalled: bool, draws: Draws)
      returns (ghost q: Past)
      requires Standing(n, p) == Sound && |p.heard| == t && |samples| == TICK
      modifies this
      ensures Standing(n, q) == Sound && left == old(left)
      ensures Delivered(p, q, samples, stalled, draws) == Sound
    {
      OpenStanding(n, p);
      q := DeliverHeard(t, p, samples, stalled, draws);
      CloseStanding(n);
    }
  }

  lemma TickSaysNothing(d: Deck, h: Story, start: nat, n: nat)
    ensures Saids(StoryAfter(d, h, start, n).log) == Saids(h.log)
  {
    PlacedAllMoves(Drawn(d, n), DrawnStory(d, h, n), start, d.consumed);
    SaidOneMore(h.log, Aired(n));
  }
}
