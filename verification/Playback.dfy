/**
 What a station plays (tools/channel_server.py): its queue, the accounts waiting for the samples
 they describe, and where each account is placed on the air. This module holds the values and the
 theory; `Station` updates them in place.
 */
module Playback {
  import opened Bytes
  import opened Messages

  /** An account waiting for the sample at `offset` of the playback stream. */
  datatype Waiting = Waiting(offset: int, account: Account)

  /** An account placed at an air sample. */
  datatype Transmission = Transmission(at: int, account: Account)

  /** The station's playback fields, its queue of blocks run together. */
  datatype Deck = Deck(line: seq<Word>, queued: int, consumed: int, queuedTotal: int,
                       waiting: seq<Waiting>, placed: seq<Transmission>)

  /** The effect of a message. */
  function Told(d: Deck, m: Message): Deck {
    match m
    case Play(samples) =>
      d.(line := d.line + samples, queued := d.queued + |samples|,
         queuedTotal := d.queuedTotal + |samples|)
    case Clear => d.(line := [], queued := 0, queuedTotal := d.consumed, waiting := [])
    case Tag(account) => d.(waiting := d.waiting + [Waiting(d.queuedTotal, account)])
    case Ready => d
  }

  function ToldAll(d: Deck, ms: seq<Message>): Deck {
    if ms == [] then d else Told(ToldAll(d, ms[..|ms| - 1]), ms[|ms| - 1])
  }

  /** The effect of taking `n` samples for the air. */
  function Drawn(d: Deck, n: nat): Deck {
    var k := if n < |d.line| then n else |d.line|;
    d.(line := d.line[k..], queued := d.queued - k, consumed := d.consumed + k)
  }

  // ---- what happened, for the proofs ----

  /** A message taken, or so many samples drawn for the air. */
  datatype Step = Said(message: Message) | Aired(n: nat)

  /** Every sample ever queued; a sample is known by its place here. */
  function Queued(log: seq<Step>): seq<Word> {
    if log == [] then []
    else
      var before := Queued(log[..|log| - 1]);
      match log[|log| - 1]
      case Said(Play(samples)) => before + samples
      case _ => before
  }

  /** The sample queued next after step `i`. */
  function FirstAfter(log: seq<Step>, i: nat): nat
    requires i <= |log|
  {
    |Queued(log[..i])|
  }

  /** An air sample: nothing, or a sample of the playback stream. */
  datatype Slot = Idle | Carries(id: nat)

  /** The steps so far; the sample that each air sample carries, the latency line's included; and
      the steps that were the waiting accounts' and the placed accounts' tags. */
  datatype Story = Story(log: seq<Step>, aired: seq<Slot>, waitingAt: seq<nat>, placedAt: seq<nat>)

  function ToldStory(h: Story, m: Message): Story {
    var waitingAt := match m
      case Clear => []
      case Tag(_) => h.waitingAt + [|h.log|]
      case Play(_) => h.waitingAt
      case Ready => h.waitingAt;
    h.(log := h.log + [Said(m)], waitingAt := waitingAt)
  }

  function ToldAllStory(h: Story, ms: seq<Message>): Story {
    if ms == [] then h else ToldStory(ToldAllStory(h, ms[..|ms| - 1]), ms[|ms| - 1])
  }

  lemma ToldOneMore(d: Deck, h: Story, ms: seq<Message>, m: Message)
    ensures ToldAll(d, ms + [m]) == Told(ToldAll(d, ms), m)
    ensures ToldAllStory(h, ms + [m]) == ToldStory(ToldAllStory(h, ms), m)
  {
    assert (ms + [m])[..|ms|] == ms;
  }

  lemma {:induction false} ToldMore(d: Deck, h: Story, a: seq<Message>, b: seq<Message>)
    ensures ToldAll(d, a + b) == ToldAll(ToldAll(d, a), b)
    ensures ToldAllStory(h, a + b) == ToldAllStory(ToldAllStory(h, a), b)
  {
    if b == [] {
      assert a + b == a;
    } else {
      var n := |b| - 1;
      assert a + b == (a + b[..n]) + [b[n]];
      ToldOneMore(d, h, a + b[..n], b[n]);
      ToldMore(d, h, a, b[..n]);
    }
  }

  /** `n` air samples, the first `k` of them carrying the samples from `base` on. */
  function Slots(base: nat, k: nat, n: nat): (c: seq<Slot>)
    ensures |c| == n
    ensures forall i | 0 <= i < n :: c[i] == if i < k then Carries(base + i) else Idle
  {
    seq(n, i requires 0 <= i < n => if i < k then Carries(base + i) else Idle)
  }

  function DrawnStory(d: Deck, h: Story, n: nat): Story {
    var ever := |Queued(h.log)|;
    var k := if n < |d.line| then n else |d.line|;
    var base: nat := if |d.line| <= ever then ever - |d.line| else 0;
    h.(log := h.log + [Aired(n)], aired := h.aired + Slots(base, k, n))
  }

  // ---- the invariant ----

  predicate Matches(ever: seq<Word>, line: seq<Word>, j: nat)
    requires j < |line| <= |ever|
  {
    line[j] == ever[|ever| - |line| + j]
  }

  ghost predicate EndsWith(ever: seq<Word>, line: seq<Word>) {
    && |line| <= |ever|
    && forall j: nat {:trigger Matches(ever, line, j)} | j < |line| :: Matches(ever, line, j)
  }

  lemma EndsWithMore(ever: seq<Word>, line: seq<Word>, samples: seq<Word>)
    requires EndsWith(ever, line)
    ensures EndsWith(ever + samples, line + samples)
  {
    forall j: nat | j < |line + samples| ensures Matches(ever + samples, line + samples, j) {
      if j < |line| { var same := Matches(ever, line, j); }
    }
  }

  lemma EndsWithLess(ever: seq<Word>, line: seq<Word>, k: nat)
    requires EndsWith(ever, line) && k <= |line|
    ensures EndsWith(ever, line[k..])
  {
    forall j: nat | j < |line| - k ensures Matches(ever, line[k..], j) {
      var same := Matches(ever, line, k + j);
    }
  }

  /** The queue is the end of what was ever queued, and the counts agree. */
  ghost predicate Counted(d: Deck, log: seq<Step>) {
    && d.queued == |d.line|
    && d.queuedTotal == d.consumed + d.queued
    && EndsWith(Queued(log), d.line)
  }

  ghost predicate IsTag(log: seq<Step>, i: nat, account: Account) {
    i < |log| && log[i] == Said(Tag(account))
  }

  /** The tag at step `at` waits for the first sample queued after it. */
  ghost predicate WaitsFor(log: seq<Step>, total: int, w: Waiting, at: nat) {
    && IsTag(log, at, w.account)
    && FirstAfter(log, at) == |Queued(log)| - total + w.offset
  }

  /** Each waiting account waits for the first sample queued after its tag, at `from` or later. */
  ghost predicate WaitingRight(d: Deck, h: Story, from: int) {
    && |h.waitingAt| == |d.waiting|
    && (forall i | 0 <= i < |d.waiting| :: WaitsFor(h.log, d.queuedTotal, d.waiting[i], h.waitingAt[i]))
    && (forall i | 0 <= i < |d.waiting| :: from <= d.waiting[i].offset <= d.queuedTotal)
    && (forall i, j | 0 <= i < j < |d.waiting| :: d.waiting[i].offset <= d.waiting[j].offset)
  }

  /** Each placed account is where the first sample queued after its tag is on the air. */
  ghost predicate PlacedRight(placed: seq<Transmission>, h: Story) {
    && |h.placedAt| == |placed|
    && forall j | 0 <= j < |placed| ::
         && IsTag(h.log, h.placedAt[j], placed[j].account)
         && 0 <= placed[j].at < |h.aired|
         && h.aired[placed[j].at] == Carries(FirstAfter(h.log, h.placedAt[j]))
  }

  /** Samples go on the air in the order they were queued, none twice, none still in the queue. */
  ghost predicate AiredInOrder(aired: seq<Slot>, gone: int) {
    && (forall i | 0 <= i < |aired| && aired[i].Carries? :: aired[i].id < gone)
    && (forall i, j | 0 <= i < j < |aired| && aired[i].Carries? && aired[j].Carries? ::
          aired[i].id < aired[j].id)
  }

  ghost predicate Increasing(s: seq<nat>) {
    forall i, j | 0 <= i < j < |s| :: s[i] < s[j]
  }

  /** A sample that is not on the air. */
  ghost predicate NeverAired(aired: seq<Slot>, id: nat) {
    forall a | 0 <= a < |aired| :: aired[a] != Carries(id)
  }

  /** The CLEAR at step `c` came after the tag at step `i` and before its sample went: what was queued
      after the tag by then, its first sample included, never goes. */
  ghost predicate ClearedBy(h: Story, i: nat, c: nat) {
    && i < c < |h.log| && h.log[c] == Said(Clear)
    && (FirstAfter(h.log, i) < FirstAfter(h.log, c) ==> NeverAired(h.aired, FirstAfter(h.log, i)))
  }

  ghost predicate ClearedAway(h: Story, i: nat) {
    exists c: nat :: ClearedBy(h, i, c)
  }

  ghost predicate AccountedFor(h: Story, i: nat) {
    i in h.placedAt || i in h.waitingAt || ClearedAway(h, i)
  }

  ghost predicate SaysTag(log: seq<Step>, i: nat) {
    i < |log| && log[i].Said? && log[i].message.Tag?
  }

  /** No tag is lost: it was placed, waits, or was cleared away before its sample went; and none
      counts twice. */
  ghost predicate NoneLost(h: Story) {
    && Increasing(h.placedAt + h.waitingAt)
    && forall i: nat | SaysTag(h.log, i) :: AccountedFor(h, i)
  }

  /** Nothing queued before a CLEAR is in the queue. */
  ghost predicate ClearsEmptied(log: seq<Step>, gone: int) {
    forall c: nat | c < |log| && log[c] == Said(Clear) :: FirstAfter(log, c) <= gone
  }

  // ---- silence only when nothing waits ----

  /** The air samples of the ticks in a log. */
  function TimeOf(log: seq<Step>): nat {
    if log == [] then 0
    else TimeOf(log[..|log| - 1]) + if log[|log| - 1].Aired? then log[|log| - 1].n else 0
  }

  /** The air samples that carry a sample of the playback stream. */
  function CarriedIn(aired: seq<Slot>): nat {
    if aired == [] then 0
    else CarriedIn(aired[..|aired| - 1]) + if aired[|aired| - 1].Carries? then 1 else 0
  }

  ghost predicate AiredBefore(aired: seq<Slot>, id: nat, a: nat) {
    exists b: nat | b < a && b < |aired| :: aired[b] == Carries(id)
  }

  /** A CLEAR among the first `i` steps came after the sample was queued. */
  ghost predicate ClearedIn(log: seq<Step>, id: nat, i: nat) {
    exists c: nat | c < i && c < |log| :: log[c] == Said(Clear) && id < FirstAfter(log, c)
  }

  ghost predicate WentOrCleared(h: Story, id: nat, a: nat, i: nat) {
    AiredBefore(h.aired, id, a) || ClearedIn(h.log, id, i)
  }

  /** Air sample `a` was made in the tick that is step `i`. */
  ghost predicate MadeIn(h: Story, i: nat, a: nat) {
    && i < |h.log| && h.log[i].Aired? && a < |h.aired|
    && |h.aired| - TimeOf(h.log) + TimeOf(h.log[..i]) <= a < |h.aired| - TimeOf(h.log) + TimeOf(h.log[..i + 1])
  }

  /** If air sample `a` of step `i` is idle, everything queued by that tick went before it or was
      cleared. */
  ghost predicate IdleOnlyWhenEmpty(h: Story, i: nat, a: nat) {
    MadeIn(h, i, a) && h.aired[a].Idle? ==> forall id: nat | id < FirstAfter(h.log, i) :: WentOrCleared(h, id, a, i)
  }

  /** All that has left the queue went on the air or was cleared; the air is idle only when nothing
      waits; and `consumed` counts what the air carries. */
  ghost predicate Unbroken(h: Story, gone: int, consumed: int) {
    && (forall id: nat | id < gone :: WentOrCleared(h, id, |h.aired|, |h.log|))
    && (forall i: nat, a: nat :: IdleOnlyWhenEmpty(h, i, a))
    && TimeOf(h.log) <= |h.aired|
    && consumed == CarriedIn(h.aired)
  }

  lemma TimeGrows(log: seq<Step>, s: Step)
    ensures TimeOf(log + [s]) == TimeOf(log) + if s.Aired? then s.n else 0
  {
    assert (log + [s])[..|log|] == log;
  }

  lemma {:induction false} TimeOfFirst(log: seq<Step>, i: nat)
    requires i <= |log|
    ensures TimeOf(log[..i]) <= TimeOf(log)
  {
    if i < |log| {
      TimeOfFirst(log[..|log| - 1], i);
      assert log[..|log| - 1][..i] == log[..i];
    } else {
      assert log[..i] == log;
    }
  }

  lemma {:induction false} CarriedMore(aired: seq<Slot>, base: nat, k: nat, n: nat)
    requires k <= n
    ensures CarriedIn(aired + Slots(base, k, n)) == CarriedIn(aired) + k
  {
    var all := aired + Slots(base, k, n);
    if n == 0 {
      assert all == aired;
    } else if k < n {
      assert all[..|all| - 1] == aired + Slots(base, k, n - 1);
      CarriedMore(aired, base, k, n - 1);
    } else {
      assert all[..|all| - 1] == aired + Slots(base, k - 1, n - 1);
      CarriedMore(aired, base, k - 1, n - 1);
    }
  }

  /** One more step, and perhaps more of the air: what went or was cleared still did. */
  lemma WentStays(h: Story, id: nat, a: nat, i: nat, later: Story, s: Step, b: nat, j: nat)
    requires WentOrCleared(h, id, a, i) && a <= b && i <= j && i <= |h.log|
    requires later.log == h.log + [s] && h.aired <= later.aired
    ensures WentOrCleared(later, id, b, j)
  {
    if AiredBefore(h.aired, id, a) {
      var c: nat :| c < a && c < |h.aired| && h.aired[c] == Carries(id);
      assert later.aired[c] == Carries(id);
    } else {
      var c: nat :| c < i && c < |h.log| && h.log[c] == Said(Clear) && id < FirstAfter(h.log, c);
      LogGrows(h.log, s, c);
      assert later.log[c] == Said(Clear);
    }
  }

  /** An air sample of an earlier tick stays right. */
  lemma IdleStays(h: Story, i: nat, a: nat, later: Story, s: Step, more: nat)
    requires IdleOnlyWhenEmpty(h, i, a) && i < |h.log|
    requires later.log == h.log + [s] && h.aired <= later.aired && |later.aired| == |h.aired| + more
    requires more == if s.Aired? then s.n else 0
    requires TimeOf(h.log) <= |h.aired|
    ensures IdleOnlyWhenEmpty(later, i, a)
  {
    if MadeIn(later, i, a) && later.aired[a].Idle? {
      TimeGrows(h.log, s);
      assert later.log[..i] == h.log[..i] && later.log[..i + 1] == h.log[..i + 1];
      TimeOfFirst(h.log, i + 1);
      assert MadeIn(h, i, a);
      LogGrows(h.log, s, i);
      forall id: nat | id < FirstAfter(later.log, i) ensures WentOrCleared(later, id, a, i) {
        WentStays(h, id, a, i, later, s, a, i);
      }
    }
  }

  lemma ToldIsUnbroken(d: Deck, h: Story, m: Message)
    requires Counted(d, h.log) && Unbroken(h, |Queued(h.log)| - |d.line|, d.consumed)
    ensures var told := ToldStory(h, m); Unbroken(told, |Queued(told.log)| - |Told(d, m).line|, Told(d, m).consumed)
  {
    var told, gone := ToldStory(h, m), |Queued(h.log)| - |d.line|;
    QueuedGrows(h.log, Said(m));
    TimeGrows(h.log, Said(m));
    forall id: nat | id < |Queued(told.log)| - |Told(d, m).line|
      ensures WentOrCleared(told, id, |told.aired|, |told.log|)
    {
      if id < gone {
        WentStays(h, id, |h.aired|, |h.log|, told, Said(m), |told.aired|, |told.log|);
      } else {
        assert told.log[|h.log|] == Said(Clear) && told.log[..|h.log|] == h.log;
        assert id < FirstAfter(told.log, |h.log|);
      }
    }
    forall i: nat, a: nat ensures IdleOnlyWhenEmpty(told, i, a) {
      if i < |h.log| { IdleStays(h, i, a, told, Said(m), 0); }
    }
  }

  lemma DrawnIsUnbroken(d: Deck, h: Story, n: nat)
    requires Counted(d, h.log) && Unbroken(h, |Queued(h.log)| - |d.line|, d.consumed)
    ensures var drawn := DrawnStory(d, h, n);
            Unbroken(drawn, |Queued(drawn.log)| - |Drawn(d, n).line|, Drawn(d, n).consumed)
  {
    var drawn, ever := DrawnStory(d, h, n), |Queued(h.log)|;
    var k := if n < |d.line| then n else |d.line|;
    var upTo := |h.aired| + k;
    QueuedGrows(h.log, Aired(n));
    TimeGrows(h.log, Aired(n));
    CarriedMore(h.aired, ever - |d.line|, k, n);
    forall id: nat | id < ever - |d.line| + k ensures WentOrCleared(drawn, id, upTo, |h.log|) {
      DrawnWent(d, h, n, id);
    }
    forall i: nat, a: nat ensures IdleOnlyWhenEmpty(drawn, i, a) {
      if i < |h.log| {
        IdleStays(h, i, a, drawn, Aired(n), n);
      } else if MadeIn(drawn, i, a) && drawn.aired[a].Idle? {
        assert drawn.log[..i] == h.log && drawn.log[..i + 1] == drawn.log;
        assert a >= |h.aired| + k && k == |d.line|;
        forall id: nat | id < FirstAfter(drawn.log, i) ensures WentOrCleared(drawn, id, a, i) {
          assert WentOrCleared(drawn, id, upTo, |h.log|);
        }
      }
    }
    forall id: nat | id < ever - |d.line| + k ensures WentOrCleared(drawn, id, |drawn.aired|, |drawn.log|) {
      assert WentOrCleared(drawn, id, upTo, |h.log|);
    }
  }

  lemma DrawnWent(d: Deck, h: Story, n: nat, id: nat)
    requires Counted(d, h.log) && Unbroken(h, |Queued(h.log)| - |d.line|, d.consumed)
    requires id < |Queued(h.log)| - |d.line| + if n < |d.line| then n else |d.line|
    ensures WentOrCleared(DrawnStory(d, h, n), id, |h.aired| + if n < |d.line| then n else |d.line|, |h.log|)
  {
    var drawn, base := DrawnStory(d, h, n), |Queued(h.log)| - |d.line|;
    if id < base {
      WentStays(h, id, |h.aired|, |h.log|, drawn, Aired(n),
                |h.aired| + if n < |d.line| then n else |d.line|, |h.log|);
    } else {
      assert drawn.aired[|h.aired| + (id - base)] == Carries(id);
    }
  }

  ghost predicate Coherent(d: Deck, h: Story) {
    && Counted(d, h.log)
    && WaitingRight(d, h, d.consumed)
    && PlacedRight(d.placed, h)
    && AiredInOrder(h.aired, |Queued(h.log)| - |d.line|)
    && ClearsEmptied(h.log, |Queued(h.log)| - |d.line|)
    && NoneLost(h)
    && Unbroken(h, |Queued(h.log)| - |d.line|, d.consumed)
  }

  /** Before anything is said: a line of silence. */
  function AtStart(latency: nat): Story {
    Story([], Slots(0, 0, latency), [], [])
  }

  /** Nothing said, nothing played. */
  ghost predicate Unsaid(d: Deck, h: Story) {
    && |d.line| < 1 && d.queued == |d.line| && d.queuedTotal == d.consumed + d.queued && d.consumed == |d.line|
    && |d.waiting| < 1 && |d.placed| < 1
    && |h.log| < 1 && |h.waitingAt| < 1 && |h.placedAt| < 1
    && forall i | 0 <= i < |h.aired| :: h.aired[i].Idle?
  }

  lemma UnsaidIsCoherent(d: Deck, h: Story)
    requires Unsaid(d, h)
    ensures Coherent(d, h)
  {
    NoneCarried(h.aired);
  }

  lemma {:induction false} NoneCarried(aired: seq<Slot>)
    requires forall i | 0 <= i < |aired| :: aired[i].Idle?
    ensures CarriedIn(aired) == 0
  {
    if aired != [] { NoneCarried(aired[..|aired| - 1]); }
  }

  // ---- messages keep it ----

  lemma LogGrows(log: seq<Step>, s: Step, i: nat)
    requires i <= |log|
    ensures FirstAfter(log + [s], i) == FirstAfter(log, i)
  {
    assert (log + [s])[..i] == log[..i];
  }

  lemma QueuedGrows(log: seq<Step>, s: Step)
    ensures Queued(log + [s]) == Queued(log) + if s.Said? && s.message.Play? then s.message.samples else []
  {
    assert (log + [s])[..|log|] == log;
  }

  lemma {:induction false} ToldKeeps(d: Deck, h: Story, m: Message)
    requires Coherent(d, h)
    ensures Coherent(Told(d, m), ToldStory(h, m))
  {
    ToldKeepsCounted(d, h, m);
    QueuedGrows(h.log, Said(m));
    ToldKeepsWaiting(d, h, m);
    ToldKeepsPlaced(d, h, m);
    ClearsStayEmptied(h.log, Said(m), |Queued(h.log)| - |d.line|, |Queued(h.log + [Said(m)])| - |Told(d, m).line|);
    ToldLosesNone(d, h, m);
    ToldIsUnbroken(d, h, m);
  }

  /** What is gone stays gone; and a CLEAR sends all there is away. */
  lemma ClearsStayEmptied(log: seq<Step>, s: Step, before: int, gone: int)
    requires ClearsEmptied(log, before) && before <= gone
    requires s == Said(Clear) ==> gone >= |Queued(log)|
    ensures ClearsEmptied(log + [s], gone)
  {
    forall c: nat | c < |log + [s]| && (log + [s])[c] == Said(Clear)
      ensures FirstAfter(log + [s], c) <= gone
    {
      LogGrows(log, s, c);
      if c == |log| { assert log[..c] == log; }
    }
  }

  lemma ToldKeepsCounted(d: Deck, h: Story, m: Message)
    requires Counted(d, h.log)
    ensures Counted(Told(d, m), h.log + [Said(m)])
  {
    QueuedGrows(h.log, Said(m));
    if m.Play? { EndsWithMore(Queued(h.log), d.line, m.samples); }
  }

  lemma ToldKeepsWaiting(d: Deck, h: Story, m: Message)
    requires Counted(d, h.log) && WaitingRight(d, h, d.consumed)
    ensures WaitingRight(Told(d, m), ToldStory(h, m), d.consumed)
  {
    match m
    case Clear =>
    case Ready => ReadyKeepsWaiting(d, h);
    case Play(samples) => PlayKeepsWaiting(d, h, samples);
    case Tag(account) => TagKeepsWaiting(d, h, account);
  }

  lemma StillWaitsFor(log: seq<Step>, s: Step, total: int, w: Waiting, at: nat)
    requires WaitsFor(log, total, w, at)
    ensures WaitsFor(log + [s], total + |Queued(log + [s])| - |Queued(log)|, w, at)
  {
    LogGrows(log, s, at);
  }

  lemma PlayKeepsWaiting(d: Deck, h: Story, samples: seq<Word>)
    requires WaitingRight(d, h, d.consumed)
    ensures WaitingRight(Told(d, Play(samples)), ToldStory(h, Play(samples)), d.consumed)
  {
    QueuedGrows(h.log, Said(Play(samples)));
    forall i | 0 <= i < |d.waiting|
      ensures WaitsFor(h.log + [Said(Play(samples))], d.queuedTotal + |samples|, d.waiting[i], h.waitingAt[i])
    {
      StillWaitsFor(h.log, Said(Play(samples)), d.queuedTotal, d.waiting[i], h.waitingAt[i]);
    }
  }

  lemma ReadyKeepsWaiting(d: Deck, h: Story)
    requires WaitingRight(d, h, d.consumed)
    ensures WaitingRight(Told(d, Ready), ToldStory(h, Ready), d.consumed)
  {
    QueuedGrows(h.log, Said(Ready));
    forall i | 0 <= i < |d.waiting|
      ensures WaitsFor(h.log + [Said(Ready)], d.queuedTotal, d.waiting[i], h.waitingAt[i])
    {
      StillWaitsFor(h.log, Said(Ready), d.queuedTotal, d.waiting[i], h.waitingAt[i]);
    }
  }

  lemma NewlyWaits(log: seq<Step>, total: int, account: Account)
    ensures WaitsFor(log + [Said(Tag(account))], total, Waiting(total, account), |log|)
  {
    QueuedGrows(log, Said(Tag(account)));
    assert (log + [Said(Tag(account))])[..|log|] == log;
  }

  lemma TagKeepsWaiting(d: Deck, h: Story, account: Account)
    requires Counted(d, h.log) && WaitingRight(d, h, d.consumed)
    ensures WaitingRight(Told(d, Tag(account)), ToldStory(h, Tag(account)), d.consumed)
  {
    var told, story := Told(d, Tag(account)), ToldStory(h, Tag(account));
    forall i | 0 <= i < |told.waiting|
      ensures WaitsFor(story.log, told.queuedTotal, told.waiting[i], story.waitingAt[i])
    {
      TagWaits(d, h, account, i);
    }
    TagInOrder(d, account);
  }

  lemma TagWaits(d: Deck, h: Story, account: Account, i: nat)
    requires WaitingRight(d, h, d.consumed) && i <= |d.waiting|
    ensures WaitsFor(h.log + [Said(Tag(account))], d.queuedTotal,
                     (d.waiting + [Waiting(d.queuedTotal, account)])[i], (h.waitingAt + [|h.log|])[i])
  {
    var s := Said(Tag(account));
    if i < |d.waiting| {
      QueuedGrows(h.log, s);
      StillWaitsFor(h.log, s, d.queuedTotal, d.waiting[i], h.waitingAt[i]);
    } else {
      NewlyWaits(h.log, d.queuedTotal, account);
    }
  }

  lemma TagInOrder(d: Deck, account: Account)
    requires d.consumed <= d.queuedTotal
    requires forall i | 0 <= i < |d.waiting| :: d.consumed <= d.waiting[i].offset <= d.queuedTotal
    requires forall i, j | 0 <= i < j < |d.waiting| :: d.waiting[i].offset <= d.waiting[j].offset
    ensures var waiting := Told(d, Tag(account)).waiting;
            && (forall i | 0 <= i < |waiting| :: d.consumed <= waiting[i].offset <= d.queuedTotal)
            && (forall i, j | 0 <= i < j < |waiting| :: waiting[i].offset <= waiting[j].offset)
  {
  }

  lemma ToldKeepsPlaced(d: Deck, h: Story, m: Message)
    requires PlacedRight(d.placed, h)
    ensures PlacedRight(d.placed, ToldStory(h, m))
  {
    forall j | 0 <= j < |h.placedAt|
      ensures FirstAfter(h.log + [Said(m)], h.placedAt[j]) == FirstAfter(h.log, h.placedAt[j])
    {
      LogGrows(h.log, Said(m), h.placedAt[j]);
    }
  }

  /** A tag cleared away stays so: what goes on the air later was queued after the CLEAR. */
  lemma ClearedStays(h: Story, i: nat, later: Story, s: Step, gone: int)
    requires ClearedAway(h, i) && ClearsEmptied(h.log, gone) && later.log == h.log + [s]
    requires h.aired <= later.aired
    requires forall a | |h.aired| <= a < |later.aired| && later.aired[a].Carries? :: later.aired[a].id >= gone
    ensures ClearedAway(later, i)
  {
    var c: nat :| ClearedBy(h, i, c);
    LogGrows(h.log, s, c);
    LogGrows(h.log, s, i);
    assert ClearedBy(later, i, c);
  }

  /** A tag that waits when the CLEAR comes is cleared away. */
  lemma ClearedNow(d: Deck, h: Story, j: nat)
    requires Counted(d, h.log) && WaitingRight(d, h, d.consumed) && j < |d.waiting|
    requires AiredInOrder(h.aired, |Queued(h.log)| - |d.line|)
    ensures ClearedAway(ToldStory(h, Clear), h.waitingAt[j])
  {
    assert WaitsFor(h.log, d.queuedTotal, d.waiting[j], h.waitingAt[j]);
    LogGrows(h.log, Said(Clear), h.waitingAt[j]);
    assert ClearedBy(ToldStory(h, Clear), h.waitingAt[j], |h.log|);
  }

  lemma ToldInOrder(d: Deck, h: Story, m: Message)
    requires WaitingRight(d, h, d.consumed) && PlacedRight(d.placed, h)
    requires Increasing(h.placedAt + h.waitingAt)
    ensures var told := ToldStory(h, m); Increasing(told.placedAt + told.waitingAt)
  {
    var order := h.placedAt + h.waitingAt;
    match m
    case Play(_) =>
    case Ready =>
    case Clear =>
      assert h.placedAt + [] == order[..|h.placedAt|];
    case Tag(_) =>
      assert forall x <- order :: x < |h.log|;
      assert h.placedAt + (h.waitingAt + [|h.log|]) == order + [|h.log|];
  }

  lemma ToldLosesNone(d: Deck, h: Story, m: Message)
    requires Coherent(d, h)
    ensures NoneLost(ToldStory(h, m))
  {
    ToldInOrder(d, h, m);
    var told := ToldStory(h, m);
    forall i: nat | SaysTag(told.log, i) ensures AccountedFor(told, i) {
      if i == |h.log| {
        assert told.waitingAt[|h.waitingAt|] == i;
      } else {
        assert SaysTag(h.log, i);
        ToldAccountsFor(d, h, m, i);
      }
    }
  }

  lemma ToldAccountsFor(d: Deck, h: Story, m: Message, i: nat)
    requires Coherent(d, h) && AccountedFor(h, i)
    ensures AccountedFor(ToldStory(h, m), i)
  {
    if ClearedAway(h, i) {
      ClearedStays(h, i, ToldStory(h, m), Said(m), |Queued(h.log)| - |d.line|);
    } else if i in h.waitingAt && m.Clear? {
      var j :| 0 <= j < |h.waitingAt| && h.waitingAt[j] == i;
      ClearedNow(d, h, j);
    }
  }

  lemma {:induction false} ToldAllKeeps(d: Deck, h: Story, ms: seq<Message>)
    requires Coherent(d, h)
    ensures Coherent(ToldAll(d, ms), ToldAllStory(h, ms))
  {
    if ms != [] {
      var n := |ms| - 1;
      ToldAllKeeps(d, h, ms[..n]);
      ToldKeeps(ToldAll(d, ms[..n]), ToldAllStory(h, ms[..n]), ms[n]);
    }
  }

  // ---- drawing for the air keeps it, once the accounts it reached are placed ----

  /** The samples just drawn are on the air from air sample `start` on. */
  ghost predicate JustAired(d: Deck, h: Story, start: nat, before: int) {
    && start + (d.consumed - before) <= |h.aired|
    && forall i | start <= i < start + (d.consumed - before) ::
         && h.aired[i].Carries?
         && h.aired[i].id == |Queued(h.log)| - d.queuedTotal + before + (i - start)
  }

  /** Everything but that some waiting accounts' samples have just gone. */
  ghost predicate Placing(d: Deck, h: Story, start: nat, before: int) {
    && Counted(d, h.log)
    && WaitingRight(d, h, before)
    && PlacedRight(d.placed, h)
    && AiredInOrder(h.aired, |Queued(h.log)| - |d.line|)
    && ClearsEmptied(h.log, |Queued(h.log)| - |d.line|)
    && NoneLost(h)
    && Unbroken(h, |Queued(h.log)| - |d.line|, d.consumed)
    && JustAired(d, h, start, before)
  }

  lemma DrawnIsPlacing(d: Deck, h: Story, n: nat)
    requires Coherent(d, h)
    ensures Placing(Drawn(d, n), DrawnStory(d, h, n), |h.aired|, d.consumed)
  {
    QueuedGrows(h.log, Aired(n));
    EndsWithLess(Queued(h.log), d.line, if n < |d.line| then n else |d.line|);
    DrawnKeepsWaiting(d, h, n);
    DrawnKeepsPlaced(d, h, n);
    DrawnInOrder(d, h, n);
    ClearsStayEmptied(h.log, Aired(n), |Queued(h.log)| - |d.line|, |Queued(h.log)| - |Drawn(d, n).line|);
    DrawnLosesNone(d, h, n);
    DrawnIsUnbroken(d, h, n);
  }

  lemma DrawnKeepsWaiting(d: Deck, h: Story, n: nat)
    requires WaitingRight(d, h, d.consumed)
    ensures WaitingRight(Drawn(d, n), DrawnStory(d, h, n), d.consumed)
  {
    assert |Queued(h.log + [Aired(n)])| == |Queued(h.log)| by { QueuedGrows(h.log, Aired(n)); }
    forall i | 0 <= i < |d.waiting|
      ensures WaitsFor(h.log + [Aired(n)], d.queuedTotal, d.waiting[i], h.waitingAt[i])
    {
      StillWaitsFor(h.log, Aired(n), d.queuedTotal, d.waiting[i], h.waitingAt[i]);
    }
  }

  lemma DrawnKeepsPlaced(d: Deck, h: Story, n: nat)
    requires PlacedRight(d.placed, h)
    ensures PlacedRight(d.placed, DrawnStory(d, h, n))
  {
    forall j | 0 <= j < |h.placedAt|
      ensures FirstAfter(h.log + [Aired(n)], h.placedAt[j]) == FirstAfter(h.log, h.placedAt[j])
    {
      LogGrows(h.log, Aired(n), h.placedAt[j]);
    }
  }

  lemma DrawnInOrder(d: Deck, h: Story, n: nat)
    requires Counted(d, h.log) && AiredInOrder(h.aired, |Queued(h.log)| - |d.line|)
    ensures AiredInOrder(DrawnStory(d, h, n).aired, |Queued(h.log)| - |Drawn(d, n).line|)
  {
  }

  lemma DrawnLosesNone(d: Deck, h: Story, n: nat)
    requires Coherent(d, h)
    ensures NoneLost(DrawnStory(d, h, n))
  {
    var drawn := DrawnStory(d, h, n);
    forall i: nat | SaysTag(drawn.log, i) ensures AccountedFor(drawn, i) {
      assert SaysTag(h.log, i);
      if ClearedAway(h, i) { ClearedStays(h, i, drawn, Aired(n), |Queued(h.log)| - |d.line|); }
    }
  }

  /** The first waiting account, its sample gone, goes to the placed ones. */
  function PlacedOne(d: Deck, start: nat, before: int): Deck
    requires d.waiting != []
  {
    var late := d.waiting[0].offset - before;
    var at := start + if late > 0 then late else 0;
    d.(waiting := d.waiting[1..], placed := d.placed + [Transmission(at, d.waiting[0].account)])
  }

  function PlacedOneStory(h: Story): Story
    requires h.waitingAt != []
  {
    h.(waitingAt := h.waitingAt[1..], placedAt := h.placedAt + [h.waitingAt[0]])
  }

  lemma PlacingOne(d: Deck, h: Story, start: nat, before: int)
    requires Placing(d, h, start, before)
    requires d.waiting != [] && d.waiting[0].offset < d.consumed
    ensures Placing(PlacedOne(d, start, before), PlacedOneStory(h), start, before)
  {
    PlacedOneRight(d, h, start, before);
    OneLessWaiting(d, h, start, before);
    PlacedOneLosesNone(h);
    PlacedOneIsUnbroken(h, |Queued(h.log)| - |d.line|, d.consumed);
  }

  lemma PlacedOneIsUnbroken(h: Story, gone: int, consumed: int)
    requires Unbroken(h, gone, consumed) && h.waitingAt != []
    ensures Unbroken(PlacedOneStory(h), gone, consumed)
  {
    var one := PlacedOneStory(h);
    forall i: nat, a: nat ensures IdleOnlyWhenEmpty(one, i, a) {
      assert IdleOnlyWhenEmpty(h, i, a);
      if MadeIn(one, i, a) && one.aired[a].Idle? {
        forall id: nat | id < FirstAfter(one.log, i) ensures WentOrCleared(one, id, a, i) {
          assert WentOrCleared(h, id, a, i);
        }
      }
    }
    forall id: nat | id < gone ensures WentOrCleared(one, id, |one.aired|, |one.log|) {
      assert WentOrCleared(h, id, |h.aired|, |h.log|);
    }
  }

  lemma PlacedOneRight(d: Deck, h: Story, start: nat, before: int)
    requires WaitingRight(d, h, before) && PlacedRight(d.placed, h) && JustAired(d, h, start, before)
    requires d.waiting != [] && d.waiting[0].offset < d.consumed
    ensures PlacedRight(PlacedOne(d, start, before).placed, PlacedOneStory(h))
  {
    var at := start + (d.waiting[0].offset - before);
    assert h.aired[at].Carries?;
  }

  lemma OneLessWaiting(d: Deck, h: Story, start: nat, before: int)
    requires WaitingRight(d, h, before) && d.waiting != []
    ensures WaitingRight(PlacedOne(d, start, before), PlacedOneStory(h), before)
  {
  }

  lemma PlacedOneLosesNone(h: Story)
    requires NoneLost(h) && h.waitingAt != []
    ensures NoneLost(PlacedOneStory(h))
  {
    var one := PlacedOneStory(h);
    assert one.placedAt + one.waitingAt == h.placedAt + h.waitingAt;
    forall i: nat | SaysTag(one.log, i) ensures AccountedFor(one, i) {
      assert AccountedFor(h, i);
      if ClearedAway(h, i) {
        var c: nat :| ClearedBy(h, i, c);
        assert ClearedBy(one, i, c);
      } else {
        assert i in h.placedAt + h.waitingAt;
        assert i in one.placedAt + one.waitingAt;
      }
    }
  }

  /** Every waiting account whose sample has gone, placed. */
  function PlacedAll(d: Deck, start: nat, before: int): Deck
    decreases |d.waiting|
  {
    if d.waiting == [] || d.waiting[0].offset >= d.consumed then d
    else PlacedAll(PlacedOne(d, start, before), start, before)
  }

  function PlacedAllStory(d: Deck, h: Story, start: nat, before: int): Story
    decreases |d.waiting|
  {
    if d.waiting == [] || d.waiting[0].offset >= d.consumed || h.waitingAt == [] then h
    else PlacedAllStory(PlacedOne(d, start, before), PlacedOneStory(h), start, before)
  }

  lemma AllPlaced(d: Deck, h: Story, start: nat, before: int)
    requires Placing(d, h, start, before)
    requires d.waiting != [] ==> d.waiting[0].offset >= d.consumed
    ensures Coherent(d, h)
  {
  }

  lemma {:induction false} PlacedAllIsCoherent(d: Deck, h: Story, start: nat, before: int)
    requires Placing(d, h, start, before)
    ensures Coherent(PlacedAll(d, start, before), PlacedAllStory(d, h, start, before))
    decreases |d.waiting|
  {
    if d.waiting == [] || d.waiting[0].offset >= d.consumed {
      AllPlaced(d, h, start, before);
    } else {
      PlacingOne(d, h, start, before);
      PlacedAllIsCoherent(PlacedOne(d, start, before), PlacedOneStory(h), start, before);
    }
  }

  /** Placing moves accounts from waiting to placed, in order, and changes nothing else. */
  lemma {:induction false} PlacedAllMoves(d: Deck, h: Story, start: nat, before: int)
    ensures var all := PlacedAllStory(d, h, start, before);
            && all.log == h.log && all.aired == h.aired
            && all.placedAt + all.waitingAt == h.placedAt + h.waitingAt
    decreases |d.waiting|
  {
    if d.waiting != [] && d.waiting[0].offset < d.consumed && h.waitingAt != [] {
      assert PlacedOneStory(h).placedAt + PlacedOneStory(h).waitingAt == h.placedAt + h.waitingAt;
      PlacedAllMoves(PlacedOne(d, start, before), PlacedOneStory(h), start, before);
    }
  }

  // ---- the air itself ----

  /** What an air sample carries. */
  function SampleOf(ever: seq<Word>, slot: Slot): Word {
    if slot.Carries? && slot.id < |ever| then ever[slot.id] else SILENT
  }

  /** Everything that has gone, or is about to go, on the air. */
  function OnAir(h: Story): (s: seq<Word>)
    ensures |s| == |h.aired|
  {
    var ever := Queued(h.log);
    seq(|h.aired|, i requires 0 <= i < |h.aired| => SampleOf(ever, h.aired[i]))
  }

  lemma ToldKeepsAir(d: Deck, h: Story, m: Message)
    requires Coherent(d, h)
    ensures OnAir(ToldStory(h, m)) == OnAir(h)
  {
    QueuedGrows(h.log, Said(m));
  }

  lemma {:induction false} ToldAllKeepsAir(d: Deck, h: Story, ms: seq<Message>)
    requires Coherent(d, h)
    ensures OnAir(ToldAllStory(h, ms)) == OnAir(h)
    ensures ToldAllStory(h, ms).aired == h.aired
  {
    if ms != [] {
      var n := |ms| - 1;
      ToldAllKeeps(d, h, ms[..n]);
      ToldAllKeepsAir(d, h, ms[..n]);
      ToldKeepsAir(ToldAll(d, ms[..n]), ToldAllStory(h, ms[..n]), ms[n]);
    }
  }

  /** What `take` gives: the head of the queue, then silence. */
  function Played(line: seq<Word>, n: nat): (s: seq<Word>)
    ensures |s| == n
  {
    seq(n, i requires 0 <= i < n => if i < |line| then line[i] else SILENT)
  }

  lemma DrawnGoesOnAir(d: Deck, h: Story, n: nat)
    requires Coherent(d, h)
    ensures OnAir(DrawnStory(d, h, n)) == OnAir(h) + Played(d.line, n)
  {
    QueuedGrows(h.log, Aired(n));
    var ever, k := Queued(h.log), if n < |d.line| then n else |d.line|;
    forall j: nat | j < k ensures d.line[j] == ever[|ever| - |d.line| + j] {
      var same := Matches(ever, d.line, j);
    }
  }

  /** The air is the playback stream's samples and, between them, zeros. */
  lemma AirCarries(d: Deck, h: Story, a: nat)
    requires Coherent(d, h) && a < |h.aired|
    ensures h.aired[a].Idle? ==> OnAir(h)[a] == 0
    ensures h.aired[a].Carries? ==>
              h.aired[a].id < |Queued(h.log)| && OnAir(h)[a] == Queued(h.log)[h.aired[a].id]
  {
  }

  /** An idle air sample: everything queued by its tick went on the air before it, or was cleared. */
  lemma SilenceIsEarned(d: Deck, h: Story, i: nat, a: nat, id: nat)
    requires Coherent(d, h) && MadeIn(h, i, a) && h.aired[a].Idle? && id < FirstAfter(h.log, i)
    ensures (exists b: nat | b < a :: h.aired[b] == Carries(id))
            || exists c: nat | c < i :: h.log[c] == Said(Clear) && id < FirstAfter(h.log, c)
  {
    assert IdleOnlyWhenEmpty(h, i, a);
    assert WentOrCleared(h, id, a, i);
  }

  /** An account placed is on time: it stands at the air sample that carries the first sample queued
      after its tag, and nothing queued later is on the air before it. */
  lemma AccountIsOnTime(d: Deck, h: Story, j: nat)
    requires Coherent(d, h) && j < |d.placed|
    ensures IsTag(h.log, h.placedAt[j], d.placed[j].account)
    ensures var at, first := d.placed[j].at, FirstAfter(h.log, h.placedAt[j]);
            && 0 <= at < |h.aired| && h.aired[at] == Carries(first)
            && first < |Queued(h.log)| && OnAir(h)[at] == Queued(h.log)[first]
            && forall a | 0 <= a < at && h.aired[a].Carries? :: h.aired[a].id < first
  {
  }

  /** Every tag ever sent is accounted for: placed, still waiting for a sample that has not gone, or
      cleared away before its sample went, which then never goes. */
  lemma TagIsAccountedFor(d: Deck, h: Story, i: nat)
    requires Coherent(d, h) && SaysTag(h.log, i)
    ensures (exists j | 0 <= j < |d.placed| :: h.placedAt[j] == i)
            || (exists j | 0 <= j < |d.waiting| :: h.waitingAt[j] == i && d.waiting[j].offset >= d.consumed)
            || (exists c: nat | i < c < |h.log| && h.log[c] == Said(Clear) ::
                  FirstAfter(h.log, i) < FirstAfter(h.log, c) ==>
                    forall a | 0 <= a < |h.aired| :: h.aired[a] != Carries(FirstAfter(h.log, i)))
  {
    if i in h.placedAt {
      var j :| 0 <= j < |h.placedAt| && h.placedAt[j] == i;
    } else if i in h.waitingAt {
      var j :| 0 <= j < |h.waitingAt| && h.waitingAt[j] == i;
    } else {
      assert ClearedAway(h, i);
    }
  }

  // ---- what was said ----

  /** The messages among the steps, READYs included. */
  function Saids(log: seq<Step>): seq<Message> {
    if log == [] then []
    else Saids(log[..|log| - 1]) + if log[|log| - 1].Said? then [log[|log| - 1].message] else []
  }

  lemma SaidOneMore(log: seq<Step>, s: Step)
    ensures Saids(log + [s]) == Saids(log) + if s.Said? then [s.message] else []
  {
    assert (log + [s])[..|log|] == log;
  }

  // ---- a line between what goes in and what comes out ----

  ghost predicate OutAt<T>(whole: seq<T>, out: seq<T>, i: nat)
    requires i < |out| <= |whole|
  {
    whole[i] == out[i]
  }

  ghost predicate HeldAt<T>(whole: seq<T>, from: nat, held: seq<T>, j: nat)
    requires j < |held| && from + |held| <= |whole|
  {
    whole[from + j] == held[j]
  }

  /** Of everything that went in, `out` has come out and `held` is still in the line. */
  ghost predicate Line<T(!new)>(whole: seq<T>, out: seq<T>, held: seq<T>) {
    && |whole| == |out| + |held|
    && (forall i: nat {:trigger OutAt(whole, out, i)} | i < |out| :: OutAt(whole, out, i))
    && (forall j: nat {:trigger HeldAt(whole, |out|, held, j)} | j < |held| :: HeldAt(whole, |out|, held, j))
  }

  /** A block goes in at the end, and as many come out at the front. */
  lemma LineMoves<T(!new)>(whole: seq<T>, out: seq<T>, held: seq<T>, block: seq<T>)
    requires Line(whole, out, held)
    ensures Line(whole + block, out + (held + block)[..|block|], (held + block)[|block|..])
  {
    var all, n := whole + block, |block|;
    var outNow, heldNow := out + (held + block)[..n], (held + block)[n..];
    forall k: nat | |out| <= k < |all| ensures all[k] == (held + block)[k - |out|] {
      if k < |whole| { var same := HeldAt(whole, |out|, held, k - |out|); }
    }
    forall i: nat | i < |outNow| ensures OutAt(all, outNow, i) {
      if i < |out| { var same := OutAt(whole, out, i); }
    }
    forall j: nat | j < |heldNow| ensures HeldAt(all, |outNow|, heldNow, j) {
      assert all[|outNow| + j] == (held + block)[n + j];
    }
  }
}
