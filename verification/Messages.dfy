/**
 What a station says to the channel server (tools/channel_server.py): the messages it writes to
 its socket, and the reading of them up to the READY that asks for its next block. An account
 travels as JSON; here it is its bytes.
 */
module Messages {
  import opened Bytes

  const PLAY: Byte := 2
  const READY: Byte := 3
  const CLEAR: Byte := 4
  const TAG: Byte := 5

  type Account = seq<Byte>

  datatype Message = Play(samples: seq<Word>) | Clear | Tag(account: Account) | Ready

  /** The message at the head of a stream. */
  datatype Parsed = Got(message: Message, rest: seq<Byte>) | Short | Unknown

  function Next(s: seq<Byte>): Parsed {
    if s == [] then Short
    else if s[0] == READY then Got(Ready, s[1..])
    else if s[0] == CLEAR then Got(Clear, s[1..])
    else if s[0] != PLAY && s[0] != TAG then Unknown
    else if |s| < 5 then Short
    else if s[0] == PLAY then PlayOf(s[5..], Unpacked(s[1..5]))
    else TagOf(s[5..], Unpacked(s[1..5]))
  }

  function PlayOf(s: seq<Byte>, n: nat): Parsed {
    if |s| < 4 * n then Short else Got(Play(UnpackedAll(s[..4 * n], n)), s[4 * n..])
  }

  function TagOf(s: seq<Byte>, n: nat): Parsed {
    if |s| < n then Short else Got(Tag(s[..n]), s[n..])
  }

  /** The rest of a PLAY or a TAG, after its kind. */
  function PlayIn(s: seq<Byte>): Parsed {
    if |s| < 4 then Short else PlayOf(s[4..], Unpacked(s[..4]))
  }

  function TagIn(s: seq<Byte>): Parsed {
    if |s| < 4 then Short else TagOf(s[4..], Unpacked(s[..4]))
  }

  lemma NextByKind(s: seq<Byte>)
    requires s != []
    ensures s[0] == PLAY ==> Next(s) == PlayIn(s[1..])
    ensures s[0] == TAG ==> Next(s) == TagIn(s[1..])
  {
    if |s| >= 5 {
      assert s[1..][..4] == s[1..5] && s[1..][4..] == s[5..];
    }
  }

  lemma NextIsShorter(s: seq<Byte>)
    ensures Next(s).Got? ==> |Next(s).rest| < |s|
  {
  }

  /** What is taken up to the READY and with it, and what then remains; or, when the stream ends or
      says something else first, what was taken before it broke. */
  datatype Outcome = Asked(taken: seq<Message>, rest: seq<Byte>) | Broken(taken: seq<Message>)

  function After(m: Message, o: Outcome): Outcome {
    match o
    case Asked(taken, rest) => Asked([m] + taken, rest)
    case Broken(taken) => Broken([m] + taken)
  }

  function AfterAll(ms: seq<Message>, o: Outcome): Outcome {
    match o
    case Asked(taken, rest) => Asked(ms + taken, rest)
    case Broken(taken) => Broken(ms + taken)
  }

  lemma AfterOneMore(ms: seq<Message>, m: Message, o: Outcome)
    ensures AfterAll(ms + [m], o) == AfterAll(ms, After(m, o))
  {
    match o
    case Asked(taken, rest) => assert ms + [m] + taken == ms + ([m] + taken);
    case Broken(taken) => assert ms + [m] + taken == ms + ([m] + taken);
  }

  lemma AfterNothing(ms: seq<Message>, rest: seq<Byte>)
    ensures AfterAll(ms, Asked([], rest)) == Asked(ms, rest)
    ensures AfterAll(ms, Broken([])) == Broken(ms)
  {
    assert ms + [] == ms;
  }

  /** Of the stream `s` so much has been taken: up to the READY and with it, or until it broke, or with
      `pending` still to come. */
  ghost predicate Reached(s: seq<Byte>, taken: seq<Message>, ok: bool, ready: bool, pending: seq<Byte>) {
    UntilReady(s) == AfterAll(taken, if !ok then Broken([]) else if ready then Asked([], pending) else UntilReady(pending))
  }

  lemma ReachedStart(s: seq<Byte>)
    ensures Reached(s, [], true, false, s)
  {
  }

  lemma ReachedMore(s: seq<Byte>, taken: seq<Message>, pending: seq<Byte>, later: seq<Byte>)
    requires Reached(s, taken, true, false, pending)
    ensures Next(pending).Got? ==>
              var m := Next(pending).message; Reached(s, taken + [m], true, m.Ready?, Next(pending).rest)
    ensures !Next(pending).Got? ==> Reached(s, taken, false, false, later)
  {
    if Next(pending).Got? {
      var m, rest := Next(pending).message, Next(pending).rest;
      AfterOneMore(taken, m, if m.Ready? then Asked([], rest) else UntilReady(rest));
    }
  }

  lemma ReachedEnd(s: seq<Byte>, taken: seq<Message>, ok: bool, pending: seq<Byte>)
    requires Reached(s, taken, ok, ok, pending)
    ensures UntilReady(s) == if ok then Asked(taken, pending) else Broken(taken)
  {
    AfterNothing(taken, pending);
  }

  function UntilReady(s: seq<Byte>): Outcome
    decreases |s|
  {
    match Next(s)
    case Got(m, rest) => NextIsShorter(s); if m.Ready? then Asked([m], rest) else After(m, UntilReady(rest))
    case Short => Broken([])
    case Unknown => Broken([])
  }

  // ---- the wire, there and back ----

  /** A count on the wire has four bytes. */
  predicate Fits(m: Message) {
    match m
    case Play(samples) => |samples| < 0x1_0000_0000
    case Clear => true
    case Tag(account) => |account| < 0x1_0000_0000
    case Ready => true
  }

  function Written(m: Message): seq<Byte>
    requires Fits(m)
  {
    match m
    case Play(samples) => [PLAY] + Packed(|samples|) + PackedAll(samples)
    case Clear => [CLEAR]
    case Tag(account) => [TAG] + Packed(|account|) + account
    case Ready => [READY]
  }

  /** The first byte of each, and how a count is written. */
  lemma WrittenBytes(w: Word, account: Account)
    requires |account| < 256
    ensures Written(Play([w])) == [2, 1, 0, 0, 0] + Packed(w)
    ensures Written(Ready) == [3] && Written(Clear) == [4]
    ensures Written(Tag(account)) == [5, |account|, 0, 0, 0] + account
  {
    var ws := [w];
    assert ws[1..] == [] && PackedAll(ws) == Packed(w) + PackedAll([]);
  }

  lemma NextOfWritten(m: Message, rest: seq<Byte>)
    requires Fits(m)
    ensures Next(Written(m) + rest) == Got(m, rest)
  {
    match m
    case Clear =>
    case Ready =>
    case Play(samples) => PlayOfWritten(samples, rest);
    case Tag(account) => TagOfWritten(account, rest);
  }

  /** The count after a message's kind, and what follows it. */
  lemma CountOf(kind: Byte, n: Word, body: seq<Byte>)
    ensures var s := [kind] + Packed(n) + body;
            |s| >= 5 && s[0] == kind && s[5..] == body && Unpacked(s[1..5]) == n
  {
    UnpackedPacked(n);
    assert ([kind] + Packed(n) + body)[1..5] == Packed(n);
  }

  lemma Regrouped<T>(a: seq<T>, b: seq<T>, c: seq<T>)
    ensures a + b + c == a + (b + c)
  {
  }

  lemma NextIsPlay(n: Word, body: seq<Byte>)
    ensures Next([PLAY] + Packed(n) + body) == PlayOf(body, n)
  {
    CountOf(PLAY, n, body);
  }

  lemma PlayOfPacked(samples: seq<Word>, rest: seq<Byte>)
    ensures PlayOf(PackedAll(samples) + rest, |samples|) == Got(Play(samples), rest)
  {
    UnpackedAllPacked(samples);
    assert (PackedAll(samples) + rest)[..4 * |samples|] == PackedAll(samples);
  }

  lemma PlayOfWritten(samples: seq<Word>, rest: seq<Byte>)
    requires |samples| < 0x1_0000_0000
    ensures Next([PLAY] + Packed(|samples|) + PackedAll(samples) + rest) == Got(Play(samples), rest)
  {
    var n: Word, bytes := |samples|, PackedAll(samples);
    PlayOfPacked(samples, rest);
    NextIsPlay(n, bytes + rest);
    Regrouped([PLAY] + Packed(n), bytes, rest);
  }

  lemma TagOfWritten(account: Account, rest: seq<Byte>)
    requires |account| < 0x1_0000_0000
    ensures Next([TAG] + Packed(|account|) + account + rest) == Got(Tag(account), rest)
  {
    CountOf(TAG, |account|, account + rest);
    Regrouped([TAG] + Packed(|account|), account, rest);
  }

  lemma WrittenOfNext(s: seq<Byte>)
    requires Next(s).Got?
    ensures Fits(Next(s).message) && s == Written(Next(s).message) + Next(s).rest
  {
    if s[0] != CLEAR && s[0] != READY {
      var n: Word, body := Unpacked(s[1..5]), s[5..];
      PackedUnpacked(s[1..5]);
      assert s == [s[0]] + Packed(n) + body;
      if s[0] == PLAY { PackedAllUnpacked(body[..4 * n], n); }
    }
  }

  ghost predicate FitsAll(ms: seq<Message>) {
    forall m <- ms :: Fits(m)
  }

  function WrittenAll(ms: seq<Message>): seq<Byte>
    requires FitsAll(ms)
  {
    if ms == [] then [] else Written(ms[0]) + WrittenAll(ms[1..])
  }

  lemma {:induction false} WrittenAllOneMore(ms: seq<Message>, m: Message)
    requires FitsAll(ms) && Fits(m)
    ensures FitsAll(ms + [m]) && WrittenAll(ms + [m]) == WrittenAll(ms) + Written(m)
  {
    assert FitsAll(ms + [m]);
    if ms != [] {
      assert (ms + [m])[1..] == ms[1..] + [m];
      WrittenAllOneMore(ms[1..], m);
    }
  }

  lemma SameFront(a: seq<Byte>, b: seq<Byte>, rest: seq<Byte>)
    requires a + rest == b + rest
    ensures a == b
  {
    assert a == (a + rest)[..|a|] && b == (b + rest)[..|b|];
  }

  /** One more message read off a stream adds what was written of it. */
  lemma ReadOneMore(ms: seq<Message>, pending: seq<Byte>, m: Message, rest: seq<Byte>, later: seq<Byte>)
    requires FitsAll(ms) && Next(pending) == Got(m, rest) && WrittenAll(ms) + pending == later + rest
    ensures FitsAll(ms + [m]) && WrittenAll(ms + [m]) == later
  {
    WrittenOfNext(pending);
    WrittenAllOneMore(ms, m);
    Regrouped(WrittenAll(ms), Written(m), rest);
    SameFront(WrittenAll(ms) + Written(m), later, rest);
  }

  /** Reading up to READY takes the messages written before it, and nothing after it. */
  lemma {:induction false} TakesWhatWasWritten(ms: seq<Message>, rest: seq<Byte>)
    requires FitsAll(ms) && forall m <- ms :: !m.Ready?
    ensures UntilReady(WrittenAll(ms) + [READY] + rest) == Asked(ms + [Ready], rest)
  {
    if ms == [] {
      assert ([READY] + rest)[1..] == rest;
    } else {
      var later := WrittenAll(ms[1..]) + [READY] + rest;
      AllRegrouped(Written(ms[0]), WrittenAll(ms[1..]), [READY], rest);
      TakesWhatWasWritten(ms[1..], rest);
      TakesOneMore(ms[0], later);
      Regrouped([ms[0]], ms[1..], [Ready]);
      assert [ms[0]] + ms[1..] == ms;
    }
  }

  lemma AllRegrouped(a: seq<Byte>, b: seq<Byte>, c: seq<Byte>, d: seq<Byte>)
    ensures a + b + c + d == a + (b + c + d)
  {
  }

  lemma TakesOneMore(m: Message, later: seq<Byte>)
    requires Fits(m) && !m.Ready?
    ensures UntilReady(Written(m) + later) == After(m, UntilReady(later))
  {
    NextOfWritten(m, later);
  }

  /** Messages up to a READY, and no further. */
  ghost predicate EndsInReady(ms: seq<Message>) {
    ms != [] && ms[|ms| - 1].Ready? && Readys(ms) == 1
  }

  ghost predicate SaysUpTo(ms: seq<Message>, s: seq<Byte>, rest: seq<Byte>) {
    FitsAll(ms) && EndsInReady(ms) && s == WrittenAll(ms) + rest
  }

  lemma SaysReady(s: seq<Byte>, rest: seq<Byte>)
    requires s == Written(Ready) + rest
    ensures SaysUpTo([Ready], s, rest)
  {
    assert WrittenAll([Ready]) == Written(Ready) + WrittenAll([]);
    ReadysOneMore([], Ready);
  }

  lemma WrittenFirst(m: Message, ms: seq<Message>)
    requires Fits(m) && FitsAll(ms)
    ensures FitsAll([m] + ms) && WrittenAll([m] + ms) == Written(m) + WrittenAll(ms)
  {
    assert ([m] + ms)[1..] == ms;
  }

  lemma SaysOneBefore(m: Message, ms: seq<Message>, later: seq<Byte>, rest: seq<Byte>)
    requires Fits(m) && !m.Ready? && SaysUpTo(ms, later, rest)
    ensures SaysUpTo([m] + ms, Written(m) + later, rest)
  {
    WrittenFirst(m, ms);
    Regrouped(Written(m), WrittenAll(ms), rest);
    ReadysOfOneBefore(m, ms);
  }

  /** And whenever it reaches a READY, that is what the stream was: the first READY ends it. */
  lemma {:induction false} WhatWasTakenWasWritten(s: seq<Byte>)
    requires UntilReady(s).Asked?
    ensures SaysUpTo(UntilReady(s).taken, s, UntilReady(s).rest)
    decreases |s|
  {
    var m, rest := Next(s).message, Next(s).rest;
    WrittenOfNext(s);
    if m.Ready? {
      SaysReady(s, rest);
    } else {
      NextIsShorter(s);
      WhatWasTakenWasWritten(rest);
      SaysOneBefore(m, UntilReady(rest).taken, rest, UntilReady(rest).rest);
    }
  }

  /** The READYs among messages. */
  function Readys(ms: seq<Message>): nat {
    if ms == [] then 0 else Readys(ms[..|ms| - 1]) + if ms[|ms| - 1].Ready? then 1 else 0
  }

  lemma ReadysOneMore(ms: seq<Message>, m: Message)
    ensures Readys(ms + [m]) == Readys(ms) + if m.Ready? then 1 else 0
  {
    assert (ms + [m])[..|ms|] == ms;
  }

  lemma {:induction false} ReadysOfOneBefore(m: Message, ms: seq<Message>)
    ensures Readys([m] + ms) == Readys(ms) + if m.Ready? then 1 else 0
  {
    if ms == [] {
      ReadysOneMore([], m);
    } else {
      var n := |ms| - 1;
      assert ([m] + ms)[..n + 1] == [m] + ms[..n];
      ReadysOfOneBefore(m, ms[..n]);
    }
  }

  /** Everything a stream says, up to where it ends or says something else. */
  function ReadAll(s: seq<Byte>): seq<Message>
    decreases |s|
  {
    match Next(s)
    case Got(m, rest) => NextIsShorter(s); [m] + ReadAll(rest)
    case Short => []
    case Unknown => []
  }

  /** Bytes can have been written as one list of messages only: what they read as. */
  lemma {:induction false} WrittenAllIsRead(ms: seq<Message>)
    requires FitsAll(ms)
    ensures ReadAll(WrittenAll(ms)) == ms
  {
    if ms != [] {
      NextOfWritten(ms[0], WrittenAll(ms[1..]));
      WrittenAllIsRead(ms[1..]);
    }
  }

  // ---- waiting for every READY owed ----

  /** The same for `n` READYs, one after another. */
  function UntilReadys(s: seq<Byte>, n: nat): Outcome
    decreases n
  {
    if n == 0 then Asked([], s)
    else
      match UntilReady(s)
      case Asked(taken, rest) => AfterAll(taken, UntilReadys(rest, n - 1))
      case Broken(taken) => Broken(taken)
  }

  /** Of the stream `s`, when `n` READYs are awaited, so much has been taken, with `left` still to come of
      what is pending. */
  ghost predicate Awaiting(s: seq<Byte>, n: nat, taken: seq<Message>, left: nat, pending: seq<Byte>) {
    UntilReadys(s, n) == AfterAll(taken, UntilReadys(pending, left))
  }

  lemma AwaitingStart(s: seq<Byte>, n: nat)
    ensures Awaiting(s, n, [], n, s)
  {
    match UntilReadys(s, n)
    case Asked(taken, _) => assert [] + taken == taken;
    case Broken(taken) => assert [] + taken == taken;
  }

  lemma AwaitingMore(s: seq<Byte>, n: nat, taken: seq<Message>, left: nat, pending: seq<Byte>)
    requires Awaiting(s, n, taken, left, pending) && left > 0
    ensures UntilReady(pending).Asked? ==>
              Awaiting(s, n, taken + UntilReady(pending).taken, left - 1, UntilReady(pending).rest)
    ensures UntilReady(pending).Broken? ==> UntilReadys(s, n) == Broken(taken + UntilReady(pending).taken)
  {
    var first := UntilReady(pending).taken;
    if UntilReady(pending).Asked? {
      match UntilReadys(UntilReady(pending).rest, left - 1)
      case Asked(more, _) => Regrouped(taken, first, more);
      case Broken(more) => Regrouped(taken, first, more);
    }
  }

  lemma AwaitingEnd(s: seq<Byte>, n: nat, taken: seq<Message>, pending: seq<Byte>)
    requires Awaiting(s, n, taken, 0, pending)
    ensures UntilReadys(s, n) == Asked(taken, pending)
  {
    AfterNothing(taken, pending);
  }

  lemma {:induction false} ReadysTogether(a: seq<Message>, b: seq<Message>)
    ensures Readys(a + b) == Readys(a) + Readys(b)
  {
    if b == [] {
      assert a + b == a;
    } else {
      var n := |b| - 1;
      assert (a + b)[..|a + b| - 1] == a + b[..n];
      ReadysTogether(a, b[..n]);
    }
  }

  /** Reading on after what was taken gives the rest of what a stream says. */
  lemma {:induction false} ReadAllByReady(s: seq<Byte>)
    ensures UntilReady(s).Asked? ==>
              ReadAll(s) == UntilReady(s).taken + ReadAll(UntilReady(s).rest) && Readys(UntilReady(s).taken) == 1
    ensures UntilReady(s).Broken? ==> ReadAll(s) == UntilReady(s).taken && Readys(ReadAll(s)) == 0
    decreases |s|
  {
    if Next(s).Got? {
      var m, rest := Next(s).message, Next(s).rest;
      NextIsShorter(s);
      if m.Ready? {
        ReadysOneMore([], m);
      } else {
        ReadAllByReady(rest);
        ReadysOfOneBefore(m, UntilReady(rest).taken);
        if UntilReady(rest).Asked? {
          Regrouped([m], UntilReady(rest).taken, ReadAll(UntilReady(rest).rest));
        }
      }
    }
  }

  /** A stream answers `n` times exactly when it says that many READYs before it ends or says something
      else. */
  lemma {:induction false} AnswersExactly(s: seq<Byte>, n: nat)
    ensures UntilReadys(s, n).Asked? <==> Readys(ReadAll(s)) >= n
    decreases n
  {
    if n > 0 {
      ReadAllByReady(s);
      if UntilReady(s).Asked? {
        ReadysTogether(UntilReady(s).taken, ReadAll(UntilReady(s).rest));
        AnswersExactly(UntilReady(s).rest, n - 1);
      }
    }
  }

  /** Written messages read as themselves, whatever follows. */
  lemma {:induction false} ReadAllOfWritten(ms: seq<Message>, s: seq<Byte>)
    requires FitsAll(ms)
    ensures ReadAll(WrittenAll(ms) + s) == ms + ReadAll(s)
  {
    if ms == [] {
      assert WrittenAll(ms) + s == s && ms + ReadAll(s) == ReadAll(s);
    } else {
      var later := WrittenAll(ms[1..]) + s;
      Regrouped(Written(ms[0]), WrittenAll(ms[1..]), s);
      ReadOneWritten(ms[0], later);
      ReadAllOfWritten(ms[1..], s);
      Regrouped([ms[0]], ms[1..], ReadAll(s));
      assert [ms[0]] + ms[1..] == ms;
    }
  }

  lemma ReadOneWritten(m: Message, later: seq<Byte>)
    requires Fits(m)
    ensures ReadAll(Written(m) + later) == [m] + ReadAll(later)
  {
    NextOfWritten(m, later);
  }

  /** Messages up to the `n`th READY, and no further. */
  ghost predicate SaysReadys(ms: seq<Message>, n: nat, s: seq<Byte>, rest: seq<Byte>) {
    && FitsAll(ms) && s == WrittenAll(ms) + rest && Readys(ms) == n
    && (if n == 0 then ms == [] else ms != [] && ms[|ms| - 1].Ready?)
  }

  /** What is taken is the stream up to its `n`th READY and no further. */
  lemma {:induction false} TakesUpToReadys(s: seq<Byte>, n: nat, taken: seq<Message>, rest: seq<Byte>)
    requires UntilReadys(s, n) == Asked(taken, rest)
    ensures SaysReadys(taken, n, s, rest)
    decreases n
  {
    if n == 0 {
      SaysNothing(s);
    } else {
      var first, later := UntilReady(s).taken, UntilReady(s).rest;
      WhatWasTakenWasWritten(s);
      var more := UntilReadys(later, n - 1).taken;
      TakesUpToReadys(later, n - 1, more, rest);
      SaysMore(first, more, n, s, later, rest);
    }
  }

  lemma SaysNothing(s: seq<Byte>)
    ensures SaysReadys([], 0, s, s)
  {
    assert WrittenAll([]) + s == s;
  }

  lemma SaysMore(first: seq<Message>, more: seq<Message>, n: nat, s: seq<Byte>, later: seq<Byte>, rest: seq<Byte>)
    requires n > 0 && SaysUpTo(first, s, later) && SaysReadys(more, n - 1, later, rest)
    ensures SaysReadys(first + more, n, s, rest)
  {
    WrittenTogether(first, more);
    ReadysTogether(first, more);
    Regrouped(WrittenAll(first), WrittenAll(more), rest);
  }

  lemma {:induction false} WrittenTogether(a: seq<Message>, b: seq<Message>)
    requires FitsAll(a) && FitsAll(b)
    ensures FitsAll(a + b) && WrittenAll(a + b) == WrittenAll(a) + WrittenAll(b)
    decreases |b|
  {
    if b == [] {
      assert a + b == a;
    } else {
      assert a + b == (a + [b[0]]) + b[1..];
      WrittenAllOneMore(a, b[0]);
      WrittenTogether(a + [b[0]], b[1..]);
      Regrouped(WrittenAll(a), Written(b[0]), WrittenAll(b[1..]));
    }
  }
}
