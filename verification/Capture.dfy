/**
 What a station is given to hear (tools/channel_server.py): blocks as they come, the pile after a
 stall with its oldest cut, and what its capture skipped. A station that reads gaps and skips can
 rebuild the air from it; this module says how exactly.
 */
module Capture {
  import opened Bytes
  import opened Options

  /** What a station has been sent, with silence where it was told audio is missing; what it was
      not yet told of skips; the blocks kept while it stalled; and what stalls and skips have cost. */
  datatype Intake<S> = Intake(stream: seq<Option<S>>, pending: nat, backlog: seq<S>, dropped: nat, skipped: nat)

  function Silence<S>(n: nat): (s: seq<Option<S>>)
    ensures |s| == n
  {
    seq(n, _ => None)
  }

  function Sounding<S>(samples: seq<S>): (s: seq<Option<S>>)
    ensures |s| == |samples|
  {
    seq(|samples|, i requires 0 <= i < |samples| => Some(samples[i]))
  }

  /** Python's `pile[-limit:]`: with nothing to keep it keeps everything. */
  function Newest<S>(pile: seq<S>, limit: int): seq<S> {
    if limit > 0 then (if limit <= |pile| then pile[|pile| - limit..] else pile)
    else if -limit <= |pile| then pile[-limit..]
    else []
  }

  /** How much a pile over the limit is said to have lost. */
  function Lost(n: nat, limit: int): nat {
    if n > limit then n - limit else 0
  }

  /** What is left of a pile over the limit. */
  function Cut<S>(pile: seq<S>, limit: int): seq<S> {
    if |pile| > limit then Newest(pile, limit) else pile
  }

  /** What is lost and what is left make up the pile exactly when the limit is positive. */
  lemma CutConserves<S>(pile: seq<S>, limit: int)
    requires pile != [] && |pile| > limit
    ensures |Cut(pile, limit)| + Lost(|pile|, limit) == |pile| <==> limit >= 1
  {
  }

  /** A block heard by a station that stands still. */
  function Kept<S>(i: Intake<S>, samples: seq<S>): Intake<S> {
    i.(backlog := i.backlog + samples)
  }

  /** What the daemon has announced it reads. */
  datatype Reads = Reads(gaps: bool, skips: bool)

  /** A block's first `k` samples, skipped. */
  function Skipping<S>(i: Intake<S>, k: nat): Intake<S> {
    i.(pending := i.pending + k, skipped := i.skipped + k)
  }

  /** A block heard, its first `k` samples skipped by the capture. */
  function Heard<S>(i: Intake<S>, samples: seq<S>, k: nat, limit: int, r: Reads): Intake<S>
    requires k <= |samples|
  {
    var skipping := Skipping(i, k);
    if k == |samples| then skipping else HandedOver(Announced(skipping, r), samples[k..], limit, r)
  }

  function Announced<S>(i: Intake<S>, r: Reads): Intake<S> {
    i.(stream := if r.skips then i.stream + Silence(i.pending) else i.stream, pending := 0)
  }

  /** The pile and the block, handed over. A block with no pile before it is not cut. */
  function HandedOver<S>(i: Intake<S>, block: seq<S>, limit: int, r: Reads): Intake<S> {
    if i.backlog == [] then i.(stream := i.stream + Sounding(block))
    else
      var pile := i.backlog + block;
      var lost := Lost(|pile|, limit);
      var gap := if r.gaps then Silence(lost) else [];
      i.(stream := i.stream + gap + Sounding(Cut(pile, limit)), backlog := [], dropped := i.dropped + lost)
  }

  // ---- the invariants ----

  /** The samples of a stream. */
  function Sounds<S>(stream: seq<Option<S>>): seq<S> {
    if stream == [] then []
    else
      var before := Sounds(stream[..|stream| - 1]);
      match stream[|stream| - 1]
      case None => before
      case Some(x) => before + [x]
  }

  /** Every sample heard is in the stream, in the backlog, skipped, or dropped after a stall; and
      the stream is longer than its samples by what it was told of. */
  ghost predicate Balanced<S>(i: Intake<S>, heard: nat, r: Reads) {
    && |Sounds(i.stream)| + |i.backlog| + i.skipped + i.dropped == heard
    && i.pending <= i.skipped
    && |i.stream| == |Sounds(i.stream)| + (if r.gaps then i.dropped else 0)
                     + (if r.skips then i.skipped - i.pending else 0)
  }

  /** A station that reads both is level with the air, but for the backlog and the untold skips. */
  lemma LevelWithTheAir<S>(i: Intake<S>, heard: nat, r: Reads)
    requires Balanced(i, heard, r) && r.gaps && r.skips
    ensures |i.stream| + |i.backlog| + i.pending == heard
  {
  }

  lemma {:induction false} SoundsAppend<S>(a: seq<Option<S>>, b: seq<Option<S>>)
    ensures Sounds(a + b) == Sounds(a) + Sounds(b)
  {
    if b == [] {
      assert a + b == a;
    } else {
      var n := |b| - 1;
      assert (a + b)[..|a + b| - 1] == a + b[..n];
      SoundsAppend(a, b[..n]);
    }
  }

  lemma {:induction false} SoundsOfSilence<S>(n: nat)
    ensures Sounds<S>(Silence(n)) == []
  {
    if n > 0 {
      assert Silence<S>(n)[..n - 1] == Silence<S>(n - 1);
      SoundsOfSilence<S>(n - 1);
    }
  }

  lemma {:induction false} SoundsOfSounding<S>(samples: seq<S>)
    ensures Sounds(Sounding(samples)) == samples
  {
    if samples != [] {
      var n := |samples| - 1;
      assert Sounding(samples)[..n] == Sounding(samples[..n]);
      SoundsOfSounding(samples[..n]);
    }
  }

  lemma AnnouncedSounds<S>(i: Intake<S>, r: Reads)
    ensures Sounds(Announced(i, r).stream) == Sounds(i.stream)
  {
    SoundsAppend(i.stream, Silence(i.pending));
    SoundsOfSilence<S>(i.pending);
  }

  lemma HandedOverSounds<S>(i: Intake<S>, block: seq<S>, limit: int, r: Reads)
    ensures Sounds(HandedOver(i, block, limit, r).stream)
            == Sounds(i.stream) + if i.backlog == [] then block else Cut(i.backlog + block, limit)
  {
    if i.backlog == [] {
      SoundsAppend(i.stream, Sounding(block));
      SoundsOfSounding(block);
    } else {
      var tail := Cut(i.backlog + block, limit);
      var lost := Lost(|i.backlog + block|, limit);
      var gap := if r.gaps then Silence<S>(lost) else [];
      SoundsAppend(i.stream + gap, Sounding(tail));
      SoundsAppend(i.stream, gap);
      SoundsOfSilence<S>(lost);
      SoundsOfSounding(tail);
    }
  }

  lemma AnnouncedKeepsBalance<S>(i: Intake<S>, heard: nat, r: Reads)
    requires Balanced(i, heard, r)
    ensures Balanced(Announced(i, r), heard, r)
  {
    AnnouncedSounds(i, r);
  }

  lemma HandedOverKeepsBalance<S>(i: Intake<S>, heard: nat, block: seq<S>, limit: int, r: Reads)
    requires Balanced(i, heard, r) && block != [] && limit >= 1
    ensures Balanced(HandedOver(i, block, limit, r), heard + |block|, r)
  {
    HandedOverSounds(i, block, limit, r);
    if i.backlog != [] && |i.backlog + block| > limit { CutConserves(i.backlog + block, limit); }
  }

  /** Every block keeps the balance, whatever is skipped and however long the stall: given a
      positive limit. */
  lemma HeardKeepsBalance<S>(i: Intake<S>, heard: nat, samples: seq<S>, k: nat, limit: int, r: Reads)
    requires Balanced(i, heard, r) && k <= |samples| && limit >= 1
    ensures Balanced(Heard(i, samples, k, limit, r), heard + |samples|, r)
  {
    var skipping := Skipping(i, k);
    assert Balanced(skipping, heard + k, r);
    if k < |samples| {
      AnnouncedKeepsBalance(skipping, heard + k, r);
      HandedOverKeepsBalance(Announced(skipping, r), heard + k, samples[k..], limit, r);
    }
  }

  /** Every block keeps the balance exactly when the limit keeps something or no pile is handed over
      with it. */
  lemma BalanceExactly<S>(i: Intake<S>, heard: nat, samples: seq<S>, k: nat, limit: int, r: Reads)
    requires Balanced(i, heard, r) && k <= |samples|
    ensures Balanced(Heard(i, samples, k, limit, r), heard + |samples|, r)
            <==> limit >= 1 || i.backlog == [] || k == |samples|
  {
    if limit >= 1 {
      HeardKeepsBalance(i, heard, samples, k, limit, r);
    } else if k < |samples| {
      HeardAccount(i, samples, k, limit, r);
      if i.backlog == [] {
        HandedOverSounds(Announced(Skipping(i, k), r), samples[k..], limit, r);
        AnnouncedSounds(Skipping(i, k), r);
      } else {
        CutConserves(i.backlog + samples[k..], limit);
      }
    }
  }

  /** All that is said to have become of what was heard. */
  function Account<S>(i: Intake<S>): nat {
    |Sounds(i.stream)| + |i.backlog| + i.skipped + i.dropped
  }

  /** A block adds itself to the account; a pile that loses more than it gives up adds more. */
  lemma HeardAccount<S>(i: Intake<S>, samples: seq<S>, k: nat, limit: int, r: Reads)
    requires k <= |samples|
    ensures var after, pile := Account(Heard(i, samples, k, limit, r)), i.backlog + samples[k..];
            if k == |samples| || i.backlog == [] then after == Account(i) + |samples|
            else after == Account(i) + |samples| - |pile| + Lost(|pile|, limit) + |Cut(pile, limit)|
  {
    if k < |samples| {
      AnnouncedSounds(Skipping(i, k), r);
      HandedOverSounds(Announced(Skipping(i, k), r), samples[k..], limit, r);
    }
  }

  // ---- in order, nothing twice ----

  ghost predicate Picks<S>(kept: seq<S>, heard: seq<S>, from: seq<nat>) {
    && |from| == |kept|
    && (forall a, b | 0 <= a < b < |from| :: from[a] < from[b])
    && forall a | 0 <= a < |from| :: from[a] < |heard| && kept[a] == heard[from[a]]
  }

  /** Some of what was heard, in its order. */
  ghost predicate Selected<S>(kept: seq<S>, heard: seq<S>) {
    exists from :: Picks(kept, heard, from)
  }

  lemma SelectedWithMore<S>(kept: seq<S>, heard: seq<S>, samples: seq<S>)
    requires Selected(kept, heard)
    ensures Selected(kept + samples, heard + samples)
  {
    var from :| Picks(kept, heard, from);
    var more := from + seq(|samples|, j => |heard| + j);
    assert Picks(kept + samples, heard + samples, more);
  }

  lemma SelectedFromMore<S>(kept: seq<S>, heard: seq<S>, samples: seq<S>)
    requires Selected(kept, heard)
    ensures Selected(kept, heard + samples)
  {
    var from :| Picks(kept, heard, from);
    assert Picks(kept, heard + samples, from);
  }

  lemma SelectedWithout<S>(a: seq<S>, b: seq<S>, c: seq<S>, heard: seq<S>)
    requires Selected(a + b + c, heard)
    ensures Selected(a + c, heard)
  {
    var from :| Picks(a + b + c, heard, from);
    assert Picks(a + c, heard, from[..|a|] + from[|a| + |b|..]);
  }

  /** What is sent, and then what waits, is always a selection of what was heard. */
  lemma HeardSelects<S>(i: Intake<S>, heard: seq<S>, samples: seq<S>, k: nat, limit: int, r: Reads)
    requires Selected(Sounds(i.stream) + i.backlog, heard) && k <= |samples|
    ensures var after := Heard(i, samples, k, limit, r);
            Selected(Sounds(after.stream) + after.backlog, heard + samples)
  {
    var before := Sounds(i.stream);
    if k == |samples| {
      SelectedFromMore(before + i.backlog, heard, samples);
    } else {
      var block := samples[k..];
      SelectedFromMore(before + i.backlog, heard, samples[..k]);
      SelectedWithMore(before + i.backlog, heard + samples[..k], block);
      assert heard + samples[..k] + block == heard + samples;
      AnnouncedSounds(Skipping(i, k), r);
      HandedOverSounds(Announced(Skipping(i, k), r), block, limit, r);
      CutSelects(before, i.backlog, block, limit, heard + samples);
      assert Heard(i, samples, k, limit, r).backlog == [];
      NothingWaits(Sounds(Heard(i, samples, k, limit, r).stream));
    }
  }

  lemma CutSelects<S>(before: seq<S>, backlog: seq<S>, block: seq<S>, limit: int, heard: seq<S>)
    requires Selected(before + backlog + block, heard)
    ensures Selected(before + (if backlog == [] then block else Cut(backlog + block, limit)), heard)
  {
    var pile := backlog + block;
    var left := if backlog == [] then block else Cut(pile, limit);
    var n: nat := |pile| - |left|;
    LeftIsTail(backlog, block, limit);
    SplitAround(before, backlog, block, n);
    SelectedWithout(before, pile[..n], pile[n..], heard);
  }

  lemma NothingWaits<S>(a: seq<S>)
    ensures a + [] == a
  {
  }

  lemma LeftIsTail<S>(backlog: seq<S>, block: seq<S>, limit: int)
    ensures var pile := backlog + block;
            var left := if backlog == [] then block else Cut(pile, limit);
            |left| <= |pile| && left == pile[|pile| - |left|..]
  {
  }

  lemma SplitAround<S>(a: seq<S>, b: seq<S>, c: seq<S>, n: nat)
    requires n <= |b + c|
    ensures a + b + c == a + (b + c)[..n] + (b + c)[n..]
  {
  }

  lemma KeptSelects<S>(i: Intake<S>, heard: seq<S>, samples: seq<S>)
    requires Selected(Sounds(i.stream) + i.backlog, heard)
    ensures Selected(Sounds(i.stream) + (i.backlog + samples), heard + samples)
  {
    SelectedWithMore(Sounds(i.stream) + i.backlog, heard, samples);
    assert Sounds(i.stream) + i.backlog + samples == Sounds(i.stream) + (i.backlog + samples);
  }

  // ---- each sample in its place ----

  const BOTH := Reads(true, true)

  /** Outside the places in doubt, the stream has the air's samples where the air had them. */
  ghost predicate Faithful<S>(stream: seq<Option<S>>, heard: seq<S>, doubt: set<nat>) {
    forall p: nat | p < |stream| && stream[p].Some? && p !in doubt ::
      p < |heard| && stream[p].value == heard[p]
  }

  /** Of a backlog, the last `settled` samples are what was last heard; the one before them, if there
      is one, was heard before its turn: samples were skipped after it. */
  ghost predicate Settles<S>(backlog: seq<S>, heard: seq<S>, settled: nat) {
    && settled <= |backlog| <= |heard|
    && (forall q | |backlog| - settled <= q < |backlog| :: backlog[q] == heard[|heard| - |backlog| + q])
    && (settled < |backlog| ==>
          IsEarly(backlog[|backlog| - settled - 1], heard, |heard| - settled - 1))
  }

  ghost predicate IsEarly<S>(x: S, heard: seq<S>, turn: nat) {
    exists j | 0 <= j < turn && j < |heard| :: heard[j] == x
  }

  /** The station is level with the air; nothing is in doubt that is still to come; and the last
      `settled` samples of its backlog are in their turn. */
  ghost predicate Exact<S>(i: Intake<S>, heard: seq<S>, settled: nat, doubt: set<nat>) {
    && |i.stream| + i.pending + |i.backlog| == |heard|
    && (forall p <- doubt :: p < |i.stream|)
    && Faithful(i.stream, heard, doubt)
    && Settles(i.backlog, heard, settled)
  }

  /** A skip unsettles all that waits: it will be told of ahead of it. */
  function Unsettled(settled: nat, k: nat): nat {
    if k > 0 then 0 else settled
  }

  lemma EarlyStays<S>(x: S, heard: seq<S>, turn: nat, more: seq<S>, later: nat)
    requires IsEarly(x, heard, turn) && turn <= later
    ensures IsEarly(x, heard + more, later)
  {
    var j :| 0 <= j < turn && j < |heard| && heard[j] == x;
    assert (heard + more)[j] == x;
  }

  lemma SettlesWithMore<S>(backlog: seq<S>, heard: seq<S>, settled: nat, samples: seq<S>)
    requires Settles(backlog, heard, settled)
    ensures Settles(backlog + samples, heard + samples, settled + |samples|)
  {
    if settled < |backlog| {
      var turn := |heard| - settled - 1;
      EarlyStays(backlog[|backlog| - settled - 1], heard, turn, samples, turn);
    }
  }

  lemma SettlesWithSkip<S>(backlog: seq<S>, heard: seq<S>, settled: nat, skipped: seq<S>)
    requires Settles(backlog, heard, settled)
    ensures Settles(backlog, heard + skipped, Unsettled(if backlog == [] then 0 else settled, |skipped|))
  {
    if skipped == [] {
      assert heard + skipped == heard;
    } else if backlog != [] {
      var last := backlog[|backlog| - 1];
      if settled == 0 {
        EarlyStays(last, heard, |heard| - 1, skipped, |heard + skipped| - 1);
      } else {
        assert (heard + skipped)[|heard| - 1] == last;
      }
    }
  }

  predicate Within(a: int, p: nat, b: int) {
    a <= p < b
  }

  function Span(a: int, b: int): set<nat> {
    set p: nat | p < b && Within(a, p, b)
  }

  lemma SkippingIsExact<S>(i: Intake<S>, heard: seq<S>, skipped: seq<S>, settled: nat, doubt: set<nat>)
    requires Exact(i, heard, settled, doubt)
    ensures Exact(Skipping(i, |skipped|), heard + skipped, Unsettled(settled, |skipped|), doubt)
  {
    SettlesWithSkip(i.backlog, heard, settled, skipped);
  }

  lemma AnnouncedIsExact<S>(i: Intake<S>, heard: seq<S>, settled: nat, doubt: set<nat>)
    requires Exact(i, heard, settled, doubt)
    ensures Exact(Announced(i, BOTH), heard, settled, doubt)
  {
  }

  /** What a hand-over puts on the stream ends where the air does. */
  lemma HandedOverLength<S>(i: Intake<S>, block: seq<S>, limit: int)
    requires limit >= 1 && block != []
    ensures var after := HandedOver(i, block, limit, BOTH);
            && |after.stream| == |i.stream| + |i.backlog + block|
            && after.stream[..|i.stream|] == i.stream
  {
  }

  lemma HandedOverAt<S>(i: Intake<S>, block: seq<S>, limit: int, q: nat)
    requires limit >= 1 && block != [] && q < |i.backlog + block|
    ensures var after, pile := HandedOver(i, block, limit, BOTH), i.backlog + block;
            && |i.stream| + q < |after.stream|
            && after.stream[|i.stream| + q]
               == if i.backlog != [] && q < |pile| - limit then None else Some(pile[q])
  {
  }

  /** The places a hand-over puts in doubt: of what it sends, all ahead of the settled. */
  function Doubted(start: int, air: int, limit: int, tail: int): set<nat> {
    Span(if start > air - limit then start else air - limit, air - tail)
  }

  lemma InTurn<S>(backlog: seq<S>, heard: seq<S>, settled: nat, block: seq<S>, q: nat)
    requires Settles(backlog, heard, settled) && |backlog| - settled <= q < |backlog + block|
    ensures (backlog + block)[q] == (heard + block)[|heard| - |backlog| + q]
  {
    SettlesWithMore(backlog, heard, settled, block);
  }

  lemma HandedOverIsFaithful<S>(i: Intake<S>, heard: seq<S>, block: seq<S>, limit: int, settled: nat, doubt: set<nat>,
                                p: nat)
    requires Exact(i, heard, settled, doubt) && i.pending == 0 && block != [] && limit >= 1
    requires var after := HandedOver(i, block, limit, BOTH);
             |i.stream| <= p < |after.stream| && after.stream[p].Some?
    requires p !in Doubted(|i.stream|, |heard + block|, limit, settled + |block|)
    ensures p < |heard + block| && HandedOver(i, block, limit, BOTH).stream[p].value == (heard + block)[p]
  {
    var q: nat := p - |i.stream|;
    HandedOverLength(i, block, limit);
    HandedOverAt(i, block, limit, q);
    NotDoubted(|i.stream|, |heard + block|, limit, settled + |block|, p);
    assert q >= |i.backlog| - settled;
    InTurn(i.backlog, heard, settled, block, q);
    assert p == |heard| - |i.backlog| + q;
  }

  lemma NotDoubted(start: nat, air: nat, limit: int, tail: int, p: nat)
    requires start <= p < air && p !in Doubted(start, air, limit, tail)
    ensures p >= air - tail || p < air - limit
  {
    var from := if start > air - limit then start else air - limit;
    assert !Within(from, p, air - tail);
  }

  lemma HandedOverIsExact<S>(i: Intake<S>, heard: seq<S>, block: seq<S>, limit: int, settled: nat, doubt: set<nat>)
    requires Exact(i, heard, settled, doubt) && i.pending == 0 && block != [] && limit >= 1
    ensures Exact(HandedOver(i, block, limit, BOTH), heard + block, 0,
                  doubt + Doubted(|i.stream|, |heard + block|, limit, settled + |block|))
  {
    var after := HandedOver(i, block, limit, BOTH);
    var doubted := doubt + Doubted(|i.stream|, |heard + block|, limit, settled + |block|);
    HandedOverLength(i, block, limit);
    forall p: nat | p < |after.stream| && after.stream[p].Some? && p !in doubted
      ensures p < |heard + block| && after.stream[p].value == (heard + block)[p]
    {
      if p < |i.stream| {
        assert after.stream[..|i.stream|][p] == i.stream[p];
      } else {
        HandedOverIsFaithful(i, heard, block, limit, settled, doubt, p);
      }
    }
  }

  /** Every block leaves the station exact: a skip behind a backlog puts in doubt only what the
      hand-over it is told of with then sends of that backlog. */
  lemma HeardIsExact<S>(i: Intake<S>, heard: seq<S>, samples: seq<S>, k: nat, limit: int, settled: nat, doubt: set<nat>)
    requires Exact(i, heard, settled, doubt) && k <= |samples| && limit >= 1
    ensures Exact(Heard(i, samples, k, limit, BOTH), heard + samples, SettledAfter(settled, |samples|, k),
                  DoubtAfter(i, |heard + samples|, |samples|, k, limit, settled, doubt))
  {
    if k == |samples| {
      SkippingIsExact(i, heard, samples, settled, doubt);
    } else {
      assert samples == samples[..k] + samples[k..];
      Joined(heard, samples[..k], samples[k..]);
      GivenIsExact(i, heard, samples[..k], samples[k..], k, limit, settled, doubt, heard + samples);
    }
  }

  lemma GivenIsExact<S>(i: Intake<S>, heard: seq<S>, skipped: seq<S>, block: seq<S>, k: nat, limit: int, settled: nat,
                        doubt: set<nat>, whole: seq<S>)
    requires Exact(i, heard, settled, doubt) && block != [] && limit >= 1
    requires |skipped| == k && whole == heard + skipped + block
    ensures Exact(HandedOver(Announced(Skipping(i, k), BOTH), block, limit, BOTH), whole, 0,
                  doubt + Doubted(|i.stream| + i.pending + k, |whole|, limit, Unsettled(settled, k) + |block|))
  {
    SkippingIsExact(i, heard, skipped, settled, doubt);
    AnnouncedIsExact(Skipping(i, k), heard + skipped, Unsettled(settled, k), doubt);
    HandedOverIsExact(Announced(Skipping(i, k), BOTH), heard + skipped, block, limit, Unsettled(settled, k), doubt);
  }

  lemma Joined<S>(a: seq<S>, b: seq<S>, c: seq<S>)
    ensures a + b + c == a + (b + c)
  {
  }

  function SettledAfter(settled: nat, n: nat, k: nat): nat {
    if k < n then 0 else Unsettled(settled, k)
  }

  function DoubtAfter<S>(i: Intake<S>, air: nat, n: nat, k: nat, limit: int, settled: nat, doubt: set<nat>): set<nat> {
    if k < n then doubt + Doubted(|i.stream| + i.pending + k, air, limit, Unsettled(settled, k) + n - k)
    else doubt
  }

  ghost predicate Apart<S>(s: seq<S>) {
    forall a, b | 0 <= a < b < |s| :: s[a] != s[b]
  }

  /** A block of `n` puts nothing out of its place: it is skipped whole, or hands over nothing that
      waited while samples behind it were skipped. */
  predicate InPlace<S>(i: Intake<S>, settled: nat, n: nat, k: nat, limit: int)
    requires k <= n
  {
    k == n || Unsettled(settled, k) == |i.backlog| || Unsettled(settled, k) + n - k >= limit
  }

  lemma NothingDoubted<S>(i: Intake<S>, heard: nat, n: nat, k: nat, limit: int, settled: nat, doubt: set<nat>)
    requires |i.stream| + i.pending + |i.backlog| == heard && k <= n && InPlace(i, settled, n, k, limit)
    ensures DoubtAfter(i, heard + n, n, k, limit, settled, doubt) == doubt
  {
  }

  /** From whatever state a run leaves, a block is faithful exactly when it puts nothing out of its
      place. (The samples are told apart.) */
  lemma FaithfulInPlace<S>(i: Intake<S>, heard: seq<S>, samples: seq<S>, k: nat, limit: int, settled: nat, doubt: set<nat>)
    requires Exact(i, heard, settled, doubt) && k <= |samples| && limit >= 1
    ensures InPlace(i, settled, |samples|, k, limit) ==>
              Faithful(Heard(i, samples, k, limit, BOTH).stream, heard + samples, doubt)
    ensures Apart(heard + samples) && Faithful(Heard(i, samples, k, limit, BOTH).stream, heard + samples, doubt) ==>
              InPlace(i, settled, |samples|, k, limit)
  {
    if InPlace(i, settled, |samples|, k, limit) {
      HeardIsExact(i, heard, samples, k, limit, settled, doubt);
      NothingDoubted(i, |heard|, |samples|, k, limit, settled, doubt);
    } else if Apart(heard + samples) {
      LateSkipMisplaces(i, heard, samples, k, limit, settled, doubt);
    }
  }

  /** What waited when samples behind it were skipped is handed over that much too late. */
  lemma LateSkipMisplaces<S>(i: Intake<S>, heard: seq<S>, samples: seq<S>, k: nat, limit: int, settled: nat, doubt: set<nat>)
    requires Exact(i, heard, settled, doubt) && k <= |samples| && limit >= 1
    requires !InPlace(i, settled, |samples|, k, limit) && Apart(heard + samples)
    ensures !Faithful(Heard(i, samples, k, limit, BOTH).stream, heard + samples, doubt)
  {
    var told, block := Announced(Skipping(i, k), BOTH), samples[k..];
    var still := Unsettled(settled, k);
    SkippingIsExact(i, heard, samples[..k], settled, doubt);
    var q: nat := |i.backlog| - still - 1;
    HandedOverAt(told, block, limit, q);
    var whole := heard + samples;
    EarlyStays(i.backlog[q], heard + samples[..k], |heard| + k - still - 1, samples[k..], |heard| + k - still - 1);
    assert heard + samples[..k] + samples[k..] == whole;
    assert whole[|told.stream| + q] != i.backlog[q];
  }

  // ---- any run ----

  /** A block heard standing still, or listening, its first `k` samples skipped. */
  datatype Event<S> = Stands(samples: seq<S>) | Listens(samples: seq<S>, k: nat)

  predicate Possible<S>(events: seq<Event<S>>) {
    forall n | 0 <= n < |events| && events[n].Listens? :: events[n].k <= |events[n].samples|
  }

  /** All that was heard. */
  function AirOf<S>(events: seq<Event<S>>): seq<S> {
    if events == [] then [] else AirOf(events[..|events| - 1]) + events[|events| - 1].samples
  }

  function IntakeOf<S>(events: seq<Event<S>>, limit: int, r: Reads): Intake<S>
    requires Possible(events)
  {
    if events == [] then Intake([], 0, [], 0, 0)
    else
      var before := IntakeOf(events[..|events| - 1], limit, r);
      match events[|events| - 1]
      case Stands(samples) => Kept(before, samples)
      case Listens(samples, k) => Heard(before, samples, k, limit, r)
  }

  /** How much waits at the end of a run with nothing skipped behind it. */
  function SettledOf<S>(events: seq<Event<S>>): nat
    requires Possible(events)
  {
    if events == [] then 0
    else
      var before := SettledOf(events[..|events| - 1]);
      match events[|events| - 1]
      case Stands(samples) => before + |samples|
      case Listens(samples, k) => SettledAfter(before, |samples|, k)
  }

  function DoubtOf<S>(events: seq<Event<S>>, limit: int): set<nat>
    requires Possible(events)
  {
    if events == [] then {}
    else
      var n := |events| - 1;
      var before := DoubtOf(events[..n], limit);
      match events[n]
      case Stands(_) => before
      case Listens(samples, k) =>
        DoubtAfter(IntakeOf(events[..n], limit, BOTH), |AirOf(events)|, |samples|, k, limit, SettledOf(events[..n]), before)
  }

  /** Whatever the stalls and the skips, nothing is lost but what they cost, and nothing is given
      twice or out of order. */
  lemma {:induction false} RunIsBalanced<S>(events: seq<Event<S>>, limit: int, r: Reads)
    requires Possible(events)
    ensures limit >= 1 ==> Balanced(IntakeOf(events, limit, r), |AirOf(events)|, r)
    ensures var i := IntakeOf(events, limit, r); Selected(Sounds(i.stream) + i.backlog, AirOf(events))
  {
    if events == [] {
      assert Picks(Sounds<S>([]) + [], [], []);
    } else {
      var n := |events| - 1;
      var before, air := IntakeOf(events[..n], limit, r), AirOf(events[..n]);
      RunIsBalanced(events[..n], limit, r);
      match events[n]
      case Stands(samples) => KeptSelects(before, air, samples);
      case Listens(samples, k) =>
        HeardSelects(before, air, samples, k, limit, r);
        if limit >= 1 { HeardKeepsBalance(before, |air|, samples, k, limit, r); }
    }
  }

  /** No block is handed over behind a pile. */
  ghost predicate NoPile<S>(events: seq<Event<S>>, limit: int, r: Reads)
    requires Possible(events)
  {
    forall n | 0 <= n < |events| && events[n].Listens? && events[n].k < |events[n].samples| ::
      IntakeOf(events[..n], limit, r).backlog == []
  }

  /** A run is balanced exactly when the limit keeps something or no pile is ever handed over. */
  lemma RunBalancedExactly<S>(events: seq<Event<S>>, limit: int, r: Reads)
    requires Possible(events)
    ensures Balanced(IntakeOf(events, limit, r), |AirOf(events)|, r) <==> limit >= 1 || NoPile(events, limit, r)
  {
    if limit >= 1 { RunIsBalanced(events, limit, r); } else { RunWithNoLimit(events, limit, r); }
  }

  /** With no limit to speak of, a pile once handed over leaves more accounted for than was heard. */
  lemma {:induction false} RunWithNoLimit<S>(events: seq<Event<S>>, limit: int, r: Reads)
    requires Possible(events) && limit < 1
    ensures var i := IntakeOf(events, limit, r);
            if NoPile(events, limit, r) then Balanced(i, |AirOf(events)|, r) else Account(i) > |AirOf(events)|
  {
    if events != [] {
      var n := |events| - 1;
      var before, air := IntakeOf(events[..n], limit, r), AirOf(events[..n]);
      RunWithNoLimit(events[..n], limit, r);
      NoPileBefore(events, limit, r);
      if events[n].Listens? {
        var samples, k := events[n].samples, events[n].k;
        HeardAccount(before, samples, k, limit, r);
        if NoPile(events[..n], limit, r) { BalanceExactly(before, |air|, samples, k, limit, r); }
      }
    }
  }

  lemma NoPileBefore<S>(events: seq<Event<S>>, limit: int, r: Reads)
    requires Possible(events) && events != []
    ensures var n := |events| - 1;
            NoPile(events, limit, r) <==>
              NoPile(events[..n], limit, r)
              && (events[n].Listens? && events[n].k < |events[n].samples| ==>
                    IntakeOf(events[..n], limit, r).backlog == [])
  {
    forall m | 0 <= m < |events| ensures m < |events| - 1 ==> events[..|events| - 1][..m] == events[..m] {
    }
  }

  /** A backlog of nothing loses the balance at its first pile: one sample waits, two are sent and one
      is said to be dropped. */
  lemma NoLimitLosesBalance(x: Word, y: Word, r: Reads)
    ensures var events := [Stands([x]), Listens([y], 0)];
            Possible(events) && !Balanced(IntakeOf(events, 0, r), |AirOf(events)|, r)
  {
    var events := [Stands([x]), Listens([y], 0)];
    assert events[..1] == [Stands([x])] && events[..1][..0] == [];
    assert IntakeOf(events[..1], 0, r).backlog == [x];
    RunBalancedExactly(events, 0, r);
  }

  /** After any run every sample is in its place but those in doubt. */
  lemma {:induction false} RunIsExact<S>(events: seq<Event<S>>, limit: int)
    requires Possible(events) && limit >= 1
    ensures Exact(IntakeOf(events, limit, BOTH), AirOf(events), SettledOf(events), DoubtOf(events, limit))
  {
    if events != [] {
      var n := |events| - 1;
      var before, air := IntakeOf(events[..n], limit, BOTH), AirOf(events[..n]);
      RunIsExact(events[..n], limit);
      match events[n]
      case Stands(samples) =>
        StandsExact(before, air, samples, SettledOf(events[..n]), DoubtOf(events[..n], limit));
      case Listens(samples, k) =>
        HeardIsExact(before, air, samples, k, limit, SettledOf(events[..n]), DoubtOf(events[..n], limit));
    }
  }

  lemma StandsExact<S>(i: Intake<S>, heard: seq<S>, samples: seq<S>, settled: nat, doubt: set<nat>)
    requires Exact(i, heard, settled, doubt)
    ensures Exact(Kept(i, samples), heard + samples, settled + |samples|, doubt)
  {
    SettlesWithMore(i.backlog, heard, settled, samples);
  }

  /** No block of the run puts anything out of its place. */
  ghost predicate AllInPlace<S>(events: seq<Event<S>>, limit: int)
    requires Possible(events)
  {
    forall n | 0 <= n < |events| :: EventInPlace(events, limit, n)
  }

  ghost predicate EventInPlace<S>(events: seq<Event<S>>, limit: int, n: nat)
    requires Possible(events) && n < |events|
  {
    events[n].Listens? ==>
      InPlace(IntakeOf(events[..n], limit, BOTH), SettledOf(events[..n]), |events[n].samples|, events[n].k, limit)
  }

  lemma AllInPlaceBefore<S>(events: seq<Event<S>>, limit: int)
    requires Possible(events) && events != []
    ensures AllInPlace(events, limit) <==>
              AllInPlace(events[..|events| - 1], limit) && EventInPlace(events, limit, |events| - 1)
  {
    var fewer := events[..|events| - 1];
    forall m: nat | m < |fewer| ensures EventInPlace(fewer, limit, m) == EventInPlace(events, limit, m) {
      assert fewer[..m] == events[..m];
    }
  }

  /** What a station rebuilds is the air itself, each sample in its place, in any run that puts nothing
      out of its place; and, the samples being told apart, in no other. */
  lemma RunIsFaithful<S>(events: seq<Event<S>>, limit: int)
    requires Possible(events) && limit >= 1
    ensures AllInPlace(events, limit) ==> Faithful(IntakeOf(events, limit, BOTH).stream, AirOf(events), {})
    ensures Apart(AirOf(events)) && Faithful(IntakeOf(events, limit, BOTH).stream, AirOf(events), {}) ==>
              AllInPlace(events, limit)
  {
    RunIsExact(events, limit);
    if AllInPlace(events, limit) { InPlaceNoDoubt(events, limit); }
    if Apart(AirOf(events)) && Faithful(IntakeOf(events, limit, BOTH).stream, AirOf(events), {}) {
      FaithfulIsInPlace(events, limit);
    }
  }

  lemma {:induction false} InPlaceNoDoubt<S>(events: seq<Event<S>>, limit: int)
    requires Possible(events) && limit >= 1 && AllInPlace(events, limit)
    ensures DoubtOf(events, limit) == {}
  {
    if events != [] {
      var n := |events| - 1;
      AllInPlaceBefore(events, limit);
      InPlaceNoDoubt(events[..n], limit);
      RunIsExact(events[..n], limit);
      if events[n].Listens? {
        NothingDoubted(IntakeOf(events[..n], limit, BOTH), |AirOf(events[..n])|, |events[n].samples|, events[n].k, limit,
                       SettledOf(events[..n]), DoubtOf(events[..n], limit));
      }
    }
  }

  lemma {:induction false} FaithfulIsInPlace<S>(events: seq<Event<S>>, limit: int)
    requires Possible(events) && limit >= 1 && Apart(AirOf(events))
    requires Faithful(IntakeOf(events, limit, BOTH).stream, AirOf(events), {})
    ensures AllInPlace(events, limit)
  {
    if events != [] {
      var n := |events| - 1;
      var before, air := IntakeOf(events[..n], limit, BOTH), AirOf(events[..n]);
      RunIsExact(events[..n], limit);
      EarlierIsFaithful(events, limit);
      ApartBefore(air, events[n].samples);
      FaithfulIsInPlace(events[..n], limit);
      InPlaceNoDoubt(events[..n], limit);
      if events[n].Listens? {
        FaithfulInPlace(before, air, events[n].samples, events[n].k, limit, SettledOf(events[..n]), {});
      }
      AllInPlaceBefore(events, limit);
    }
  }

  lemma ApartBefore<S>(a: seq<S>, b: seq<S>)
    requires Apart(a + b)
    ensures Apart(a)
  {
    forall i, j | 0 <= i < j < |a| ensures a[i] != a[j] {
      assert (a + b)[i] != (a + b)[j];
    }
  }

  /** What has been sent stays as it is. */
  lemma SentStays<S>(i: Intake<S>, samples: seq<S>, k: nat, limit: int)
    requires k <= |samples| && limit >= 1
    ensures i.stream <= Heard(i, samples, k, limit, BOTH).stream
  {
    if k < |samples| {
      var told := Announced(Skipping(i, k), BOTH);
      HandedOverLength(told, samples[k..], limit);
      assert i.stream <= told.stream;
    }
  }

  lemma EarlierIsFaithful<S>(events: seq<Event<S>>, limit: int)
    requires Possible(events) && events != [] && limit >= 1
    requires Faithful(IntakeOf(events, limit, BOTH).stream, AirOf(events), {})
    ensures var n := |events| - 1; Faithful(IntakeOf(events[..n], limit, BOTH).stream, AirOf(events[..n]), {})
  {
    var n := |events| - 1;
    var before, after := IntakeOf(events[..n], limit, BOTH), IntakeOf(events, limit, BOTH);
    RunIsExact(events[..n], limit);
    if events[n].Listens? { SentStays(before, events[n].samples, events[n].k, limit); }
    forall p: nat | p < |before.stream| && before.stream[p].Some? && p !in {}
      ensures p < |AirOf(events[..n])| && before.stream[p].value == AirOf(events[..n])[p]
    {
      assert after.stream[p] == before.stream[p];
    }
  }

  lemma OneEventMore<S>(events: seq<Event<S>>, e: Event<S>, limit: int)
    requires Possible(events) && (e.Listens? ==> e.k <= |e.samples|)
    ensures var more, i, settled := events + [e], IntakeOf(events, limit, BOTH), SettledOf(events);
            && Possible(more) && AirOf(more) == AirOf(events) + e.samples
            && IntakeOf(more, limit, BOTH) == (if e.Stands? then Kept(i, e.samples) else Heard(i, e.samples, e.k, limit, BOTH))
            && SettledOf(more)
               == (if e.Stands? then settled + |e.samples| else SettledAfter(settled, |e.samples|, e.k))
  {
    assert (events + [e])[..|events|] == events;
  }

  lemma InPlaceOneMore<S>(events: seq<Event<S>>, e: Event<S>, limit: int)
    requires Possible(events) && (e.Listens? ==> e.k <= |e.samples|)
    ensures var more, i, settled := events + [e], IntakeOf(events, limit, BOTH), SettledOf(events);
            && Possible(more) && AirOf(more) == AirOf(events) + e.samples
            && (AllInPlace(more, limit) <==>
                  AllInPlace(events, limit) && (e.Listens? ==> InPlace(i, settled, |e.samples|, e.k, limit)))
  {
    assert (events + [e])[..|events|] == events;
    AllInPlaceBefore(events + [e], limit);
  }

  /** Of all that was heard, four samples, two wait and the two after them are skipped. */
  ghost predicate SkippedBehind(events: seq<Event<int>>, limit: int) {
    && Possible(events) && AllInPlace(events, limit) && AirOf(events) == [1, 2, 3, 4]
    && IntakeOf(events, limit, BOTH) == Intake([], 2, [1, 2], 0, 2) && SettledOf(events) == 0
  }

  lemma WaitThenSkip(limit: int)
    ensures SkippedBehind([Stands([1, 2]), Listens([3, 4], 2)], limit)
  {
    OneEventMore([], Stands([1, 2]), limit);
    InPlaceOneMore([], Stands([1, 2]), limit);
    var events := [] + [Stands([1, 2])];
    OneEventMore(events, Listens([3, 4], 2), limit);
    InPlaceOneMore(events, Listens([3, 4], 2), limit);
    assert events + [Listens([3, 4], 2)] == [Stands([1, 2]), Listens([3, 4], 2)];
  }

  lemma CountingIsApart()
    ensures Apart([1, 2, 3, 4] + [5])
  {
  }

  lemma LateAfter(events: seq<Event<int>>, limit: int)
    requires SkippedBehind(events, limit) && limit >= 2
    ensures var more := events + [Listens([5], 0)];
            && Possible(more) && !AllInPlace(more, limit)
            && !Faithful(IntakeOf(more, limit, BOTH).stream, AirOf(more), {})
  {
    InPlaceOneMore(events, Listens([5], 0), limit);
    CountingIsApart();
    RunIsFaithful(events + [Listens([5], 0)], limit);
  }

  /** A block skipped whole behind a backlog makes the next hand-over late, which skips nothing. */
  lemma LateWithoutSkip(events: seq<Event<int>>, limit: int)
    requires events == [Stands([1, 2]), Listens([3, 4], 2)] && limit >= 2
    ensures var more := events + [Listens([5], 0)];
            && Possible(more) && !AllInPlace(more, limit)
            && !Faithful(IntakeOf(more, limit, BOTH).stream, AirOf(more), {})
  {
    WaitThenSkip(limit);
    LateAfter(events, limit);
  }

  lemma CutAfter(events: seq<Event<int>>, limit: int)
    requires SkippedBehind(events, limit)
    ensures var more := events + [Stands([5, 6])] + [Listens([7], 0)];
            Possible(more) && (AllInPlace(more, limit) <==> limit <= 3)
  {
    OneEventMore(events, Stands([5, 6]), limit);
    InPlaceOneMore(events, Stands([5, 6]), limit);
    InPlaceOneMore(events + [Stands([5, 6])], Listens([7], 0), limit);
  }

  /** But a limit that leaves none of what the skip came behind puts the rest in its place. */
  lemma LateButCut(events: seq<Event<int>>, limit: int)
    requires events == [Stands([1, 2]), Listens([3, 4], 2)]
    ensures var more := events + [Stands([5, 6])] + [Listens([7], 0)];
            Possible(more) && (AllInPlace(more, limit) <==> limit <= 3)
  {
    WaitThenSkip(limit);
    CutAfter(events, limit);
  }

  // ---- the messages themselves ----

  /** The server's messages to a station: samples under both clocks, or a count of samples that were
      cut from a pile or lost to a skip. */
  datatype Sent = Block(clock: int, consumed: int, samples: seq<Word>) | Gap(lost: nat) | Skip(lost: nat)

  /** Where a skip began and how long it was. */
  datatype Missed = Missed(at: int, lost: nat)

  function TotalMissed(skips: seq<Missed>): nat {
    if skips == [] then 0 else TotalMissed(skips[..|skips| - 1]) + skips[|skips| - 1].lost
  }

  lemma MissedOneMore(skips: seq<Missed>, m: Missed)
    ensures TotalMissed(skips + [m]) == TotalMissed(skips) + m.lost
  {
    assert (skips + [m])[..|skips|] == skips;
  }

  function Rebuilt(sent: seq<Sent>): seq<Option<Word>> {
    if sent == [] then []
    else
      var before := Rebuilt(sent[..|sent| - 1]);
      match sent[|sent| - 1]
      case Block(_, _, samples) => before + Sounding(samples)
      case Gap(lost) => before + Silence(lost)
      case Skip(lost) => before + Silence(lost)
  }

  function Blocks(sent: seq<Sent>): nat {
    if sent == [] then 0
    else Blocks(sent[..|sent| - 1]) + if sent[|sent| - 1].Block? then 1 else 0
  }

  lemma SentOneMore(sent: seq<Sent>, m: Sent)
    ensures Rebuilt(sent + [m]) == Rebuilt(sent) + if m.Block? then Sounding(m.samples) else Silence(m.lost)
    ensures Blocks(sent + [m]) == Blocks(sent) + if m.Block? then 1 else 0
  {
    assert (sent + [m])[..|sent|] == sent;
  }

  lemma SoundingMore<S>(stream: seq<Option<S>>, pile: seq<S>, i: nat, j: nat)
    requires i <= j <= |pile|
    ensures stream + Sounding(pile[..i]) + Sounding(pile[i..j]) == stream + Sounding(pile[..j])
  {
  }

  lemma SoundingWhole<S>(stream: seq<Option<S>>, pile: seq<S>)
    ensures stream + Sounding(pile[..0]) == stream
    ensures stream + Sounding(pile[..|pile|]) == stream + Sounding(pile)
  {
    assert pile[..|pile|] == pile;
  }

  /** Samples of a tick: 20 ms. */
  const TICK: nat := 960

  /** A station's settings: whether stalls and skips are drawn for it, the limit of its piles, and
      what its daemon reads. */
  datatype Machine = Machine(stalls: bool, skips: bool, backlogLimit: int, daemon: Reads)

  // ---- what it is given to hear ----

  /** What its receiver gave a station, all of it; how much of its backlog has nothing skipped behind
      it; and the places of what it rebuilds that such a skip has put in doubt. */
  datatype Ledger = Ledger(heard: seq<Word>, settled: nat, doubt: set<nat>)

  function LedgerKept(l: Ledger, samples: seq<Word>): Ledger {
    l.(heard := l.heard + samples, settled := l.settled + |samples|)
  }

  function LedgerGiven(i: Intake<Word>, l: Ledger, samples: seq<Word>, k: nat, limit: int): Ledger {
    Ledger(l.heard + samples, SettledAfter(l.settled, |samples|, k),
           DoubtAfter(i, |l.heard| + |samples|, |samples|, k, limit, l.settled, l.doubt))
  }

  /** All that holds of a station's hearing, given a limit that keeps something. */
  ghost predicate Accounted(i: Intake<Word>, l: Ledger, machine: Machine) {
    && Selected(Sounds(i.stream) + i.backlog, l.heard)
    && (machine.backlogLimit >= 1 ==> Balanced(i, |l.heard|, machine.daemon))
    && (machine.backlogLimit >= 1 && machine.daemon == BOTH ==> Exact(i, l.heard, l.settled, l.doubt))
  }

  lemma NothingSounds(i: Intake<Word>)
    requires |i.stream| < 1 && |i.backlog| < 1
    ensures |Sounds(i.stream)| < 1 && Selected(Sounds(i.stream) + i.backlog, [])
  {
    assert Picks(Sounds(i.stream) + i.backlog, [], []);
  }

  lemma NothingHeard(i: Intake<Word>, l: Ledger, machine: Machine)
    requires |i.stream| < 1 && |i.backlog| < 1 && i.pending == i.dropped == i.skipped && i.dropped < 1
    requires |l.heard| < 1 && l.settled < 1 && |l.doubt| < 1
    ensures Accounted(i, l, machine)
  {
    NothingSounds(i);
    assert l.heard == [] && l.doubt == {};
  }

  lemma KeptIsAccounted(i: Intake<Word>, l: Ledger, samples: seq<Word>, machine: Machine)
    requires Accounted(i, l, machine)
    ensures Accounted(Kept(i, samples), LedgerKept(l, samples), machine)
  {
    KeptSelects(i, l.heard, samples);
    if machine.backlogLimit >= 1 && machine.daemon == BOTH { StandsExact(i, l.heard, samples, l.settled, l.doubt); }
  }

  lemma HeardIsAccounted(i: Intake<Word>, l: Ledger, samples: seq<Word>, k: nat, machine: Machine)
    requires Accounted(i, l, machine) && k <= |samples|
    ensures Accounted(Heard(i, samples, k, machine.backlogLimit, machine.daemon), LedgerGiven(i, l, samples, k, machine.backlogLimit), machine)
  {
    HeardSelects(i, l.heard, samples, k, machine.backlogLimit, machine.daemon);
    if machine.backlogLimit >= 1 {
      HeardKeepsBalance(i, |l.heard|, samples, k, machine.backlogLimit, machine.daemon);
      if machine.daemon == BOTH {
        HeardIsExact(i, l.heard, samples, k, machine.backlogLimit, l.settled, l.doubt);
      }
    }
  }

  lemma NoSilence<S>(stream: seq<Option<S>>)
    ensures stream + Silence(0) == stream
  {
  }

  /** More is sent, each block of it bearing these clocks. */
  ghost predicate Sends(before: seq<Sent>, after: seq<Sent>, clock: int, consumed: int) {
    && before <= after
    && forall n | |before| <= n < |after| && after[n].Block? :: after[n].clock == clock && after[n].consumed == consumed
  }

  lemma SendsMore(a: seq<Sent>, b: seq<Sent>, c: seq<Sent>, clock: int, consumed: int)
    requires Sends(a, b, clock, consumed) && Sends(b, c, clock, consumed)
    ensures Sends(a, c, clock, consumed)
  {
    forall n | |a| <= n < |c| && c[n].Block? ensures c[n].clock == clock && c[n].consumed == consumed {
      if n < |b| { assert b[n] == c[n]; }
    }
  }

  /** What is sent more ends in a block. */
  ghost predicate EndsInBlock(before: seq<Sent>, sent: seq<Sent>) {
    |before| < |sent| && sent[|sent| - 1].Block?
  }

  /** To a station that reads both announcements, the clock of the last block sent is the length of what
      can be rebuilt up to its end. */
  ghost predicate LastIsLevel(sent: seq<Sent>, machine: Machine) {
    machine.backlogLimit >= 1 && machine.daemon == BOTH && sent != [] ==>
      EndsInBlock([], sent) && sent[|sent| - 1].clock == |Rebuilt(sent)|
  }

  /** Blocks of at most a tick, none empty, all with the same clocks. */
  ghost predicate AreTicks(sent: seq<Sent>, clock: int, consumed: int) {
    forall m <- sent :: m.Block? && m.clock == clock && m.consumed == consumed && 0 < |m.samples| <= TICK
  }

  lemma TicksAreSends(before: seq<Sent>, after: seq<Sent>, clock: int, consumed: int)
    requires before <= after && AreTicks(after[|before|..], clock, consumed)
    ensures Sends(before, after, clock, consumed)
    ensures |before| < |after| ==> EndsInBlock(before, after)
  {
    forall n | |before| <= n < |after|
      ensures after[n].Block? && after[n].clock == clock && after[n].consumed == consumed
    {
      assert after[n] == after[|before|..][n - |before|];
    }
  }

  // ---- the messages themselves ----

  /** Where a tick's block from `at` on ends, of so many samples. */
  function TickEnd(at: nat, length: nat): nat {
    if at + TICK < length then at + TICK else length
  }

  /** A pile as it is sent: a tick to a block, and what is over. */
  function Blocked(pile: seq<Word>, clock: int, consumed: int): (sent: seq<Sent>)
    ensures |sent| == (|pile| + TICK - 1) / TICK
  {
    seq((|pile| + TICK - 1) / TICK, n requires 0 <= n < (|pile| + TICK - 1) / TICK =>
      Block(clock, consumed, pile[n * TICK..TickEnd(n * TICK, |pile|)]))
  }

  lemma BlockedAt(pile: seq<Word>, clock: int, consumed: int, n: nat, at: nat)
    requires at == n * TICK < |pile|
    ensures n < |Blocked(pile, clock, consumed)|
    ensures Blocked(pile, clock, consumed)[..n + 1]
         == Blocked(pile, clock, consumed)[..n] + [Block(clock, consumed, pile[at..TickEnd(at, |pile|)])]
  {
  }

  lemma BlockedAreTicks(pile: seq<Word>, clock: int, consumed: int)
    ensures AreTicks(Blocked(pile, clock, consumed), clock, consumed)
    ensures pile != [] ==> Blocked(pile, clock, consumed) != []
  {
  }

  lemma BlocksAreSent(before: seq<Sent>, after: seq<Sent>, pile: seq<Word>, clock: int, consumed: int)
    requires after == before + Blocked(pile, clock, consumed)
    ensures Sends(before, after, clock, consumed) && (pile != [] ==> EndsInBlock(before, after))
  {
    BlockedAreTicks(pile, clock, consumed);
    assert after[|before|..] == Blocked(pile, clock, consumed);
    TicksAreSends(before, after, clock, consumed);
  }

  /** What a station that reads skips, or gaps, is told of a loss: nothing, if nothing was lost. */
  function SkipTold(r: Reads, lost: nat): seq<Sent> {
    if r.skips && lost > 0 then [Skip(lost)] else []
  }

  function GapTold(r: Reads, lost: nat): seq<Sent> {
    if r.gaps && lost > 0 then [Gap(lost)] else []
  }

  /** What is sent of a block: itself; or, with a pile waiting, word of what the pile lost, and the rest of
      it with the block. */
  function SentOver(backlog: seq<Word>, block: seq<Word>, clock: int, consumed: int, limit: int, r: Reads): seq<Sent> {
    if backlog == [] then [Block(clock, consumed, block)]
    else
      var pile := backlog + block;
      GapTold(r, Lost(|pile|, limit)) + Blocked(Cut(pile, limit), clock, consumed)
  }

  /** And with its first `k` samples skipped: word of the skips first, and nothing of a block skipped whole. */
  function SentOf(i: Intake<Word>, samples: seq<Word>, k: nat, clock: int, consumed: int, limit: int, r: Reads): seq<Sent>
    requires k <= |samples|
  {
    if k == |samples| then [] else SkipTold(r, i.pending + k) + SentOver(i.backlog, samples[k..], clock, consumed, limit, r)
  }

  // What is rebuilt of it.

  lemma Together<T>(a: seq<T>, b: seq<T>, c: seq<T>)
    ensures a + b + c == a + (b + c)
  {
  }

  lemma {:induction false} BlockedRebuilt(before: seq<Sent>, pile: seq<Word>, clock: int, consumed: int, n: nat, at: nat)
    requires n <= |Blocked(pile, clock, consumed)|
    requires at == if n < |Blocked(pile, clock, consumed)| then n * TICK else |pile|
    ensures Rebuilt(before + Blocked(pile, clock, consumed)[..n]) == Rebuilt(before) + Sounding(pile[..at])
    decreases n
  {
    var blocks := Blocked(pile, clock, consumed);
    SoundingWhole(Rebuilt(before), pile);
    if n == 0 {
      assert before + blocks[..0] == before;
    } else {
      var from := (n - 1) * TICK;
      BlockedAt(pile, clock, consumed, n - 1, from);
      BlockedRebuilt(before, pile, clock, consumed, n - 1, from);
      Together(before, blocks[..n - 1], [Block(clock, consumed, pile[from..at])]);
      SentOneMore(before + blocks[..n - 1], Block(clock, consumed, pile[from..at]));
      SoundingMore(Rebuilt(before), pile, from, at);
    }
  }

  lemma PileIsSent(before: seq<Sent>, pile: seq<Word>, clock: int, consumed: int)
    ensures Rebuilt(before + Blocked(pile, clock, consumed)) == Rebuilt(before) + Sounding(pile)
  {
    var blocks := Blocked(pile, clock, consumed);
    BlockedRebuilt(before, pile, clock, consumed, |blocks|, |pile|);
    assert blocks[..|blocks|] == blocks && pile[..|pile|] == pile;
  }

  lemma WordIsSent(before: seq<Sent>, told: seq<Sent>, tells: bool, m: Sent)
    requires !m.Block? && told == if tells && m.lost > 0 then [m] else []
    ensures Rebuilt(before + told) == Rebuilt(before) + if tells then Silence(m.lost) else []
    ensures forall clock, played :: Sends(before, before + told, clock, played)
  {
    NoSilence(Rebuilt(before));
    SentOneMore(before, m);
    assert before + [] == before;
    assert Rebuilt(before) + [] == Rebuilt(before);
  }

  /** What is sent of a block is what the stream gains by it. */
  lemma OverIsSent(before: seq<Sent>, i: Intake<Word>, block: seq<Word>, clock: int, consumed: int, limit: int, r: Reads)
    requires i.stream == Rebuilt(before)
    ensures var after := before + SentOver(i.backlog, block, clock, consumed, limit, r);
            && Rebuilt(after) == HandedOver(i, block, limit, r).stream
            && Sends(before, after, clock, consumed)
            && (limit >= 1 && block != [] ==> EndsInBlock(before, after))
  {
    if i.backlog == [] {
      SentOneMore(before, Block(clock, consumed, block));
    } else {
      PileIsSentAfterGap(before, i.backlog + block, clock, consumed, limit, r);
    }
  }

  lemma PileIsSentAfterGap(before: seq<Sent>, pile: seq<Word>, clock: int, consumed: int, limit: int, r: Reads)
    ensures var after := before + (GapTold(r, Lost(|pile|, limit)) + Blocked(Cut(pile, limit), clock, consumed));
            && Rebuilt(after)
               == Rebuilt(before) + (if r.gaps then Silence(Lost(|pile|, limit)) else []) + Sounding(Cut(pile, limit))
            && Sends(before, after, clock, consumed)
            && (limit >= 1 && pile != [] ==> EndsInBlock(before, after))
  {
    var lost, cut := Lost(|pile|, limit), Cut(pile, limit);
    var told, blocks := before + GapTold(r, lost), Blocked(cut, clock, consumed);
    Together(before, GapTold(r, lost), blocks);
    WordIsSent(before, GapTold(r, lost), r.gaps, Gap(lost));
    PileIsSent(told, cut, clock, consumed);
    BlocksAreSent(told, told + blocks, cut, clock, consumed);
    SendsMore(before, told, told + blocks, clock, consumed);
  }

  /** The `n`th of what is sent holds something: a skip only at the front, a gap only there or behind it,
      and then blocks, each a whole tick but the last. */
  ghost predicate InOrder(sent: seq<Sent>, n: nat)
    requires n < |sent|
  {
    match sent[n]
    case Skip(lost) => lost > 0 && n == 0
    case Gap(lost) => lost > 0 && (n == 0 || (n == 1 && sent[0].Skip?))
    case Block(_, _, samples) => 0 < |samples| <= TICK && (n < |sent| - 1 ==> |samples| == TICK && sent[n + 1].Block?)
  }

  /** The same behind something else. */
  ghost predicate InOrderBehind(sent: seq<Sent>, n: nat)
    requires n < |sent|
  {
    if sent[n].Gap? then sent[n].lost > 0 && n == 0 else sent[n].Block? && InOrder(sent, n)
  }

  lemma JoinsInOrder(told: seq<Sent>, sent: seq<Sent>, n: nat)
    requires |told| <= 1 && forall i | 0 <= i < |told| :: told[i].Skip? && told[i].lost > 0
    requires forall i | 0 <= i < |sent| :: InOrderBehind(sent, i)
    requires n < |told + sent|
    ensures InOrder(told + sent, n)
  {
    if n >= |told| {
      var k: nat := n - |told|;
      assert (told + sent)[n] == sent[k] && InOrderBehind(sent, k);
      if n < |told + sent| - 1 { assert (told + sent)[n + 1] == sent[k + 1]; }
    }
  }

  /** So of a tick at most the one skip is told, and the one gap, and the air is sent in ticks. */
  lemma TickIsSentInOrder(i: Intake<Word>, samples: seq<Word>, k: nat, clock: int, consumed: int, limit: int, r: Reads,
                          n: nat)
    requires k <= |samples| <= TICK
    requires n < |SentOf(i, samples, k, clock, consumed, limit, r)|
    ensures InOrder(SentOf(i, samples, k, clock, consumed, limit, r), n)
  {
    var block := samples[k..];
    var sent := SentOver(i.backlog, block, clock, consumed, limit, r);
    forall m | 0 <= m < |sent| ensures InOrderBehind(sent, m) {
      OverIsInOrder(i.backlog, block, clock, consumed, limit, r, m);
    }
    JoinsInOrder(SkipTold(r, i.pending + k), sent, n);
  }

  lemma OverIsInOrder(backlog: seq<Word>, block: seq<Word>, clock: int, consumed: int, limit: int, r: Reads, n: nat)
    requires 0 < |block| <= TICK && n < |SentOver(backlog, block, clock, consumed, limit, r)|
    ensures InOrderBehind(SentOver(backlog, block, clock, consumed, limit, r), n)
  {
    if backlog != [] {
      var pile := backlog + block;
      var told, blocks := GapTold(r, Lost(|pile|, limit)), Blocked(Cut(pile, limit), clock, consumed);
      assert SentOver(backlog, block, clock, consumed, limit, r) == told + blocks;
      forall m | 0 <= m < |blocks| ensures blocks[m].Block? && InOrder(blocks, m) {
        BlockedInOrder(Cut(pile, limit), clock, consumed, m);
      }
      JoinsBehindGap(told, blocks, n);
    }
  }

  lemma JoinsBehindGap(told: seq<Sent>, blocks: seq<Sent>, n: nat)
    requires |told| <= 1 && forall i | 0 <= i < |told| :: told[i].Gap? && told[i].lost > 0
    requires forall i | 0 <= i < |blocks| :: blocks[i].Block? && InOrder(blocks, i)
    requires n < |told + blocks|
    ensures InOrderBehind(told + blocks, n)
  {
    if n >= |told| {
      var k: nat := n - |told|;
      assert (told + blocks)[n] == blocks[k] && InOrder(blocks, k);
      if n < |told + blocks| - 1 { assert (told + blocks)[n + 1] == blocks[k + 1]; }
    }
  }

  lemma BlockedInOrder(pile: seq<Word>, clock: int, consumed: int, n: nat)
    requires n < |Blocked(pile, clock, consumed)|
    ensures Blocked(pile, clock, consumed)[n].Block? && InOrder(Blocked(pile, clock, consumed), n)
  {
  }
}
