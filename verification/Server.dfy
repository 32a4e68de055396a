/**
 The lockstep air between stations (tools/channel_server.py). What the paths make of the stations'
 audio is an argument of each tick, as are the random draws.
 */
module Servers {
  import opened Bytes
  import opened Messages
  import opened Stalls
  import opened Capture
  import opened Collisions
  import opened Runs
  import opened Histories
  import opened Stations

  class Server {
    const stations: seq<Station>
    const latency: nat
    const account: Overlaps
    var t: nat                      // the air clock
    var outageUntil: int            // until then no station's signal reaches another

    ghost var pasts: seq<Past>      // what has happened to each station
    ghost var cut: seq<bool>        // whether the paths were cut at each air sample

    /** Stations just connected, in the order of the scenario, each given its line of silence; and an
        empty account. */
    constructor (stations: seq<Station>, latency: nat, account: Overlaps)
      requires forall i, j | 0 <= i < j < |stations| :: stations[i] != stations[j]
      requires forall i | 0 <= i < |stations| :: stations[i].Fresh() == Sound && !stations[i].left
      requires account.Valid() && account.both == [] && account.kinds == []
      modifies stations
      ensures this.stations == stations && this.latency == latency && this.account == account
      ensures Valid() && Present() && t == 0 && outageUntil == 0
    {
      this.stations, this.latency, this.account, t, outageUntil := stations, latency, account, 0, 0;
      cut, pasts := [], Beginnings(stations);
      new;
      JoinAll();
      CloseOverlap();
    }

    method JoinAll()
      requires Distinct() && Present() && pasts == Beginnings(stations)
      requires forall i | 0 <= i < |stations| :: stations[i].Fresh() == Sound
      modifies stations
      ensures AllStand() && Present()
    {
      ghost var ps := pasts;
      for i := 0 to |stations|
        invariant Present()
        invariant forall j | 0 <= j < |stations| :: stations[j].Joining(latency, ps[j], j < i) == Sound
      {
        stations[i].Join(latency);
      }
    }

    ghost predicate Distinct() {
      forall i, j | 0 <= i < j < |stations| :: stations[i] != stations[j]
    }

    /** Every station is right, and has the past that the server knows of. */
    ghost predicate AllStand()
      reads this`pasts, stations
    {
      |pasts| == |stations| && forall i | 0 <= i < |stations| :: stations[i].Standing(latency, pasts[i]) == Sound
    }

    /** No station has left. */
    ghost predicate Present()
      reads stations
    {
      forall i | 0 <= i < |stations| :: !stations[i].left
    }

    /** The overlap counted so far is that of the stations' pasts. */
    ghost predicate Counted(ps: seq<Past>)
      reads this`cut, account
    {
      account.Valid() && OverlapSound(ps, cut, account.both, account.kinds) == Sound
    }

    lemma CloseOverlap()
      requires account.Valid() && account.both == [] && account.kinds == [] && cut == []
      ensures Counted(pasts)
    {
    }

    /** The clock, the stations' pasts and the account of their overlap go together. */
    ghost predicate Valid()
      reads this, stations, account
    {
      && Distinct() && AllStand() && AllAt(pasts, t, t) && t % TICK == 0
      && Counted(pasts) && |account.both| == t
    }

    /** So at every air sample the account says what the stations' pasts say, and its totals agree. */
    lemma OverlapTells(k: nat)
      requires Valid() && k < t
      ensures |cut| == |account.both| == |account.kinds| == t
      ensures account.both[k] <==> !cut[k] && TwoOn(pasts, k)
      ensures account.kinds[k] == Radiated <==> TwoSignal(pasts, k)
      ensures account.kinds[k] == Vox <==> !TwoSignal(pasts, k) && AnyHeld(pasts, k)
      ensures account.kinds[k] == Guard <==> !TwoSignal(pasts, k) && !AnyHeld(pasts, k)
      ensures account.bothKeyed == TotalLength(account.collisions) == account.overlap.Total()
              == Sum(account.collisionSplit).Total()
      ensures TotalLength(account.rfOverlaps) == account.overlap.radiated
    {
      OpenOverlap(pasts, cut, account.both, account.kinds);
      TimeIsConserved(account.Now(), account.both, account.kinds);
    }

    /** And each station has been sent a selection of what it heard, in order; one that reads both
        announcements is level with the clock, but for what waits and the skips not yet told of. */
    lemma HearingTells(i: nat)
      requires Valid() && i < |stations|
      ensures var p := pasts[i];
              && |p.heard| == t && p.intake.stream == Rebuilt(p.sent)
              && Selected(Sounds(p.intake.stream) + p.intake.backlog, p.heard)
              && (p.machine.backlogLimit >= 1 && p.machine.daemon == BOTH ==>
                    |p.intake.stream| + |p.intake.backlog| + p.intake.pending == t)
              && (p.machine.backlogLimit >= 1 && p.machine.daemon == BOTH && p.sent != [] ==>
                    p.sent[|p.sent| - 1].Block? && p.sent[|p.sent| - 1].clock == |p.intake.stream|)
    {
      stations[i].OpenStanding(latency, pasts[i]);
      stations[i].OpenHears(t);
      stations[i].LevelButWaiting();
    }

    // ---- a tick, station by station ----

    method AskStalled(draws: seq<Draws>) returns (stalled: seq<bool>)
      requires Distinct() && AllStand() && AllAt(pasts, t, t) && Present() && |draws| == |stations|
      modifies stations, this`pasts
      ensures AllStand() && Present() && |stalled| == |stations|
      ensures AllAsked(old(pasts), pasts, stalled, t, draws)
    {
      stalled := [];
      ghost var was := pasts;
      for i := 0 to |stations|
        invariant AllStand() && Present() && |stalled| == i
        invariant AllAsked(was[..i], pasts[..i], stalled, t, draws[..i])
        invariant pasts[i..] == was[i..]
      {
        var yes;
        ghost var past;
        yes, past := AskOne(i, pasts[i], draws[i]);
        OneReplaced(pasts, was, i, past);
        pasts := pasts[i := past];
        stalled := stalled + [yes];
      }
      assert was[..|stations|] == was && pasts[..|stations|] == pasts;
      assert draws[..|stations|] == draws;
    }

    method AskOne(i: nat, ghost p: Past, draws: Draws) returns (yes: bool, ghost q: Past)
      requires i < |stations| && stations[i].Standing(latency, p) == Sound && |p.heard| == t
      modifies stations[i]
      ensures stations[i].Standing(latency, q) == Sound && stations[i].left == old(stations[i].left)
      ensures Asking(p, q, yes, t, draws) == Sound
    {
      yes, q := stations[i].BeginTick(t, latency, p, draws);
    }

    /** Nothing is owed: every block sent to any station is answered. */
    ghost predicate Answered()
      reads stations
    {
      forall i | 0 <= i < |stations| :: stations[i].owed == 0
    }

    /** That is, each has said as many READYs as it was sent blocks, and the first. */
    lemma AnsweredByReadys(i: nat)
      requires AllStand() && Present() && Answered() && i < |stations|
      ensures Readys(ReadAll(stations[i].returned)) == 1 + Blocks(pasts[i].sent)
      ensures stations[i].returned <= stations[i].writes
    {
      stations[i].OpenStanding(latency, pasts[i]);
      stations[i].OpenTalks(latency);
      stations[i].SaidIsRead();
    }

    /** What each station writes answers every block it was sent. */
    ghost predicate AllAnswer(ps: seq<Past>) {
      |ps| == |stations| && forall i | 0 <= i < |stations| :: Answering(stations[i].writes, ps[i].sent) == Sound
    }

    lemma SameAnswers(ps: seq<Past>, qs: seq<Past>)
      requires |ps| == |qs| && forall i | 0 <= i < |ps| :: qs[i].sent == ps[i].sent
      ensures AllAnswer(qs) <==> AllAnswer(ps)
    {
    }

    /** Waits until each station has answered every block it was sent, or one has left, not having. */
    method AwaitAll() returns (ok: bool)
      requires Distinct() && AllStand() && Present()
      modifies stations
      ensures AllStand() && ok == Present()
      ensures ok ==> Answered()
      ensures ok <==> AllAnswer(pasts)
    {
      for i := 0 to |stations|
        invariant AllStand() && Present()
        invariant forall j | 0 <= j < i :: stations[j].owed == 0 && Answering(stations[j].writes, pasts[j].sent) == Sound
      {
        ok := stations[i].CatchUpTick(latency, pasts[i]);
        if !ok { return; }
      }
      ok := true;
    }

    /** The air is made, and only once every block is answered. */
    method RadiateAll() returns (outs: seq<Output>)
      requires Distinct() && AllStand() && AllAt(pasts, t, t) && Present() && Answered()
      modifies stations, this`pasts
      ensures AllStand() && Present() && AllAir(old(pasts), pasts, t) && ArePutOut(pasts, outs, t)
    {
      outs := [];
      ghost var was := pasts;
      for i := 0 to |stations|
        invariant AllStand() && Present() && |outs| == i
        invariant forall j | i <= j < |stations| :: stations[j].owed == 0
        invariant AllAir(was[..i], pasts[..i], t) && ArePutOut(pasts[..i], outs, t)
        invariant pasts[i..] == was[i..]
      {
        var out;
        ghost var past;
        out, past := stations[i].RadiateTick(t, latency, pasts[i]);
        OneReplaced(pasts, was, i, past);
        pasts := pasts[i := past];
        outs := outs + [out];
      }
      assert was[..|stations|] == was && pasts[..|stations|] == pasts;
    }

    /** Each station is delivered what it heard; one that stands still is sent nothing. */
    method DeliverAll(heard: seq<seq<Word>>, stalled: seq<bool>, draws: seq<Draws>)
      requires Distinct() && AllStand() && AllAt(pasts, t + TICK, t) && Present()
      requires |heard| == |stalled| == |draws| == |stations|
      requires forall i | 0 <= i < |stations| :: |heard[i]| == TICK
      modifies stations, this`pasts
      ensures AllStand() && Present() && AllDelivered(old(pasts), pasts, heard, stalled, draws)
    {
      ghost var was := pasts;
      for i := 0 to |stations|
        invariant AllStand() && Present()
        invariant AllDelivered(was[..i], pasts[..i], heard[..i], stalled[..i], draws[..i])
        invariant pasts[i..] == was[i..]
      {
        ghost var past := stations[i].DeliverTick(t, latency, pasts[i], heard[i], stalled[i], draws[i]);
        OneReplaced(pasts, was, i, past);
        pasts := pasts[i := past];
      }
      assert was[..|stations|] == was && pasts[..|stations|] == pasts;
      assert heard[..|stations|] == heard && stalled[..|stations|] == stalled && draws[..|stations|] == draws;
    }

    /** What each receiver hears of the tick just put out, given what arrives at it. */
    method HearAll(arriving: seq<seq<Word>>, outs: seq<Output>) returns (heard: seq<seq<Word>>)
      requires AllStand() && AllAt(pasts, t + TICK, t) && ArePutOut(pasts, outs, t)
      requires |arriving| == |stations| && forall i | 0 <= i < |stations| :: |arriving[i]| == TICK
      ensures AllHear(pasts, t, arriving, heard)
    {
      heard := [];
      for i := 0 to |stations|
        invariant |heard| == i
        invariant forall j | 0 <= j < i :: IsHeard(pasts[j], t, arriving[j], heard[j])
      {
        var one := stations[i].Hear(t, latency, pasts[i], arriving[i], outs[i]);
        heard := heard + [one];
      }
    }

    /** The overlap of the tick just put out: none in an outage, when nobody hears anybody. */
    method FindOverlap(outs: seq<Output>) returns (now: seq<bool>, what: seq<Kind>)
      requires t % TICK == 0 && AllAt(pasts, t + TICK, t) && ArePutOut(pasts, outs, t)
      ensures TickOverlap(pasts, t, t < outageUntil, now, what)
    {
      RowsLength(pasts, t, outs);
      var two := AtLeastTwo(Rows(outs, OnOf), TICK);
      var radiated := AtLeastTwo(Rows(outs, SignalOf), TICK);
      var held := AnyOf(Rows(outs, VoxOf), TICK);
      OverlapFound(pasts, t, outs, t < outageUntil, two, radiated, held);
      now := Uncut(two, t < outageUntil);
      what := Kinds(radiated, held);
    }

    /** The wait changes nothing that the server knows of. */
    method AwaitValid() returns (ok: bool)
      requires Valid() && Present()
      modifies stations
      ensures Valid() && ok == Present()
      ensures ok ==> Answered()
      ensures ok <==> AllAnswer(pasts)
    {
      ok := AwaitAll();
    }

    /** Each station asked whether it stands still; nothing else changes. */
    method AskAll(draws: seq<Draws>) returns (stalled: seq<bool>)
      requires Valid() && Present() && |draws| == |stations|
      modifies stations, this`pasts
      ensures Valid() && Present() && |stalled| == |stations|
      ensures AllAsked(old(pasts), pasts, stalled, t, draws)
    {
      stalled := AskStalled(draws);
      AskedKeeps(old(pasts), pasts, stalled, t, draws);
      OverlapOfAir(old(pasts), pasts, cut, account.both, account.kinds);
    }

    /** Which stations stand still, and the wait for the others to answer. */
    method BeforeAir(draws: seq<Draws>) returns (stalled: seq<bool>, ok: bool)
      requires Valid() && Present() && |draws| == |stations|
      modifies stations, this`pasts
      ensures Valid() && ok == Present() && |stalled| == |stations|
      ensures AllAsked(old(pasts), pasts, stalled, t, draws)
      ensures ok ==> Answered()
      ensures ok <==> AllAnswer(old(pasts))
    {
      stalled := AskAll(draws);
      AskedKeeps(old(pasts), pasts, stalled, t, draws);
      SameAnswers(old(pasts), pasts);
      ghost var asked, now := pasts, t;
      assert AllAsked(old(pasts), asked, stalled, now, draws);
      ok := AwaitValid();
      assert pasts == asked && t == now;
    }

    /** The air made, what each hears of it, and the overlap counted. */
    method MakeAir(arriving: seq<seq<Word>>) returns (heard: seq<seq<Word>>)
      requires Valid() && Present() && Answered()
      requires |arriving| == |stations| && forall i | 0 <= i < |stations| :: |arriving[i]| == TICK
      modifies stations, account, this`pasts, this`cut
      ensures Distinct() && AllStand() && Present() && AllAir(old(pasts), pasts, t)
      ensures AllHear(pasts, t, arriving, heard)
      ensures Counted(pasts) && |account.both| == t + TICK && old(account.both) <= account.both
      ensures cut == old(cut) + Throughout(t < outageUntil)
    {
      var outs := RadiateAll();
      AirKeeps(old(pasts), pasts, t);
      heard := HearAll(arriving, outs);
      CountOverlap(old(pasts), outs);
    }

    method CountOverlap(ghost was: seq<Past>, outs: seq<Output>)
      requires Counted(was) && |account.both| == t && t % TICK == 0
      requires AllAir(was, pasts, t) && AllAt(pasts, t + TICK, t) && ArePutOut(pasts, outs, t)
      modifies account, this`cut
      ensures Counted(pasts) && |account.both| == t + TICK && old(account.both) <= account.both
      ensures cut == old(cut) + Throughout(t < outageUntil)
    {
      ghost var out := t < outageUntil;
      var now, what := FindOverlap(outs);
      OverlapWithTick(was, pasts, cut, account.both, account.kinds, t, out, now, what);
      account.CountTick(t, now, what);
      cut := cut + Throughout(out);
    }

    /** What was heard delivered, the clock moves on. */
    method EndTick(heard: seq<seq<Word>>, stalled: seq<bool>, draws: seq<Draws>)
      requires Distinct() && AllStand() && AllAt(pasts, t + TICK, t) && Present() && t % TICK == 0
      requires Counted(pasts) && |account.both| == t + TICK
      requires |heard| == |stalled| == |draws| == |stations|
      requires forall i | 0 <= i < |stations| :: |heard[i]| == TICK
      modifies this`t, this`pasts, stations
      ensures t == old(t) + TICK && Valid() && Present()
      ensures AllDelivered(old(pasts), pasts, heard, stalled, draws)
    {
      DeliverAll(heard, stalled, draws);
      DeliveredKeeps(old(pasts), pasts, heard, stalled, draws, t);
      OverlapOfAir(old(pasts), pasts, cut, account.both, account.kinds);
      t := t + TICK;
    }

    /** The tick itself, once every block is answered. */
    method PlayTick(arriving: seq<seq<Word>>, stalled: seq<bool>, draws: seq<Draws>, ghost was: seq<Past>,
                    ghost stalls: seq<Draws>)
      requires Valid() && Present() && Answered()
      requires |arriving| == |draws| == |stations| && forall i | 0 <= i < |stations| :: |arriving[i]| == TICK
      requires AllAt(was, t, t) && AllAsked(was, pasts, stalled, t, stalls)
      modifies this`t, this`pasts, this`cut, stations, account
      ensures Valid() && Present() && t == old(t) + TICK
      ensures old(account.both) <= account.both
      ensures cut == old(cut) + Throughout(old(t) < outageUntil)
      ensures AllTicked(was, pasts, old(t), arriving, stalls, draws)
    {
      ghost var asked := pasts;
      var heard := MakeAir(arriving);
      ghost var aired := pasts;
      AirKeeps(asked, aired, t);
      EndTick(heard, stalled, draws);
      TickedBySteps(was, asked, aired, pasts, old(t), arriving, heard, stalled, stalls, draws);
    }

    /** One tick: what the paths bring each receiver of it is `arriving`. False when a station left
        first, exactly when what some station writes does not answer all it was sent; the air then stands
        where it was. */
    method Tick(arriving: seq<seq<Word>>, stallDraws: seq<Draws>, skipDraws: seq<Draws>) returns (ok: bool)
      requires Valid() && Present()
      requires |arriving| == |stallDraws| == |skipDraws| == |stations|
      requires forall i | 0 <= i < |stations| :: |arriving[i]| == TICK
      modifies this`t, this`pasts, this`cut, stations, account
      ensures Valid() && ok == Present() && t == old(t) + if ok then TICK else 0
      ensures ok <==> AllAnswer(old(pasts))
      ensures old(account.both) <= account.both
      ensures cut == old(cut) + if ok then Throughout(old(t) < outageUntil) else []
      ensures ok ==> AllTicked(old(pasts), pasts, old(t), arriving, stallDraws, skipDraws)
      ensures !ok ==> exists stalled :: AllAsked(old(pasts), pasts, stalled, t, stallDraws)
    {
      var stalled;
      stalled, ok := BeforeAir(stallDraws);
      if ok { PlayTick(arriving, stalled, skipDraws, old(pasts), stallDraws); }
    }

    // ---- the commands, between ticks ----

    /** Cuts every path for so many samples from now. */
    method CommandOutage(samples: int)
      requires Valid()
      modifies this`outageUntil
      ensures Valid() && outageUntil == t + samples
    {
      outageUntil := t + samples;
    }

    /** Stalls one station for so many samples from now. */
    method CommandStall(i: nat, samples: int)
      requires Valid() && i < |stations|
      modifies stations[i], this`pasts
      ensures Valid()
      ensures pasts == old(pasts)[i := old(pasts[i]).(requests := old(pasts[i]).requests + [Request(t, samples)])]
    {
      ghost var was := pasts;
      ghost var past := stations[i].CommandStall(t, latency, pasts[i], samples);
      pasts := pasts[i := past];
      assert AllStand() && AllAt(pasts, t, t) && SameAir(was, pasts);
      OverlapOfAir(was, pasts, cut, account.both, account.kinds);
    }
  }

  ghost function Beginnings(stations: seq<Station>): (ps: seq<Past>)
    ensures |ps| == |stations| && forall i | 0 <= i < |ps| :: ps[i] == stations[i].Beginning()
  {
    seq(|stations|, i requires 0 <= i < |stations| => stations[i].Beginning())
  }

  function OnOf(o: Output): seq<bool> { o.on }

  function SignalOf(o: Output): seq<bool> { o.signal }

  function VoxOf(o: Output): seq<bool> { o.vox }

  /** One field of every output. */
  function Rows(outs: seq<Output>, field: Output -> seq<bool>): (rows: seq<seq<bool>>)
    ensures |rows| == |outs| && forall i | 0 <= i < |outs| :: rows[i] == field(outs[i])
  {
    seq(|outs|, i requires 0 <= i < |outs| => field(outs[i]))
  }

  function Kinds(radiated: seq<bool>, held: seq<bool>): (what: seq<Kind>)
    requires |radiated| == |held|
    ensures |what| == |radiated| && forall k | 0 <= k < |what| :: what[k] == KindOf(radiated[k], held[k])
  {
    seq(|radiated|, k requires 0 <= k < |radiated| => KindOf(radiated[k], held[k]))
  }

  /** The rows of the outputs show what the pasts tell. */
  lemma RowsShow(ps: seq<Past>, t: nat, outs: seq<Output>)
    requires ArePutOut(ps, outs, t) && AllAt(ps, t + TICK, t) && t % TICK == 0
    ensures forall r <- Rows(outs, OnOf) :: |r| == TICK
    ensures forall r <- Rows(outs, SignalOf) :: |r| == TICK
    ensures forall r <- Rows(outs, VoxOf) :: |r| == TICK
    ensures forall k: nat | k < TICK :: Two(Rows(outs, OnOf), k) == TwoOn(ps, t + k)
    ensures forall k: nat | k < TICK :: Two(Rows(outs, SignalOf), k) == TwoSignal(ps, t + k)
    ensures forall k: nat | k < TICK :: Any(Rows(outs, VoxOf), k) == AnyHeld(ps, t + k)
  {
    RowsLength(ps, t, outs);
    forall k: nat | k < TICK
      ensures Two(Rows(outs, OnOf), k) == TwoOn(ps, t + k)
      ensures Two(Rows(outs, SignalOf), k) == TwoSignal(ps, t + k)
      ensures Any(Rows(outs, VoxOf), k) == AnyHeld(ps, t + k)
    {
      OnRows(ps, t, outs, k);
      SignalRows(ps, t, outs, k);
      VoxRows(ps, t, outs, k);
    }
  }

  /** Nothing counts while the paths are cut. */
  function Uncut(two: seq<bool>, out: bool): (now: seq<bool>)
    ensures |now| == |two| && forall k | 0 <= k < |two| :: now[k] == (!out && two[k])
  {
    seq(|two|, k requires 0 <= k < |two| => !out && two[k])
  }

  /** What is counted of the rows is the pasts' overlap. */
  lemma OverlapFound(ps: seq<Past>, t: nat, outs: seq<Output>, out: bool, two: seq<bool>, radiated: seq<bool>,
                     held: seq<bool>)
    requires ArePutOut(ps, outs, t) && AllAt(ps, t + TICK, t) && t % TICK == 0
    requires |two| == |radiated| == |held| == TICK
    requires forall r <- Rows(outs, OnOf) :: |r| == TICK
    requires forall r <- Rows(outs, SignalOf) :: |r| == TICK
    requires forall r <- Rows(outs, VoxOf) :: |r| == TICK
    requires forall k: nat | k < TICK :: two[k] == Two(Rows(outs, OnOf), k)
    requires forall k: nat | k < TICK :: radiated[k] == Two(Rows(outs, SignalOf), k)
    requires forall k: nat | k < TICK :: held[k] == Any(Rows(outs, VoxOf), k)
    ensures TickOverlap(ps, t, out, Uncut(two, out), Kinds(radiated, held))
  {
    RowsShow(ps, t, outs);
  }

  lemma RowsLength(ps: seq<Past>, t: nat, outs: seq<Output>)
    requires ArePutOut(ps, outs, t)
    ensures forall r <- Rows(outs, OnOf) :: |r| == TICK
    ensures forall r <- Rows(outs, SignalOf) :: |r| == TICK
    ensures forall r <- Rows(outs, VoxOf) :: |r| == TICK
  {
  }

  lemma FlagsShown(ps: seq<Past>, t: nat, outs: seq<Output>, k: nat, i: nat)
    requires ArePutOut(ps, outs, t) && AllAt(ps, t + TICK, t) && t % TICK == 0 && k < TICK && i < |ps|
    ensures outs[i].Length(TICK) && outs[i].on[k] == OnFlags(ps, t + k)[i]
    ensures outs[i].signal[k] == SignalFlags(ps, t + k)[i] && outs[i].vox[k] == HeldFlags(ps, t + k)[i]
  {
    OutputShows(ps[i], t, outs[i], k);
  }

  lemma OnRows(ps: seq<Past>, t: nat, outs: seq<Output>, k: nat)
    requires ArePutOut(ps, outs, t) && AllAt(ps, t + TICK, t) && t % TICK == 0 && k < TICK
    ensures (forall r <- Rows(outs, OnOf) :: |r| == TICK) && Two(Rows(outs, OnOf), k) == TwoOn(ps, t + k)
  {
    RowsLength(ps, t, outs);
    forall i | 0 <= i < |ps| ensures Rows(outs, OnOf)[i][k] == OnFlags(ps, t + k)[i] {
      FlagsShown(ps, t, outs, k, i);
    }
    TwoFlags(Rows(outs, OnOf), k, OnFlags(ps, t + k));
  }

  lemma SignalRows(ps: seq<Past>, t: nat, outs: seq<Output>, k: nat)
    requires ArePutOut(ps, outs, t) && AllAt(ps, t + TICK, t) && t % TICK == 0 && k < TICK
    ensures (forall r <- Rows(outs, SignalOf) :: |r| == TICK) && Two(Rows(outs, SignalOf), k) == TwoSignal(ps, t + k)
  {
    RowsLength(ps, t, outs);
    forall i | 0 <= i < |ps| ensures Rows(outs, SignalOf)[i][k] == SignalFlags(ps, t + k)[i] {
      FlagsShown(ps, t, outs, k, i);
    }
    TwoFlags(Rows(outs, SignalOf), k, SignalFlags(ps, t + k));
  }

  lemma VoxRows(ps: seq<Past>, t: nat, outs: seq<Output>, k: nat)
    requires ArePutOut(ps, outs, t) && AllAt(ps, t + TICK, t) && t % TICK == 0 && k < TICK
    ensures (forall r <- Rows(outs, VoxOf) :: |r| == TICK) && Any(Rows(outs, VoxOf), k) == AnyHeld(ps, t + k)
  {
    RowsLength(ps, t, outs);
    forall i | 0 <= i < |ps| ensures Rows(outs, VoxOf)[i][k] == HeldFlags(ps, t + k)[i] {
      FlagsShown(ps, t, outs, k, i);
    }
    AnyFlags(Rows(outs, VoxOf), k, HeldFlags(ps, t + k));
  }
}
