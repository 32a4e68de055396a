/**
 The echo limits of tools/bench_echo.py: which echo share keeps each rung off the ladder, from
 measured rows. What a rung is worth, which paths are probes and which rungs are the floor's are
 given.
 */
module EchoLimits {
  import opened Options
  import opened Rounding

  const KEEP := 0.7
  const MARGIN := 1.25

  datatype Row = Row(bandwidth: int, path: string, snr: real, rung: nat,
                     decoded: nat, frames: nat, echo: Option<real>)

  /** A path at an SNR. */
  datatype Key = Key(path: string, snr: real)

  /** The decode rates and the echo readings of the rows that count. */
  datatype Table = Table(rate: map<Key, map<nat, real>>, echo: map<Key, real>)

  // ---- reading the rows ----

  predicate Counts(r: Row, bandwidth: int, probe: string -> bool) {
    r.bandwidth == bandwidth && !probe(r.path)
  }

  function KeyOf(r: Row): Key {
    Key(r.path, r.snr)
  }

  function Noted(t: Table, r: Row): Table
    requires r.frames > 0
  {
    var k := KeyOf(r);
    var before := if k in t.rate then t.rate[k] else map[];
    Table(t.rate[k := before[r.rung := r.decoded as real / r.frames as real]],
          if r.rung == 0 && r.echo.Some? then t.echo[k := r.echo.value] else t.echo)
  }

  /** The table of the first rows, or None when one that counts has no frames to divide by. */
  function TableOf(rows: seq<Row>, bandwidth: int, probe: string -> bool): Option<Table> {
    if rows == [] then Some(Table(map[], map[]))
    else
      var r := rows[|rows| - 1];
      match TableOf(rows[..|rows| - 1], bandwidth, probe)
      case None => None
      case Some(t) =>
        if !Counts(r, bandwidth, probe) then Some(t)
        else if r.frames == 0 then None
        else Some(Noted(t, r))
  }

  method ReadRows(rows: seq<Row>, bandwidth: int, probe: string -> bool) returns (t: Option<Table>)
    ensures t == TableOf(rows, bandwidth, probe)
  {
    t := Some(Table(map[], map[]));
    for i := 0 to |rows|
      invariant t == TableOf(rows[..i], bandwidth, probe)
    {
      assert rows[..i + 1][..i] == rows[..i];
      if t.Some? && Counts(rows[i], bandwidth, probe) {
        t := if rows[i].frames == 0 then None else Some(Noted(t.value, rows[i]));
      }
    }
    assert rows[..|rows|] == rows;
  }

  // ---- what a path says of a rung ----

  function RateAt(t: Table, k: Key, rung: nat): real {
    if k in t.rate && rung in t.rate[k] then t.rate[k][rung] else 0.0
  }

  /** Paths that carry the floor's slowest rung at some SNR. */
  function Usable(t: Table): set<string> {
    set k | k in t.rate.Keys && RateAt(t, k, 0) >= KEEP :: k.path
  }

  /** Where a path measured the rung and read an echo. */
  function KeysOn(t: Table, path: string, rung: nat): set<Key> {
    set k | k in t.rate.Keys && k.path == path && rung in t.rate[k] && k in t.echo
  }

  /** A slower rung measured there delivers more. */
  predicate Beaten(t: Table, worth: nat -> real, k: Key, rung: nat)
    requires k in t.rate && rung in t.rate[k]
  {
    exists q | q in t.rate[k].Keys ::
      q < rung && t.rate[k][q] * worth(q) > t.rate[k][rung] * worth(rung)
  }

  /** Beaten at every SNR measured. */
  predicate Refuses(t: Table, worth: nat -> real, path: string, rung: nat) {
    KeysOn(t, path, rung) != {} && forall k | k in KeysOn(t, path, rung) :: Beaten(t, worth, k, rung)
  }

  /** The places whose reading speaks against the rung, and those whose reading speaks for it. */
  function Refusing(t: Table, worth: nat -> real, rung: nat): set<Key> {
    set k | k in t.rate.Keys && k.path in Usable(t) && k in KeysOn(t, k.path, rung)
            && Refuses(t, worth, k.path, rung)
  }

  function Carrying(t: Table, worth: nat -> real, rung: nat): set<Key> {
    set k | k in t.rate.Keys && k.path in Usable(t) && k in KeysOn(t, k.path, rung)
            && !Refuses(t, worth, k.path, rung)
  }

  // ---- a rung's own limit ----

  ghost predicate IsLowest(t: Table, keys: set<Key>, x: real) {
    && (exists k | k in keys :: k in t.echo && t.echo[k] == x)
    && forall k | k in keys && k in t.echo :: x <= t.echo[k]
  }

  ghost predicate IsHighest(t: Table, keys: set<Key>, x: real) {
    && (exists k | k in keys :: k in t.echo && t.echo[k] == x)
    && forall k | k in keys && k in t.echo :: t.echo[k] <= x
  }

  method Lowest(t: Table, keys: set<Key>) returns (x: real)
    requires keys != {} && keys <= t.echo.Keys
    ensures IsLowest(t, keys, x)
  {
    var first :| first in keys;
    x := t.echo[first];
    var rest := keys - {first};
    while rest != {}
      invariant rest <= keys && IsLowest(t, keys - rest, x)
      decreases rest
    {
      var k :| k in rest;
      rest := rest - {k};
      if t.echo[k] < x { x := t.echo[k]; }
    }
    assert keys - rest == keys;
  }

  method Highest(t: Table, keys: set<Key>) returns (x: real)
    requires keys != {} && keys <= t.echo.Keys
    ensures IsHighest(t, keys, x)
  {
    var first :| first in keys;
    x := t.echo[first];
    var rest := keys - {first};
    while rest != {}
      invariant rest <= keys && IsHighest(t, keys - rest, x)
      decreases rest
    {
      var k :| k in rest;
      rest := rest - {k};
      if t.echo[k] > x { x := t.echo[k]; }
    }
    assert keys - rest == keys;
  }

  /** To four decimals. */
  function Rounded(x: real): real {
    RoundHalfEven(x * 10_000.0) as real / 10_000.0
  }

  /** `lo` is the rung's own limit before the tenth comes off: the lowest refusing reading, where
      it stands clear of every carrying one. */
  ghost predicate OwnLimit(t: Table, worth: nat -> real, rung: nat, lo: real) {
    && IsLowest(t, Refusing(t, worth, rung), lo)
    && forall k | k in Carrying(t, worth, rung) :: MARGIN * t.echo[k] <= lo
  }

  /** The keys whose path is among `paths`. */
  function Of(keys: set<Key>, paths: set<string>): set<Key> {
    set k | k in keys && k.path in paths
  }

  ghost predicate LowestSoFar(t: Table, keys: set<Key>, x: Option<real>) {
    if x.None? then keys == {} else IsLowest(t, keys, x.value)
  }

  ghost predicate HighestSoFar(t: Table, keys: set<Key>, x: Option<real>) {
    if x.None? then keys == {} else IsHighest(t, keys, x.value)
  }

  method NotedLowest(t: Table, ghost before: set<Key>, x: Option<real>, keys: set<Key>) returns (y: Option<real>)
    requires LowestSoFar(t, before, x) && keys != {} && keys <= t.echo.Keys
    ensures LowestSoFar(t, before + keys, y)
  {
    var lowest := Lowest(t, keys);
    y := Some(if x.Some? && x.value <= lowest then x.value else lowest);
  }

  method NotedHighest(t: Table, ghost before: set<Key>, x: Option<real>, keys: set<Key>) returns (y: Option<real>)
    requires HighestSoFar(t, before, x) && keys != {} && keys <= t.echo.Keys
    ensures HighestSoFar(t, before + keys, y)
  {
    var highest := Highest(t, keys);
    y := Some(if x.Some? && x.value >= highest then x.value else highest);
  }

  /** One more path adds its readings to one side. */
  lemma OneMorePath(t: Table, worth: nat -> real, rung: nat, done: set<string>, path: string)
    requires path in Usable(t)
    ensures Of(Refusing(t, worth, rung), done + {path})
            == Of(Refusing(t, worth, rung), done)
               + if Refuses(t, worth, path, rung) then KeysOn(t, path, rung) else {}
    ensures Of(Carrying(t, worth, rung), done + {path})
            == Of(Carrying(t, worth, rung), done)
               + if Refuses(t, worth, path, rung) then {} else KeysOn(t, path, rung)
  {
  }

  lemma AllPaths(t: Table, worth: nat -> real, rung: nat)
    ensures Of(Refusing(t, worth, rung), Usable(t)) == Refusing(t, worth, rung)
    ensures Of(Carrying(t, worth, rung), Usable(t)) == Carrying(t, worth, rung)
  {
  }

  /** One usable path's readings, which all refuse the rung or all carry it. */
  method ReadPath(t: Table, worth: nat -> real, rung: nat, ghost done: set<string>, path: string,
                  refused: Option<real>, carried: Option<real>)
    returns (refusedNow: Option<real>, carriedNow: Option<real>)
    requires path in Usable(t)
    requires LowestSoFar(t, Of(Refusing(t, worth, rung), done), refused)
    requires HighestSoFar(t, Of(Carrying(t, worth, rung), done), carried)
    ensures LowestSoFar(t, Of(Refusing(t, worth, rung), done + {path}), refusedNow)
    ensures HighestSoFar(t, Of(Carrying(t, worth, rung), done + {path}), carriedNow)
  {
    refusedNow, carriedNow := refused, carried;
    var keys := KeysOn(t, path, rung);
    OneMorePath(t, worth, rung, done, path);
    if keys != {} {
      if Refuses(t, worth, path, rung) {
        refusedNow := NotedLowest(t, Of(Refusing(t, worth, rung), done), refused, keys);
      } else {
        carriedNow := NotedHighest(t, Of(Carrying(t, worth, rung), done), carried, keys);
      }
    }
  }

  /** Every usable path's readings, sorted into refusing and carrying. */
  method ReadPaths(t: Table, worth: nat -> real, rung: nat)
    returns (refused: Option<real>, carried: Option<real>)
    ensures LowestSoFar(t, Refusing(t, worth, rung), refused)
    ensures HighestSoFar(t, Carrying(t, worth, rung), carried)
  {
    refused, carried := None, None;
    var paths := Usable(t);
    ghost var done: set<string> := {};
    while paths != {}
      invariant paths <= Usable(t) && done == Usable(t) - paths
      invariant LowestSoFar(t, Of(Refusing(t, worth, rung), done), refused)
      invariant HighestSoFar(t, Of(Carrying(t, worth, rung), done), carried)
      decreases paths
    {
      var path :| path in paths;
      refused, carried := ReadPath(t, worth, rung, done, path, refused, carried);
      paths, done := paths - {path}, done + {path};
    }
    assert done == Usable(t);
    AllPaths(t, worth, rung);
  }

  /** The rung's own limit, or none. */
  method OwnLimitOf(t: Table, worth: nat -> real, rung: nat) returns (limit: Option<real>)
    ensures limit.Some? ==> OwnLimit(t, worth, rung, limit.value)
    ensures limit.None? ==> forall lo :: !OwnLimit(t, worth, rung, lo)
  {
    var refused, carried := ReadPaths(t, worth, rung);
    if refused.None? { return None; }
    if carried.Some? && refused.value < MARGIN * carried.value { return None; }
    limit := refused;
  }

  lemma OwnLimitIsUnique(t: Table, worth: nat -> real, rung: nat, x: real, y: real)
    requires OwnLimit(t, worth, rung, x) && OwnLimit(t, worth, rung, y)
    ensures x == y
  {
    var j :| j in Refusing(t, worth, rung) && j in t.echo && t.echo[j] == x;
    var k :| k in Refusing(t, worth, rung) && k in t.echo && t.echo[k] == y;
    assert x <= t.echo[k] && y <= t.echo[j];
  }

  lemma OnlyLimit(t: Table, worth: nat -> real, rung: nat, x: real)
    requires OwnLimit(t, worth, rung, x)
    ensures forall y | OwnLimit(t, worth, rung, y) :: y == x
  {
    forall y | OwnLimit(t, worth, rung, y) ensures y == x {
      OwnLimitIsUnique(t, worth, rung, x, y);
    }
  }

  /** The rungs measured anywhere. */
  function Rungs(t: Table): set<nat> {
    set k, m | k in t.rate.Keys && m in t.rate[k].Keys :: m
  }

  /** The limit measured for a rung is its own with a tenth off, rounded; a rung without an own
      limit has none. */
  ghost predicate Settled(t: Table, worth: nat -> real, measured: map<nat, real>, rung: nat) {
    && (rung in measured ==>
          exists lo :: OwnLimit(t, worth, rung, lo) && measured[rung] == Rounded(lo * 0.9))
    && (forall lo | OwnLimit(t, worth, rung, lo) ::
          rung in measured && measured[rung] == Rounded(lo * 0.9))
  }

  ghost predicate AreMeasured(t: Table, worth: nat -> real, measured: map<nat, real>) {
    forall rung: nat :: Settled(t, worth, measured, rung)
  }

  method Measure(t: Table, worth: nat -> real) returns (measured: map<nat, real>)
    ensures AreMeasured(t, worth, measured)
  {
    measured := map[];
    var rungs := Rungs(t) - {0};
    NothingElseIsMeasured(t, worth);
    while rungs != {}
      invariant forall rung: nat :: rung in rungs ==> rung !in measured
      invariant forall rung: nat :: rung in rungs || Settled(t, worth, measured, rung)
      decreases rungs
    {
      var rung :| rung in rungs;
      var limit := OwnLimitOf(t, worth, rung);
      var next := if limit.Some? then measured[rung := Rounded(limit.value * 0.9)] else measured;
      SettleOne(t, worth, measured, rung, limit);
      forall r: nat | r != rung && Settled(t, worth, measured, r) ensures Settled(t, worth, next, r) {
        SettledElsewhere(t, worth, measured, next, r);
      }
      measured, rungs := next, rungs - {rung};
    }
  }

  lemma SettleOne(t: Table, worth: nat -> real, measured: map<nat, real>, rung: nat, limit: Option<real>)
    requires rung !in measured
    requires limit.Some? ==> OwnLimit(t, worth, rung, limit.value)
    requires limit.None? ==> forall lo :: !OwnLimit(t, worth, rung, lo)
    ensures Settled(t, worth, if limit.Some? then measured[rung := Rounded(limit.value * 0.9)] else measured, rung)
  {
    if limit.Some? { OnlyLimit(t, worth, rung, limit.value); }
  }

  lemma SettledElsewhere(t: Table, worth: nat -> real, measured: map<nat, real>, next: map<nat, real>, r: nat)
    requires Settled(t, worth, measured, r)
    requires r in next <==> r in measured
    requires r in next ==> next[r] == measured[r]
    ensures Settled(t, worth, next, r)
  {
  }

  lemma NothingElseIsMeasured(t: Table, worth: nat -> real)
    ensures forall rung: nat | rung !in Rungs(t) - {0} :: Settled(t, worth, map[], rung)
  {
    forall rung: nat | rung !in Rungs(t) - {0} ensures Settled(t, worth, map[], rung) {
      forall lo | OwnLimit(t, worth, rung, lo) ensures false {
        LimitedRungIsMeasuredAndNotSlowest(t, worth, rung, lo);
      }
    }
  }

  /** Only a rung with a slower one beside it can be refused: rung 0 never has a limit. */
  lemma LimitedRungIsMeasuredAndNotSlowest(t: Table, worth: nat -> real, rung: nat, lo: real)
    requires OwnLimit(t, worth, rung, lo)
    ensures rung in Rungs(t) && rung > 0
  {
    var k :| k in Refusing(t, worth, rung) && k in t.echo && t.echo[k] == lo;
    assert Refuses(t, worth, k.path, rung);
    assert k in KeysOn(t, k.path, rung);
    assert Beaten(t, worth, k, rung);
  }

  // ---- the hold-down ----

  /** A limit measured in the rung's family at the rung or below. */
  predicate HoldsDown(measured: map<nat, real>, isFloor: nat -> bool, q: nat, rung: nat) {
    q <= rung && q in measured && isFloor(q) == isFloor(rung)
  }

  /** `limit` is the lowest of them. */
  ghost predicate IsHeld(measured: map<nat, real>, isFloor: nat -> bool, rung: nat, limit: real) {
    && (exists q :: HoldsDown(measured, isFloor, q, rung) && measured[q] == limit)
    && forall q | HoldsDown(measured, isFloor, q, rung) :: limit <= measured[q]
  }

  /** Exactly the rungs among `rungs` with something to hold them down, each at the lowest. */
  ghost predicate AreHeld(measured: map<nat, real>, isFloor: nat -> bool, rungs: set<nat>, out: map<nat, real>) {
    && (forall rung | rung in out :: rung in rungs && IsHeld(measured, isFloor, rung, out[rung]))
    && (forall rung, q | rung in rungs && HoldsDown(measured, isFloor, q, rung) :: rung in out)
  }

  function Family(nRungs: nat, isFloor: nat -> bool, floor: bool): set<nat> {
    set r: nat | r < nRungs && isFloor(r) == floor
  }

  /** The ladder: both families. */
  function Ladder(nRungs: nat, isFloor: nat -> bool): set<nat> {
    Family(nRungs, isFloor, true) + Family(nRungs, isFloor, false)
  }

  /** What the walk up one family holds before rung `to`: the lowest limit met, if any. */
  ghost predicate HeldBelow(measured: map<nat, real>, isFloor: nat -> bool, floor: bool, to: nat, held: Option<real>) {
    match held
    case None => forall q | q in measured && q < to :: isFloor(q) != floor
    case Some(h) =>
      && (exists q | q in measured :: q < to && isFloor(q) == floor && measured[q] == h)
      && forall q | q in measured && q < to && isFloor(q) == floor :: h <= measured[q]
  }

  method HoldFamily(measured: map<nat, real>, nRungs: nat, isFloor: nat -> bool, floor: bool,
                    ghost done: set<nat>, before: map<nat, real>)
    returns (out: map<nat, real>)
    requires AreHeld(measured, isFloor, done, before)
    ensures AreHeld(measured, isFloor, done + Family(nRungs, isFloor, floor), out)
  {
    out := before;
    var held: Option<real> := None;
    for rung := 0 to nRungs
      invariant HeldBelow(measured, isFloor, floor, rung, held)
      invariant AreHeld(measured, isFloor, done + Family(rung, isFloor, floor), out)
    {
      if isFloor(rung) == floor {
        HeldStep(measured, isFloor, floor, rung, held);
        if rung in measured {
          held := Some(if held.None? || measured[rung] < held.value then measured[rung] else held.value);
        }
        if held.Some? {
          HeldHere(measured, isFloor, floor, rung, held.value);
          OneMoreHeld(measured, isFloor, floor, rung, done + Family(rung, isFloor, floor), out, held.value);
          out := out[rung := held.value];
        } else {
          NoneHeld(measured, isFloor, floor, rung, done + Family(rung, isFloor, floor), out);
        }
      }
      GrowFamily(rung, isFloor, floor, done);
    }
  }

  lemma HeldStep(measured: map<nat, real>, isFloor: nat -> bool, floor: bool, rung: nat, held: Option<real>)
    requires isFloor(rung) == floor && HeldBelow(measured, isFloor, floor, rung, held)
    ensures rung !in measured ==> HeldBelow(measured, isFloor, floor, rung + 1, held)
    ensures rung in measured ==>
              HeldBelow(measured, isFloor, floor, rung + 1,
                        Some(if held.None? || measured[rung] < held.value then measured[rung] else held.value))
  {
  }

  lemma GrowFamily(rung: nat, isFloor: nat -> bool, floor: bool, done: set<nat>)
    ensures done + Family(rung + 1, isFloor, floor)
            == done + Family(rung, isFloor, floor) + if isFloor(rung) == floor then {rung} else {}
  {
    assert Family(rung + 1, isFloor, floor)
           == Family(rung, isFloor, floor) + if isFloor(rung) == floor then {rung} else {};
  }

  lemma OneMoreHeld(measured: map<nat, real>, isFloor: nat -> bool, floor: bool, rung: nat,
                    rungs: set<nat>, out: map<nat, real>, h: real)
    requires AreHeld(measured, isFloor, rungs, out) && IsHeld(measured, isFloor, rung, h)
    ensures AreHeld(measured, isFloor, rungs + {rung}, out[rung := h])
  {
  }

  lemma NoneHeld(measured: map<nat, real>, isFloor: nat -> bool, floor: bool, rung: nat,
                 rungs: set<nat>, out: map<nat, real>)
    requires AreHeld(measured, isFloor, rungs, out)
    requires isFloor(rung) == floor && HeldBelow(measured, isFloor, floor, rung + 1, None)
    ensures AreHeld(measured, isFloor, rungs + {rung}, out)
  {
  }

  lemma HeldHere(measured: map<nat, real>, isFloor: nat -> bool, floor: bool, rung: nat, h: real)
    requires isFloor(rung) == floor && HeldBelow(measured, isFloor, floor, rung + 1, Some(h))
    ensures IsHeld(measured, isFloor, rung, h)
  {
    var q :| q in measured && q < rung + 1 && isFloor(q) == floor && measured[q] == h;
    assert HoldsDown(measured, isFloor, q, rung);
  }

  method HoldDown(measured: map<nat, real>, nRungs: nat, isFloor: nat -> bool) returns (out: map<nat, real>)
    ensures AreHeld(measured, isFloor, Ladder(nRungs, isFloor), out)
  {
    out := HoldFamily(measured, nRungs, isFloor, true, {}, map[]);
    out := HoldFamily(measured, nRungs, isFloor, false, Family(nRungs, isFloor, true), out);
    assert {} + Family(nRungs, isFloor, true) == Family(nRungs, isFloor, true);
  }

  /** A family's limits never rise with the rung, and once there is one every later rung has one. */
  lemma NeverRises(measured: map<nat, real>, isFloor: nat -> bool, rungs: set<nat>, out: map<nat, real>,
                   slow: nat, fast: nat)
    requires AreHeld(measured, isFloor, rungs, out)
    requires slow < fast && isFloor(slow) == isFloor(fast) && slow in out && fast in rungs
    ensures fast in out && out[fast] <= out[slow]
  {
    assert IsHeld(measured, isFloor, slow, out[slow]);
    var q :| HoldsDown(measured, isFloor, q, slow) && measured[q] == out[slow];
    assert HoldsDown(measured, isFloor, q, fast);
  }

  /** The bench's answer for one bandwidth, or None when a row that counts has no frames. */
  method Limits(rows: seq<Row>, bandwidth: int, probe: string -> bool, worth: nat -> real,
                nRungs: nat, isFloor: nat -> bool)
    returns (out: Option<map<nat, real>>)
    ensures out.Some? <==> TableOf(rows, bandwidth, probe).Some?
    ensures out.Some? ==> AreLimits(TableOf(rows, bandwidth, probe).value, worth, nRungs, isFloor, out.value)
  {
    var t := ReadRows(rows, bandwidth, probe);
    if t.None? { return None; }
    var measured := Measure(t.value, worth);
    var held := HoldDown(measured, nRungs, isFloor);
    out := Some(held);
  }

  ghost predicate AreLimits(t: Table, worth: nat -> real, nRungs: nat, isFloor: nat -> bool, out: map<nat, real>) {
    exists measured :: AreMeasured(t, worth, measured)
                       && AreHeld(measured, isFloor, Ladder(nRungs, isFloor), out)
  }

  // ---- what the limits are worth ----

  /** A carrying path's reading is well below the limit before rounding, by an eighth. */
  lemma CarryingIsClear(t: Table, worth: nat -> real, rung: nat, lo: real, k: Key)
    requires OwnLimit(t, worth, rung, lo) && k in Carrying(t, worth, rung)
    ensures 1.125 * t.echo[k] <= lo * 0.9
  {
    assert MARGIN * t.echo[k] <= lo;
  }

  /** Rounding to four decimals can undo the tenth taken off a small reading: these ranges, in
      ten-thousandths, are where it does. */
  predicate Swallowed(x: real) {
    || 5.0 / 9.0 < x <= 1.0
    || 5.0 / 3.0 <= x <= 2.0
    || 25.0 / 9.0 < x <= 3.0
    || 35.0 / 9.0 <= x <= 4.0
  }

  /** The rounded limit is below the reading it came from exactly when the reading is positive
      and not so small that rounding swallows the tenth. (A share is never negative.) */
  lemma RoundedIsBelow(lo: real)
    requires lo >= 0.0
    ensures Rounded(lo * 0.9) < lo <==> lo > 0.0 && !Swallowed(lo * 10_000.0)
  {
    var x := lo * 10_000.0;
    var n := RoundHalfEven(lo * 0.9 * 10_000.0);
    assert lo * 0.9 * 10_000.0 == 0.9 * x;
    assert Rounded(lo * 0.9) == n as real / 10_000.0;
    assert Rounded(lo * 0.9) < lo <==> (n as real) < x;
    TenthSurvives(x, n);
  }

  lemma TenthSurvives(x: real, n: int)
    requires x >= 0.0 && n == RoundHalfEven(0.9 * x)
    ensures (n as real) < x <==> x > 0.0 && !Swallowed(x)
  {
    if x > 5.0 {
    } else {
      assert 0 <= n <= 4;
    }
  }

  lemma HeldAtMost(measured: map<nat, real>, isFloor: nat -> bool, rungs: set<nat>, out: map<nat, real>,
                   rung: nat, q: nat)
    requires AreHeld(measured, isFloor, rungs, out)
    requires rung in rungs && HoldsDown(measured, isFloor, q, rung)
    ensures rung in out && out[rung] <= measured[q]
  {
    assert IsHeld(measured, isFloor, rung, out[rung]);
  }

  /** Every rung is held to nine tenths of any limit its family has at or below it. */
  lemma HeldToSlower(t: Table, worth: nat -> real, nRungs: nat, isFloor: nat -> bool, out: map<nat, real>,
                     rung: nat, q: nat, lo: real)
    requires AreLimits(t, worth, nRungs, isFloor, out)
    requires q <= rung < nRungs && isFloor(q) == isFloor(rung) && OwnLimit(t, worth, q, lo)
    ensures rung in out && out[rung] <= Rounded(lo * 0.9)
  {
    var measured :| AreMeasured(t, worth, measured) && AreHeld(measured, isFloor, Ladder(nRungs, isFloor), out);
    assert Settled(t, worth, measured, q);
    HeldAtMost(measured, isFloor, Ladder(nRungs, isFloor), out, rung, q);
  }

  ghost predicate HeldBy(t: Table, worth: nat -> real, isFloor: nat -> bool, rung: nat, limit: real, q: nat, l: real) {
    q <= rung && isFloor(q) == isFloor(rung) && OwnLimit(t, worth, q, l) && limit == Rounded(l * 0.9)
  }

  /** A rung is held to nothing but nine tenths of a limit its family has at or below it. */
  lemma HeldByOne(t: Table, worth: nat -> real, nRungs: nat, isFloor: nat -> bool, out: map<nat, real>, rung: nat)
    requires AreLimits(t, worth, nRungs, isFloor, out) && rung in out
    ensures exists q: nat, l :: HeldBy(t, worth, isFloor, rung, out[rung], q, l)
  {
    var measured :| AreMeasured(t, worth, measured) && AreHeld(measured, isFloor, Ladder(nRungs, isFloor), out);
    HeldToMeasured(measured, isFloor, Ladder(nRungs, isFloor), out, rung);
    var q: nat :| HoldsDown(measured, isFloor, q, rung) && measured[q] == out[rung];
    MeasuredIsOwn(t, worth, measured, q);
    var l :| OwnLimit(t, worth, q, l) && measured[q] == Rounded(l * 0.9);
    assert HeldBy(t, worth, isFloor, rung, out[rung], q, l);
  }

  lemma HeldToMeasured(measured: map<nat, real>, isFloor: nat -> bool, rungs: set<nat>, out: map<nat, real>, rung: nat)
    requires AreHeld(measured, isFloor, rungs, out) && rung in out
    ensures exists q: nat :: HoldsDown(measured, isFloor, q, rung) && measured[q] == out[rung]
  {
    assert IsHeld(measured, isFloor, rung, out[rung]);
  }

  lemma MeasuredIsOwn(t: Table, worth: nat -> real, measured: map<nat, real>, q: nat)
    requires AreMeasured(t, worth, measured) && q in measured
    ensures exists l :: OwnLimit(t, worth, q, l) && measured[q] == Rounded(l * 0.9)
  {
    assert Settled(t, worth, measured, q);
  }

  /** A limit of the rung's family at or below it rounds to less than `lo`. */
  ghost predicate HeldUnder(t: Table, worth: nat -> real, isFloor: nat -> bool, rung: nat, lo: real) {
    exists q: nat, l | q <= rung && isFloor(q) == isFloor(rung) && OwnLimit(t, worth, q, l) :: Rounded(l * 0.9) < lo
  }

  /** Every reading that refuses a rung stays above the limit it ends up with exactly when some limit of
      its family at or below it rounds to less than the lowest of them. The rung need have no limit of
      its own. */
  lemma StillRefusedExactly(t: Table, worth: nat -> real, nRungs: nat, isFloor: nat -> bool, out: map<nat, real>,
                            rung: nat, lo: real)
    requires AreLimits(t, worth, nRungs, isFloor, out)
    requires rung < nRungs && IsLowest(t, Refusing(t, worth, rung), lo)
    ensures (rung in out && forall k | k in Refusing(t, worth, rung) :: out[rung] < t.echo[k])
       <==> HeldUnder(t, worth, isFloor, rung, lo)
  {
    if HeldUnder(t, worth, isFloor, rung, lo) {
      var q: nat, l :| q <= rung && isFloor(q) == isFloor(rung) && OwnLimit(t, worth, q, l) && Rounded(l * 0.9) < lo;
      HeldToSlower(t, worth, nRungs, isFloor, out, rung, q, l);
    }
    if rung in out && forall k | k in Refusing(t, worth, rung) :: out[rung] < t.echo[k] {
      var k :| k in Refusing(t, worth, rung) && k in t.echo && t.echo[k] == lo;
      HeldByOne(t, worth, nRungs, isFloor, out, rung);
      var q: nat, l :| HeldBy(t, worth, isFloor, rung, out[rung], q, l);
      assert Rounded(l * 0.9) < lo;
    }
  }

  /** A reading of 0.01 %: nine tenths of it round back to it. */
  lemma SmallReadingSwallowed()
    ensures Rounded(0.0001 * 0.9) == 0.0001
  {
  }

  const FADE := Key("fade", 10.0)

  /** One path, which carries the slowest rung and loses the next, at that reading. */
  const LOST := Table(map[FADE := map[0 := 1.0, 1 := 0.0]], map[FADE := 0.0001])

  /** There the rung's limit is the reading that refuses it. */
  lemma RefusalLost(worth: nat -> real, out: map<nat, real>)
    requires worth(0) > 0.0 && AreLimits(LOST, worth, 2, _ => true, out)
    ensures FADE in Refusing(LOST, worth, 1) && 1 in out && out[1] == LOST.echo[FADE]
  {
    LostRefuses(worth);
    SmallReadingSwallowed();
    HeldToSlower(LOST, worth, 2, _ => true, out, 1, 1, 0.0001);
    HeldByOne(LOST, worth, 2, _ => true, out, 1);
    var q: nat, l :| HeldBy(LOST, worth, _ => true, 1, out[1], q, l);
    LimitedRungIsMeasuredAndNotSlowest(LOST, worth, q, l);
    OwnLimitIsUnique(LOST, worth, 1, l, 0.0001);
  }

  lemma LostRefuses(worth: nat -> real)
    requires worth(0) > 0.0
    ensures Refusing(LOST, worth, 1) == {FADE} && Carrying(LOST, worth, 1) == {}
    ensures OwnLimit(LOST, worth, 1, 0.0001)
  {
    assert RateAt(LOST, FADE, 0) == 1.0;
    assert FADE.path in Usable(LOST);
    assert KeysOn(LOST, FADE.path, 1) == {FADE};
    assert 0 in LOST.rate[FADE].Keys && LOST.rate[FADE][0] * worth(0) > LOST.rate[FADE][1] * worth(1);
    assert Beaten(LOST, worth, FADE, 1);
    assert Refuses(LOST, worth, FADE.path, 1);
    assert FADE in Refusing(LOST, worth, 1);
  }

  /** Rung 0 never gets a limit. */
  lemma SlowestHasNoLimit(t: Table, worth: nat -> real, nRungs: nat, isFloor: nat -> bool, out: map<nat, real>)
    requires AreLimits(t, worth, nRungs, isFloor, out)
    ensures 0 !in out
  {
    var measured :| AreMeasured(t, worth, measured) && AreHeld(measured, isFloor, Ladder(nRungs, isFloor), out);
    NothingMeasuredAtZero(t, worth, measured);
    NothingHeldAtZero(measured, isFloor, Ladder(nRungs, isFloor), out);
  }

  lemma NothingMeasuredAtZero(t: Table, worth: nat -> real, measured: map<nat, real>)
    requires AreMeasured(t, worth, measured)
    ensures 0 !in measured
  {
    var settled := Settled(t, worth, measured, 0);
    forall lo ensures !OwnLimit(t, worth, 0, lo) {
      if OwnLimit(t, worth, 0, lo) { LimitedRungIsMeasuredAndNotSlowest(t, worth, 0, lo); }
    }
  }

  lemma NothingHeldAtZero(measured: map<nat, real>, isFloor: nat -> bool, rungs: set<nat>, out: map<nat, real>)
    requires 0 !in measured && AreHeld(measured, isFloor, rungs, out)
    ensures 0 !in out
  {
  }
}
