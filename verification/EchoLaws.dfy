/**
 What the table and the limits of `EchoLimits` are, told row by row and reading by reading.
 */
module EchoLaws {
  import opened Options
  import opened EchoLimits

  // ---- the table, from the rows ----

  /** A row of this bandwidth, off the probes, that speaks of the rung at this place. */
  ghost predicate Speaks(r: Row, bandwidth: int, probe: string -> bool, k: Key, rung: nat) {
    r.bandwidth == bandwidth && !probe(r.path) && r.path == k.path && r.snr == k.snr && r.rung == rung
  }

  /** The last row that satisfies `p` is the `i`th. */
  ghost predicate IsLast(rows: seq<Row>, p: Row -> bool, i: nat) {
    i < |rows| && p(rows[i]) && forall j | i < j < |rows| :: !p(rows[j])
  }

  ghost predicate IsNowhere(rows: seq<Row>, p: Row -> bool) {
    forall j | 0 <= j < |rows| :: !p(rows[j])
  }

  /** There is no table exactly when a row that counts has no frames. */
  lemma {:induction false} NoTableExactly(rows: seq<Row>, bandwidth: int, probe: string -> bool)
    ensures TableOf(rows, bandwidth, probe).None?
       <==> exists i | 0 <= i < |rows| ::
              rows[i].bandwidth == bandwidth && !probe(rows[i].path) && rows[i].frames == 0
  {
    if rows != [] {
      var n := |rows| - 1;
      NoTableExactly(rows[..n], bandwidth, probe);
      assert forall i | 0 <= i < n :: rows[..n][i] == rows[i];
    }
  }

  lemma LastOfShorter(rows: seq<Row>, p: Row -> bool, i: nat)
    requires rows != [] && !p(rows[|rows| - 1])
    ensures IsLast(rows, p, i) ==> IsLast(rows[..|rows| - 1], p, i)
    ensures IsNowhere(rows, p) ==> IsNowhere(rows[..|rows| - 1], p)
  {
  }

  /** A rung's rate at a place is the share decoded of the last row that speaks of it there. */
  lemma {:induction false} RateIsOfLastRow(rows: seq<Row>, bandwidth: int, probe: string -> bool, k: Key, rung: nat,
                                           i: nat)
    requires TableOf(rows, bandwidth, probe).Some?
    ensures IsNowhere(rows, r => Speaks(r, bandwidth, probe, k, rung)) ==>
              var rate := TableOf(rows, bandwidth, probe).value.rate; k !in rate || rung !in rate[k]
    ensures IsLast(rows, r => Speaks(r, bandwidth, probe, k, rung), i) ==>
              var rate := TableOf(rows, bandwidth, probe).value.rate;
              && k in rate && rung in rate[k] && rows[i].frames > 0
              && rate[k][rung] * rows[i].frames as real == rows[i].decoded as real
  {
    if rows != [] {
      var n := |rows| - 1;
      var p := r => Speaks(r, bandwidth, probe, k, rung);
      if !p(rows[n]) { LastOfShorter(rows, p, i); }
      RateIsOfLastRow(rows[..n], bandwidth, probe, k, rung, i);
    }
  }

  /** A place's echo reading is that of the last row of the slowest rung there that has one. */
  lemma {:induction false} EchoIsOfLastRow(rows: seq<Row>, bandwidth: int, probe: string -> bool, k: Key, i: nat)
    requires TableOf(rows, bandwidth, probe).Some?
    ensures IsNowhere(rows, r => Speaks(r, bandwidth, probe, k, 0) && r.echo.Some?) ==>
              k !in TableOf(rows, bandwidth, probe).value.echo
    ensures IsLast(rows, r => Speaks(r, bandwidth, probe, k, 0) && r.echo.Some?, i) ==>
              var echo := TableOf(rows, bandwidth, probe).value.echo;
              k in echo && Some(echo[k]) == rows[i].echo
  {
    if rows != [] {
      var n := |rows| - 1;
      var p := r => Speaks(r, bandwidth, probe, k, 0) && r.echo.Some?;
      if !p(rows[n]) { LastOfShorter(rows, p, i); }
      EchoIsOfLastRow(rows[..n], bandwidth, probe, k, i);
    }
  }

  // ---- a reading's side ----

  /** The path carries the slowest rung, seven frames in ten, at some SNR. */
  ghost predicate Works(t: Table, path: string) {
    exists k | k in t.rate :: k.path == path && 0 in t.rate[k] && 10.0 * t.rate[k][0] >= 7.0
  }

  /** The rung was measured there, and an echo read. */
  ghost predicate Read(t: Table, k: Key, rung: nat) {
    k in t.rate && rung in t.rate[k] && k in t.echo
  }

  /** Some slower rung measured there delivers more. */
  ghost predicate Outdone(t: Table, worth: nat -> real, k: Key, rung: nat) {
    && k in t.rate && rung in t.rate[k]
    && exists q: nat :: q in t.rate[k] && q < rung && t.rate[k][rung] * worth(rung) < t.rate[k][q] * worth(q)
  }

  /** A reading refuses a rung exactly when its path works and the rung is outdone at every reading of
      that path; and carries it exactly when the path works and the rung holds its own at some. */
  lemma ReadingsSides(t: Table, worth: nat -> real, k: Key, rung: nat)
    ensures k in Refusing(t, worth, rung)
       <==> Read(t, k, rung) && Works(t, k.path)
            && forall j | Read(t, j, rung) && j.path == k.path :: Outdone(t, worth, j, rung)
    ensures k in Carrying(t, worth, rung)
       <==> Read(t, k, rung) && Works(t, k.path)
            && exists j :: Read(t, j, rung) && j.path == k.path && !Outdone(t, worth, j, rung)
  {
    WorksIsUsable(t, k.path);
    if Read(t, k, rung) { RefusesMeans(t, worth, k, rung); }
  }

  lemma WorksIsUsable(t: Table, path: string)
    ensures path in Usable(t) <==> Works(t, path)
  {
    if path in Usable(t) {
      var k :| k in t.rate.Keys && RateAt(t, k, 0) >= KEEP && k.path == path;
      assert 0 in t.rate[k];
    }
    if Works(t, path) {
      var k :| k in t.rate && k.path == path && 0 in t.rate[k] && 10.0 * t.rate[k][0] >= 7.0;
      assert RateAt(t, k, 0) >= KEEP;
    }
  }

  lemma RefusesMeans(t: Table, worth: nat -> real, k: Key, rung: nat)
    requires Read(t, k, rung)
    ensures Refuses(t, worth, k.path, rung)
       <==> forall j | Read(t, j, rung) && j.path == k.path :: Outdone(t, worth, j, rung)
  {
    forall j ensures j in KeysOn(t, k.path, rung) <==> Read(t, j, rung) && j.path == k.path {
    }
    forall j | Read(t, j, rung) ensures Beaten(t, worth, j, rung) == Outdone(t, worth, j, rung) {
    }
    assert k in KeysOn(t, k.path, rung);
  }

  /** A rung has a limit of its own exactly when something refuses it, and everything that refuses it
      reads at least five quarters of anything that carries it. */
  lemma OwnLimitExactly(t: Table, worth: nat -> real, rung: nat)
    ensures (exists lo :: OwnLimit(t, worth, rung, lo))
       <==> Refusing(t, worth, rung) != {}
            && forall j, k | j in Refusing(t, worth, rung) && k in Carrying(t, worth, rung) ::
                 4.0 * t.echo[j] >= 5.0 * t.echo[k]
  {
    var against, with := Refusing(t, worth, rung), Carrying(t, worth, rung);
    if lo :| OwnLimit(t, worth, rung, lo) {
      forall j, k | j in against && k in with ensures 4.0 * t.echo[j] >= 5.0 * t.echo[k] {
        assert MARGIN * t.echo[k] <= lo;
      }
    }
    if against != {} && forall j, k | j in against && k in with :: 4.0 * t.echo[j] >= 5.0 * t.echo[k] {
      var j := LowestOf(t, against);
      assert OwnLimit(t, worth, rung, t.echo[j]);
    }
  }

  lemma LowestOf(t: Table, keys: set<Key>) returns (j: Key)
    requires keys != {} && keys <= t.echo.Keys
    ensures j in keys && forall k | k in keys :: t.echo[j] <= t.echo[k]
  {
    var first :| first in keys;
    var rest := keys - {first};
    j := first;
    if rest != {} {
      var i := LowestOf(t, rest);
      assert i in keys;
      if t.echo[i] < t.echo[first] { j := i; }
    }
    forall k | k in keys ensures t.echo[j] <= t.echo[k] {
      assert k == first || k in rest;
    }
  }
}
