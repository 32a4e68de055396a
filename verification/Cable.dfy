/**
 The block-by-block conversion between passband and baseband of tools/channel_cable.py. Every state
 is carried across blocks, so cutting a stream into blocks changes nothing.

 Samples are of any type `C` with the operations below. No law of theirs is used, so what is
 proved holds for complex numbers, exact or rounded, in the order of operations written here.
 */
module Cable {
  import opened Bytes
  import opened Options

  const DECIMATION := 6
  const AUDIO_RATE := 48_000
  /** The centre, 1500 Hz at 48 kHz, repeats every 32 samples. */
  const PERIOD := 32

  datatype Arithmetic<!C> = Arithmetic(
    zero: C,
    add: (C, C) -> C,
    scale: (real, C) -> C,
    /** A sample mixed up: twice the real part of its product with the oscillator. */
    beat: (C, C) -> real)

  // ---- the filter: scipy's lfilter with no feedback ----

  /** Delay register `i` of the transposed direct form after stream `x`: what earlier samples
      will still contribute to the output `i` samples from now. */
  function Register<C>(a: Arithmetic<C>, taps: seq<real>, x: seq<C>, i: nat): C
    decreases |x|
  {
    if i + 1 >= |taps| || x == [] then a.zero
    else a.add(a.scale(taps[i + 1], x[|x| - 1]), Register(a, taps, x[..|x| - 1], i + 1))
  }

  function Registers<C>(a: Arithmetic<C>, taps: seq<real>, x: seq<C>): (z: seq<C>)
    requires taps != []
    ensures |z| == |taps| - 1
  {
    seq(|taps| - 1, i requires 0 <= i < |taps| - 1 => Register(a, taps, x, i))
  }

  /** The filter's output for a whole stream. */
  function Filtered<C>(a: Arithmetic<C>, taps: seq<real>, x: seq<C>): (y: seq<C>)
    requires taps != []
    ensures |y| == |x|
  {
    if x == [] then []
    else
      var rest := x[..|x| - 1];
      Filtered(a, taps, rest)
      + [a.add(a.scale(taps[0], x[|x| - 1]), Register(a, taps, rest, 0))]
  }

  /** The convolution sum from tap `j` on: taps[j] * x[n - j] + ..., nothing before the start. */
  function Convolved<C>(a: Arithmetic<C>, taps: seq<real>, x: seq<C>, n: nat, j: nat): C
    requires n < |x| + j
    decreases |taps| - j
  {
    if j >= |taps| || j > n then a.zero
    else a.add(a.scale(taps[j], x[n - j]), Convolved(a, taps, x, n, j + 1))
  }

  lemma {:induction false} RegisterIsConvolution<C>(a: Arithmetic<C>, taps: seq<real>, x: seq<C>, k: nat, i: nat)
    requires k <= |x|
    ensures Register(a, taps, x[..k], i) == Convolved(a, taps, x, k + i, i + 1)
    decreases k
  {
    if i + 1 < |taps| && k > 0 {
      RegisterIsConvolution(a, taps, x, k - 1, i + 1);
      assert x[..k][..k - 1] == x[..k - 1];
    }
  }

  /** The registers compute the convolution of the stream with the taps. */
  lemma {:induction false} FilteredIsConvolution<C>(a: Arithmetic<C>, taps: seq<real>, x: seq<C>, n: nat)
    requires taps != [] && n < |x|
    ensures Filtered(a, taps, x)[n] == Convolved(a, taps, x, n, 0)
  {
    FilteredPrefix(a, taps, x, n + 1);
    assert x[..n + 1][..n] == x[..n];
    RegisterIsConvolution(a, taps, x, n, 0);
  }

  /** The filter looks only back. */
  lemma {:induction false} FilteredPrefix<C>(a: Arithmetic<C>, taps: seq<real>, x: seq<C>, n: nat)
    requires taps != [] && n <= |x|
    ensures Filtered(a, taps, x)[..n] == Filtered(a, taps, x[..n])
  {
    if n < |x| {
      FilteredPrefix(a, taps, x[..|x| - 1], n);
      assert x[..|x| - 1][..n] == x[..n];
    } else {
      assert x[..n] == x;
    }
  }

  /** A block through the filter, from the registers of an earlier stream `before`. */
  method Lfilter<C>(a: Arithmetic<C>, taps: seq<real>, x: seq<C>, zi: seq<C>, ghost before: seq<C>)
    returns (y: seq<C>, zf: seq<C>)
    requires taps != [] && zi == Registers(a, taps, before)
    ensures |y| == |x| && Filtered(a, taps, before + x) == Filtered(a, taps, before) + y
    ensures zf == Registers(a, taps, before + x)
  {
    y, zf := [], zi;
    assert before + x[..0] == before;
    for n := 0 to |x|
      invariant zf == Registers(a, taps, before + x[..n])
      invariant |y| == n && Filtered(a, taps, before) + y == Filtered(a, taps, before + x[..n])
    {
      ghost var sofar := before + x[..n];
      assert (before + x[..n + 1])[..|sofar|] == sofar;
      var head := if zf == [] then a.zero else zf[0];
      assert head == Register(a, taps, sofar, 0);
      y := y + [a.add(a.scale(taps[0], x[n]), head)];
      zf := Shift(a, taps, x[n], zf, sofar);
      assert sofar + [x[n]] == before + x[..n + 1];
    }
    assert x[..|x|] == x;
  }

  /** One sample enters the registers. */
  method Shift<C>(a: Arithmetic<C>, taps: seq<real>, s: C, z: seq<C>, ghost sofar: seq<C>)
    returns (moved: seq<C>)
    requires taps != [] && z == Registers(a, taps, sofar)
    ensures moved == Registers(a, taps, sofar + [s])
  {
    moved := [];
    assert (sofar + [s])[..|sofar|] == sofar;
    for i := 0 to |z|
      invariant |moved| == i
      invariant forall k | 0 <= k < i :: moved[k] == Register(a, taps, sofar + [s], k)
    {
      var next := if i + 1 < |z| then z[i + 1] else a.zero;
      assert next == Register(a, taps, sofar, i + 1);
      moved := moved + [a.add(a.scale(taps[i + 1], s), next)];
    }
  }

  // ---- down to baseband ----

  /** Audio times the oscillator, from the first sample of the stream. */
  function Tuned<C>(a: Arithmetic<C>, oscillator: seq<C>, audio: seq<real>): (x: seq<C>)
    requires |oscillator| == PERIOD
    ensures |x| == |audio|
  {
    seq(|audio|, k requires 0 <= k < |audio| => a.scale(audio[k], oscillator[k % PERIOD]))
  }

  /** The samples of `x` from `from` on that lie on the decimation grid of the whole stream. */
  function Grid<C>(x: seq<C>, from: nat): seq<C> {
    if |x| <= from then []
    else
      Grid(x[..|x| - 1], from) + if (|x| - 1) % DECIMATION == 0 then [x[|x| - 1]] else []
  }

  /** Baseband for a whole stream of audio. */
  function Baseband<C>(a: Arithmetic<C>, taps: seq<real>, oscillator: seq<C>, audio: seq<real>): seq<C>
    requires taps != [] && |oscillator| == PERIOD
  {
    Grid(Filtered(a, taps, Tuned(a, oscillator, audio)), 0)
  }

  /** `block[start::6]`. */
  method Decimated<C>(block: seq<C>, start: nat, ghost before: seq<C>) returns (out: seq<C>)
    requires start < DECIMATION && (|before| + start) % DECIMATION == 0
    ensures out == Grid(before + block, |before|)
  {
    out := [];
    assert before + block[..0] == before;
    for k := 0 to |block|
      invariant out == Grid(before + block[..k], |before|)
    {
      ghost var sofar := before + block[..k];
      assert (before + block[..k + 1])[..|sofar|] == sofar;
      assert (before + block[..k + 1])[|sofar|] == block[k];
      OnGrid(|before|, start, k);
      if k >= start && (k - start) % DECIMATION == 0 {
        out := out + [block[k]];
      }
    }
    assert block[..|block|] == block;
  }

  lemma OnGrid(before: nat, start: nat, k: nat)
    requires start < DECIMATION && (before + start) % DECIMATION == 0
    ensures (before + k) % DECIMATION == 0 <==> k >= start && (k - start) % DECIMATION == 0
  {
  }

  /** Where the grid that runs through the stream falls in the next block. */
  function GridStart(offset: nat): (start: nat)
    ensures start < DECIMATION && (offset + start) % DECIMATION == 0
  {
    -(offset as int) % DECIMATION
  }

  lemma GridStartInStep(heard: nat, offset: nat)
    requires offset == heard % DECIMATION
    ensures (heard + GridStart(offset)) % DECIMATION == 0
  {
  }

  // ---- up to audio ----

  /** Baseband with zeros between, `n` long. */
  function Stuffed<C>(a: Arithmetic<C>, baseband: seq<C>, n: nat): (x: seq<C>)
    ensures |x| == n
  {
    seq(n, k requires 0 <= k < n =>
      if k % DECIMATION == 0 && k / DECIMATION < |baseband| then baseband[k / DECIMATION] else a.zero)
  }

  /** Audio for a whole stream of zero-stuffed baseband. */
  function Raised<C>(a: Arithmetic<C>, taps: seq<real>, oscillator: seq<C>, stuffed: seq<C>): (audio: seq<real>)
    requires taps != [] && |oscillator| == PERIOD
    ensures |audio| == |stuffed|
  {
    var y := Filtered(a, taps, stuffed);
    seq(|y|, k requires 0 <= k < |y| => a.beat(y[k], oscillator[k % PERIOD]))
  }

  /** What is stuffed comes back on the grid of mixing down, and everything off it is zero. */
  lemma {:induction false} StuffedOnGrid<C>(a: Arithmetic<C>, baseband: seq<C>)
    ensures Grid(Stuffed(a, baseband, 6 * |baseband|), 0) == baseband
    ensures forall k | 0 <= k < 6 * |baseband| && k % 6 != 0 :: Stuffed(a, baseband, 6 * |baseband|)[k] == a.zero
  {
    var x := Stuffed(a, baseband, 6 * |baseband|);
    assert forall k | 0 <= k < |x| && k % 6 != 0 :: x[k] == a.zero;
    GridAt(x, 0);
    forall i | 0 <= i < |baseband| ensures Grid(x, 0)[i] == baseband[i] {
      GridAt(x, i);
    }
  }

  /** The taps times the decimation: the gain that makes up for the zeros. */
  function Gained(taps: seq<real>): (t: seq<real>)
    ensures |t| == |taps|
  {
    seq(|taps|, j requires 0 <= j < |taps| => taps[j] * 6.0)
  }

  /** A block beaten down by the oscillator, from a phase kept modulo a second of audio: as from the
      true index. */
  method TuneBlock<C>(a: Arithmetic<C>, oscillator: seq<C>, phase: nat, ghost index: nat, audio: seq<real>)
    returns (mixed: seq<C>)
    requires |oscillator| == PERIOD && phase == index % AUDIO_RATE
    ensures |mixed| == |audio|
    ensures forall k | 0 <= k < |audio| :: mixed[k] == a.scale(audio[k], oscillator[(index + k) % PERIOD])
  {
    mixed := [];
    for k := 0 to |audio|
      invariant |mixed| == k
      invariant forall i | 0 <= i < k :: mixed[i] == a.scale(audio[i], oscillator[(index + i) % PERIOD])
    {
      PhaseCongruent(phase, index, k);
      mixed := mixed + [a.scale(audio[k], oscillator[(phase + k) % PERIOD])];
    }
  }

  lemma TunedMore<C>(a: Arithmetic<C>, oscillator: seq<C>, heard: seq<real>, audio: seq<real>, mixed: seq<C>)
    requires |oscillator| == PERIOD && |mixed| == |audio|
    requires forall k | 0 <= k < |audio| :: mixed[k] == a.scale(audio[k], oscillator[(|heard| + k) % PERIOD])
    ensures Tuned(a, oscillator, heard + audio) == Tuned(a, oscillator, heard) + mixed
  {
    forall i | 0 <= i < |heard + audio|
      ensures Tuned(a, oscillator, heard + audio)[i] == (Tuned(a, oscillator, heard) + mixed)[i]
    {
      if i >= |heard| {
        assert mixed[i - |heard|] == a.scale(audio[i - |heard|], oscillator[(|heard| + (i - |heard|)) % PERIOD]);
      }
    }
  }

  /** A filtered block beaten up to audio, likewise. */
  method BeatBlock<C>(a: Arithmetic<C>, oscillator: seq<C>, phase: nat, ghost index: nat, y: seq<C>)
    returns (audio: seq<real>)
    requires |oscillator| == PERIOD && phase == index % AUDIO_RATE
    ensures |audio| == |y|
    ensures forall k | 0 <= k < |y| :: audio[k] == a.beat(y[k], oscillator[(index + k) % PERIOD])
  {
    audio := [];
    for k := 0 to |y|
      invariant |audio| == k
      invariant forall i | 0 <= i < k :: audio[i] == a.beat(y[i], oscillator[(index + i) % PERIOD])
    {
      PhaseCongruent(phase, index, k);
      audio := audio + [a.beat(y[k], oscillator[(phase + k) % PERIOD])];
    }
  }

  /** The state and the counters that the audio `heard` leaves, and the baseband given for it. */
  ghost predicate DownRight<C>(a: Arithmetic<C>, taps: seq<real>, oscillator: seq<C>, state: seq<C>, phase: nat,
                               offset: nat, heard: seq<real>, given: seq<C>)
  {
    && taps != [] && |oscillator| == PERIOD
    && state == Registers(a, taps, Tuned(a, oscillator, heard))
    && phase == |heard| % AUDIO_RATE && offset == |heard| % DECIMATION
    && given == Baseband(a, taps, oscillator, heard)
  }

  /** A block of audio tuned, filtered and decimated. */
  method FilterDown<C>(a: Arithmetic<C>, taps: seq<real>, oscillator: seq<C>, state: seq<C>, phase: nat, offset: nat,
                       ghost heard: seq<real>, audio: seq<real>)
    returns (out: seq<C>, next: seq<C>)
    requires taps != [] && |oscillator| == PERIOD
    requires state == Registers(a, taps, Tuned(a, oscillator, heard))
    requires phase == |heard| % AUDIO_RATE && offset == |heard| % DECIMATION
    ensures next == Registers(a, taps, Tuned(a, oscillator, heard + audio))
    ensures out == Grid(Filtered(a, taps, Tuned(a, oscillator, heard + audio)), |heard|)
  {
    var mixed := TuneBlock(a, oscillator, phase, |heard|, audio);
    ghost var before := Tuned(a, oscillator, heard);
    TunedMore(a, oscillator, heard, audio, mixed);
    var y;
    y, next := Lfilter(a, taps, mixed, state, before);
    GridStartInStep(|heard|, offset);
    out := Decimated(y, GridStart(offset), Filtered(a, taps, before));
  }

  /** The same, its account kept. */
  method DownBlock<C>(a: Arithmetic<C>, taps: seq<real>, oscillator: seq<C>, state: seq<C>, phase: nat, offset: nat,
                      ghost heard: seq<real>, ghost given: seq<C>, audio: seq<real>)
    returns (out: seq<C>, next: seq<C>)
    requires DownRight(a, taps, oscillator, state, phase, offset, heard, given)
    ensures DownRight(a, taps, oscillator, next, (phase + |audio|) % AUDIO_RATE, (offset + |audio|) % DECIMATION,
                      heard + audio, given + out)
  {
    out, next := FilterDown(a, taps, oscillator, state, phase, offset, heard, audio);
    DownMore(a, taps, oscillator, state, phase, offset, heard, given, audio, out, next);
  }

  lemma DownMore<C>(a: Arithmetic<C>, taps: seq<real>, oscillator: seq<C>, state: seq<C>, phase: nat, offset: nat,
                    heard: seq<real>, given: seq<C>, audio: seq<real>, out: seq<C>, next: seq<C>)
    requires DownRight(a, taps, oscillator, state, phase, offset, heard, given)
    requires next == Registers(a, taps, Tuned(a, oscillator, heard + audio))
    requires out == Grid(Filtered(a, taps, Tuned(a, oscillator, heard + audio)), |heard|)
    ensures DownRight(a, taps, oscillator, next, (phase + |audio|) % AUDIO_RATE, (offset + |audio|) % DECIMATION,
                      heard + audio, given + out)
  {
    PhaseAdvances(phase, |heard|, |audio|);
    OffsetAdvances(offset, |heard|, |audio|);
    BasebandGrows(a, taps, oscillator, heard, audio);
  }

  /** The state and the counter that the stuffed baseband `raised` leaves, and the audio given for it. */
  ghost predicate UpRight<C>(a: Arithmetic<C>, taps: seq<real>, oscillator: seq<C>, state: seq<C>, phase: nat,
                             raised: seq<C>, given: seq<real>)
  {
    && taps != [] && |oscillator| == PERIOD
    && state == Registers(a, taps, raised) && phase == |raised| % AUDIO_RATE
    && given == Raised(a, taps, oscillator, raised)
  }

  /** A block of stuffed baseband filtered and beaten up, from what `raised` before it left. */
  method FilterUp<C>(a: Arithmetic<C>, taps: seq<real>, oscillator: seq<C>, state: seq<C>, phase: nat,
                     ghost raised: seq<C>, stuffed: seq<C>)
    returns (audio: seq<real>, next: seq<C>)
    requires taps != [] && |oscillator| == PERIOD
    requires state == Registers(a, taps, raised) && phase == |raised| % AUDIO_RATE
    ensures next == Registers(a, taps, raised + stuffed)
    ensures audio == Raised(a, taps, oscillator, raised + stuffed)[|raised|..]
  {
    var y;
    y, next := Lfilter(a, taps, stuffed, state, raised);
    audio := BeatBlock(a, oscillator, phase, |raised|, y);
  }

  lemma UpMore<C>(a: Arithmetic<C>, taps: seq<real>, oscillator: seq<C>, state: seq<C>, phase: nat, raised: seq<C>,
                  given: seq<real>, stuffed: seq<C>, audio: seq<real>, next: seq<C>)
    requires UpRight(a, taps, oscillator, state, phase, raised, given)
    requires next == Registers(a, taps, raised + stuffed)
    requires audio == Raised(a, taps, oscillator, raised + stuffed)[|raised|..]
    ensures UpRight(a, taps, oscillator, next, (phase + |stuffed|) % AUDIO_RATE, raised + stuffed, given + audio)
  {
    PhaseAdvances(phase, |raised|, |stuffed|);
    RaisedGrows(a, taps, oscillator, raised, stuffed);
  }

  class CableChannel<C> {
    const ops: Arithmetic<C>
    const taps: seq<real>
    const down: seq<C>  // the oscillator mixing down, one period
    const up: seq<C>    // and mixing up
    var downState: seq<C>
    var upState: seq<C>
    var phaseDown: nat
    var phaseUp: nat
    var decimationOffset: nat

    ghost var heard: seq<real>      // all audio mixed down so far,
    ghost var baseband: seq<C>      // and all the baseband given for it
    ghost var raised: seq<C>        // all zero-stuffed baseband mixed up so far,
    ghost var audio: seq<real>      // and all the audio given for it

    /** What all the blocks so far gave, one after another, is what the whole streams give. */
    ghost predicate Valid()
      reads this
    {
      DownValid() && UpValid()
    }

    ghost predicate DownValid()
      reads this`downState, this`phaseDown, this`decimationOffset, this`heard, this`baseband
    {
      DownRight(ops, taps, down, downState, phaseDown, decimationOffset, heard, baseband)
    }

    ghost predicate UpValid()
      reads this`upState, this`phaseUp, this`raised, this`audio
    {
      UpRight(ops, Gained(taps), up, upState, phaseUp, raised, audio)
    }

    constructor (ops: Arithmetic<C>, taps: seq<real>, down: seq<C>, up: seq<C>)
      requires taps != [] && |down| == |up| == PERIOD
      ensures Valid() && heard == [] && baseband == [] && raised == [] && audio == []
      ensures this.ops == ops && this.taps == taps && this.down == down && this.up == up
    {
      this.ops, this.taps, this.down, this.up := ops, taps, down, up;
      downState := seq(|taps| - 1, _ => ops.zero);
      upState := seq(|taps| - 1, _ => ops.zero);
      phaseDown, phaseUp, decimationOffset := 0, 0, 0;
      heard, baseband, raised, audio := [], [], [], [];
    }

    /** A block of audio of any length to baseband. */
    method MixDown(block: seq<real>) returns (out: seq<C>)
      requires DownValid()
      modifies this`downState, this`phaseDown, this`decimationOffset, this`heard, this`baseband
      ensures DownValid() && heard == old(heard) + block && baseband == old(baseband) + out
    {
      var n := |block|;
      var next;
      out, next := DownBlock(ops, taps, down, downState, phaseDown, decimationOffset, heard, baseband, block);
      downState, phaseDown := next, (phaseDown + n) % AUDIO_RATE;
      decimationOffset := (decimationOffset + n) % DECIMATION;
      heard, baseband := heard + block, baseband + out;
    }

    /** A block of baseband to `n` samples of audio; None is numpy's refusal to store a block
        that does not fit every sixth of `n` samples (one sample alone fits none). */
    method MixUp(block: seq<C>, n: nat) returns (out: Option<seq<real>>)
      requires UpValid()
      modifies this`upState, this`phaseUp, this`raised, this`audio
      ensures UpValid()
      ensures out.None? <==> |block| >= 2 && n <= DECIMATION * (|block| - 1)
      ensures raised == if out.Some? then old(raised) + Stuffed(ops, block, n) else old(raised)
      ensures audio == if out.Some? then old(audio) + out.value else old(audio)
    {
      if |block| >= 2 && n <= DECIMATION * (|block| - 1) {
        return None;
      }
      var stuffed := Stuffed(ops, block, n);
      var given, next := FilterUp(ops, Gained(taps), up, upState, phaseUp, raised, stuffed);
      UpMore(ops, Gained(taps), up, upState, phaseUp, raised, audio, stuffed, given, next);
      upState, phaseUp := next, (phaseUp + n) % AUDIO_RATE;
      raised, audio := raised + stuffed, audio + given;
      out := Some(given);
    }

    /** Blocks of audio of any lengths, one after another: together the whole stream's baseband. */
    method MixDownAll(blocks: seq<seq<real>>) returns (out: seq<C>)
      requires DownValid() && heard == []
      modifies this`downState, this`phaseDown, this`decimationOffset, this`heard, this`baseband
      ensures DownValid() && out == Baseband(ops, taps, down, Flat(blocks))
    {
      out := [];
      assert blocks[..0] == [];
      for i := 0 to |blocks|
        invariant DownValid() && heard == Flat(blocks[..i]) && baseband == out
      {
        FlatAppend(blocks[..i], blocks[i]);
        assert blocks[..i] + [blocks[i]] == blocks[..i + 1];
        var more := MixDown(blocks[i]);
        out := out + more;
      }
      assert blocks[..|blocks|] == blocks;
    }

    /** Blocks of baseband, one after another, at six samples of audio for each of theirs: together the
        whole stream's interpolation. */
    method MixUpAll(blocks: seq<seq<C>>) returns (out: seq<real>)
      requires UpValid() && raised == []
      modifies this`upState, this`phaseUp, this`raised, this`audio
      ensures UpValid()
      ensures out == Raised(ops, Gained(taps), up, Stuffed(ops, Flat(blocks), DECIMATION * |Flat(blocks)|))
    {
      out := [];
      assert blocks[..0] == [];
      for i := 0 to |blocks|
        invariant UpValid() && audio == out
        invariant raised == Stuffed(ops, Flat(blocks[..i]), DECIMATION * |Flat(blocks[..i])|)
      {
        FlatAppend(blocks[..i], blocks[i]);
        assert blocks[..i] + [blocks[i]] == blocks[..i + 1];
        StuffedConcat(ops, Flat(blocks[..i]), blocks[i]);
        var more := MixUp(blocks[i], DECIMATION * |blocks[i]|);
        out := out + more.value;
      }
      assert blocks[..|blocks|] == blocks;
    }
  }

  /** A counter kept modulo a second of audio, or modulo the decimation, keeps step. */
  lemma PhaseAdvances(counter: nat, index: nat, n: nat)
    requires counter == index % AUDIO_RATE
    ensures (counter + n) % AUDIO_RATE == (index + n) % AUDIO_RATE
  {
    assert index + n == counter + n + AUDIO_RATE * (index / AUDIO_RATE);
    RateMultiple(counter + n, index / AUDIO_RATE);
  }

  lemma RateMultiple(x: nat, m: nat)
    ensures (x + AUDIO_RATE * m) % AUDIO_RATE == x % AUDIO_RATE
  {
  }

  lemma OffsetAdvances(counter: nat, index: nat, n: nat)
    requires counter == index % DECIMATION
    ensures (counter + n) % DECIMATION == (index + n) % DECIMATION
  {
  }

  /** A phase counter kept modulo a second of audio is in step with the true index. */
  lemma PhaseCongruent(phase: nat, index: nat, k: nat)
    requires phase == index % AUDIO_RATE
    ensures (phase + k) % PERIOD == (index + k) % PERIOD
  {
    var q := index / AUDIO_RATE;
    assert index + k == phase + k + PERIOD * (1500 * q);
    PeriodMultiple(phase + k, 1500 * q);
  }

  lemma PeriodMultiple(x: nat, m: nat)
    ensures (x + PERIOD * m) % PERIOD == x % PERIOD
  {
  }

  // ---- sample by sample ----

  /** A filter of two taps, written out. */
  lemma TwoTaps<C>(a: Arithmetic<C>, taps: seq<real>, x: seq<C>, n: nat)
    requires |taps| == 2 && 0 < n < |x|
    ensures Filtered(a, taps, x)[n] == a.add(a.scale(taps[0], x[n]), a.add(a.scale(taps[1], x[n - 1]), a.zero))
    ensures Filtered(a, taps, x)[0] == a.add(a.scale(taps[0], x[0]), a.zero)
  {
    FilteredIsConvolution(a, taps, x, n);
    FilteredIsConvolution(a, taps, x, 0);
    assert Convolved(a, taps, x, n, 2) == a.zero && Convolved(a, taps, x, 0, 1) == a.zero;
    assert Convolved(a, taps, x, n, 1) == a.add(a.scale(taps[1], x[n - 1]), a.zero);
  }

  /** Baseband sample `i` is the convolution of the taps with the audio times the oscillator, at the
      audio sample `6 * i`. */
  lemma BasebandAt<C>(a: Arithmetic<C>, taps: seq<real>, oscillator: seq<C>, audio: seq<real>, mixed: seq<C>, i: nat)
    requires taps != [] && |oscillator| == 32 && 6 * i < |audio| == |mixed|
    requires forall k | 0 <= k < |audio| :: mixed[k] == a.scale(audio[k], oscillator[k % 32])
    ensures |Baseband(a, taps, oscillator, audio)| == (|audio| + 5) / 6
    ensures Baseband(a, taps, oscillator, audio)[i] == Convolved(a, taps, mixed, 6 * i, 0)
  {
    assert Tuned(a, oscillator, audio) == mixed;
    GridAt(Filtered(a, taps, mixed), i);
    FilteredIsConvolution(a, taps, mixed, 6 * i);
  }

  /** Audio sample `k` of a stream of baseband: beaten up by the oscillator, the convolution of the
      taps, each times six, with the baseband at every sixth sample and zeros between. */
  lemma AudioAt<C>(a: Arithmetic<C>, taps: seq<real>, oscillator: seq<C>, baseband: seq<C>, gained: seq<real>,
                   stream: seq<C>, k: nat)
    requires taps != [] && |oscillator| == 32 && k < |stream| == 6 * |baseband|
    requires |gained| == |taps| && forall j | 0 <= j < |taps| :: gained[j] == taps[j] * 6.0
    requires forall j | 0 <= j < |stream| :: stream[j] == if j % 6 == 0 then baseband[j / 6] else a.zero
    ensures |Raised(a, Gained(taps), oscillator, Stuffed(a, baseband, 6 * |baseband|))| == 6 * |baseband|
    ensures Raised(a, Gained(taps), oscillator, Stuffed(a, baseband, 6 * |baseband|))[k]
         == a.beat(Convolved(a, gained, stream, k, 0), oscillator[k % 32])
  {
    assert Stuffed(a, baseband, 6 * |baseband|) == stream && Gained(taps) == gained;
    FilteredIsConvolution(a, gained, stream, k);
  }

  // ---- any blocks, the same stream ----

  lemma {:induction false} GridSplits<C>(x: seq<C>, from: nat)
    requires from <= |x|
    ensures Grid(x, 0) == Grid(x[..from], 0) + Grid(x, from)
  {
    if from < |x| {
      var rest := x[..|x| - 1];
      GridSplits(rest, from);
      assert rest[..from] == x[..from];
    } else {
      assert x[..from] == x;
    }
  }

  /** More audio only adds to the baseband: what the whole stream has on the grid beyond it. */
  lemma BasebandGrows<C>(a: Arithmetic<C>, taps: seq<real>, oscillator: seq<C>, heard: seq<real>, audio: seq<real>)
    requires taps != [] && |oscillator| == PERIOD
    ensures Baseband(a, taps, oscillator, heard + audio)
         == Baseband(a, taps, oscillator, heard)
            + Grid(Filtered(a, taps, Tuned(a, oscillator, heard + audio)), |heard|)
  {
    var before, all := Tuned(a, oscillator, heard), Tuned(a, oscillator, heard + audio);
    assert all[..|before|] == before;
    FilteredPrefix(a, taps, all, |before|);
    GridSplits(Filtered(a, taps, all), |before|);
  }

  /** On the grid: baseband sample `i` is the filtered sample at `6 * i`. */
  lemma {:induction false} GridAt<C>(x: seq<C>, i: nat)
    ensures |Grid(x, 0)| == (|x| + DECIMATION - 1) / DECIMATION
    ensures i < |Grid(x, 0)| ==> DECIMATION * i < |x| && Grid(x, 0)[i] == x[DECIMATION * i]
    decreases |x|
  {
    if x != [] {
      GridAt(x[..|x| - 1], i);
    }
  }

  /** A block of a multiple of six samples, after such blocks, gives a sixth as many, so mixing
      the impaired block back up never fails. */
  lemma WholeBlocksFit<C>(x: seq<C>, from: nat)
    requires from <= |x| && |x| % DECIMATION == 0 && from % DECIMATION == 0
    ensures DECIMATION * |Grid(x, from)| == |x| - from
  {
    GridSplits(x, from);
    GridAt(x, 0);
    GridAt(x[..from], 0);
  }

  lemma StuffedConcat<C>(a: Arithmetic<C>, x: seq<C>, y: seq<C>)
    ensures Stuffed(a, x + y, DECIMATION * |x + y|)
         == Stuffed(a, x, DECIMATION * |x|) + Stuffed(a, y, DECIMATION * |y|)
  {
    var n := DECIMATION * |x|;
    forall k | 0 <= k < DECIMATION * |x + y|
      ensures Stuffed(a, x + y, DECIMATION * |x + y|)[k]
           == (Stuffed(a, x, n) + Stuffed(a, y, DECIMATION * |y|))[k]
    {
      if k >= n {
        assert k == n + (k - n) && (k - n) / DECIMATION == k / DECIMATION - |x|;
        assert (k - n) % DECIMATION == k % DECIMATION;
      }
    }
  }

  /** More stuffed baseband only adds to the audio. */
  lemma RaisedGrows<C>(a: Arithmetic<C>, taps: seq<real>, oscillator: seq<C>, before: seq<C>, more: seq<C>)
    requires taps != [] && |oscillator| == PERIOD
    ensures Raised(a, taps, oscillator, before + more)
         == Raised(a, taps, oscillator, before) + Raised(a, taps, oscillator, before + more)[|before|..]
  {
    assert (before + more)[..|before|] == before;
    FilteredPrefix(a, taps, before + more, |before|);
  }
}
