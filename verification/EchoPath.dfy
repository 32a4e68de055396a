/**
 The travel time and the second arrival of a path in tools/channel_server.py: two delay lines
 carried across blocks, which may be shorter than the delays.
 */
module EchoPath {
  import opened Bytes
  import opened Cable

  function Zeros<C>(a: Arithmetic<C>, n: nat): (z: seq<C>)
    ensures |z| == n
  {
    seq(n, _ => a.zero)
  }

  /** Sample `k` of a stream that was silent before it began. */
  function At<C>(a: Arithmetic<C>, x: seq<C>, k: int): C
    requires k < |x|
  {
    if k < 0 then a.zero else x[k]
  }

  /** The stream `n` samples later. */
  function Delayed<C>(a: Arithmetic<C>, x: seq<C>, n: nat): (y: seq<C>)
    ensures |y| == |x|
    ensures forall k | 0 <= k < |x| :: y[k] == At(a, x, k - n)
  {
    (Zeros(a, n) + x)[..|x|]
  }

  /** What a delay line of `n` holds after the stream. */
  function Held<C>(a: Arithmetic<C>, x: seq<C>, n: nat): (line: seq<C>)
    ensures |line| == n
  {
    (Zeros(a, n) + x)[|x|..]
  }

  /** A block through a line: what comes out, and what the line then holds. */
  lemma ThroughLine<C>(a: Arithmetic<C>, x: seq<C>, block: seq<C>, n: nat)
    ensures var line := Held(a, x, n) + block;
            && line[..|block|] == Delayed(a, x + block, n)[|x|..]
            && line[|block|..] == Held(a, x + block, n)
  {
    var line, whole := Held(a, x, n) + block, Zeros(a, n) + (x + block);
    assert line == whole[|x|..];
    assert line[..|block|] == whole[..|x + block|][|x|..];
    assert line[|block|..] == whole[|x + block|..];
  }

  lemma DelayedTwice<C>(a: Arithmetic<C>, x: seq<C>, n: nat, m: nat, k: nat)
    requires k < |x|
    ensures Delayed(a, Delayed(a, x, n), m)[k] == At(a, x, k - n - m)
  {
  }

  /** Sample `k` of both arrivals; an echo of no delay is no echo. */
  function Arrival<C>(a: Arithmetic<C>, x: seq<C>, k: nat, delay: nat, echo: nat, gain: real): C
    requires k < |x|
  {
    if echo == 0 then At(a, x, k - delay)
    else a.add(At(a, x, k - delay), a.scale(gain, At(a, x, k - delay - echo)))
  }

  /** Both arrivals of a whole stream. */
  function Arrivals<C>(a: Arithmetic<C>, x: seq<C>, delay: nat, echo: nat, gain: real): (y: seq<C>)
    ensures |y| == |x|
    ensures forall k | 0 <= k < |x| :: y[k] == Arrival(a, x, k, delay, echo, gain)
  {
    seq(|x|, k requires 0 <= k < |x| => Arrival(a, x, k, delay, echo, gain))
  }

  /** Sample `k` of the arrivals: the stream so much earlier, and the echo's share of it earlier still. */
  lemma ArrivalsAt<C>(a: Arithmetic<C>, x: seq<C>, delay: nat, echo: nat, gain: real, k: nat)
    requires k < |x|
    ensures var direct := if k < delay then a.zero else x[k - delay];
            var late := if k < delay + echo then a.zero else x[k - delay - echo];
            Arrivals(a, x, delay, echo, gain)[k] == if echo == 0 then direct else a.add(direct, a.scale(gain, late))
  {
  }

  class Lines<C> {
    const ops: Arithmetic<C>
    const gain: real
    var delay: seq<C>
    var echo: seq<C>

    ghost const delayLength: nat
    ghost const echoLength: nat
    ghost var entered: seq<C>   // the whole stream so far,
    ghost var arrived: seq<C>   // and all that came of it

    /** What the lines hold, and that what all the blocks so far gave is the whole stream's arrivals. */

    ghost predicate Valid()
      reads this
    {
      && arrived == Arrivals(ops, entered, delayLength, echoLength, gain)
      && delay == Held(ops, entered, delayLength)
      && echo == Held(ops, Delayed(ops, entered, delayLength), echoLength)
    }

    constructor (ops: Arithmetic<C>, delayLength: nat, echoLength: nat, gain: real)
      ensures Valid() && entered == [] && arrived == []
      ensures this.ops == ops && this.gain == gain
      ensures this.delayLength == delayLength && this.echoLength == echoLength
    {
      this.ops, this.gain := ops, gain;
      this.delayLength, this.echoLength := delayLength, echoLength;
      delay, echo := Zeros(ops, delayLength), Zeros(ops, echoLength);
      entered, arrived := [], [];
    }

    /** The delay and echo statements of a block. */
    method Process(block: seq<C>) returns (out: seq<C>)
      requires Valid()
      modifies this
      ensures Valid() && entered == old(entered) + block && arrived == old(arrived) + out
    {
      var baseband := ThroughDelay(block);
      out := ThroughEcho(baseband, block);
      ArrivalsPrefix(ops, entered, block, delayLength, echoLength, gain);
      entered, arrived := entered + block, arrived + out;
    }

    /** Blocks of any lengths, even shorter than the delays: together the whole stream's arrivals. */
    method ProcessAll(blocks: seq<seq<C>>) returns (out: seq<C>)
      requires Valid() && entered == []
      modifies this
      ensures Valid() && out == Arrivals(ops, Flat(blocks), delayLength, echoLength, gain)
    {
      out := [];
      assert blocks[..0] == [];
      for i := 0 to |blocks|
        invariant Valid() && entered == Flat(blocks[..i]) && arrived == out
      {
        FlatAppend(blocks[..i], blocks[i]);
        assert blocks[..i] + [blocks[i]] == blocks[..i + 1];
        var more := Process(blocks[i]);
        out := out + more;
      }
      assert blocks[..|blocks|] == blocks;
    }

    method ThroughDelay(block: seq<C>) returns (baseband: seq<C>)
      requires Valid()
      modifies this`delay
      ensures delay == Held(ops, entered + block, delayLength)
      ensures baseband == Delayed(ops, entered + block, delayLength)[|entered|..]
    {
      var n := |block|;
      baseband := block;
      ThroughLine(ops, entered, block, delayLength);
      if delay != [] {
        var line := delay + baseband;
        baseband, delay := line[..n], line[n..];
      }
    }

    method ThroughEcho(baseband: seq<C>, ghost block: seq<C>) returns (out: seq<C>)
      requires echo == Held(ops, Delayed(ops, entered, delayLength), echoLength)
      requires baseband == Delayed(ops, entered + block, delayLength)[|entered|..]
      modifies this`echo
      ensures echo == Held(ops, Delayed(ops, entered + block, delayLength), echoLength)
      ensures out == Arrivals(ops, entered + block, delayLength, echoLength, gain)[|entered|..]
    {
      var n := |baseband|;
      ghost var before, whole := Delayed(ops, entered, delayLength), entered + block;
      ghost var after := Delayed(ops, whole, delayLength);
      assert after == before + baseband by { DelayedPrefix(ops, entered, block, delayLength); }
      ThroughLine(ops, before, baseband, echoLength);
      out := baseband;
      if echo != [] {
        var line := echo + baseband;
        var late := line[..n];
        echo := line[n..];
        out := seq(n, k requires 0 <= k < n => ops.add(baseband[k], ops.scale(gain, late[k])));
        forall k | 0 <= k < n
          ensures out[k] == Arrival(ops, whole, |entered| + k, delayLength, echoLength, gain)
        {
          DelayedTwice(ops, whole, delayLength, echoLength, |entered| + k);
        }
      }
      assert out == Arrivals(ops, whole, delayLength, echoLength, gain)[|entered|..];
    }
  }

  lemma DelayedPrefix<C>(a: Arithmetic<C>, x: seq<C>, block: seq<C>, n: nat)
    ensures Delayed(a, x + block, n) == Delayed(a, x, n) + Delayed(a, x + block, n)[|x|..]
  {
  }

  lemma ArrivalsPrefix<C>(a: Arithmetic<C>, x: seq<C>, block: seq<C>, delay: nat, echo: nat, gain: real)
    ensures Arrivals(a, x + block, delay, echo, gain)
         == Arrivals(a, x, delay, echo, gain) + Arrivals(a, x + block, delay, echo, gain)[|x|..]
  {
    forall k | 0 <= k < |x|
      ensures Arrival(a, x + block, k, delay, echo, gain) == Arrival(a, x, k, delay, echo, gain)
    {
    }
  }
}
