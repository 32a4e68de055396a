/**
 The closed-form noise of tools/make_phy_vectors.py: SplitMix64 on 64-bit words, each draw's
 top 53 bits mapped to [-1, 1). Words are integers below 2^64, masking is reduction modulo
 2^64, and exclusive-or works on the word's bits.
 */
module SplitMix {

  const TWO_64 := 0x1_0000_0000_0000_0000
  const TWO_53 := 0x20_0000_0000_0000

  type Word = x: nat | x < 0x1_0000_0000_0000_0000

  // ---- bits ----

  function Pow2(n: nat): (p: nat)
    ensures p > 0
  {
    if n == 0 then 1 else 2 * Pow2(n - 1)
  }

  /** The low `n` bits of `z`, least significant first. */
  function Bits(z: nat, n: nat): (bits: seq<bool>)
    ensures |bits| == n
  {
    if n == 0 then [] else [z % 2 == 1] + Bits(z / 2, n - 1)
  }

  function FromBits(bits: seq<bool>): nat {
    if bits == [] then 0 else (if bits[0] then 1 else 0) + 2 * FromBits(bits[1..])
  }

  lemma {:induction false} FromBitsBound(bits: seq<bool>)
    ensures FromBits(bits) < Pow2(|bits|)
  {
    if bits != [] { FromBitsBound(bits[1..]); }
  }

  /** A word from its bits. */
  function Pack(bits: seq<bool>): Word
    requires |bits| == 64
  {
    Pow2Of64();
    FromBitsBound(bits);
    FromBits(bits)
  }

  lemma {:induction false} BitsThenBack(z: nat, n: nat)
    requires z < Pow2(n)
    ensures FromBits(Bits(z, n)) == z
  {
    if n > 0 {
      BitsThenBack(z / 2, n - 1);
      assert Bits(z, n)[1..] == Bits(z / 2, n - 1);
    }
  }

  lemma {:induction false} BackThenBits(bits: seq<bool>)
    ensures Bits(FromBits(bits), |bits|) == bits
  {
    if bits != [] {
      BackThenBits(bits[1..]);
    }
  }

  lemma Pow2Of64()
    ensures Pow2(64) == 0x1_0000_0000_0000_0000
  {
    assert Pow2(8) == 256;
    Pow2Adds(8, 8);
    Pow2Adds(16, 16);
    Pow2Adds(32, 32);
  }

  lemma {:induction false} Pow2Adds(a: nat, b: nat)
    ensures Pow2(a + b) == Pow2(a) * Pow2(b)
  {
    if b > 0 { Pow2Adds(a, b - 1); }
  }

  // ---- the finaliser ----

  function ShiftedXor(bits: seq<bool>, k: nat): (out: seq<bool>)
    ensures |out| == |bits|
  {
    seq(|bits|, i requires 0 <= i < |bits| => bits[i] != (i + k < |bits| && bits[i + k]))
  }

  /** `z ^ (z >> k)`: bit `i` of `z >> k` is bit `i + k` of `z`, or zero past the top. */
  function XorShift(z: Word, k: nat): Word {
    Pack(ShiftedXor(Bits(z, 64), k))
  }

  /** Exclusive-or of the low `n` bits. */
  function Xor(a: nat, b: nat, n: nat): nat {
    if n == 0 then 0 else (if a % 2 == b % 2 then 0 else 1) + 2 * Xor(a / 2, b / 2, n - 1)
  }

  lemma {:induction false} XorOfBits(a: nat, b: nat, n: nat, bits: seq<bool>)
    requires |bits| == n && forall i | 0 <= i < n :: bits[i] == (Bits(a, n)[i] != Bits(b, n)[i])
    ensures FromBits(bits) == Xor(a, b, n)
  {
    if n > 0 {
      assert Bits(a, n)[1..] == Bits(a / 2, n - 1) && Bits(b, n)[1..] == Bits(b / 2, n - 1);
      XorOfBits(a / 2, b / 2, n - 1, bits[1..]);
    }
  }

  /** `z >> k`: halved `k` times. */
  function ShiftDown(z: nat, k: nat): nat {
    if k == 0 then z else ShiftDown(z / 2, k - 1)
  }

  /** Bit `i` of a word shifted down by `k` is bit `i + k`, or nothing above the top. */
  lemma {:induction false} ShiftedBit(z: nat, n: nat, k: nat, i: nat)
    requires z < Pow2(n) && i < n
    ensures Bits(ShiftDown(z, k), n)[i] == (i + k < n && Bits(z, n)[i + k])
    decreases k
  {
    if k > 0 {
      ShiftedBit(z / 2, n, k - 1, i);
      if i + k <= n { ShiftedBitOnce(z, n, i + k - 1); }
    }
  }

  lemma {:induction false} ShiftedBitOnce(z: nat, n: nat, i: nat)
    requires z < Pow2(n) && i < n
    ensures Bits(z / 2, n)[i] == (i + 1 < n && Bits(z, n)[i + 1])
  {
    if n > 1 {
      if i > 0 {
        ShiftedBitOnce(z / 2, n - 1, i - 1);
      } else {
        assert Bits(z, n)[1..] == Bits(z / 2, n - 1);
      }
    }
  }

  /** `XorShift` is `z ^ (z >> k)` in numbers. */
  lemma XorShiftIsXor(z: Word, k: nat)
    ensures XorShift(z, k) == Xor(z, ShiftDown(z, k), 64)
  {
    Pow2Of64();
    forall i | 0 <= i < 64
      ensures ShiftedXor(Bits(z, 64), k)[i] == (Bits(z, 64)[i] != Bits(ShiftDown(z, k), 64)[i])
    {
      ShiftedBit(z, 64, k, i);
    }
    XorOfBits(z, ShiftDown(z, k), 64, ShiftedXor(Bits(z, 64), k));
  }

  /** Undoes `XorShift(·, k)` for a shift of 22 or more: `z ^ (z >> k) ^ (z >> 2k)`. */
  function UnXorShift(z: Word, k: nat): Word {
    Pack(UnshiftedXor(Bits(z, 64), k))
  }

  function UnshiftedXor(bits: seq<bool>, k: nat): (out: seq<bool>)
    ensures |out| == |bits|
  {
    seq(|bits|, i requires 0 <= i < |bits| =>
      (bits[i] != (i + k < |bits| && bits[i + k])) != (i + 2 * k < |bits| && bits[i + 2 * k]))
  }

  lemma XorShiftUndone(z: Word, k: nat)
    requires 3 * k >= 64
    ensures UnXorShift(XorShift(z, k), k) == z
    ensures XorShift(UnXorShift(z, k), k) == z
  {
    Pow2Of64();
    var bits := Bits(z, 64);
    BackThenBits(ShiftedXor(bits, k));
    BackThenBits(UnshiftedXor(bits, k));
    ShiftsCancel(bits, k);
    BitsThenBack(z, 64);
  }

  lemma ShiftsCancel(bits: seq<bool>, k: nat)
    requires 3 * k >= |bits|
    ensures UnshiftedXor(ShiftedXor(bits, k), k) == bits
    ensures ShiftedXor(UnshiftedXor(bits, k), k) == bits
  {
    assert forall i | 0 <= i < |bits| :: UnshiftedXor(ShiftedXor(bits, k), k)[i] == bits[i];
    assert forall i | 0 <= i < |bits| :: ShiftedXor(UnshiftedXor(bits, k), k)[i] == bits[i];
  }

  function Times(z: Word, factor: Word): Word {
    (z * factor) % 0x1_0000_0000_0000_0000
  }

  /** The finaliser: what the source does to the state in each round. */
  function Mix(z: Word): Word {
    var a := Times(XorShift(z, 30), 0xBF58476D1CE4E5B9);
    var b := Times(XorShift(a, 27), 0x94D049BB133111EB);
    XorShift(b, 31)
  }

  /** Its inverse: xor-shifts undone, odd factors by their inverses modulo 2^64. */
  function Unmix(z: Word): Word {
    var b := Times(UnXorShift(z, 31), 0x319642B2D24D8EC3);
    var a := Times(UnXorShift(b, 27), 0x96DE1B173F119089);
    UnXorShift(a, 30)
  }

  lemma ModuloIs(x: int, q: int, r: int)
    requires 0 <= r < 0x1_0000_0000_0000_0000 && x == q * 0x1_0000_0000_0000_0000 + r
    ensures x % 0x1_0000_0000_0000_0000 == r
  {
  }

  /** Factors whose product is one modulo 2^64 undo each other. */
  lemma InverseFactor(z: Word, f: Word, g: Word, k: int)
    requires f * g == 1 + k * 0x1_0000_0000_0000_0000
    ensures Times(Times(z, f), g) == z
  {
    var r, q := Times(z, f), (z * f) / 0x1_0000_0000_0000_0000;
    calc {
      r * g;
    ==
      (z * f - q * 0x1_0000_0000_0000_0000) * g;
    ==
      z * (f * g) - (q * g) * 0x1_0000_0000_0000_0000;
    ==
      z * (1 + k * 0x1_0000_0000_0000_0000) - (q * g) * 0x1_0000_0000_0000_0000;
    ==
      (z * k - q * g) * 0x1_0000_0000_0000_0000 + z;
    }
    ModuloIs(r * g, z * k - q * g, z);
  }

  lemma FactorsUndone(z: Word)
    ensures Times(Times(z, 0xBF58476D1CE4E5B9), 0x96DE1B173F119089) == z
    ensures Times(Times(z, 0x96DE1B173F119089), 0xBF58476D1CE4E5B9) == z
    ensures Times(Times(z, 0x94D049BB133111EB), 0x319642B2D24D8EC3) == z
    ensures Times(Times(z, 0x319642B2D24D8EC3), 0x94D049BB133111EB) == z
  {
    InverseFactor(z, 0xBF58476D1CE4E5B9, 0x96DE1B173F119089, 0x70C3BCA78F27F46C);
    InverseFactor(z, 0x96DE1B173F119089, 0xBF58476D1CE4E5B9, 0x70C3BCA78F27F46C);
    InverseFactor(z, 0x94D049BB133111EB, 0x319642B2D24D8EC3, 0x1CD336EDA85F1453);
    InverseFactor(z, 0x319642B2D24D8EC3, 0x94D049BB133111EB, 0x1CD336EDA85F1453);
  }

  /** The finaliser is a bijection on 64-bit words. */
  lemma MixIsBijective(z: Word)
    ensures Unmix(Mix(z)) == z
    ensures Mix(Unmix(z)) == z
  {
    var x1 := XorShift(z, 30);
    var a := Times(x1, 0xBF58476D1CE4E5B9);
    var x2 := XorShift(a, 27);
    var b := Times(x2, 0x94D049BB133111EB);
    XorShiftUndone(b, 31);
    FactorsUndone(x2);
    XorShiftUndone(a, 27);
    FactorsUndone(x1);
    XorShiftUndone(z, 30);

    var y1 := UnXorShift(z, 31);
    var c := Times(y1, 0x319642B2D24D8EC3);
    var y2 := UnXorShift(c, 27);
    var d := Times(y2, 0x96DE1B173F119089);
    XorShiftUndone(d, 30);
    FactorsUndone(y2);
    XorShiftUndone(c, 27);
    FactorsUndone(y1);
    XorShiftUndone(z, 31);
  }

  // ---- the states ----

  /** The state after `k` rounds. */
  function State(seed: Word, k: nat): Word {
    if k == 0 then seed else Next(State(seed, k - 1))
  }

  function Next(state: Word): Word {
    (state + 0x9E3779B97F4A7C15) % 0x1_0000_0000_0000_0000
  }

  lemma {:induction false} StateIsLinear(seed: Word, k: nat) returns (q: int)
    ensures seed + k * 0x9E3779B97F4A7C15 == q * 0x1_0000_0000_0000_0000 + State(seed, k)
  {
    if k > 0 {
      q := StateIsLinear(seed, k - 1);
      q := q + (State(seed, k - 1) + 0x9E3779B97F4A7C15) / 0x1_0000_0000_0000_0000;
    } else {
      q := 0;
    }
  }

  /** The odd increment visits every state. */
  lemma EveryStateIsVisited(seed: Word, target: Word)
    ensures exists k: nat | k < TWO_64 :: State(seed, k) == target
  {
    var d := target - seed;
    var k := (d * 0xF1DE83E19937733D) % 0x1_0000_0000_0000_0000;
    var q := (d * 0xF1DE83E19937733D) / 0x1_0000_0000_0000_0000;
    var p := StateIsLinear(seed, k);
    assert State(seed, k) - target
        == (d * 0x957BBF35006ED677 - q * 0x9E3779B97F4A7C15 - p) * 0x1_0000_0000_0000_0000;
  }

  lemma StatesAreDistinct(seed: Word, i: nat, j: nat)
    requires i < j && j - i < TWO_64
    ensures State(seed, i) != State(seed, j)
  {
    var p := StateIsLinear(seed, i);
    var q := StateIsLinear(seed, j);
    OddStepsReturnRarely(j - i, q - p);
  }

  lemma OddStepsReturnRarely(d: int, m: int)
    ensures d * 0x9E3779B97F4A7C15 == m * 0x1_0000_0000_0000_0000 ==>
              d % 0x1_0000_0000_0000_0000 == 0
  {
    if d * 0x9E3779B97F4A7C15 == m * 0x1_0000_0000_0000_0000 {
      assert d == (m * 0xF1DE83E19937733D - d * 0x957BBF35006ED677) * 0x1_0000_0000_0000_0000;
    }
  }

  /** The word mixed in round `k`, counting from one. */
  function Mixed(seed: Word, k: nat): Word {
    Mix(State(seed, k))
  }

  /** The first 2^64 mixed words are pairwise distinct. */
  lemma MixedWordsAreDistinct(seed: Word, i: nat, j: nat)
    requires 1 <= i < j <= TWO_64
    ensures Mixed(seed, i) != Mixed(seed, j)
  {
    MixIsBijective(State(seed, i));
    MixIsBijective(State(seed, j));
    StatesAreDistinct(seed, i, j);
  }

  // ---- the draws ----

  /** The draw a mixed word gives: its top 53 bits as a fraction of [-1, 1). */
  function Draw(z: Word): (x: real)
    ensures -1.0 <= x < 1.0
  {
    (z / 2048) as real / (TWO_53 as real) * 2.0 - 1.0
  }

  /** It is the word, scaled to [-1, 1), brought down to the next multiple of 2^-52. */
  lemma DrawIsScaledDown(z: Word) returns (n: int)
    ensures 0.0 <= z as real / 9_223_372_036_854_775_808.0 - 1.0 - Draw(z) < 1.0 / 4_503_599_627_370_496.0
    ensures Draw(z) * 4_503_599_627_370_496.0 == n as real
  {
    n := z / 2048 - 0x10_0000_0000_0000;
    assert z == 2048 * (z / 2048) + z % 2048;
  }

  /** The first `count` draws from `seed`. */
  function Samples(seed: Word, count: nat): (draws: seq<real>)
    ensures |draws| == count
  {
    if count == 0 then [] else Samples(seed, count - 1) + [Draw(Mixed(seed, count))]
  }

  lemma {:induction false} SamplesAt(seed: Word, count: nat, k: nat)
    requires k < count
    ensures Samples(seed, count)[k] == Draw(Mixed(seed, k + 1))
  {
    if k < count - 1 { SamplesAt(seed, count - 1, k); }
  }

  /** The loop that fills the array of draws. */
  method Draws(count: nat, seed: Word) returns (draws: array<real>)
    ensures draws[..] == Samples(seed, count)
  {
    var state := seed;
    draws := new real[count];
    for i := 0 to count
      invariant state == State(seed, i)
      invariant draws[..i] == Samples(seed, i)
    {
      state := Next(state);
      var z := Mix(state);
      draws[i] := Draw(z);
      assert draws[..i + 1] == draws[..i] + [Draw(z)];
    }
    assert draws[..] == draws[..count];
  }

  /** `draws[first::2]`. */
  function EverySecond(draws: seq<real>, first: nat): (out: seq<real>)
    requires first <= 1
    ensures |out| == (|draws| + 1 - first) / 2
    ensures forall i | 0 <= i < |out| :: out[i] == draws[first + 2 * i]
  {
    seq((|draws| + 1 - first) / 2,
        i requires 0 <= i < (|draws| + 1 - first) / 2 => draws[first + 2 * i])
  }

  /** `n` complex samples from `seed`: the draws, real then imaginary. */
  method PseudoNoise(n: nat, seed: int) returns (re: seq<real>, im: seq<real>)
    ensures re == EverySecond(Samples(seed % TWO_64, 2 * n), 0)
    ensures im == EverySecond(Samples(seed % TWO_64, 2 * n), 1)
  {
    var draws := Draws(2 * n, seed % TWO_64);
    re, im := EverySecond(draws[..], 0), EverySecond(draws[..], 1);
  }
}
