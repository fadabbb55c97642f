/** The seeded stream every draw comes from (`rng.rs`): xoshiro256** over four
    64-bit words, and the ranges of what is drawn from it. */
module Rng {
  const TWO63: nat := 0x8000_0000_0000_0000
  const TWO64: nat := 0x1_0000_0000_0000_0000

  datatype State = State(s0: bv64, s1: bv64, s2: bv64, s3: bv64)

  function RotateLeft(x: bv64, n: nat): bv64
    requires 0 < n < 64
  {
    (x << n) | (x >> (64 - n))
  }

  /** One step of the generator: the output and the next state */
  function Next(s: State): (bv64, State) {
    var result := RotateLeft(s.s1 * 5, 7) * 9;
    var t := s.s1 << 17;
    var a2, a3 := s.s2 ^ s.s0, s.s3 ^ s.s1;
    (result, State(s.s0 ^ a3, s.s1 ^ a2, a2 ^ t, RotateLeft(a3, 45)))
  }

  /** SplitMix64, which spreads a seed over the four words */
  function Mix(x: bv64): bv64 {
    var a := (x ^ (x >> 30)) * 0xBF58_476D_1CE4_E5B9;
    var b := (a ^ (a >> 27)) * 0x94D0_49BB_1331_11EB;
    b ^ (b >> 31)
  }

  function FromSeed(seed: bv64): State {
    var a := seed + 0x9E37_79B9_7F4A_7C15;
    var b := a + 0x9E37_79B9_7F4A_7C15;
    var c := b + 0x9E37_79B9_7F4A_7C15;
    State(Mix(a), Mix(b), Mix(c), Mix(c + 0x9E37_79B9_7F4A_7C15))
  }

  /** The value in `[0, n)` the next output stands for */
  function Scaled(x: bv64, n: nat): nat { (x as nat * n) / TWO64 }

  /** It takes 2^64 / n outputs, rounded down or up, to each value. */
  lemma ScaledMeans(x: bv64, n: nat, v: nat)
    requires n > 0
    ensures Scaled(x, n) == v <==> v * 0x1_0000_0000_0000_0000 <= x as nat * n < (v + 1) * 0x1_0000_0000_0000_0000
  {
    QuotientMeans(x as nat * n, TWO64, v);
  }

  lemma QuotientMeans(a: nat, m: nat, v: nat)
    requires m > 0
    ensures a / m == v <==> v * m <= a < (v + 1) * m
  {
    var q := a / m;
    assert a == q * m + a % m;
    if v < q { Times(m, v + 1, q); }
    if v > q { Times(m, q + 1, v); }
  }

  lemma Rotated(x: bv64)
    ensures RotateLeft(x, 7) == (x << 7) | (x >> 57) && RotateLeft(x, 45) == (x << 45) | (x >> 19)
  {
  }

  /** SplitMix64's first output for seed 0, and xoshiro256**'s first step and
      its second and third outputs from the state 1, 2, 3, 4 */
  lemma ReferenceValues()
    ensures FromSeed(0).s0 == 0xE220_A839_7B1D_CDAF
    ensures Next(State(1, 2, 3, 4)) == (11520, State(7, 0, 0x4_0002, 0xC000_0000_0000))
    ensures Next(State(7, 0, 0x4_0002, 0xC000_0000_0000)).0 == 0
    ensures Next(State(0xC000_0000_0007, 0x4_0005, 0x4_0005, 0x1800_0000)).0 == 1509978240
  {
    Rotated(10);
    Rotated(6);
    Rotated(0);
    Rotated(0x14_0019);
    hide RotateLeft;
  }

  function Pow2(k: nat): (p: nat)
    ensures p >= 1
  {
    if k == 0 then 1 else 2 * Pow2(k - 1)
  }

  /** The exponent of the largest power of two not above `x` */
  function ILog2(x: nat): (k: nat)
    requires x > 0
    ensures Pow2(k) <= x < Pow2(k + 1)
  {
    if x == 1 then 0 else 1 + ILog2(x / 2)
  }

  lemma {:induction false} Pow2Mono(j: nat, k: nat)
    requires j <= k
    ensures Pow2(j) <= Pow2(k)
  {
    if j < k { Pow2Mono(j, k - 1); }
  }

  lemma ScaledBound(x: bv64, n: nat)
    requires n > 0
    ensures Scaled(x, n) < n
  {
    DivBelow(x as nat, n, TWO64);
  }

  lemma DivBelow(v: nat, n: nat, m: nat)
    requires v < m && n > 0
    ensures v * n / m < n
  {
    Times(n, v, m - 1);
    assert v * n <= (m - 1) * n < m * n;
    if v * n / m >= n {
      Times(m, n, v * n / m);
    }
  }

  lemma Times(a: nat, b: nat, c: nat)
    requires b <= c
    ensures a * b <= a * c
  {
  }

  lemma DivTimes(a: nat, b: nat)
    requires b > 0
    ensures b * (a / b) <= a
  {
  }

  /** Doubling under a product */
  lemma Twice(a: nat, b: nat)
    ensures a * (2 * b) == 2 * (a * b)
  {
  }

  /** An octave starts within the span, and ends at twice its start. */
  lemma OctaveWithin(lo: nat, hi: nat, k: nat)
    requires 0 < lo <= hi && k <= ILog2(hi / lo)
    ensures lo <= lo * Pow2(k) <= hi && lo * Pow2(k + 1) == 2 * (lo * Pow2(k))
  {
    hide ILog2;
    Pow2Mono(k, ILog2(hi / lo));
    Times(lo, Pow2(k), hi / lo);
    DivTimes(hi, lo);
    Times(lo, 1, Pow2(k));
    Twice(lo, Pow2(k));
  }

  /** The value an output stands for in the `k`th octave above `lo`, as far as
      `hi` */
  function InOctave(lo: nat, hi: nat, k: nat, x: bv64): nat
    requires lo > 0 && lo * Pow2(k) <= hi
  {
    var from, end := lo * Pow2(k), 2 * (lo * Pow2(k)) - 1;
    from + Scaled(x, (if hi < end then hi else end) - from + 1)
  }

  /** What two outputs come to, the octave's and the place's in it */
  function LogDraw(s: State, lo: nat, hi: nat): nat
    requires 0 < lo <= hi
  {
    hide Next, Scaled, ILog2, Pow2;
    OctaveDrawn(s, lo, hi);
    InOctave(lo, hi, Scaled(Next(s).0, ILog2(hi / lo) + 1), Next(Next(s).1).0)
  }

  lemma OctaveDrawn(s: State, lo: nat, hi: nat)
    requires 0 < lo <= hi
    ensures Scaled(Next(s).0, ILog2(hi / lo) + 1) <= ILog2(hi / lo)
    ensures lo * Pow2(Scaled(Next(s).0, ILog2(hi / lo) + 1)) <= hi
  {
    hide Next, Scaled, ILog2, Pow2;
    ScaledBound(Next(s).0, ILog2(hi / lo) + 1);
    OctaveWithin(lo, hi, Scaled(Next(s).0, ILog2(hi / lo) + 1));
  }

  class Stream {
    var state: State

    constructor (seed: State)
      ensures state == seed
    {
      state := seed;
    }

    method NextU64() returns (x: bv64)
      modifies this
      ensures (x, state) == Next(old(state))
    {
      x, state := Next(state).0, Next(state).1;
    }

    /** Uniform in `[0, n)`. One output is consumed whatever `n` is. */
    method Below(n: nat) returns (v: nat)
      requires n > 0
      modifies this
      ensures v < n && state == Next(old(state)).1 && v == Scaled(Next(old(state)).0, n)
    {
      var x := NextU64();
      ScaledBound(x, n);
      v := Scaled(x, n);
    }

    method RangeInclusive(lo: nat, hi: nat) returns (v: nat)
      requires lo <= hi
      modifies this
      ensures lo <= v <= hi && state == Next(old(state)).1
      ensures v == lo + Scaled(Next(old(state)).0, hi - lo + 1)
    {
      var d := Below(hi - lo + 1);
      v := lo + d;
    }

    /** A value in `[lo, hi]`, drawn from one octave above `lo`. Shifts are
        those of 64-bit words, bits lost at the top; durations are a year at
        most, so none is. */
    method LogUniform(lo: nat, hi: nat) returns (v: nat, ghost k: nat)
      requires 0 < lo <= hi < TWO63
      modifies this
      ensures lo <= v <= hi && k <= ILog2(hi / lo)
      ensures lo * Pow2(k) <= v < lo * Pow2(k + 1)
      ensures state == Next(Next(old(state)).1).1
      // the octave is drawn, then the place in it
      ensures k == Scaled(Next(old(state)).0, ILog2(hi / lo) + 1) && v == LogDraw(old(state), lo, hi)
      ensures v == InOctave(lo, hi, k, Next(Next(old(state)).1).0)
    {
      hide Next, Scaled, Pow2;
      var octaves := ILog2(hi / lo);
      var j := Below(octaves + 1);
      k := j;
      BelowTwo63Fits(lo, hi, j);
      OctaveStart(lo, hi, j);
      var from := Shifted(lo, j);
      var end := Shifted(lo, j + 1) - 1;
      var to := if hi < end then hi else end;
      var d := Below(to - from + 1);
      v := from + d;
    }
  }

  /** A shift left of a 64-bit word */
  function Shifted(x: nat, k: nat): nat { (x * Pow2(k)) % TWO64 }

  predicate OctaveFits(lo: nat, k: nat) { lo * Pow2(k + 1) < TWO64 }

  lemma OctaveStart(lo: nat, hi: nat, k: nat)
    requires 0 < lo <= hi < TWO64 && k <= ILog2(hi / lo) && OctaveFits(lo, k)
    ensures Shifted(lo, k) == lo * Pow2(k) <= hi && Shifted(lo, k + 1) == lo * Pow2(k + 1) == 2 * (lo * Pow2(k))
    ensures lo <= lo * Pow2(k)
  {
    hide ILog2, Pow2;
    OctaveWithin(lo, hi, k);
    ShiftFits(lo, k);
    ShiftFits(lo, k + 1);
  }

  lemma ShiftFits(x: nat, k: nat)
    requires x * Pow2(k) < TWO64
    ensures Shifted(x, k) == x * Pow2(k)
  {
    SmallMod(x * Pow2(k));
  }

  lemma SmallMod(x: nat)
    requires x < TWO64
    ensures x % TWO64 == x
  {
  }

  /** Spans below 2^63 always fit. */
  lemma BelowTwo63Fits(lo: nat, hi: nat, k: nat)
    requires 0 < lo <= hi < TWO63 && k <= ILog2(hi / lo)
    ensures OctaveFits(lo, k)
  {
    OctaveWithin(lo, hi, k);
  }
}
