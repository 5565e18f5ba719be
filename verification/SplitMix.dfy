/**
 The SplitMix64 stream of tools/parity/aec_dump.py on unbounded integers masked to 64 bits, as
 the Python computes it, and the proof that it is a full-period permutation generator.
 */
module SplitMix {
  import opened Octets

  const MODULUS: nat := 0x1_0000_0000_0000_0000
  const GAMMA: nat := 0x9E37_79B9_7F4A_7C15
  const MIX1: nat := 0xBF58_476D_1CE4_E5B9
  const MIX2: nat := 0x94D0_49BB_1331_11EB
  const GAMMA_INVERSE: nat := 0xf1de_83e1_9937_733d
  const MIX1_INVERSE: nat := 0x96de_1b17_3f11_9089
  const MIX2_INVERSE: nat := 0x3196_42b2_d24d_8ec3

  /** Bitwise exclusive or. */
  function Xor(a: nat, b: nat): nat
    decreases a + b
  {
    if a == 0 && b == 0 then 0 else (a % 2 + b % 2) % 2 + 2 * Xor(a / 2, b / 2)
  }

  /** Right shift. */
  function Shr(a: nat, k: nat): nat
    decreases k
  {
    if k == 0 then a else Shr(a / 2, k - 1)
  }

  function XorShift(z: nat, s: nat): nat {
    Xor(z, Shr(z, s))
  }

  function Scramble(z: nat): nat {
    var a := (XorShift(z, 30) * MIX1) % MODULUS;
    var b := (XorShift(a, 27) * MIX2) % MODULUS;
    XorShift(b, 31)
  }

  function NextState(state: int): nat {
    (state + GAMMA) % MODULUS
  }

  /** The state after k draws. */
  function StateAfter(seed: int, k: nat): nat {
    if k == 0 then seed % MODULUS else NextState(StateAfter(seed, k - 1))
  }

  /** The k-th value drawn, from 0. */
  function Output(seed: int, k: nat): nat {
    Scramble(StateAfter(seed, k + 1))
  }

  class SplitMix64 {
    var state: nat
    ghost const seed: int
    ghost var drawn: nat

    ghost predicate Valid()
      reads this
    {
      state == StateAfter(seed, drawn)
    }

    constructor (s: int)
      ensures Valid() && seed == s && drawn == 0
    {
      seed := s;
      drawn := 0;
      state := s % MODULUS;
    }

    method NextU64() returns (r: nat)
      requires Valid()
      modifies this
      ensures Valid() && drawn == old(drawn) + 1
      ensures r == Output(seed, old(drawn))
    {
      state := (state + GAMMA) % MODULUS;
      var z := state;
      z := (Xor(z, Shr(z, 30)) * MIX1) % MODULUS;
      z := (Xor(z, Shr(z, 27)) * MIX2) % MODULUS;
      r := Xor(z, Shr(z, 31));
      drawn := drawn + 1;
    }
  }

  const FAR_AMP: int := 8000

  /** The far-end noise. */
  method GenFar(count: nat, seed: int) returns (samples: seq<int>)
    ensures |samples| == count
    ensures forall i | 0 <= i < count :: samples[i] == Output(seed, i) % 16001 - 8000 && -8000 <= samples[i] <= 8000
  {
    hide Output, StateAfter;
    var rng := new SplitMix64(seed);
    var span := 2 * FAR_AMP + 1;
    samples := [];
    for k := 0 to count
      invariant rng.Valid() && rng.seed == seed && rng.drawn == k && |samples| == k
      invariant forall i | 0 <= i < k :: samples[i] == Output(seed, i) % 16001 - 8000 && -8000 <= samples[i] <= 8000
    {
      var v := rng.NextU64();
      samples := samples + [v % span - FAR_AMP];
    }
  }

  // ---------------------------------------------------------------------------
  // Exclusive or and shifts
  // ---------------------------------------------------------------------------

  lemma {:induction false} XorZero(a: nat)
    ensures Xor(a, 0) == a && Xor(0, a) == a
    decreases a
  {
    if a == 0 {
    } else {
      XorZero(a / 2);
    }
  }

  lemma {:induction false} XorSelf(a: nat)
    ensures Xor(a, a) == 0
    decreases a
  {
    if a == 0 {
    } else {
      XorSelf(a / 2);
    }
  }

  lemma {:induction false} XorAssociative(a: nat, b: nat, c: nat)
    ensures Xor(Xor(a, b), c) == Xor(a, Xor(b, c))
    decreases a + b + c
  {
    if a + b + c > 0 {
      hide Xor;
      XorAssociative(a / 2, b / 2, c / 2);
      AssociativeStep(a, b, c);
    }
  }

  lemma AssociativeStep(a: nat, b: nat, c: nat)
    requires Xor(Xor(a / 2, b / 2), c / 2) == Xor(a / 2, Xor(b / 2, c / 2))
    ensures Xor(Xor(a, b), c) == Xor(a, Xor(b, c))
  {
    hide Xor;
    XorHalves(a, b);
    XorHalves(b, c);
    XorHalves(Xor(a, b), c);
    XorHalves(a, Xor(b, c));
    ParityAssociative(a % 2, b % 2, c % 2);
    SameHalves(Xor(Xor(a, b), c), Xor(a, Xor(b, c)));
  }

  lemma SameHalves(p: nat, q: nat)
    requires p / 2 == q / 2 && p % 2 == q % 2
    ensures p == q
  {}

  lemma ParityAssociative(a: nat, b: nat, c: nat)
    requires a < 2 && b < 2 && c < 2
    ensures ((a + b) % 2 + c) % 2 == (a + (b + c) % 2) % 2
  {}

  /** The lowest bit and the rest of an exclusive or. */
  lemma XorHalves(a: nat, b: nat)
    ensures Xor(a, b) / 2 == Xor(a / 2, b / 2)
    ensures Xor(a, b) % 2 == (a % 2 + b % 2) % 2
  {}

  lemma {:induction false} ShrXor(a: nat, b: nat, k: nat)
    ensures Shr(Xor(a, b), k) == Xor(Shr(a, k), Shr(b, k))
    decreases k
  {
    if k == 0 {
    } else {
      XorHalves(a, b);
      ShrXor(a / 2, b / 2, k - 1);
    }
  }

  lemma {:induction false} ShrTwice(a: nat, j: nat, k: nat)
    ensures Shr(Shr(a, j), k) == Shr(a, j + k)
    decreases j
  {
    if j == 0 {
    } else {
      ShrTwice(a / 2, j - 1, k);
    }
  }

  lemma {:induction false} ShrAway(a: nat, n: nat, k: nat)
    requires a < Pow2(n) && n <= k
    ensures Shr(a, k) == 0
    decreases k
  {
    if k == 0 {
    } else {
      if n > 0 { ShrAway(a / 2, n - 1, k - 1); } else { ShrAway(a / 2, 0, k - 1); }
    }
  }

  lemma {:induction false} XorBound(a: nat, b: nat, n: nat)
    requires a < Pow2(n) && b < Pow2(n)
    ensures Xor(a, b) < Pow2(n)
    decreases n
  {
    if n == 0 {
    } else {
      XorBound(a / 2, b / 2, n - 1);
    }
  }

  lemma {:induction false} ShrBound(a: nat, k: nat)
    ensures Shr(a, k) <= a
    decreases k
  {
    if k == 0 {
    } else {
      ShrBound(a / 2, k - 1);
    }
  }

  /** The undoing of z ^ (z >> s) on n-bit numbers when three shifts clear them. */
  function UnXorShift(y: nat, s: nat): nat {
    Xor(y, Xor(Shr(y, s), Shr(y, 2 * s)))
  }

  lemma XorShiftInverse(x: nat, s: nat, n: nat)
    requires x < Pow2(n) && n <= 3 * s
    ensures UnXorShift(XorShift(x, s), s) == x && XorShift(x, s) < Pow2(n)
  {
    hide Xor, Shr;
    var a, b := Shr(x, s), Shr(x, 2 * s);
    ShrTwice(x, s, s);
    ShrTwice(x, s, 2 * s);
    ShrAway(x, n, 3 * s);
    ShrXor(x, a, s);
    ShrXor(x, a, 2 * s);
    XorZero(b);
    // (x ^ a) ^ ((a ^ b) ^ b)  ==  x
    XorAssociative(a, b, b);
    XorSelf(b);
    XorZero(a);
    XorAssociative(x, a, a);
    XorSelf(a);
    XorZero(x);
    ShrBound(x, s);
    XorBound(x, a, n);
  }

  lemma XorShiftOnto(y: nat, s: nat, n: nat)
    requires y < Pow2(n) && n <= 3 * s
    ensures XorShift(UnXorShift(y, s), s) == y && UnXorShift(y, s) < Pow2(n)
  {
    hide Xor, Shr;
    var a, b := Shr(y, s), Shr(y, 2 * s);
    ShrTwice(y, s, s);
    ShrTwice(y, 2 * s, s);
    ShrAway(y, n, 3 * s);
    ShrXor(y, Xor(a, b), s);
    ShrXor(a, b, s);
    XorZero(b);
    // (y ^ (a ^ b)) ^ (a ^ b)  ==  y
    var t := Xor(a, b);
    XorAssociative(y, t, t);
    XorSelf(t);
    XorZero(y);
    ShrBound(y, s);
    ShrBound(y, 2 * s);
    XorBound(a, b, n);
    XorBound(y, t, n);
  }

  // ---------------------------------------------------------------------------
  // Bit by bit, and the published values
  // ---------------------------------------------------------------------------

  /** Bit i of a number. */
  function Bit(a: nat, i: nat): nat {
    a / Pow2(i) % 2
  }

  lemma {:induction false} XorBit(a: nat, b: nat, i: nat)
    ensures Bit(Xor(a, b), i) == if Bit(a, i) == Bit(b, i) then 0 else 1
    decreases i
  {
    hide Xor;
    XorHalves(a, b);
    if i == 0 {
    } else {
      XorBit(a / 2, b / 2, i - 1);
      BitOfHalf(a, i);
      BitOfHalf(b, i);
      BitOfHalf(Xor(a, b), i);
    }
  }

  lemma BitOfHalf(a: nat, i: nat)
    requires i > 0
    ensures Bit(a, i) == Bit(a / 2, i - 1)
  {
    DivTwice(a, 2, Pow2(i - 1));
  }

  lemma {:induction false} ShrIsDivision(a: nat, k: nat)
    ensures Shr(a, k) == a / Pow2(k)
    decreases k
  {
    if k == 0 {
    } else {
      ShrIsDivision(a / 2, k - 1);
      DivTwice(a, 2, Pow2(k - 1));
    }
  }

  lemma SmallPowers()
    ensures Pow2(27) == 0x800_0000 && Pow2(30) == 0x4000_0000 && Pow2(31) == 0x8000_0000
  {
    assert Pow2(8) == 256;
    assert Pow2(16) == 0x1_0000;
    assert Pow2(24) == 0x100_0000;
  }

  /** Each of the low four bits of c is the exclusive or of those of a and b. */
  predicate LowBits(a: nat, b: nat, c: nat) {
    && (a % 2 + b % 2) % 2 == c % 2 && (a / 2 % 2 + b / 2 % 2) % 2 == c / 2 % 2
    && (a / 4 % 2 + b / 4 % 2) % 2 == c / 4 % 2 && (a / 8 % 2 + b / 8 % 2) % 2 == c / 8 % 2
  }

  /** An exclusive or, four bits further. */
  lemma XorNext(a: nat, b: nat, c: nat)
    requires Xor(a / 16, b / 16) == c / 16 && LowBits(a, b, c)
    ensures Xor(a, b) == c
  {
    hide Xor;
    Halves(a);
    Halves(b);
    Halves(c);
    XorUp(a / 8, b / 8, c / 8);
    XorUp(a / 4, b / 4, c / 4);
    XorUp(a / 2, b / 2, c / 2);
    XorUp(a, b, c);
  }

  lemma Halves(a: nat)
    ensures a / 2 / 2 == a / 4 && a / 4 / 2 == a / 8 && a / 8 / 2 == a / 16
  {}

  lemma XorUp(a: nat, b: nat, c: nat)
    requires Xor(a / 2, b / 2) == c / 2 && (a % 2 + b % 2) % 2 == c % 2
    ensures Xor(a, b) == c
  {
    hide Xor;
    XorHalves(a, b);
    SameHalves(Xor(a, b), c);
  }

  lemma FirstShift()
    ensures XorShift(0x9E37_79B9_7F4A_7C15, 30) == 0x9E37_79BB_0797_9AF0
  {
    hide Xor, Shr, Pow2;
    assert Shr(0x9E37_79B9_7F4A_7C15, 30) == 0x2_78DD_E6E5 by {
      ShrIsDivision(0x9E37_79B9_7F4A_7C15, 30);
      SmallPowers();
    }
    XorZero(0x9E3_779B);
    XorNext(0x9E37_79B9, 0x2, 0x9E37_79BB);
    XorNext(0x9_E377_9B97, 0x27, 0x9_E377_9BB0);
    XorNext(0x9E_3779_B97F, 0x278, 0x9E_3779_BB07);
    XorNext(0x9E3_779B_97F4, 0x278D, 0x9E3_779B_B079);
    XorNext(0x9E37_79B9_7F4A, 0x2_78DD, 0x9E37_79BB_0797);
    XorNext(0x9_E377_9B97_F4A7, 0x27_8DDE, 0x9_E377_9BB0_7979);
    XorNext(0x9E_3779_B97F_4A7C, 0x278_DDE6, 0x9E_3779_BB07_979A);
    XorNext(0x9E3_779B_97F4_A7C1, 0x278D_DE6E, 0x9E3_779B_B079_79AF);
    XorNext(0x9E37_79B9_7F4A_7C15, 0x2_78DD_E6E5, 0x9E37_79BB_0797_9AF0);
  }

  lemma SecondShift()
    ensures XorShift(0x6F68_261B_57E7_A770, 27) == 0x6F68_2616_BAE3_641A
  {
    hide Xor, Shr, Pow2;
    assert Shr(0x6F68_261B_57E7_A770, 27) == 0xD_ED04_C36A by {
      ShrIsDivision(0x6F68_261B_57E7_A770, 27);
      SmallPowers();
    }
    XorZero(0x6F6_8261);
    XorNext(0x6F68_261B, 0xD, 0x6F68_2616);
    XorNext(0x6_F682_61B5, 0xDE, 0x6_F682_616B);
    XorNext(0x6F_6826_1B57, 0xDED, 0x6F_6826_16BA);
    XorNext(0x6F6_8261_B57E, 0xDED0, 0x6F6_8261_6BAE);
    XorNext(0x6F68_261B_57E7, 0xD_ED04, 0x6F68_2616_BAE3);
    XorNext(0x6_F682_61B5_7E7A, 0xDE_D04C, 0x6_F682_616B_AE36);
    XorNext(0x6F_6826_1B57_E7A7, 0xDED_04C3, 0x6F_6826_16BA_E364);
    XorNext(0x6F6_8261_B57E_7A77, 0xDED0_4C36, 0x6F6_8261_6BAE_3641);
    XorNext(0x6F68_261B_57E7_A770, 0xD_ED04_C36A, 0x6F68_2616_BAE3_641A);
  }

  lemma ThirdShift()
    ensures XorShift(0xE220_A838_BF5C_9DDE, 31) == 0xE220_A839_7B1D_CDAF
  {
    hide Xor, Shr, Pow2;
    assert Shr(0xE220_A838_BF5C_9DDE, 31) == 0x1_C441_5071 by {
      ShrIsDivision(0xE220_A838_BF5C_9DDE, 31);
      SmallPowers();
    }
    XorZero(0xE22_0A83);
    XorNext(0xE220_A838, 0x1, 0xE220_A839);
    XorNext(0xE_220A_838B, 0x1C, 0xE_220A_8397);
    XorNext(0xE2_20A8_38BF, 0x1C4, 0xE2_20A8_397B);
    XorNext(0xE22_0A83_8BF5, 0x1C44, 0xE22_0A83_97B1);
    XorNext(0xE220_A838_BF5C, 0x1_C441, 0xE220_A839_7B1D);
    XorNext(0xE_220A_838B_F5C9, 0x1C_4415, 0xE_220A_8397_B1DC);
    XorNext(0xE2_20A8_38BF_5C9D, 0x1C4_4150, 0xE2_20A8_397B_1DCD);
    XorNext(0xE22_0A83_8BF5_C9DD, 0x1C44_1507, 0xE22_0A83_97B1_DCDA);
    XorNext(0xE220_A838_BF5C_9DDE, 0x1_C441_5071, 0xE220_A839_7B1D_CDAF);
  }

  /** The first value of the stream of seed 0 is the published one. */
  lemma FirstValue()
    ensures Output(0, 0) == 0xE220_A839_7B1D_CDAF
  {
    hide XorShift;
    assert StateAfter(0, 1) == GAMMA by { StateClosedForm(0, 1); }
    FirstShift();
    SecondShift();
    ThirdShift();
  }

  // ---------------------------------------------------------------------------
  // Odd multipliers
  // ---------------------------------------------------------------------------

  lemma AddMultiple(x: int, k: int, m: int)
    requires m > 0
    ensures (x + k * m) % m == x % m
  {
    var q, r := x / m, x % m;
    assert x + k * m == (q + k) * m + r;
    DivModUnique(x + k * m, m, q + k, r);
  }

  /** A factor may be reduced before multiplying. */
  lemma ReduceFactor(a: int, b: int, m: int)
    requires m > 0
    ensures ((a % m) * b) % m == (a * b) % m
  {
    var q := a / m;
    assert a * b == (a % m) * b + (q * b) * m by {
      assert a == q * m + a % m;
      Distribute(q * m, a % m, b);
      assert (q * m) * b == (q * b) * m;
    }
    AddMultiple((a % m) * b, q * b, m);
  }

  lemma Distribute(a: int, b: int, c: int)
    ensures (a + b) * c == a * c + b * c
  {}

  lemma MulInverse(x: nat, c: nat, d: nat)
    requires x < MODULUS && (c * d) % MODULUS == 1
    ensures (((x * c) % MODULUS) * d) % MODULUS == x
  {
    ReduceFactor(x * c, d, MODULUS);
    assert (x * c) * d == (c * d) * x;
    ReduceFactor(c * d, x, MODULUS);
    DivModUnique(x, MODULUS, 0, x);
  }

  lemma Inverses()
    ensures (GAMMA * GAMMA_INVERSE) % MODULUS == 1
    ensures (MIX1 * MIX1_INVERSE) % MODULUS == 1 && (MIX1_INVERSE * MIX1) % MODULUS == 1
    ensures (MIX2 * MIX2_INVERSE) % MODULUS == 1 && (MIX2_INVERSE * MIX2) % MODULUS == 1
  {}

  lemma ModulusIsPow2()
    ensures MODULUS == Pow2(64)
  {
    assert Pow256(8) == MODULUS;
    Pow256IsPow2(8);
  }

  // ---------------------------------------------------------------------------
  // The output mix is a bijection
  // ---------------------------------------------------------------------------

  function Unscramble(v: nat): nat {
    var b := UnXorShift(v, 31);
    var a := UnXorShift((b * MIX2_INVERSE) % MODULUS, 27);
    UnXorShift((a * MIX1_INVERSE) % MODULUS, 30)
  }

  /** Scrambling is one to one and onto the 64-bit numbers. */
  lemma ScrambleBijective(z: nat)
    requires z < MODULUS
    ensures Scramble(z) < MODULUS && Unscramble(Scramble(z)) == z
    ensures Unscramble(z) < MODULUS && Scramble(Unscramble(z)) == z
  {
    hide XorShift, UnXorShift, Pow2;
    ModulusIsPow2();
    Inverses();
    var x := XorShift(z, 30);
    XorShiftInverse(z, 30, 64);
    var a := (x * MIX1) % MODULUS;
    MulInverse(x, MIX1, MIX1_INVERSE);
    XorShiftInverse(a, 27, 64);
    var y := XorShift(a, 27);
    var b := (y * MIX2) % MODULUS;
    MulInverse(y, MIX2, MIX2_INVERSE);
    XorShiftInverse(b, 31, 64);

    var b' := UnXorShift(z, 31);
    XorShiftOnto(z, 31, 64);
    var c := (b' * MIX2_INVERSE) % MODULUS;
    MulInverse(b', MIX2_INVERSE, MIX2);
    XorShiftOnto(c, 27, 64);
    var a' := UnXorShift(c, 27);
    var d := (a' * MIX1_INVERSE) % MODULUS;
    MulInverse(a', MIX1_INVERSE, MIX1);
    XorShiftOnto(d, 30, 64);
  }

  // ---------------------------------------------------------------------------
  // The state walks through every residue
  // ---------------------------------------------------------------------------

  /** The k-th state in closed form. */
  lemma {:induction false} StateClosedForm(seed: int, k: nat)
    ensures StateAfter(seed, k) == (seed + k * GAMMA) % MODULUS
  {
    if k == 0 {
    } else {
      StateClosedForm(seed, k - 1);
      var t := seed + (k - 1) * GAMMA;
      var q := t / MODULUS;
      assert t + GAMMA == (t % MODULUS + GAMMA) + q * MODULUS;
      AddMultiple(t % MODULUS + GAMMA, q, MODULUS);
      assert seed + k * GAMMA == t + GAMMA;
    }
  }

  /** Multiplying the distance from the seed by the inverse of gamma recovers the number of draws. */
  lemma StepsRecovered(seed: int, k: nat)
    ensures ((StateAfter(seed, k) - seed) * GAMMA_INVERSE) % MODULUS == k % MODULUS
  {
    Inverses();
    StateClosedForm(seed, k);
    var t := seed + k * GAMMA;
    var q := t / MODULUS;
    var d := StateAfter(seed, k) - seed;
    assert d == k * GAMMA + (-q) * MODULUS;
    AddMultiple(k * GAMMA, -q, MODULUS);
    ReduceFactor(d, GAMMA_INVERSE, MODULUS);
    ReduceFactor(k * GAMMA, GAMMA_INVERSE, MODULUS);
    assert (k * GAMMA) * GAMMA_INVERSE == (GAMMA * GAMMA_INVERSE) * k;
    ReduceFactor(GAMMA * GAMMA_INVERSE, k, MODULUS);
  }

  /** Two states of one stream are equal exactly when a multiple of 2^64 draws lies between them. */
  lemma FullPeriod(seed: int, i: nat, j: nat)
    ensures StateAfter(seed, i) == StateAfter(seed, j) <==> i % MODULUS == j % MODULUS
  {
    StepsRecovered(seed, i);
    StepsRecovered(seed, j);
    if i % MODULUS == j % MODULUS {
      StateClosedForm(seed, i);
      StateClosedForm(seed, j);
      var k := i / MODULUS - j / MODULUS;
      assert i == j + k * MODULUS;
      assert seed + i * GAMMA == (seed + j * GAMMA) + (k * GAMMA) * MODULUS;
      AddMultiple(seed + j * GAMMA, k * GAMMA, MODULUS);
    }
  }

  /** The draw at which a stream yields v. */
  function DrawOf(seed: int, v: nat): nat {
    ((Unscramble(v) - seed) * GAMMA_INVERSE - 1) % MODULUS
  }

  /** Multiplying by the inverse of gamma and then by gamma changes nothing modulo 2^64. */
  lemma GammaUndone(d: int, base: int)
    ensures (base + d * GAMMA_INVERSE * GAMMA) % MODULUS == (base + d) % MODULUS
  {
    Inverses();
    var g := (GAMMA * GAMMA_INVERSE) / MODULUS;
    assert GAMMA * GAMMA_INVERSE == g * MODULUS + 1;
    assert d * GAMMA_INVERSE * GAMMA == d + (d * g) * MODULUS;
    AddMultiple(base + d, d * g, MODULUS);
  }

  lemma Remainder(e: int, m: int) returns (q: int)
    requires m > 0
    ensures (e - 1) % m + 1 == e + (-q) * m
  {
    q := (e - 1) / m;
  }

  lemma WholePeriods(seed: int, e: int, q: int, m: int, g: int)
    ensures seed + (e + (-q) * m) * g == (seed + e * g) + (-q * g) * m
  {
    Distribute(e, (-q) * m, g);
    assert ((-q) * m) * g == (-q * g) * m;
  }

  lemma DrawOfIsReached(seed: int, v: nat)
    requires v < MODULUS
    ensures StateAfter(seed, DrawOf(seed, v) + 1) == Unscramble(v)
  {
    hide Unscramble, StateAfter;
    ScrambleBijective(v);
    var u := Unscramble(v);
    var e := (u - seed) * GAMMA_INVERSE;
    var k := DrawOf(seed, v) + 1;
    var q := Remainder(e, MODULUS);
    StateClosedForm(seed, k);
    WholePeriods(seed, e, q, MODULUS, GAMMA);
    AddMultiple(seed + e * GAMMA, -q * GAMMA, MODULUS);
    GammaUndone(u - seed, seed);
    DivModUnique(u, MODULUS, 0, u);
  }

  /**
   Every 64-bit value is drawn exactly once per period, whatever the seed: the k-th draw yields v
   if and only if k is congruent to DrawOf(seed, v).
   */
  lemma EachValueOncePerPeriod(seed: int, v: nat, k: nat)
    requires v < MODULUS
    ensures DrawOf(seed, v) < MODULUS
    ensures Output(seed, k) == v <==> k % MODULUS == DrawOf(seed, v)
  {
    hide Scramble, Unscramble, StateAfter;
    var d := DrawOf(seed, v);
    ScrambleBijective(v);
    DrawOfIsReached(seed, v);
    StateBound(seed, k + 1);
    ScrambleBijective(StateAfter(seed, k + 1));
    FullPeriod(seed, k + 1, d + 1);
    SameShift(k, d);
  }

  lemma StateBound(seed: int, k: nat)
    ensures StateAfter(seed, k) < MODULUS
  {}

  lemma SameShift(k: nat, d: nat)
    requires d < MODULUS
    ensures (k + 1) % MODULUS == (d + 1) % MODULUS <==> k % MODULUS == d
  {}
}
