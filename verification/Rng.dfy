// SplitMix64 on explicit 64-bit words (battle/battle/internal/engine/rng.go).
// A Go uint64 is an integer below 2^64; every sum and product wraps explicitly.
module Rng {
  const WORD: nat := 0x1_0000_0000_0000_0000
  const GAMMA: nat := 0x9e37_79b9_7f4a_7c15
  const GAMMA_INVERSE: nat := 0xf1de_83e1_9937_733d
  const MUL1: nat := 0xbf58_476d_1ce4_e5b9
  const MUL1_INVERSE: nat := 0x96de_1b17_3f11_9089
  const MUL2: nat := 0x94d0_49bb_1331_11eb
  const MUL2_INVERSE: nat := 0x3196_42b2_d24d_8ec3

  type Word = x: nat | x < WORD

  // Go's z >> s: s halvings.
  function ShiftRight(z: nat, s: nat): nat
    decreases z
  {
    if z == 0 || s == 0 then z else ShiftRight(z / 2, s - 1)
  }

  // Go's ^ on unsigned words: bit by bit, least significant bit first.
  function Xor(a: nat, b: nat): nat
    decreases a + b
  {
    if a == 0 && b == 0 then 0 else 2 * Xor(a / 2, b / 2) + (a % 2 + b % 2) % 2
  }

  // Go's z ^ (z >> s).
  function XorShift(z: nat, s: nat): nat {
    Xor(z, ShiftRight(z, s))
  }

  function Times(z: Word, factor: nat): Word {
    z * factor % WORD
  }

  function Advance(state: Word): Word {
    (state + GAMMA) % WORD
  }

  // One xor-shift-multiply round, and the whole output permutation of an advanced state.
  function Round(z: Word, s: nat, factor: nat): Word {
    XorShiftIsWord(z, s);
    Times(XorShift(z, s), factor)
  }

  function Mix(z: Word): Word {
    var z := Round(Round(z, 30, MUL1), 27, MUL2);
    XorShiftIsWord(z, 31);
    XorShift(z, 31)
  }

  // State after k draws, and the k-th output (counting from zero).
  function StateAfter(seed: Word, k: nat): Word {
    if k == 0 then seed else Advance(StateAfter(seed, k - 1))
  }

  function Output(seed: Word, k: nat): Word {
    Mix(StateAfter(seed, k + 1))
  }

  // A source of 64-bit words, numbered in the order they are drawn.
  type Dice = nat -> Word

  ghost predicate Streams(dice: Dice, seed: Word) {
    forall k: nat :: dice(k) == Output(seed, k)
  }

  function StreamOf(seed: Word): Dice {
    (k: nat) => Output(seed, k)
  }

  lemma StreamOfStreams(seed: Word)
    ensures Streams(StreamOf(seed), seed)
  {
  }

  class RNG {
    ghost const seed: Word
    ghost var draws: nat
    var state: Word

    ghost predicate Valid()
      reads this
    {
      state == StateAfter(seed, draws)
    }

    constructor (seed: Word)
      ensures Valid() && this.seed == seed && draws == 0
    {
      this.seed, draws := seed, 0;
      state := seed;
    }

    method Uint64() returns (r: Word)
      requires Valid()
      modifies this
      ensures Valid() && draws == old(draws) + 1
      ensures r == Output(seed, old(draws))
    {
      state := (state + GAMMA) % WORD;
      draws := draws + 1;
      var z := state;
      XorShiftIsWord(z, 30);
      z := Xor(z, ShiftRight(z, 30)) * MUL1 % WORD;
      XorShiftIsWord(z, 27);
      z := Xor(z, ShiftRight(z, 27)) * MUL2 % WORD;
      XorShiftIsWord(z, 31);
      r := Xor(z, ShiftRight(z, 31));
    }

    method Permille() returns (r: nat)
      requires Valid()
      modifies this
      ensures Valid() && draws == old(draws) + 1
      ensures r == Output(seed, old(draws)) % 1000
    {
      var word := Uint64();
      r := word % 1000;
    }
  }

  // ---- xor-shift is invertible ----

  function Pow2(n: nat): nat {
    if n == 0 then 1 else 2 * Pow2(n - 1)
  }

  lemma WordIsPow2()
    ensures Pow2(64) == WORD
  {
    assert Pow2(8) == 256;
    Pow2Adds(8, 8);
    Pow2Adds(16, 16);
    Pow2Adds(32, 32);
  }

  lemma {:induction false} Pow2Adds(m: nat, n: nat)
    ensures Pow2(m + n) == Pow2(m) * Pow2(n)
  {
    if m > 0 {
      Pow2Adds(m - 1, n);
      assert m - 1 + n == m + n - 1;
      TwiceOf(Pow2(m - 1), Pow2(n));
    }
  }

  lemma TwiceOf(x: nat, y: nat)
    ensures 2 * x * y == 2 * (x * y)
  {
  }

  lemma {:induction false} XorBelow(a: nat, b: nat, n: nat)
    requires a < Pow2(n) && b < Pow2(n)
    ensures Xor(a, b) < Pow2(n)
  {
    if n > 0 {
      XorBelow(a / 2, b / 2, n - 1);
    }
  }

  lemma {:induction false} ShiftRightShrinks(z: nat, s: nat)
    ensures ShiftRight(z, s) <= z
    ensures z > 0 && s > 0 ==> ShiftRight(z, s) < z
  {
    if z > 0 && s > 0 {
      ShiftRightShrinks(z / 2, s - 1);
    }
  }

  lemma XorShiftIsWord(z: Word, s: nat)
    ensures XorShift(z, s) < WORD
  {
    WordIsPow2();
    ShiftRightShrinks(z, s);
    XorBelow(z, ShiftRight(z, s), 64);
  }

  lemma XorBits(a: nat, b: nat)
    ensures Xor(a, b) / 2 == Xor(a / 2, b / 2)
    ensures Xor(a, b) % 2 == (a % 2 + b % 2) % 2
  {
  }

  lemma ShiftStep(x: nat, s: nat)
    requires s > 0
    ensures ShiftRight(x, s) == ShiftRight(x / 2, s - 1)
  {
  }

  lemma {:induction false} XorShifts(a: nat, b: nat, s: nat)
    ensures ShiftRight(Xor(a, b), s) == Xor(ShiftRight(a, s), ShiftRight(b, s))
    decreases s
  {
    if s > 0 {
      XorShifts(a / 2, b / 2, s - 1);
      ShiftStep(a, s);
      ShiftStep(b, s);
      ShiftStep(Xor(a, b), s);
      XorBits(a, b);
    }
  }

  lemma ParityCancels(a: nat, b: nat, x: nat)
    requires x % 2 == (a % 2 + b % 2) % 2
    ensures (x % 2 + b % 2) % 2 == a % 2
  {
  }

  lemma SameBits(a: nat, b: nat)
    requires a / 2 == b / 2 && a % 2 == b % 2
    ensures a == b
  {
  }

  lemma {:induction false} XorCancels(a: nat, b: nat)
    ensures Xor(Xor(a, b), b) == a
    decreases a + b
  {
    if a != 0 || b != 0 {
      var x := Xor(a, b);
      XorBits(a, b);
      XorBits(x, b);
      ParityCancels(a, b, x);
      XorCancels(a / 2, b / 2);
      SameBits(Xor(x, b), a);
    }
  }

  function UnXorShift(y: nat, s: nat): nat
    requires s >= 1
  {
    if y == 0 then 0 else
      ShiftRightShrinks(y, s);
      Xor(y, UnXorShift(ShiftRight(y, s), s))
  }

  lemma {:induction false} UnXorShiftBelow(y: nat, s: nat, n: nat)
    requires s >= 1 && y < Pow2(n)
    ensures UnXorShift(y, s) < Pow2(n)
    decreases y
  {
    if y != 0 {
      ShiftRightShrinks(y, s);
      UnXorShiftBelow(ShiftRight(y, s), s, n);
      XorBelow(y, UnXorShift(ShiftRight(y, s), s), n);
    }
  }

  lemma UnXorShiftIsWord(y: Word, s: nat)
    requires s >= 1
    ensures UnXorShift(y, s) < WORD
  {
    WordIsPow2();
    UnXorShiftBelow(y, s, 64);
  }

  lemma {:induction false} UnXorShiftUndoes(z: nat, s: nat)
    requires s >= 1
    ensures UnXorShift(XorShift(z, s), s) == z
  {
    if z > 0 {
      var high := ShiftRight(z, s);
      ShiftRightShrinks(z, s);
      UnXorShiftUndoes(high, s);
      XorShifts(z, high, s);
      XorCancels(z, high);
    }
  }

  lemma {:induction false} UnXorShiftShifts(y: nat, s: nat)
    requires s >= 1
    ensures ShiftRight(UnXorShift(y, s), s) == UnXorShift(ShiftRight(y, s), s)
  {
    if y > 0 {
      var high := ShiftRight(y, s);
      ShiftRightShrinks(y, s);
      UnXorShiftShifts(high, s);
      XorShifts(y, UnXorShift(high, s), s);
    }
  }

  lemma XorShiftUndoes(y: nat, s: nat)
    requires s >= 1
    ensures XorShift(UnXorShift(y, s), s) == y
  {
    UnXorShiftShifts(y, s);
    if y > 0 {
      XorCancels(y, UnXorShift(ShiftRight(y, s), s));
    }
  }

  // ---- multiplication by an odd word is invertible ----

  lemma RemainderIs(a: int, q: int, r: int)
    requires a == q * WORD + r && 0 <= r < WORD
    ensures a % WORD == r
  {
  }

  lemma TimesUndoes(z: Word, factor: nat, inverse: nat)
    requires factor * inverse % WORD == 1
    ensures Times(Times(z, factor), inverse) == z
  {
    var q := z * factor / WORD;
    var k := factor * inverse / WORD;
    calc {
      (z * factor - q * WORD) * inverse;
      z * (factor * inverse) - q * inverse * WORD;
      z * (k * WORD + 1) - q * inverse * WORD;
      (z * k - q * inverse) * WORD + z;
    }
    RemainderIs((z * factor - q * WORD) * inverse, z * k - q * inverse, z);
  }

  // ---- the output mix is a bijection ----

  function UnRound(y: Word, s: nat, inverse: nat): Word
    requires s >= 1
  {
    UnXorShiftIsWord(Times(y, inverse), s);
    UnXorShift(Times(y, inverse), s)
  }

  function Unmix(y: Word): Word {
    UnXorShiftIsWord(y, 31);
    UnRound(UnRound(UnXorShift(y, 31), 27, MUL2_INVERSE), 30, MUL1_INVERSE)
  }

  lemma RoundIsBijective(z: Word, s: nat, factor: nat, inverse: nat)
    requires s >= 1 && factor * inverse % WORD == 1 && inverse * factor % WORD == 1
    ensures UnRound(Round(z, s, factor), s, inverse) == z
    ensures Round(UnRound(z, s, inverse), s, factor) == z
  {
    XorShiftIsWord(z, s);
    TimesUndoes(XorShift(z, s), factor, inverse);
    UnXorShiftUndoes(z, s);
    XorShiftUndoes(Times(z, inverse), s);
    TimesUndoes(z, inverse, factor);
  }

  lemma MultipliersAreOdd()
    ensures MUL1 * MUL1_INVERSE % WORD == 1
    ensures MUL2 * MUL2_INVERSE % WORD == 1
    ensures GAMMA * GAMMA_INVERSE % WORD == 1
  {
  }

  // The output mix is a bijection on 64-bit words: Unmix is its two-sided inverse.
  lemma MixIsBijective(z: Word)
    ensures Unmix(Mix(z)) == z
    ensures Mix(Unmix(z)) == z
  {
    UnmixAfterMix(z);
    MixAfterUnmix(z);
  }

  lemma UnmixAfterMix(z: Word)
    ensures Unmix(Mix(z)) == z
  {
    MultipliersAreOdd();
    var a := Round(z, 30, MUL1);
    RoundIsBijective(z, 30, MUL1, MUL1_INVERSE);
    RoundIsBijective(a, 27, MUL2, MUL2_INVERSE);
    UnXorShiftUndoes(Round(a, 27, MUL2), 31);
  }

  lemma MixAfterUnmix(y: Word)
    ensures Mix(Unmix(y)) == y
  {
    MultipliersAreOdd();
    UnXorShiftIsWord(y, 31);
    var b := UnXorShift(y, 31);
    XorShiftUndoes(y, 31);
    RoundIsBijective(b, 27, MUL2, MUL2_INVERSE);
    RoundIsBijective(UnRound(b, 27, MUL2_INVERSE), 30, MUL1, MUL1_INVERSE);
  }

  // ---- the state sequence ----

  lemma {:induction false} StateClosedForm(seed: Word, k: nat)
    ensures StateAfter(seed, k) == (seed + k * GAMMA) % WORD
  {
    if k > 0 {
      StateClosedForm(seed, k - 1);
      var before := seed + (k - 1) * GAMMA;
      var q := before / WORD;
      assert before == q * WORD + StateAfter(seed, k - 1);
      var now := StateAfter(seed, k - 1) + GAMMA;
      assert seed + k * GAMMA == (q + now / WORD) * WORD + now % WORD;
      RemainderIs(seed + k * GAMMA, q + now / WORD, now % WORD);
    }
  }

  lemma EqualRemainders(a: nat, b: nat, gap: nat)
    requires a % WORD == b % WORD && b == a + gap
    ensures gap % WORD == 0
  {
    RemainderIs(gap, b / WORD - a / WORD, 0);
  }

  // Within one period of 2^64 no state repeats, because GAMMA is odd (invertible).
  lemma StatesAreDistinct(seed: Word, i: nat, n: nat)
    requires 0 < n < WORD
    ensures StateAfter(seed, i) != StateAfter(seed, i + n)
  {
    StateClosedForm(seed, i);
    StateClosedForm(seed, i + n);
    if StateAfter(seed, i) == StateAfter(seed, i + n) {
      assert (i + n) * GAMMA == i * GAMMA + n * GAMMA;
      EqualRemainders(seed + i * GAMMA, seed + (i + n) * GAMMA, n * GAMMA);
      MultipliersAreOdd();
      TimesUndoes(n, GAMMA, GAMMA_INVERSE);
      assert false;
    }
  }

  lemma PeriodIsWord(seed: Word, i: nat)
    ensures StateAfter(seed, i + WORD) == StateAfter(seed, i)
  {
    StateClosedForm(seed, i);
    StateClosedForm(seed, i + WORD);
    var here := seed + i * GAMMA;
    assert (i + WORD) * GAMMA == i * GAMMA + GAMMA * WORD;
    RemainderIs(here + GAMMA * WORD, here / WORD + GAMMA, here % WORD);
  }

  // From any seed, the first 2^64 outputs (indeed any 2^64 consecutive ones) are
  // pairwise distinct, and then the sequence starts over: the period is exactly 2^64.
  lemma OutputsNeverRepeat(seed: Word, i: nat, n: nat)
    requires 0 < n < WORD
    ensures Output(seed, i) != Output(seed, i + n)
    ensures Output(seed, i) == Output(seed, i + WORD)
  {
    StatesAreDistinct(seed, i + 1, n);
    PeriodIsWord(seed, i + 1);
    assert i + 1 + n == i + n + 1 && i + 1 + WORD == i + WORD + 1;
    MixIsInjective(StateAfter(seed, i + 1), StateAfter(seed, i + n + 1));
  }

  lemma MixIsInjective(y: Word, z: Word)
    requires y != z
    ensures Mix(y) != Mix(z)
  {
    UnmixAfterMix(y);
    UnmixAfterMix(z);
  }

  // ---- every output in closed form ----

  lemma {:induction false} ShiftDivides(z: nat, s: nat)
    ensures Pow2(s) > 0 && ShiftRight(z, s) == z / Pow2(s)
    decreases s
  {
    if s > 0 {
      ShiftDivides(z / 2, s - 1);
      HalvesCompose(z, Pow2(s - 1));
      ShiftStep(z, s);
    }
  }

  lemma HalvesCompose(z: nat, n: nat)
    requires n > 0
    ensures z / 2 / n == z / (2 * n)
  {
    var half, q := z / 2, z / 2 / n;
    assert half == q * n + half % n;
    assert z == q * (2 * n) + (2 * (half % n) + z % 2);
    assert 0 <= 2 * (half % n) + z % 2 < 2 * n;
    QuotientIs(z, 2 * n, q, 2 * (half % n) + z % 2);
  }

  lemma QuotientIs(a: nat, d: nat, q: int, r: nat)
    requires d > 0 && a == q * d + r && r < d
    ensures a / d == q
  {
    var k := a / d - q;
    assert a == a / d * d + a % d;
    assert k * d == r - a % d;
    FarFromZero(k, d);
  }

  lemma FarFromZero(k: int, d: int)
    requires d > 0
    ensures k >= 1 ==> k * d >= d
    ensures k <= -1 ==> k * d <= -d
  {
  }

  lemma ShiftsAre(z: nat)
    ensures ShiftRight(z, 30) == z / 0x4000_0000
    ensures ShiftRight(z, 27) == z / 0x800_0000
    ensures ShiftRight(z, 31) == z / 0x8000_0000
  {
    assert Pow2(8) == 256 && Pow2(3) == 8 && Pow2(4) == 16;
    Pow2Adds(8, 8);
    Pow2Adds(16, 8);
    Pow2Adds(24, 3);
    Pow2Adds(27, 3);
    Pow2Adds(27, 4);
    ShiftDivides(z, 30);
    ShiftDivides(z, 27);
    ShiftDivides(z, 31);
  }

  // The k-th output, counting from zero, written out with the generator's constants.
  lemma OutputClosedForm(seed: Word, k: nat)
    ensures var z0 := (seed + (k + 1) * 0x9e37_79b9_7f4a_7c15) % 0x1_0000_0000_0000_0000;
            var z1 := Xor(z0, z0 / 0x4000_0000) * 0xbf58_476d_1ce4_e5b9 % 0x1_0000_0000_0000_0000;
            var z2 := Xor(z1, z1 / 0x800_0000) * 0x94d0_49bb_1331_11eb % 0x1_0000_0000_0000_0000;
            Output(seed, k) == Xor(z2, z2 / 0x8000_0000)
  {
    hide Xor, ShiftRight;
    StateClosedForm(seed, k + 1);
    var z0 := StateAfter(seed, k + 1);
    ShiftsAre(z0);
    ShiftsAre(Round(z0, 30, MUL1));
    ShiftsAre(Round(Round(z0, 30, MUL1), 27, MUL2));
  }
}
