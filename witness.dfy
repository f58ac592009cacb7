/** The witness generator: every auxiliary value one step's window needs,
    computed in 32-bit arithmetic (`RoundWitness` and `get_witnesses`). */
module Witness {
  import opened Words
  import opened Ripemd

  /** The values of one step besides its inputs. `wb` and `w2b` are field sums that
      do not wrap; `wc` and `w2c` are their carries past 2^32. */
  datatype RoundWitness = RoundWitness(
    r: Word,      // f(b, c, d)
    w0: Word,     // a + r + x + offset, wrapped
    wb: int,      // a + r + x + offset, unwrapped
    wc: int,      // (wb - w0) >> 32
    w1: Word,     // w0 rotated left by the shift
    w1h: nat,     // w0 >> (32 - shift)
    w1l: nat,     // w0 % 2^(32 - shift)
    aNext: Word,  // w1 + e, wrapped
    w2b: int,     // w1 + e, unwrapped
    w2c: int,     // (w2b - aNext) >> 32
    w4h: nat,     // c >> 22
    w4l: nat,     // c % 2^22
    cNext: Word)  // c rotated left by 10

  predicate ValidStepInputs(round: nat, rol: seq<Word>, shift: nat)
  {
    round < 5 && |rol| == 5 && 1 <= shift <= 32
  }

  /** `get_witnesses(round, rol, x, shift, offset, pround)`; `rol` is (a, b, c, d, e).
      A shift of 0 is excluded: the code's `2u32.pow(32 - shift)` overflows there. */
  function GetWitnesses(round: nat, rol: seq<Word>, x: Word, shift: nat, offset: Word, pround: bool, mix: Mix): RoundWitness
    requires ValidStepInputs(round, rol, shift)
  {
    var f := if pround then 5 - round - 1 else round;
    var r := mix(f, rol[1], rol[2], rol[3]);
    var w0 := WrappingAdd(WrappingAdd(WrappingAdd(r, rol[0]), x), offset);
    var wb := r + rol[0] + x + offset;
    var w1 := Rotl(w0, shift);
    var aNext := WrappingAdd(w1, rol[4]);
    var w2b := w1 + rol[4];
    RoundWitness(
      r, w0, wb, (wb - w0) / Base,
      w1, Shr(w0, 32 - shift), w0 % Pow2(32 - shift),
      aNext, w2b, (w2b - aNext) / Base,
      Shr(rol[2], 22), rol[2] % 0x40_0000, Rotl(rol[2], 10))
  }

  /** Sum with carry: w0 is the four-way sum mod 2^32, wc its quotient, in 0..3. */
  lemma WitnessSumWithCarry(round: nat, rol: seq<Word>, x: Word, shift: nat, offset: Word, pround: bool, mix: Mix)
    requires ValidStepInputs(round, rol, shift)
    ensures var w := GetWitnesses(round, rol, x, shift, offset, pround, mix);
      && w.wb == w.r + rol[0] + x + offset
      && w.w0 == w.wb % Base
      && w.wc == w.wb / Base && 0 <= w.wc <= 3
      && w.w0 + w.wc * Base == w.wb
  {
    var w := GetWitnesses(round, rol, x, shift, offset, pround, mix);
    WrappingAdd4(w.r, rol[0], x, offset);
    DivModUnique(w.wb, Base, w.wb / Base, w.w0);
    CarryExact(w.wb, w.w0);
  }

  /** When v is the wrapped value of s, (s - v) / 2^32 is exactly the quotient. */
  lemma CarryExact(s: int, v: int)
    requires s >= 0 && v == s % Base
    ensures (s - v) / Base == s / Base && v + (s / Base) * Base == s
  {
    DivModUnique(s - v, Base, s / Base, 0);
  }

  /** Variable rotation: w1h and w1l split w0 at bit 32 - shift, and the swapped
      recombination is w0 rotated left by the shift. */
  lemma WitnessVariableRotation(round: nat, rol: seq<Word>, x: Word, shift: nat, offset: Word, pround: bool, mix: Mix)
    requires ValidStepInputs(round, rol, shift)
    ensures var w := GetWitnesses(round, rol, x, shift, offset, pround, mix);
      && w.w1h < Pow2(shift) && w.w1l < Pow2(32 - shift)
      && w.w1h * Pow2(32 - shift) + w.w1l == w.w0
      && w.w1l * Pow2(shift) + w.w1h == w.w1
      && w.w1 == Rotl(w.w0, shift)
  {
    var w := GetWitnesses(round, rol, x, shift, offset, pround, mix);
    RotlSplit(w.w0, shift);
    ShrSplit(w.w0, 32 - shift);
  }

  /** Second sum: a_next is w1 + e mod 2^32 and its carry is a bit. */
  lemma WitnessSecondSum(round: nat, rol: seq<Word>, x: Word, shift: nat, offset: Word, pround: bool, mix: Mix)
    requires ValidStepInputs(round, rol, shift)
    ensures var w := GetWitnesses(round, rol, x, shift, offset, pround, mix);
      && w.w2b == w.w1 + rol[4]
      && w.aNext == w.w2b % Base
      && (w.w2c == 0 || w.w2c == 1) && w.w2c * (w.w2c - 1) == 0
      && w.aNext + w.w2c * Base == w.w2b
  {
    var w := GetWitnesses(round, rol, x, shift, offset, pround, mix);
    CarryBit(w.w1, rol[4]);
  }

  /** The sum of two words wraps at most once: its carry past 2^32 is a bit. */
  lemma CarryBit(u: Word, e: Word)
    ensures var c := (u + e - WrappingAdd(u, e)) / Base;
      && (c == 0 || c == 1) && c * (c - 1) == 0
      && WrappingAdd(u, e) + c * Base == u + e
  {
    CarryExact(u + e, WrappingAdd(u, e));
  }

  /** Fixed rotation of c: split at bit 22, and the swapped recombination is c
      rotated left by 10. */
  lemma WitnessFixedRotation(round: nat, rol: seq<Word>, x: Word, shift: nat, offset: Word, pround: bool, mix: Mix)
    requires ValidStepInputs(round, rol, shift)
    ensures var w := GetWitnesses(round, rol, x, shift, offset, pround, mix);
      && w.w4h < 0x400 && w.w4l < 0x40_0000
      && w.w4h * 0x40_0000 + w.w4l == rol[2]
      && w.w4l * 0x400 + w.w4h == w.cNext
      && w.cNext == Rotl(rol[2], 10)
  {
    var w := GetWitnesses(round, rol, x, shift, offset, pround, mix);
    RotlSplit(rol[2], 10);
    ShrSplit(rol[2], 22);
    Pow2Values();
  }

  /** The quintuple the step hands on, [e, a_next, b, c_next, d], is the standard's
      step applied to (a, b, c, d, e) with f_round on the left line and f_(4-round)
      on the right. */
  lemma WitnessMatchesStep(round: nat, rol: seq<Word>, x: Word, shift: nat, offset: Word, pround: bool, mix: Mix)
    requires ValidStepInputs(round, rol, shift)
    ensures var w := GetWitnesses(round, rol, x, shift, offset, pround, mix);
      [rol[4], w.aNext, rol[1], w.cNext, rol[3]] == Step(rol, x, shift, offset, FunctionIndex(round, pround), mix)
  {
    var w := GetWitnesses(round, rol, x, shift, offset, pround, mix);
    var m := mix(FunctionIndex(round, pround), rol[1], rol[2], rol[3]);
    assert w.r == m;
    WrappingAdd4(m, rol[0], x, offset);
    var sum := (rol[0] + m + x + offset) % Base;
    assert w.w0 == sum;
    assert w.aNext == WrappingAdd(Rotl(sum, shift), rol[4]);
    TOfWrappedSum(rol[0], m, x, offset, rol[4], shift, sum);
  }

  lemma TOfWrappedSum(a: Word, m: Word, x: Word, k: Word, e: Word, s: nat, sum: Word)
    requires s <= 32 && sum == (a + m + x + k) % Base
    ensures T(a, m, x, k, e, s) == WrappingAdd(Rotl(sum, s), e)
  {
  }

  /** The boolean check on wc that the code leaves commented out would reject honest
      witnesses: with a, x and the constant all 2^32 - 1 the carry is at least 2. */
  lemma BooleanCarryCheckRejectsHonestWitness(round: nat, rol: seq<Word>, shift: nat, pround: bool, mix: Mix)
    requires ValidStepInputs(round, rol, shift) && rol[0] == Base - 1
    ensures var w := GetWitnesses(round, rol, Base - 1, shift, Base - 1, pround, mix);
      w.wc >= 2 && w.wc * (w.wc - 1) != 0
  {
    WitnessSumWithCarry(round, rol, Base - 1, shift, Base - 1, pround, mix);
  }
}
