/** The five round gates created by `configure`, evaluated on a five-row window: they
    hold on every honestly written step (completeness), they read nothing outside
    their window, and they leave the mixing function and the compression rows
    unconstrained. */
module Gates {
  import opened Words
  import opened Field
  import opened Ripemd
  import opened Witness
  import opened GateCells
  import RoundGate
  import CompressGate

  function BLimbs(w: Window): seq<int>
  {
    [Val(w, RoundGate.BLimb(0)), Val(w, RoundGate.BLimb(1)), Val(w, RoundGate.BLimb(2)), Val(w, RoundGate.BLimb(3))]
  }

  function CLimbs(w: Window): seq<int>
  {
    [Val(w, RoundGate.CLimb(0)), Val(w, RoundGate.CLimb(1)), Val(w, RoundGate.CLimb(2)), Val(w, RoundGate.CLimb(3))]
  }

  function DLimbs(w: Window): seq<int>
  {
    [Val(w, RoundGate.DLimb(0)), Val(w, RoundGate.DLimb(1)), Val(w, RoundGate.DLimb(2)), Val(w, RoundGate.DLimb(3))]
  }

  function RLimbs(w: Window): seq<int>
  {
    [Val(w, RoundGate.RLimb(0)), Val(w, RoundGate.RLimb(1)), Val(w, RoundGate.RLimb(2)), Val(w, RoundGate.RLimb(3))]
  }

  // ---------------------------------------------------------------------------
  // The gates. Each equation is multiplied by `hsel` in the circuit and holds when
  // its left-hand side is 0 in the field; here a gate is the conjunction of its
  // equations and `ConstraintsHold` applies it on the rows whose selector is enabled.

  /** "sum with bound": wb is the limb sum of r plus a, x and the constant, and
      w0 + wc * 2^32 == wb. The boolean check on wc is not part of the gate. */
  predicate SumWithBound(w: Window)
  {
    && FieldZero(Val(w, RoundGate.WB()) - LimbAccumulate(RLimbs(w), 4) - Val(w, RoundGate.A())
         - Val(w, RoundGate.X()) - Val(w, RoundGate.Offset()))
    && FieldZero(Val(w, RoundGate.W0()) + Val(w, RoundGate.WC()) * Base - Val(w, RoundGate.WB()))
  }

  /** "sum with w1 rol4": w2b == w1 + e, w2c is boolean, a_next + w2c * 2^32 == w2b. */
  predicate SumWithW1Rol4(w: Window)
  {
    && FieldZero(Val(w, RoundGate.W2B()) - Val(w, RoundGate.W1()) - Val(w, RoundGate.E()))
    && FieldZero(Val(w, RoundGate.W2C()) * (Val(w, RoundGate.W2C()) - 1))
    && FieldZero(Val(w, RoundGate.ANext()) + Val(w, RoundGate.W2C()) * Base - Val(w, RoundGate.W2B()))
  }

  /** "limbs sum": the limbs of b, c and d recombine to b, c and d. */
  predicate LimbsSum(w: Window)
  {
    && FieldZero(LimbAccumulate(BLimbs(w), 4) - Val(w, RoundGate.B()))
    && FieldZero(LimbAccumulate(CLimbs(w), 4) - Val(w, RoundGate.C()))
    && FieldZero(LimbAccumulate(DLimbs(w), 4) - Val(w, RoundGate.D()))
  }

  /** "c rotate": c splits as w4h * 2^22 + w4l and c_next is w4l * 2^10 + w4h. */
  predicate CRotate(w: Window)
  {
    && FieldZero(Val(w, RoundGate.W4H()) * 0x40_0000 + Val(w, RoundGate.W4L()) - Val(w, RoundGate.C()))
    && FieldZero(Val(w, RoundGate.W4L()) * 0x400 + Val(w, RoundGate.W4H()) - Val(w, RoundGate.CNext()))
  }

  /** "w0 rotate": with the fixed cells w1_r = 2^s and w1_rr = 2^(32-s), w0 splits as
      w1h * w1_rr + w1l and w1 is w1l * w1_r + w1h. */
  predicate W0Rotate(w: Window)
  {
    && FieldZero(Val(w, RoundGate.W1H()) * Val(w, RoundGate.W1RR()) + Val(w, RoundGate.W1L()) - Val(w, RoundGate.W0()))
    && FieldZero(Val(w, RoundGate.W1L()) * Val(w, RoundGate.W1R()) + Val(w, RoundGate.W1H()) - Val(w, RoundGate.W1()))
  }

  predicate RoundGatesHold(w: Window)
  {
    SumWithBound(w) && SumWithW1Rol4(w) && LimbsSum(w) && CRotate(w) && W0Rotate(w)
  }

  /** The circuit's gates hold: every row whose `hsel` is enabled satisfies all five
      gates (on any other row each equation is multiplied by 0). */
  ghost predicate ConstraintsHold(g: Grid, enabled: set<nat>)
  {
    forall b | b in enabled :: RoundGatesHold(WindowAt(g, b))
  }

  // ---------------------------------------------------------------------------
  // Completeness: an honestly written step satisfies every gate.

  /** The cells a step copies in or fixes first: the registers rol = (a, b, c, d, e),
      the message word x and the two powers p = 2^s and q = 2^(32-s) of the shift s. */
  predicate StepInputs(w: Window, rol: seq<Word>, x: Word, p: int, q: int)
    requires |rol| == 5
  {
    && Has(w, RoundGate.A(), rol[0])
    && Has(w, RoundGate.B(), rol[1])
    && Has(w, RoundGate.C(), rol[2])
    && Has(w, RoundGate.D(), rol[3])
    && Has(w, RoundGate.E(), rol[4])
    && Has(w, RoundGate.X(), x)
    && Has(w, RoundGate.W1R(), p)
    && Has(w, RoundGate.W1RR(), q)
  }

  /** The byte limbs bl, cl and dl of b, c and d. */
  predicate OperandLimbs(w: Window, bl: seq<int>, cl: seq<int>, dl: seq<int>)
    requires |bl| == 4 && |cl| == 4 && |dl| == 4
  {
    && (forall i | 0 <= i < 4 :: Has(w, RoundGate.BLimb(i), bl[i]))
    && (forall i | 0 <= i < 4 :: Has(w, RoundGate.CLimb(i), cl[i]))
    && (forall i | 0 <= i < 4 :: Has(w, RoundGate.DLimb(i), dl[i]))
  }

  /** The round constant k, the limbs rl of r and the auxiliary values of witness wit. */
  predicate WitnessCells(w: Window, k: Word, rl: seq<int>, wit: RoundWitness)
    requires |rl| == 4
  {
    && Has(w, RoundGate.Offset(), k)
    && (forall i | 0 <= i < 4 :: Has(w, RoundGate.RLimb(i), rl[i]))
    && Has(w, RoundGate.W0(), wit.w0)
    && Has(w, RoundGate.WB(), wit.wb)
    && Has(w, RoundGate.WC(), wit.wc)
    && Has(w, RoundGate.W1(), wit.w1)
    && Has(w, RoundGate.W1H(), wit.w1h)
    && Has(w, RoundGate.W1L(), wit.w1l)
    && Has(w, RoundGate.W4H(), wit.w4h)
    && Has(w, RoundGate.W4L(), wit.w4l)
    && Has(w, RoundGate.W2B(), wit.w2b)
    && Has(w, RoundGate.W2C(), wit.w2c)
  }

  /** A step's window as the step writer fills it, for registers rol = (a, b, c, d, e),
      message word x, shift s, constant k and witness wit. */
  ghost predicate StepWindow(w: Window, rol: seq<Word>, x: Word, s: nat, k: Word, wit: RoundWitness)
    requires |rol| == 5 && s <= 32
  {
    && StepInputs(w, rol, x, Pow2(s), Pow2(32 - s))
    && OperandLimbs(w, ToLimbs(rol[1]), ToLimbs(rol[2]), ToLimbs(rol[3]))
    && WitnessCells(w, k, ToLimbs(wit.r), wit)
    && Has(w, RoundGate.ANext(), wit.aNext)
    && Has(w, RoundGate.CNext(), wit.cNext)
  }

  lemma SumWithBoundComplete(w: Window, round: nat, rol: seq<Word>, x: Word, s: nat, k: Word, pround: bool, mix: Mix)
    requires ValidStepInputs(round, rol, s)
    requires StepWindow(w, rol, x, s, k, GetWitnesses(round, rol, x, s, k, pround, mix))
    ensures SumWithBound(w)
  {
    var wit := GetWitnesses(round, rol, x, s, k, pround, mix);
    WitnessSumWithCarry(round, rol, x, s, k, pround, mix);
    LimbsRoundTrip(wit.r);
    assert RLimbs(w) == ToLimbs(wit.r);
    LimbAccumulateIsFromLimbs(RLimbs(w));
    assert Val(w, RoundGate.WB()) - LimbAccumulate(RLimbs(w), 4) - Val(w, RoundGate.A())
      - Val(w, RoundGate.X()) - Val(w, RoundGate.Offset()) == 0;
    assert Val(w, RoundGate.W0()) + Val(w, RoundGate.WC()) * Base - Val(w, RoundGate.WB()) == 0;
  }

  lemma SumWithW1Rol4Complete(w: Window, round: nat, rol: seq<Word>, x: Word, s: nat, k: Word, pround: bool, mix: Mix)
    requires ValidStepInputs(round, rol, s)
    requires StepWindow(w, rol, x, s, k, GetWitnesses(round, rol, x, s, k, pround, mix))
    ensures SumWithW1Rol4(w)
  {
    WitnessSecondSum(round, rol, x, s, k, pround, mix);
    assert Val(w, RoundGate.W2B()) - Val(w, RoundGate.W1()) - Val(w, RoundGate.E()) == 0;
    assert Val(w, RoundGate.W2C()) * (Val(w, RoundGate.W2C()) - 1) == 0;
    assert Val(w, RoundGate.ANext()) + Val(w, RoundGate.W2C()) * Base - Val(w, RoundGate.W2B()) == 0;
  }

  lemma LimbsSumComplete(w: Window, round: nat, rol: seq<Word>, x: Word, s: nat, k: Word, pround: bool, mix: Mix)
    requires ValidStepInputs(round, rol, s)
    requires StepWindow(w, rol, x, s, k, GetWitnesses(round, rol, x, s, k, pround, mix))
    ensures LimbsSum(w)
  {
    LimbsRoundTrip(rol[1]);
    LimbsRoundTrip(rol[2]);
    LimbsRoundTrip(rol[3]);
    assert BLimbs(w) == ToLimbs(rol[1]);
    assert CLimbs(w) == ToLimbs(rol[2]);
    assert DLimbs(w) == ToLimbs(rol[3]);
    LimbAccumulateIsFromLimbs(BLimbs(w));
    LimbAccumulateIsFromLimbs(CLimbs(w));
    LimbAccumulateIsFromLimbs(DLimbs(w));
    assert LimbAccumulate(BLimbs(w), 4) - Val(w, RoundGate.B()) == 0;
    assert LimbAccumulate(CLimbs(w), 4) - Val(w, RoundGate.C()) == 0;
    assert LimbAccumulate(DLimbs(w), 4) - Val(w, RoundGate.D()) == 0;
  }

  lemma CRotateComplete(w: Window, round: nat, rol: seq<Word>, x: Word, s: nat, k: Word, pround: bool, mix: Mix)
    requires ValidStepInputs(round, rol, s)
    requires StepWindow(w, rol, x, s, k, GetWitnesses(round, rol, x, s, k, pround, mix))
    ensures CRotate(w)
  {
    WitnessFixedRotation(round, rol, x, s, k, pround, mix);
  }

  lemma W0RotateComplete(w: Window, round: nat, rol: seq<Word>, x: Word, s: nat, k: Word, pround: bool, mix: Mix)
    requires ValidStepInputs(round, rol, s)
    requires StepWindow(w, rol, x, s, k, GetWitnesses(round, rol, x, s, k, pround, mix))
    ensures W0Rotate(w)
  {
    WitnessVariableRotation(round, rol, x, s, k, pround, mix);
  }

  /** Completeness: the window the step writer fills from `get_witnesses` satisfies
      all five gates. */
  lemma StepWindowSatisfiesGates(w: Window, round: nat, rol: seq<Word>, x: Word, s: nat, k: Word, pround: bool, mix: Mix)
    requires ValidStepInputs(round, rol, s)
    requires StepWindow(w, rol, x, s, k, GetWitnesses(round, rol, x, s, k, pround, mix))
    ensures RoundGatesHold(w)
  {
    SumWithBoundComplete(w, round, rol, x, s, k, pround, mix);
    SumWithW1Rol4Complete(w, round, rol, x, s, k, pround, mix);
    LimbsSumComplete(w, round, rol, x, s, k, pround, mix);
    CRotateComplete(w, round, rol, x, s, k, pround, mix);
    W0RotateComplete(w, round, rol, x, s, k, pround, mix);
  }

  // ---------------------------------------------------------------------------
  // Locality: a gate reads the window of the row whose selector is enabled and
  // nothing else (its queries are rotations 0..4 of that row).

  /** A window whose `hsel` is not enabled is read by no gate: any values written
      there leave the constraints satisfied. */
  lemma UnselectedWindowUnconstrained(g: Grid, enabled: set<nat>, start: nat, w: Window)
    requires start !in enabled && ConstraintsHold(g, enabled)
    ensures ConstraintsHold(g[start := w], enabled)
  {
    forall b | b in enabled
      ensures RoundGatesHold(WindowAt(g[start := w], b))
    {
      assert WindowAt(g[start := w], b) == WindowAt(g, b);
    }
  }

  // ---------------------------------------------------------------------------
  // What the gates leave open.

  lemma RotlInjective(u: Word, v: Word, s: nat)
    requires 1 <= s <= 32 && Rotl(u, s) == Rotl(v, s)
    ensures u == v
  {
    RotlSplit(u, s);
    RotlSplit(v, s);
    SplitUnique(Rotl(u, s), s, u % Pow2(32 - s), Shr(u, 32 - s));
    SplitUnique(Rotl(v, s), s, v % Pow2(32 - s), Shr(v, 32 - s));
    ShrSplit(u, 32 - s);
    ShrSplit(v, 32 - s);
  }

  /** The mixing function plus one, which no RIPEMD-160 step uses. */
  function Forged(mix: Mix): Mix
  {
    (j: nat, p: Word, q: Word, t: Word) => (mix(j, p, q, t) + 1) % Base
  }

  /** No gate ties r to f(b, c, d): a window written with f(b, c, d) + 1 in place of
      f(b, c, d) satisfies all five gates, yet its a_next is not the step's T. */
  lemma ForgedWindowPassesGates(w: Window, round: nat, rol: seq<Word>, x: Word, s: nat, k: Word, pround: bool, mix: Mix)
    requires ValidStepInputs(round, rol, s)
    requires StepWindow(w, rol, x, s, k, GetWitnesses(round, rol, x, s, k, pround, Forged(mix)))
    ensures RoundGatesHold(w)
    ensures Val(w, RoundGate.ANext()) != Step(rol, x, s, k, FunctionIndex(round, pround), mix)[1]
  {
    StepWindowSatisfiesGates(w, round, rol, x, s, k, pround, Forged(mix));
    WitnessMatchesStep(round, rol, x, s, k, pround, Forged(mix));
    var f := FunctionIndex(round, pround);
    ForgedStepDiffers(rol, x, s, k, f, mix);
  }

  lemma ForgedStepDiffers(st: seq<Word>, x: Word, s: nat, k: Word, f: nat, mix: Mix)
    requires |st| == 5 && 1 <= s <= 32
    ensures Step(st, x, s, k, f, Forged(mix))[1] != Step(st, x, s, k, f, mix)[1]
  {
    var m := mix(f, st[1], st[2], st[3]);
    assert Forged(mix)(f, st[1], st[2], st[3]) == (m + 1) % Base;
    TDiffers(st[0], m, x, k, st[4], s);
  }

  /** T changes when f(B, C, D) is replaced by f(B, C, D) + 1 mod 2^32. */
  lemma TDiffers(a: Word, m: Word, x: Word, k: Word, e: Word, s: nat)
    requires 1 <= s <= 32
    ensures T(a, (m + 1) % Base, x, k, e, s) != T(a, m, x, k, e, s)
  {
    var u: Word := (a + m + x + k) % Base;
    var u': Word := (a + (m + 1) % Base + x + k) % Base;
    WrappedSumMovesOn(a, m, x, k);
    RotatedSumsDiffer(u', u, e, s);
  }

  /** Distinct words stay distinct once rotated and offset by e modulo 2^32. */
  lemma RotatedSumsDiffer(u: Word, v: Word, e: Word, s: nat)
    requires 1 <= s <= 32 && u != v
    ensures (Rotl(u, s) + e) % Base != (Rotl(v, s) + e) % Base
  {
    if (Rotl(u, s) + e) % Base == (Rotl(v, s) + e) % Base {
      AddCancel(Rotl(u, s), Rotl(v, s), e);
      RotlInjective(u, v, s);
    }
  }

  /** Adding one to a summand changes the wrapped four-way sum. */
  lemma WrappedSumMovesOn(a: Word, m: Word, x: Word, k: Word)
    ensures (a + (m + 1) % Base + x + k) % Base != (a + m + x + k) % Base
  {
    var u := (a + m + x + k) % Base;
    assert (a + (m + 1) % Base + x + k) % Base == (u + 1) % Base by {
      ModAddLeft(m + 1, a + x + k, Base);
      ModAddLeft(a + m + x + k, 1, Base);
    }
  }

  lemma AddCancel(p: Word, q: Word, e: Word)
    requires (p + e) % Base == (q + e) % Base
    ensures p == q
  {
    DivModUnique(p + e, Base, (p + e) / Base, (p + e) % Base);
    DivModUnique(q + e, Base, (q + e) / Base, (q + e) % Base);
  }

  /** The constraints a sound round needs besides the five gates: r tied to
      f(b, c, d) (its limbs recombine to the mixing function of b, c and d), the fixed
      cells holding 2^s, 2^(32-s) and the constant, the registers and message word
      in 32 bits, and range checks on every cell a gate multiplies by a power of two:
      wc in 0..3, w1_h below 2^s, w1_l below 2^(32-s), w4_h below 2^10, w4_l below
      2^22, w0, a_next and w2c in 32 bits. */
  ghost predicate SoundRoundGatesHold(w: Window, f: nat, s: nat, k: Word, mix: Mix)
    requires s <= 32
  {
    && RoundGatesHold(w)
    && IsWord(Val(w, RoundGate.A())) && IsWord(Val(w, RoundGate.B())) && IsWord(Val(w, RoundGate.C()))
    && IsWord(Val(w, RoundGate.D())) && IsWord(Val(w, RoundGate.E())) && IsWord(Val(w, RoundGate.X()))
    && LimbAccumulate(RLimbs(w), 4) == mix(f, Val(w, RoundGate.B()), Val(w, RoundGate.C()), Val(w, RoundGate.D()))
    && Val(w, RoundGate.W1R()) == Pow2(s) && Val(w, RoundGate.W1RR()) == Pow2(32 - s)
    && Val(w, RoundGate.Offset()) == k
    && IsWord(Val(w, RoundGate.W0())) && 0 <= Val(w, RoundGate.WC()) <= 3
    && 0 <= Val(w, RoundGate.W1H()) < Pow2(s) && 0 <= Val(w, RoundGate.W1L()) < Pow2(32 - s)
    && 0 <= Val(w, RoundGate.W4H()) < 0x400 && 0 <= Val(w, RoundGate.W4L()) < 0x40_0000
    && IsWord(Val(w, RoundGate.ANext())) && IsWord(Val(w, RoundGate.W2C()))
  }

  /** Every value of the window is a field element. */
  predicate FieldWindow(w: Window)
  {
    forall c | c in w :: InField(w[c])
  }

  function Registers(w: Window): seq<Word>
    requires IsWord(Val(w, RoundGate.A())) && IsWord(Val(w, RoundGate.B())) && IsWord(Val(w, RoundGate.C()))
    requires IsWord(Val(w, RoundGate.D())) && IsWord(Val(w, RoundGate.E()))
  {
    [Val(w, RoundGate.A()), Val(w, RoundGate.B()), Val(w, RoundGate.C()), Val(w, RoundGate.D()), Val(w, RoundGate.E())]
  }

  /** A 32-bit value plus a multiple of 2^32 determines the value: it is the sum mod 2^32. */
  lemma WrapFromCarry(sum: int, v: int, q: int)
    requires IsWord(v) && v + q * Base == sum
    ensures v == sum % Base
  {
    DivModUnique(sum, Base, q, v);
  }

  /** A split of w at bit 32 - s with the low part range-checked, recombined the other
      way round, is w rotated left by s. */
  lemma RotationFromSplit(w: Word, s: nat, h: int, l: int, w1: int)
    requires 1 <= s <= 32
    requires 0 <= l < Pow2(32 - s) && h * Pow2(32 - s) + l == w && l * Pow2(s) + h == w1
    ensures w1 == Rotl(w, s)
  {
    SplitUnique(w, 32 - s, h, l);
    RotlSplit(w, s);
  }

  /** "sum with bound" over the field, with wc in 0..3: the wrapped sum w0 plus the
      carry times 2^32 is a + r + x + k as integers, whatever field element wb holds. */
  lemma SumWithBoundSound(wb: int, r: int, a: Word, x: Word, k: Word, w0: Word, wc: int)
    requires FieldZero(wb - r - a - x - k) && FieldZero(w0 + wc * Base - wb)
    requires IsWord(r) && 0 <= wc <= 3
    ensures w0 + wc * Base == a + r + x + k
  {
    FieldZeroAdd(w0 + wc * Base - wb, wb - r - a - x - k);
    assert (w0 + wc * Base - wb) + (wb - r - a - x - k) == w0 + wc * Base - a - r - x - k;
    FieldZeroSmall(w0 + wc * Base - a - r - x - k);
  }

  /** The boolean check over the field, on a value below 2^32: the value is 0 or 1. */
  lemma BooleanInField(v: int)
    requires IsWord(v) && FieldZero(v * (v - 1))
    ensures v == 0 || v == 1
  {
    if v > 1 {
      MulLeftMonotone(v, Base, v - 1);
      MulAtLeast(v, v - 1);
      FieldZeroSmall(v * (v - 1));
    }
  }

  /** "sum with w1 rol4" over the field, with w2c in 32 bits: w2c is a bit and
      a_next plus w2c times 2^32 is w1 + e as integers. */
  lemma SecondSumSound(w2b: int, w1: Word, e: Word, w2c: int, aNext: Word)
    requires FieldZero(w2b - w1 - e) && FieldZero(w2c * (w2c - 1)) && FieldZero(aNext + w2c * Base - w2b)
    requires IsWord(w2c)
    ensures w2c == 0 || w2c == 1
    ensures aNext + w2c * Base == w1 + e
  {
    BooleanInField(w2c);
    FieldZeroAdd(aNext + w2c * Base - w2b, w2b - w1 - e);
    assert (aNext + w2c * Base - w2b) + (w2b - w1 - e) == aNext + w2c * Base - w1 - e;
    FieldZeroSmall(aNext + w2c * Base - w1 - e);
  }

  /** "c rotate" over the field, with w4_h below 2^10 and w4_l below 2^22: both
      equations hold as integers. */
  lemma CRotateSound(w4h: int, w4l: int, c: Word, cNext: int)
    requires FieldZero(w4h * 0x40_0000 + w4l - c) && FieldZero(w4l * 0x400 + w4h - cNext)
    requires 0 <= w4h < 0x400 && 0 <= w4l < 0x40_0000 && InField(cNext)
    ensures w4h * 0x40_0000 + w4l == c && w4l * 0x400 + w4h == cNext
  {
    FieldZeroSmall(w4h * 0x40_0000 + w4l - c);
    FieldZeroSmall(w4l * 0x400 + w4h - cNext);
  }

  /** A split h, l with h below p and l below q, where p * q == 2^32, recombines to
      a value below 2^32. */
  lemma SplitBelowBase(h: int, l: int, p: int, q: int)
    requires p >= 1 && q >= 1 && p * q == Base && 0 <= h < p && 0 <= l < q
    ensures 0 <= h * q + l < Base
  {
    MulLeftMonotone(h, p - 1, q);
    MulNonNegative(h, q);
    assert (p - 1) * q == p * q - q;
  }

  /** Both "w0 rotate" equations over the field, for powers p and q of two with
      p * q == 2^32 and the split range-checked, hold as integers. */
  lemma SplitFieldEquations(w1h: int, w1l: int, w0: Word, w1: int, p: int, q: int)
    requires p >= 1 && q >= 1 && p * q == Base
    requires FieldZero(w1h * q + w1l - w0) && FieldZero(w1l * p + w1h - w1)
    requires 0 <= w1h < p && 0 <= w1l < q && InField(w1)
    ensures w1h * q + w1l == w0 && w1l * p + w1h == w1
  {
    SplitBelowBase(w1h, w1l, p, q);
    assert q * p == Base;
    SplitBelowBase(w1l, w1h, q, p);
    FieldZeroSmall(w1h * q + w1l - w0);
    FieldZeroSmall(w1l * p + w1h - w1);
  }

  /** "w0 rotate" on a window, with the fixed cells holding 2^s and 2^(32-s), w0 a
      word, w1 a field element and w1_h, w1_l range-checked: both equations hold as
      integers. */
  lemma W0RotateWindow(w: Window, s: nat)
    requires 1 <= s <= 32 && W0Rotate(w) && IsWord(Val(w, RoundGate.W0())) && InField(Val(w, RoundGate.W1()))
    requires Val(w, RoundGate.W1R()) == Pow2(s) && Val(w, RoundGate.W1RR()) == Pow2(32 - s)
    requires 0 <= Val(w, RoundGate.W1H()) < Pow2(s) && 0 <= Val(w, RoundGate.W1L()) < Pow2(32 - s)
    ensures Val(w, RoundGate.W1H()) * Pow2(32 - s) + Val(w, RoundGate.W1L()) == Val(w, RoundGate.W0())
    ensures Val(w, RoundGate.W1L()) * Pow2(s) + Val(w, RoundGate.W1H()) == Val(w, RoundGate.W1())
  {
    Pow2Split(s);
    SplitFieldEquations(Val(w, RoundGate.W1H()), Val(w, RoundGate.W1L()), Val(w, RoundGate.W0()), Val(w, RoundGate.W1()),
      Val(w, RoundGate.W1R()), Val(w, RoundGate.W1RR()));
  }

  /** "w0 rotate", with the fixed cells holding 2^s and 2^(32-s) and w1_h, w1_l
      range-checked, makes w1 the rotation of w0 by s. */
  lemma W0RotateGateRotates(w: Window, s: nat)
    requires 1 <= s <= 32 && W0Rotate(w) && IsWord(Val(w, RoundGate.W0())) && InField(Val(w, RoundGate.W1()))
    requires Val(w, RoundGate.W1R()) == Pow2(s) && Val(w, RoundGate.W1RR()) == Pow2(32 - s)
    requires 0 <= Val(w, RoundGate.W1H()) < Pow2(s) && 0 <= Val(w, RoundGate.W1L()) < Pow2(32 - s)
    ensures Val(w, RoundGate.W1()) == Rotl(Val(w, RoundGate.W0()), s)
  {
    W0RotateWindow(w, s);
    RotationFromSplit(Val(w, RoundGate.W0()), s, Val(w, RoundGate.W1H()), Val(w, RoundGate.W1L()), Val(w, RoundGate.W1()));
  }

  /** The rest of the step, from the gate equations as integers, the tie of r to
      f(b, c, d), the range checks and the rotation of w0, stated on the cell values. */
  lemma SoundStepArith(a: Word, b: Word, c: Word, d: Word, e: Word, x: Word, s: nat, k: Word, f: nat, mix: Mix,
                       r: int, w0: int, wc: int, w1: int, w2c: int, aNext: int,
                       w4h: int, w4l: int, cNext: int)
    requires 1 <= s <= 32
    requires w0 + wc * Base == a + r + x + k && aNext + w2c * Base == w1 + e
    requires w4h * 0x40_0000 + w4l == c && w4l * 0x400 + w4h == cNext
    requires r == mix(f, b, c, d) && IsWord(w0) && w1 == Rotl(w0, s)
    requires 0 <= w4l < 0x40_0000 && IsWord(aNext)
    ensures [e, aNext, b, cNext, d] == Step([a, b, c, d, e], x, s, k, f, mix)
  {
    WrapFromCarry(a + r + x + k, w0, wc);
    WrapFromCarry(w1 + e, aNext, w2c);
    Pow2Values();
    RotationFromSplit(c, 10, w4h, w4l, cNext);
    StepOfParts(a, b, c, d, e, x, s, k, f, mix, w0, w1, aNext, cNext);
  }

  /** Every cell the round gates read holds a value in the window. */
  predicate RoundCellsAssigned(w: Window)
  {
    && RoundGate.A() in w && RoundGate.B() in w && RoundGate.C() in w && RoundGate.D() in w
    && RoundGate.E() in w && RoundGate.X() in w && RoundGate.Offset() in w
    && RoundGate.W0() in w && RoundGate.WB() in w && RoundGate.WC() in w && RoundGate.W1() in w
    && RoundGate.W1H() in w && RoundGate.W1L() in w && RoundGate.W1R() in w && RoundGate.W1RR() in w
    && RoundGate.W2B() in w && RoundGate.W2C() in w && RoundGate.ANext() in w
    && RoundGate.W4H() in w && RoundGate.W4L() in w && RoundGate.CNext() in w
    && (forall i | 0 <= i < 4 :: RoundGate.RLimb(i) in w && RoundGate.BLimb(i) in w && RoundGate.CLimb(i) in w && RoundGate.DLimb(i) in w)
  }

  /** "sum with bound" on a window with the constraints of a sound round: the wrapped
      sum plus the carry is the sum of a, r, x and the constant as integers. */
  lemma SumWithBoundWindow(w: Window, k: Word)
    requires SumWithBound(w) && Val(w, RoundGate.Offset()) == k
    requires IsWord(Val(w, RoundGate.A())) && IsWord(Val(w, RoundGate.X())) && IsWord(LimbAccumulate(RLimbs(w), 4))
    requires IsWord(Val(w, RoundGate.W0())) && 0 <= Val(w, RoundGate.WC()) <= 3
    ensures Val(w, RoundGate.W0()) + Val(w, RoundGate.WC()) * Base
      == Val(w, RoundGate.A()) + LimbAccumulate(RLimbs(w), 4) + Val(w, RoundGate.X()) + k
  {
    SumWithBoundSound(Val(w, RoundGate.WB()), LimbAccumulate(RLimbs(w), 4), Val(w, RoundGate.A()),
      Val(w, RoundGate.X()), k, Val(w, RoundGate.W0()), Val(w, RoundGate.WC()));
  }

  /** "sum with w1 rol4" on a window with w1, e, a_next and w2c in 32 bits. */
  lemma SecondSumWindow(w: Window)
    requires SumWithW1Rol4(w)
    requires IsWord(Val(w, RoundGate.W1())) && IsWord(Val(w, RoundGate.E()))
    requires IsWord(Val(w, RoundGate.ANext())) && IsWord(Val(w, RoundGate.W2C()))
    ensures Val(w, RoundGate.ANext()) + Val(w, RoundGate.W2C()) * Base == Val(w, RoundGate.W1()) + Val(w, RoundGate.E())
  {
    SecondSumSound(Val(w, RoundGate.W2B()), Val(w, RoundGate.W1()), Val(w, RoundGate.E()),
      Val(w, RoundGate.W2C()), Val(w, RoundGate.ANext()));
  }

  /** "c rotate" on a window with c in 32 bits and w4_h, w4_l range-checked. */
  lemma CRotateWindow(w: Window)
    requires CRotate(w) && IsWord(Val(w, RoundGate.C())) && InField(Val(w, RoundGate.CNext()))
    requires 0 <= Val(w, RoundGate.W4H()) < 0x400 && 0 <= Val(w, RoundGate.W4L()) < 0x40_0000
    ensures Val(w, RoundGate.W4H()) * 0x40_0000 + Val(w, RoundGate.W4L()) == Val(w, RoundGate.C())
    ensures Val(w, RoundGate.W4L()) * 0x400 + Val(w, RoundGate.W4H()) == Val(w, RoundGate.CNext())
  {
    CRotateSound(Val(w, RoundGate.W4H()), Val(w, RoundGate.W4L()), Val(w, RoundGate.C()), Val(w, RoundGate.CNext()));
  }

  /** With those constraints the window determines the step: the quintuple the step
      hands on, (e, a_next, b, c_next, d), is the standard's step applied to (a, b, c, d, e).
      The gates hold in the field; the window is a prover's full assignment of field
      elements to every cell the gates read. */
  lemma SoundWindowDeterminesStep(w: Window, f: nat, s: nat, k: Word, mix: Mix)
    requires 1 <= s <= 32
    requires RoundCellsAssigned(w) && FieldWindow(w) && SoundRoundGatesHold(w, f, s, k, mix)
    ensures [Val(w, RoundGate.E()), Val(w, RoundGate.ANext()), Val(w, RoundGate.B()), Val(w, RoundGate.CNext()), Val(w, RoundGate.D())]
      == Step(Registers(w), Val(w, RoundGate.X()), s, k, f, mix)
  {
    assert InField(w[RoundGate.W1()]) && InField(w[RoundGate.CNext()]);
    W0RotateGateRotates(w, s);
    SumWithBoundWindow(w, k);
    SecondSumWindow(w);
    CRotateWindow(w);
    SoundStepArith(Val(w, RoundGate.A()), Val(w, RoundGate.B()), Val(w, RoundGate.C()), Val(w, RoundGate.D()),
      Val(w, RoundGate.E()), Val(w, RoundGate.X()), s, k, f, mix,
      LimbAccumulate(RLimbs(w), 4), Val(w, RoundGate.W0()), Val(w, RoundGate.WC()),
      Val(w, RoundGate.W1()), Val(w, RoundGate.W2C()), Val(w, RoundGate.ANext()),
      Val(w, RoundGate.W4H()), Val(w, RoundGate.W4L()), Val(w, RoundGate.CNext()));
  }

  /** The added constraints do not reject an honest prover: a step's window filled
      from `get_witnesses` assigns every cell the gates read and meets every one of
      them, for the step's own mixing function. */
  lemma StepWindowMeetsSoundConstraints(w: Window, round: nat, rol: seq<Word>, x: Word, s: nat, k: Word, pround: bool, mix: Mix)
    requires ValidStepInputs(round, rol, s)
    requires StepWindow(w, rol, x, s, k, GetWitnesses(round, rol, x, s, k, pround, mix))
    ensures RoundCellsAssigned(w) && SoundRoundGatesHold(w, FunctionIndex(round, pround), s, k, mix)
  {
    var wit := GetWitnesses(round, rol, x, s, k, pround, mix);
    StepWindowSatisfiesGates(w, round, rol, x, s, k, pround, mix);
    WitnessSumWithCarry(round, rol, x, s, k, pround, mix);
    WitnessVariableRotation(round, rol, x, s, k, pround, mix);
    WitnessSecondSum(round, rol, x, s, k, pround, mix);
    WitnessFixedRotation(round, rol, x, s, k, pround, mix);
    LimbsRoundTrip(wit.r);
    assert RLimbs(w) == ToLimbs(wit.r);
    LimbAccumulateIsFromLimbs(RLimbs(w));
  }

  /** The step's outputs from its intermediate values: the wrapped sum, its rotation,
      the second wrapped sum and the rotated c. */
  lemma StepOfParts(a: Word, b: Word, c: Word, d: Word, e: Word, x: Word, s: nat, k: Word, f: nat, mix: Mix,
                    w0: int, w1: int, aNext: int, cNext: int)
    requires 1 <= s <= 32
    requires w0 == (a + mix(f, b, c, d) + x + k) % Base
    requires w1 == Rotl(w0, s) && aNext == (w1 + e) % Base && cNext == Rotl(c, 10)
    ensures [e, aNext, b, cNext, d] == Step([a, b, c, d, e], x, s, k, f, mix)
  {
    TOfWrappedSum(a, mix(f, b, c, d), x, k, e, s, w0);
  }

  // ---------------------------------------------------------------------------
  // The compression gate the circuit does not have, over the corrected layout in
  // which each new word has a cell of its own.

  /** Row k of a compression window: in the field, sum_k is its three summands and
      the new word plus the carry times 2^32 is sum_k. */
  predicate CompressRow(w: Window, k: nat)
  {
    && FieldZero(Val(w, CompressGate.Sum(k)) - Val(w, CompressGate.Summand(0, k))
         - Val(w, CompressGate.Summand(1, k)) - Val(w, CompressGate.Summand(2, k)))
    && FieldZero(Val(w, CompressGate.NewIntended(k)) + Val(w, CompressGate.Ca(k)) * Base - Val(w, CompressGate.Sum(k)))
  }

  predicate IntendedCompressGate(w: Window)
  {
    forall k | 0 <= k < 5 :: CompressRow(w, k)
  }

  /** The range checks the intended gate needs beside its equations: every new word
      in 32 bits and every carry in 0..2. */
  predicate IntendedCompressRanges(w: Window)
  {
    forall k | 0 <= k < 5 :: IsWord(Val(w, CompressGate.NewIntended(k))) && 0 <= Val(w, CompressGate.Ca(k)) <= 2
  }

  /** With the summands 32-bit words, the new words range-checked to 32 bits and the
      carries to 0..2, the gate pins each new word to the sum of its summands mod
      2^32, which is what the final addition of the standard computes, and the carry
      to the quotient. */
  lemma IntendedCompressGateDeterminesWords(w: Window, k: nat)
    requires k < 5 && IntendedCompressGate(w) && IntendedCompressRanges(w)
    requires IsWord(Val(w, CompressGate.Summand(0, k))) && IsWord(Val(w, CompressGate.Summand(1, k)))
    requires IsWord(Val(w, CompressGate.Summand(2, k)))
    ensures var sum := Val(w, CompressGate.Summand(0, k)) + Val(w, CompressGate.Summand(1, k)) + Val(w, CompressGate.Summand(2, k));
      Val(w, CompressGate.NewIntended(k)) == sum % Base && Val(w, CompressGate.Ca(k)) == sum / Base
  {
    assert CompressRow(w, k);
    var sum := Val(w, CompressGate.Summand(0, k)) + Val(w, CompressGate.Summand(1, k)) + Val(w, CompressGate.Summand(2, k));
    var v := Val(w, CompressGate.NewIntended(k));
    var q := Val(w, CompressGate.Ca(k));
    CarryEquation(sum, Val(w, CompressGate.Sum(k)), v, q);
    DivModUnique(sum, Base, q, v);
  }

  /** The two row equations, joined and brought back to the integers: the summands'
      sum is below 3 * 2^32, the new word and carry below 3 * 2^32 too. */
  lemma CarryEquation(sum: int, cell: int, v: int, q: int)
    requires 0 <= sum < 3 * Base && IsWord(v) && 0 <= q <= 2
    requires FieldZero(cell - sum) && FieldZero(v + q * Base - cell)
    ensures v + q * Base == sum
  {
    FieldZeroAdd(cell - sum, v + q * Base - cell);
    FieldZeroSmall(v + q * Base - sum);
  }
}
