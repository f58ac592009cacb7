/** The chip's region writer: `assign_next` lays out one step in a five-row window,
    `assign_compress` the final additions, and `assign_content` a whole compression
    (160 steps, then the compression window at row 800). A region's windows, its
    equality constraints and the rows whose `hsel` is enabled are the fields of
    `Region`; a writer fills a window in a local variable and stores it back. */
module Chip {
  import opened Words
  import opened Ripemd
  import opened Witness
  import opened GateCells
  import RoundGate
  import CompressGate
  import opened Gates
  import opened Compression

  predicate AllWords(cs: seq<AssignedCell>)
  {
    forall i | 0 <= i < |cs| :: IsWord(cs[i].value)
  }

  /** `cell_to_u32` on every cell. */
  function Values(cs: seq<AssignedCell>): (ws: seq<Word>)
    requires AllWords(cs)
    ensures |ws| == |cs| && forall i | 0 <= i < |cs| :: ws[i] == cs[i].value
  {
    seq(|cs|, i requires 0 <= i < |cs| => cs[i].value)
  }

  /** The assigned cell holds its value in g: it lives in another region, or its cell
      of this region holds that value. */
  predicate Held(g: Grid, c: AssignedCell)
  {
    SourceVal(g, c) == c.value
  }

  predicate AllHeld(g: Grid, cs: seq<AssignedCell>)
  {
    forall i | 0 <= i < |cs| :: Held(g, cs[i])
  }

  // Every write of the chip is `assign_cell`: `w[gc := v]` on the window w being
  // filled.

  /** The equality constraint `bind_cell` records between cell gc of the window at
      `start` and src. */
  function BindCopy(start: nat, gc: GateCell, src: AssignedCell): Copy
  {
    Copy(start, gc, src)
  }

  /** `bind_cell` writes the value of src into gc and records the copy; once the window
      is stored the copy holds, as long as src held its value and is not the cell
      written. */
  lemma BindCellSatisfiesCopy(g: Grid, start: nat, w: Window, gc: GateCell, src: AssignedCell)
    requires Held(g, src)
    requires src.loc.Here? ==> src.loc.start != start
    ensures CopyHolds(g[start := w[gc := src.value]], BindCopy(start, gc, src))
    ensures Held(g[start := w[gc := src.value]], src)
  {
  }

  /** `rotate_inputs`: the message words in the order a round reads them. */
  function RotateInputs<T>(inputs: seq<T>, order: seq<nat>): (r: seq<T>)
    requires forall i | 0 <= i < |order| :: order[i] < |inputs|
    ensures |r| == |order|
  {
    seq(|order|, i requires 0 <= i < |order| => inputs[order[i]])
  }

  /** Entry i of the rotated words is input order[i]; rotating by an order and then
      by its inverse gives the words back. */
  lemma RotateInputsInverse<T>(inputs: seq<T>, order: seq<nat>, inverse: seq<nat>)
    requires |order| == |inputs| && |inverse| == |inputs|
    requires forall i | 0 <= i < |order| :: order[i] < |inputs|
    requires forall j | 0 <= j < |inverse| :: inverse[j] < |order| && order[inverse[j]] == j
    ensures forall i | 0 <= i < |order| :: RotateInputs(inputs, order)[i] == inputs[order[i]]
    ensures RotateInputs(RotateInputs(inputs, order), inverse) == inputs
  {
  }

  /** The six equality constraints of a step: a, b, c, d, e with the previous
      registers and x with the message word. */
  function StepCopies(start: nat, prev: seq<AssignedCell>, input: AssignedCell): seq<Copy>
    requires |prev| == 5
  {
    [ BindCopy(start, RoundGate.A(), prev[0]), BindCopy(start, RoundGate.B(), prev[1]),
      BindCopy(start, RoundGate.C(), prev[2]), BindCopy(start, RoundGate.D(), prev[3]),
      BindCopy(start, RoundGate.E(), prev[4]), BindCopy(start, RoundGate.X(), input) ]
  }

  /** The first eight writes of a step: a .. e and x copied in, and the powers
      p = 2^s and q = 2^(32-s) of the shift. */
  method BindStepInputs(w0: Window, rol: seq<Word>, x: Word, p: int, q: int) returns (w: Window)
    requires |rol| == 5
    ensures StepInputs(w, rol, x, p, q)
  {
    w := w0[RoundGate.A() := rol[0]];
    w := w[RoundGate.B() := rol[1]];
    w := w[RoundGate.C() := rol[2]];
    w := w[RoundGate.D() := rol[3]];
    w := w[RoundGate.E() := rol[4]];
    w := w[RoundGate.X() := x];
    w := w[RoundGate.W1R() := p];
    w := w[RoundGate.W1RR() := q];
  }

  /** The limbs bl, cl and dl of b, c and d, column by column. */
  method AssignOperandLimbs(w0: Window, rol: seq<Word>, x: Word, p: int, q: int, bl: seq<int>, cl: seq<int>, dl: seq<int>)
    returns (w: Window)
    requires |rol| == 5 && |bl| == 4 && |cl| == 4 && |dl| == 4 && StepInputs(w0, rol, x, p, q)
    ensures StepInputs(w, rol, x, p, q) && OperandLimbs(w, bl, cl, dl)
  {
    w := w0;
    for i := 0 to 4
      invariant StepInputs(w, rol, x, p, q)
      invariant forall j | 0 <= j < i :: Has(w, RoundGate.BLimb(j), bl[j])
    {
      w := w[RoundGate.BLimb(i) := bl[i]];
    }
    for i := 0 to 4
      invariant StepInputs(w, rol, x, p, q)
      invariant forall j | 0 <= j < 4 :: Has(w, RoundGate.BLimb(j), bl[j])
      invariant forall j | 0 <= j < i :: Has(w, RoundGate.CLimb(j), cl[j])
    {
      w := w[RoundGate.CLimb(i) := cl[i]];
    }
    for i := 0 to 4
      invariant StepInputs(w, rol, x, p, q)
      invariant forall j | 0 <= j < 4 :: Has(w, RoundGate.BLimb(j), bl[j])
      invariant forall j | 0 <= j < 4 :: Has(w, RoundGate.CLimb(j), cl[j])
      invariant forall j | 0 <= j < i :: Has(w, RoundGate.DLimb(j), dl[j])
    {
      w := w[RoundGate.DLimb(i) := dl[i]];
    }
  }

  /** `u32_to_limbs(r)` followed by the check that the limbs, weighted by 2^(8i) one at
      a time, add up to r again. */
  method MixLimbs(r: Word) returns (rl: seq<int>)
    ensures rl == ToLimbs(r) && LimbAccumulate(rl, 4) == r
  {
    rl := ToLimbs(r);
    var sumR := rl[0];
    for i := 1 to 4
      invariant sumR == LimbAccumulate(rl, i)
    {
      sumR := sumR + rl[i] * Pow2(8 * i);
    }
    LimbAccumulateIsFromLimbs(rl);
    LimbsRoundTrip(r);
    assert sumR == r;
  }

  /** The constant k and the limbs rl of r. */
  method AssignMixCells(w0: Window, rol: seq<Word>, x: Word, p: int, q: int, bl: seq<int>, cl: seq<int>, dl: seq<int>,
                        k: Word, rl: seq<int>)
    returns (w: Window)
    requires |rol| == 5 && |bl| == 4 && |cl| == 4 && |dl| == 4 && |rl| == 4
    requires StepInputs(w0, rol, x, p, q) && OperandLimbs(w0, bl, cl, dl)
    ensures StepInputs(w, rol, x, p, q) && OperandLimbs(w, bl, cl, dl)
    ensures Has(w, RoundGate.Offset(), k) && forall i | 0 <= i < 4 :: Has(w, RoundGate.RLimb(i), rl[i])
  {
    w := w0[RoundGate.Offset() := k];
    for i := 0 to 4
      invariant StepInputs(w, rol, x, p, q) && OperandLimbs(w, bl, cl, dl)
      invariant Has(w, RoundGate.Offset(), k)
      invariant forall j | 0 <= j < i :: Has(w, RoundGate.RLimb(j), rl[j])
    {
      w := w[RoundGate.RLimb(i) := rl[i]];
    }
  }

  /** The ten witness values. */
  method AssignWitnessValues(w0: Window, rol: seq<Word>, x: Word, p: int, q: int, bl: seq<int>, cl: seq<int>, dl: seq<int>,
                             k: Word, rl: seq<int>, wit: RoundWitness)
    returns (w: Window)
    requires |rol| == 5 && |bl| == 4 && |cl| == 4 && |dl| == 4 && |rl| == 4
    requires StepInputs(w0, rol, x, p, q) && OperandLimbs(w0, bl, cl, dl)
    requires Has(w0, RoundGate.Offset(), k) && forall i | 0 <= i < 4 :: Has(w0, RoundGate.RLimb(i), rl[i])
    ensures StepInputs(w, rol, x, p, q) && OperandLimbs(w, bl, cl, dl) && WitnessCells(w, k, rl, wit)
  {
    w := w0[RoundGate.W0() := wit.w0];
    w := w[RoundGate.WB() := wit.wb];
    w := w[RoundGate.WC() := wit.wc];
    w := w[RoundGate.W1() := wit.w1];
    w := w[RoundGate.W1H() := wit.w1h];
    w := w[RoundGate.W1L() := wit.w1l];
    w := w[RoundGate.W4H() := wit.w4h];
    w := w[RoundGate.W4L() := wit.w4l];
    w := w[RoundGate.W2B() := wit.w2b];
    w := w[RoundGate.W2C() := wit.w2c];
  }

  /** The last two writes: a_next and c_next. */
  method AssignOutputs(w0: Window, rol: seq<Word>, x: Word, p: int, q: int, bl: seq<int>, cl: seq<int>, dl: seq<int>,
                       k: Word, rl: seq<int>, wit: RoundWitness)
    returns (w: Window)
    requires |rol| == 5 && |bl| == 4 && |cl| == 4 && |dl| == 4 && |rl| == 4
    requires StepInputs(w0, rol, x, p, q) && OperandLimbs(w0, bl, cl, dl) && WitnessCells(w0, k, rl, wit)
    ensures StepInputs(w, rol, x, p, q) && OperandLimbs(w, bl, cl, dl) && WitnessCells(w, k, rl, wit)
    ensures Has(w, RoundGate.ANext(), wit.aNext) && Has(w, RoundGate.CNext(), wit.cNext)
  {
    w := w0[RoundGate.ANext() := wit.aNext];
    w := w[RoundGate.CNext() := wit.cNext];
  }

  /** The four groups of writes together make up the step's window. */
  lemma StepWindowOfGroups(w: Window, rol: seq<Word>, x: Word, s: nat, k: Word, wit: RoundWitness,
                           p: int, q: int, bl: seq<int>, cl: seq<int>, dl: seq<int>, rl: seq<int>)
    requires |rol| == 5 && s <= 32 && p == Pow2(s) && q == Pow2(32 - s)
    requires bl == ToLimbs(rol[1]) && cl == ToLimbs(rol[2]) && dl == ToLimbs(rol[3]) && rl == ToLimbs(wit.r)
    requires StepInputs(w, rol, x, p, q) && OperandLimbs(w, bl, cl, dl) && WitnessCells(w, k, rl, wit)
    requires Has(w, RoundGate.ANext(), wit.aNext) && Has(w, RoundGate.CNext(), wit.cNext)
    ensures StepWindow(w, rol, x, s, k, wit)
  {
  }

  /** The writes of `assign_next` into the step's window w0, in the code's order: the
      copied inputs and the powers of the shift, the limbs of b, c and d, the constant
      and the limbs of r, the witness values, then a_next and c_next. */
  method FillStepWindow(w0: Window, round: nat, rol: seq<Word>, x: Word, s: nat, k: Word, pround: bool, mix: Mix)
    returns (w: Window)
    requires ValidStepInputs(round, rol, s)
    ensures StepWindow(w, rol, x, s, k, GetWitnesses(round, rol, x, s, k, pround, mix))
  {
    var p, q := Pow2(s), Pow2(32 - s);
    w := BindStepInputs(w0, rol, x, p, q);
    var bl, cl, dl := ToLimbs(rol[1]), ToLimbs(rol[2]), ToLimbs(rol[3]);
    w := AssignOperandLimbs(w, rol, x, p, q, bl, cl, dl);
    var wit := GetWitnesses(round, rol, x, s, k, pround, mix);
    var rl := MixLimbs(wit.r);
    assert wit.w2b == wit.w1 + rol[4];
    assert wit.wb == wit.r + rol[0] + x + k;
    w := AssignMixCells(w, rol, x, p, q, bl, cl, dl, k, rl);
    w := AssignWitnessValues(w, rol, x, p, q, bl, cl, dl, k, rl, wit);
    w := AssignOutputs(w, rol, x, p, q, bl, cl, dl, k, rl, wit);
    StepWindowOfGroups(w, rol, x, s, k, wit, p, q, bl, cl, dl, rl);
  }

  /** `assign_next` on the step's window w0: the window it fills and the quintuple
      [e, a_next, b, c_next, d] it hands on. */
  method AssignStep(w0: Window, start: nat, prev: seq<AssignedCell>, input: AssignedCell, round: nat, s: nat, k: Word,
                    pround: bool, mix: Mix)
    returns (w: Window, next: seq<AssignedCell>)
    requires |prev| == 5 && AllWords(prev) && IsWord(input.value) && ValidStepInputs(round, Values(prev), s)
    ensures |next| == 5 && AllWords(next)
    ensures next[0].loc == Here(start, RoundGate.E()) && next[1].loc == Here(start, RoundGate.ANext())
    ensures next[2].loc == Here(start, RoundGate.B()) && next[3].loc == Here(start, RoundGate.CNext())
    ensures next[4].loc == Here(start, RoundGate.D())
    ensures forall i | 0 <= i < 5 :: next[i].loc.Here? && Has(w, next[i].loc.cell, next[i].value)
    ensures StepWindow(w, Values(prev), input.value, s, k, GetWitnesses(round, Values(prev), input.value, s, k, pround, mix))
    ensures Values(next) == Step(Values(prev), input.value, s, k, FunctionIndex(round, pround), mix)
  {
    var rol := Values(prev);
    w := FillStepWindow(w0, round, rol, input.value, s, k, pround, mix);
    var wit := GetWitnesses(round, rol, input.value, s, k, pround, mix);
    WitnessMatchesStep(round, rol, input.value, s, k, pround, mix);
    next := [ AssignedCell(prev[4].value, Here(start, RoundGate.E())),
              AssignedCell(wit.aNext, Here(start, RoundGate.ANext())),
              AssignedCell(prev[1].value, Here(start, RoundGate.B())),
              AssignedCell(wit.cNext, Here(start, RoundGate.CNext())),
              AssignedCell(prev[3].value, Here(start, RoundGate.D())) ];
  }

  // ---------------------------------------------------------------------------
  // The parts of `assign_compress`.

  /** The fifteen equality constraints of the compression window: a .. e with r0,
      a1 .. e1 with r1 and a2 .. e2 with r2, in the code's order. */
  function CompressCopies(start: nat, r0: seq<AssignedCell>, r1: seq<AssignedCell>, r2: seq<AssignedCell>): seq<Copy>
    requires |r0| == 5 && |r1| == 5 && |r2| == 5
  {
    [ BindCopy(start, CompressGate.A(), r0[0]), BindCopy(start, CompressGate.B(), r0[1]),
      BindCopy(start, CompressGate.C(), r0[2]), BindCopy(start, CompressGate.D(), r0[3]),
      BindCopy(start, CompressGate.E(), r0[4]),
      BindCopy(start, CompressGate.A1(), r1[0]), BindCopy(start, CompressGate.B1(), r1[1]),
      BindCopy(start, CompressGate.C1(), r1[2]), BindCopy(start, CompressGate.D1(), r1[3]),
      BindCopy(start, CompressGate.E1(), r1[4]),
      BindCopy(start, CompressGate.A2(), r2[0]), BindCopy(start, CompressGate.B2(), r2[1]),
      BindCopy(start, CompressGate.C2(), r2[2]), BindCopy(start, CompressGate.D2(), r2[3]),
      BindCopy(start, CompressGate.E2(), r2[4]) ]
  }

  /** Columns 0, 1 and 2 of the compression window hold r0, r1 and r2, each line
      rotated so that row k holds the three summands of sum k. */
  predicate CompressInputs(w: Window, v0: seq<Word>, v1: seq<Word>, v2: seq<Word>)
    requires Quintuples(v0, v1, v2)
  {
    && Has(w, CompressGate.A(), v0[0]) && Has(w, CompressGate.B(), v0[1]) && Has(w, CompressGate.C(), v0[2])
    && Has(w, CompressGate.D(), v0[3]) && Has(w, CompressGate.E(), v0[4])
    && Has(w, CompressGate.A1(), v1[0]) && Has(w, CompressGate.B1(), v1[1]) && Has(w, CompressGate.C1(), v1[2])
    && Has(w, CompressGate.D1(), v1[3]) && Has(w, CompressGate.E1(), v1[4])
    && Has(w, CompressGate.A2(), v2[0]) && Has(w, CompressGate.B2(), v2[1]) && Has(w, CompressGate.C2(), v2[2])
    && Has(w, CompressGate.D2(), v2[3]) && Has(w, CompressGate.E2(), v2[4])
  }

  /** The fifteen `bind_cell` writes. */
  method BindCompressInputs(w0: Window, v0: seq<Word>, v1: seq<Word>, v2: seq<Word>) returns (w: Window)
    requires Quintuples(v0, v1, v2)
    ensures CompressInputs(w, v0, v1, v2)
  {
    w := w0[CompressGate.A() := v0[0]];
    w := w[CompressGate.B() := v0[1]];
    w := w[CompressGate.C() := v0[2]];
    w := w[CompressGate.D() := v0[3]];
    w := w[CompressGate.E() := v0[4]];
    w := w[CompressGate.A1() := v1[0]];
    w := w[CompressGate.B1() := v1[1]];
    w := w[CompressGate.C1() := v1[2]];
    w := w[CompressGate.D1() := v1[3]];
    w := w[CompressGate.E1() := v1[4]];
    w := w[CompressGate.A2() := v2[0]];
    w := w[CompressGate.B2() := v2[1]];
    w := w[CompressGate.C2() := v2[2]];
    w := w[CompressGate.D2() := v2[3]];
    w := w[CompressGate.E2() := v2[4]];
  }

  /** Column 3 holds the five unwrapped sums. */
  predicate CompressSums(w: Window, v0: seq<Word>, v1: seq<Word>, v2: seq<Word>)
    requires Quintuples(v0, v1, v2)
  {
    && Has(w, CompressGate.Sum(0), SumOf(v0, v1, v2, 0)) && Has(w, CompressGate.Sum(1), SumOf(v0, v1, v2, 1))
    && Has(w, CompressGate.Sum(2), SumOf(v0, v1, v2, 2)) && Has(w, CompressGate.Sum(3), SumOf(v0, v1, v2, 3))
    && Has(w, CompressGate.Sum(4), SumOf(v0, v1, v2, 4))
  }

  /** Column 4 holds `col`, top to bottom. */
  predicate Column4(w: Window, col: seq<int>)
    requires |col| == 5
  {
    && Has(w, CompressGate.Ca(0), col[0]) && Has(w, CompressGate.Ca(1), col[1]) && Has(w, CompressGate.Ca(2), col[2])
    && Has(w, CompressGate.Ca(3), col[3]) && Has(w, CompressGate.Ca(4), col[4])
  }

  /** One block of `assign_compress` after the binds: new word k is the `u32`
      wrapping sum of row k, sum k the field sum and the carry `(sum - new) >> 32`;
      the block writes the sum to sum k, the carry to `ca` and the new word to
      `cell`. The new word is the sum mod 2^32 and the carry its quotient. */
  method CompressBlock(w0: Window, v0: seq<Word>, v1: seq<Word>, v2: seq<Word>, k: nat, ca: GateCell, cell: GateCell)
    returns (w: Window, nw: Word)
    requires Quintuples(v0, v1, v2) && k < 5
    requires ca.col == 4 && cell.col >= 4
    ensures nw == NewWord(v0, v1, v2, k)
    ensures CompressInputs(w0, v0, v1, v2) ==> CompressInputs(w, v0, v1, v2)
    ensures Has(w, CompressGate.Sum(k), SumOf(v0, v1, v2, k)) && Has(w, cell, nw)
    ensures ca != cell ==> Has(w, ca, Carry(v0, v1, v2, k))
    ensures forall c | c in w0 && c != CompressGate.Sum(k) && c != ca && c != cell :: Has(w, c, w0[c])
  {
    nw := WrappingAdd(WrappingAdd(v0[k], v1[(k + 1) % 5]), v2[(k + 2) % 5]);
    var sum: int := v0[k] as int + v1[(k + 1) % 5] + v2[(k + 2) % 5];
    var carry := (sum - nw) / Base;
    CarryBounds(v0, v1, v2, k);
    w := w0[CompressGate.Sum(k) := sum];
    w := w[ca := carry];
    w := w[cell := nw];
  }

  /** The five blocks as written. Block 2 writes its carry to ca0, and every new
      word's cell is a carry cell, so column 4 ends as `Column4AsWritten`. */
  method AssignCompressRows(w0: Window, v0: seq<Word>, v1: seq<Word>, v2: seq<Word>)
    returns (w: Window, anew: Word, bnew: Word, cnew: Word, dnew: Word, enew: Word)
    requires Quintuples(v0, v1, v2) && CompressInputs(w0, v0, v1, v2)
    ensures CompressInputs(w, v0, v1, v2)
    ensures [anew, bnew, cnew, dnew, enew] == CompressWords(v0, v1, v2)
    ensures CompressSums(w, v0, v1, v2)
    ensures Column4(w, Column4AsWritten(v0, v1, v2))
  {
    w, anew := CompressBlock(w0, v0, v1, v2, 0, CompressGate.Ca(0), CompressGate.ANew());
    w, bnew := CompressBlock(w, v0, v1, v2, 1, CompressGate.Ca(1), CompressGate.BNew());
    w, cnew := CompressBlock(w, v0, v1, v2, 2, CompressGate.Ca(0), CompressGate.CNew());
    w, dnew := CompressBlock(w, v0, v1, v2, 3, CompressGate.Ca(3), CompressGate.DNew());
    w, enew := CompressBlock(w, v0, v1, v2, 4, CompressGate.Ca(4), CompressGate.ENew());
  }

  /** `assign_compress` on the window w0 at `start`: it binds the three lines, writes
      the five blocks, and returns [anew, bnew, cnew, dnew, enew] from their cells in
      column 4. Column 4 ends as `Column4AsWritten`, not as the returned words. */
  method AssignCompressStep(w0: Window, start: nat, r0: seq<AssignedCell>, r1: seq<AssignedCell>, r2: seq<AssignedCell>)
    returns (w: Window, out: seq<AssignedCell>)
    requires |r0| == 5 && |r1| == 5 && |r2| == 5 && AllWords(r0) && AllWords(r1) && AllWords(r2)
    ensures CompressInputs(w, Values(r0), Values(r1), Values(r2)) && CompressSums(w, Values(r0), Values(r1), Values(r2))
    ensures Column4(w, Column4AsWritten(Values(r0), Values(r1), Values(r2)))
    ensures |out| == 5 && AllWords(out) && Values(out) == CompressWords(Values(r0), Values(r1), Values(r2))
    ensures out[0].loc == Here(start, CompressGate.ANew()) && out[1].loc == Here(start, CompressGate.BNew())
    ensures out[2].loc == Here(start, CompressGate.CNew()) && out[3].loc == Here(start, CompressGate.DNew())
    ensures out[4].loc == Here(start, CompressGate.ENew())
  {
    var v0, v1, v2 := Values(r0), Values(r1), Values(r2);
    w := BindCompressInputs(w0, v0, v1, v2);
    var anew, bnew, cnew, dnew, enew;
    w, anew, bnew, cnew, dnew, enew := AssignCompressRows(w, v0, v1, v2);
    out := [ AssignedCell(anew, Here(start, CompressGate.ANew())), AssignedCell(bnew, Here(start, CompressGate.BNew())),
             AssignedCell(cnew, Here(start, CompressGate.CNew())), AssignedCell(dnew, Here(start, CompressGate.DNew())),
             AssignedCell(enew, Here(start, CompressGate.ENew())) ];
  }

  // ---------------------------------------------------------------------------
  // The compression window as evidently intended: each block writes its own carry
  // cell, each new word has a cell of its own in column 5, and the words come back
  // in the standard's order.

  /** Column 4 holds the five carries and column 5 the five wrapped sums. */
  predicate IntendedColumns(w: Window, v0: seq<Word>, v1: seq<Word>, v2: seq<Word>)
    requires Quintuples(v0, v1, v2)
  {
    && Column4(w, [Carry(v0, v1, v2, 0), Carry(v0, v1, v2, 1), Carry(v0, v1, v2, 2), Carry(v0, v1, v2, 3), Carry(v0, v1, v2, 4)])
    && Has(w, CompressGate.NewIntended(0), NewWord(v0, v1, v2, 0)) && Has(w, CompressGate.NewIntended(1), NewWord(v0, v1, v2, 1))
    && Has(w, CompressGate.NewIntended(2), NewWord(v0, v1, v2, 2)) && Has(w, CompressGate.NewIntended(3), NewWord(v0, v1, v2, 3))
    && Has(w, CompressGate.NewIntended(4), NewWord(v0, v1, v2, 4))
  }

  method AssignCompressRowsIntended(w0: Window, v0: seq<Word>, v1: seq<Word>, v2: seq<Word>)
    returns (w: Window, anew: Word, bnew: Word, cnew: Word, dnew: Word, enew: Word)
    requires Quintuples(v0, v1, v2) && CompressInputs(w0, v0, v1, v2)
    ensures CompressInputs(w, v0, v1, v2) && CompressSums(w, v0, v1, v2) && IntendedColumns(w, v0, v1, v2)
    ensures [anew, bnew, cnew, dnew, enew] == CompressWords(v0, v1, v2)
  {
    w, anew := CompressBlock(w0, v0, v1, v2, 0, CompressGate.Ca(0), CompressGate.NewIntended(0));
    w, bnew := CompressBlock(w, v0, v1, v2, 1, CompressGate.Ca(1), CompressGate.NewIntended(1));
    w, cnew := CompressBlock(w, v0, v1, v2, 2, CompressGate.Ca(2), CompressGate.NewIntended(2));
    w, dnew := CompressBlock(w, v0, v1, v2, 3, CompressGate.Ca(3), CompressGate.NewIntended(3));
    w, enew := CompressBlock(w, v0, v1, v2, 4, CompressGate.Ca(4), CompressGate.NewIntended(4));
  }

  /** A window laid out as intended satisfies the intended compression gate and its
      range checks. */
  lemma IntendedWindowSatisfiesGate(w: Window, v0: seq<Word>, v1: seq<Word>, v2: seq<Word>)
    requires Quintuples(v0, v1, v2)
    requires CompressInputs(w, v0, v1, v2) && CompressSums(w, v0, v1, v2) && IntendedColumns(w, v0, v1, v2)
    ensures IntendedCompressGate(w) && IntendedCompressRanges(w)
  {
    CompressGate.SummandsAreNamedCells();
    forall k | 0 <= k < 5
      ensures CompressRow(w, k)
      ensures IsWord(Val(w, CompressGate.NewIntended(k))) && 0 <= Val(w, CompressGate.Ca(k)) <= 2
    {
      CarryBounds(v0, v1, v2, k);
      assert Val(w, CompressGate.Sum(k)) - Val(w, CompressGate.Summand(0, k))
        - Val(w, CompressGate.Summand(1, k)) - Val(w, CompressGate.Summand(2, k)) == 0;
      assert Val(w, CompressGate.NewIntended(k)) + Val(w, CompressGate.Ca(k)) * Base - Val(w, CompressGate.Sum(k)) == 0;
    }
  }

  /** `assign_compress` as intended, on the window w0 at `start`: the window satisfies
      the intended compression gate and the cells returned hold [bnew, cnew, dnew,
      enew, anew], which is the standard's final addition when r0 is the chaining
      value and r1, r2 the two lines. */
  method AssignCompressIntendedStep(w0: Window, start: nat, r0: seq<AssignedCell>, r1: seq<AssignedCell>, r2: seq<AssignedCell>)
    returns (w: Window, out: seq<AssignedCell>)
    requires |r0| == 5 && |r1| == 5 && |r2| == 5 && AllWords(r0) && AllWords(r1) && AllWords(r2)
    ensures CompressInputs(w, Values(r0), Values(r1), Values(r2)) && IntendedCompressGate(w) && IntendedCompressRanges(w)
    ensures |out| == 5 && AllWords(out) && Values(out) == Combine(Values(r0), Values(r1), Values(r2))
    ensures forall i | 0 <= i < 5 :: out[i].loc == Here(start, CompressGate.NewIntended((i + 1) % 5))
    ensures forall i | 0 <= i < 5 :: Has(w, out[i].loc.cell, out[i].value)
  {
    var v0, v1, v2 := Values(r0), Values(r1), Values(r2);
    w := BindCompressInputs(w0, v0, v1, v2);
    var anew, bnew, cnew, dnew, enew;
    w, anew, bnew, cnew, dnew, enew := AssignCompressRowsIntended(w, v0, v1, v2);
    IntendedWindowSatisfiesGate(w, v0, v1, v2);
    CompressWordsIsRotatedCombine(v0, v1, v2);
    out := [ AssignedCell(bnew, Here(start, CompressGate.NewIntended(1))), AssignedCell(cnew, Here(start, CompressGate.NewIntended(2))),
             AssignedCell(dnew, Here(start, CompressGate.NewIntended(3))), AssignedCell(enew, Here(start, CompressGate.NewIntended(4))),
             AssignedCell(anew, Here(start, CompressGate.NewIntended(0))) ];
  }

  class Region {
    /** The windows assigned so far. */
    var grid: Grid
    /** The equality constraints recorded so far. */
    var copies: seq<Copy>
    /** The rows whose `hsel` selector is enabled. */
    var enabled: set<nat>

    constructor ()
      ensures grid == map[] && copies == [] && enabled == {}
    {
      grid := map[];
      copies := [];
      enabled := {};
    }

    /** `assign_next`: one step of a line in the window at `start`. It hands on
        [e, a_next, b, c_next, d], whose values are the standard's step, and the
        window satisfies every round gate. */
    method AssignNext(start: nat, prev: seq<AssignedCell>, input: AssignedCell, round: nat, index: nat,
                      shift: seq<seq<nat>>, offset: seq<Word>, pround: bool, mix: Mix)
      returns (next: seq<AssignedCell>)
      requires start % 5 == 0
      requires |prev| == 5 && AllWords(prev) && IsWord(input.value)
      requires round < 5 && round < |shift| && index < |shift[round]| && round < |offset|
      requires 1 <= shift[round][index] <= 32
      modifies this
      ensures start in grid && grid == old(grid)[start := grid[start]]
      ensures copies == old(copies) + StepCopies(start, prev, input)
      ensures enabled == old(enabled) + {start}
      ensures |next| == 5 && AllWords(next)
      ensures next[0].loc == Here(start, RoundGate.E()) && next[1].loc == Here(start, RoundGate.ANext())
      ensures next[2].loc == Here(start, RoundGate.B()) && next[3].loc == Here(start, RoundGate.CNext())
      ensures next[4].loc == Here(start, RoundGate.D())
      ensures forall i | 0 <= i < 5 :: next[i].loc.Here? && Has(grid[start], next[i].loc.cell, next[i].value)
      ensures var s := shift[round][index];
        && StepWindow(grid[start], Values(prev), input.value, s, offset[round],
                      GetWitnesses(round, Values(prev), input.value, s, offset[round], pround, mix))
      ensures Values(next) == Step(Values(prev), input.value, shift[round][index], offset[round], FunctionIndex(round, pround), mix)
    {
      var w;
      w, next := AssignStep(WindowAt(grid, start), start, prev, input, round, shift[round][index], offset[round], pround, mix);
      grid, copies := grid[start := w], copies + StepCopies(start, prev, input);
      enabled := enabled + {start};
    }

    /** `assign_compress` at `start`: binds r0, r1 and r2, writes the sums and column 4,
        and returns the cells of [anew, bnew, cnew, dnew, enew]. No selector is enabled. */
    method AssignCompress(start: nat, r0: seq<AssignedCell>, r1: seq<AssignedCell>, r2: seq<AssignedCell>)
      returns (out: seq<AssignedCell>)
      requires start % 5 == 0
      requires |r0| == 5 && |r1| == 5 && |r2| == 5 && AllWords(r0) && AllWords(r1) && AllWords(r2)
      modifies this
      ensures start in grid && grid == old(grid)[start := grid[start]]
      ensures var v0, v1, v2 := Values(r0), Values(r1), Values(r2);
        && CompressInputs(grid[start], v0, v1, v2) && CompressSums(grid[start], v0, v1, v2)
        && Column4(grid[start], Column4AsWritten(v0, v1, v2))
      ensures |out| == 5 && AllWords(out) && Values(out) == CompressWords(Values(r0), Values(r1), Values(r2))
      ensures out[0].loc == Here(start, CompressGate.ANew()) && out[1].loc == Here(start, CompressGate.BNew())
      ensures out[2].loc == Here(start, CompressGate.CNew()) && out[3].loc == Here(start, CompressGate.DNew())
      ensures out[4].loc == Here(start, CompressGate.ENew())
      ensures copies == old(copies) + CompressCopies(start, r0, r1, r2)
      ensures enabled == old(enabled)
    {
      var w;
      w, out := AssignCompressStep(WindowAt(grid, start), start, r0, r1, r2);
      grid, copies := grid[start := w], copies + CompressCopies(start, r0, r1, r2);
    }

    /** `assign_compress` as intended, at `start`: the window satisfies the intended
        compression gate and the returned cells hold their words, in the standard's
        order. */
    method AssignCompressIntended(start: nat, r0: seq<AssignedCell>, r1: seq<AssignedCell>, r2: seq<AssignedCell>)
      returns (out: seq<AssignedCell>)
      requires start % 5 == 0
      requires |r0| == 5 && |r1| == 5 && |r2| == 5 && AllWords(r0) && AllWords(r1) && AllWords(r2)
      modifies this
      ensures start in grid && grid == old(grid)[start := grid[start]]
      ensures CompressInputs(grid[start], Values(r0), Values(r1), Values(r2)) && IntendedCompressGate(grid[start]) && IntendedCompressRanges(grid[start])
      ensures |out| == 5 && AllWords(out) && Values(out) == Combine(Values(r0), Values(r1), Values(r2))
      ensures forall i | 0 <= i < 5 :: out[i].loc == Here(start, CompressGate.NewIntended((i + 1) % 5))
      ensures forall i | 0 <= i < 5 :: Has(grid[start], out[i].loc.cell, out[i].value)
      ensures copies == old(copies) + CompressCopies(start, r0, r1, r2)
      ensures enabled == old(enabled)
    {
      var w;
      w, out := AssignCompressIntendedStep(WindowAt(grid, start), start, r0, r1, r2);
      grid, copies := grid[start := w], copies + CompressCopies(start, r0, r1, r2);
    }
  }
}
