# RIPEMD-160 circuit chip

This project models the RIPEMD-160 chip of `src/circuits/rmd160.rs`. The chip arithmetises one RIPEMD-160 compression, following the pseudo-code of Dobbertin, Bosselaers and Preneel (Appendix A), as a halo2 region. The model covers:

- **Witness generator.** `get_witnesses` computes, for one step, every auxiliary value in 32-bit arithmetic. The model is `Witness.GetWitnesses`.
- **Round gates.** `configure` creates five polynomial gates on a five-row window. The model is `Gates`. Each gate is the conjunction of its equations, and `ConstraintsHold` applies it to every window whose `hsel` selector is enabled.
- **Cell layouts.** `RoundGate` and `CompressGate` fix the cell layout. The model is `RoundGate` and `CompressGate`, a `(column kind, column, row-in-window)` triple per cell.
- **Writers.** The model of `bind_cell`, `assign_next`, `rotate_inputs` and `assign_compress` is `Chip`. A region is the class `Chip.Region`, with three fields:
  - `grid`: its windows, keyed by first row;
  - `copies`: its equality constraints;
  - `enabled`: its enabled selectors.
- **Trace driver.** `assign_content` is modelled by `Content`. It fills 160 step windows at rows 0, 5, .., 795 and the compression window at row 800.
- **Reference.** The RIPEMD-160 compression function as the standard states it is `Ripemd`. The chip's trace is proved against it.

Field elements are integers in 0 .. P - 1, where P is the order of the scalar field of BN254 (`Field.P`). The chip is generic over its field; the model fixes the field its tests instantiate it with, `bn256::Fr`. A gate equation holds when its left-hand side is 0 modulo P (`Field.FieldZero`). An honest witness never leaves 0 .. 2^35, so its equations are 0 as integers too. A cheating prover may fill any cell with any field element. The soundness lemmas therefore bring each equation back to the integers: a left-hand side that is 0 modulo P and of magnitude below P is 0 (`Field.FieldZeroSmall`), and the range checks bound the magnitude.

Two things are parameters of the model, because they live in host code outside this file:

- the mixing functions `u32::atomic` (`Ripemd.Mix`);
- the tables `R`, `O`, `ROUNDS_OFFSET`, `PR`, `PO`, `PROUNDS_OFFSET` (`Ripemd.LineTables`).

Rotation has its own reference definition, `Words.Rotl`: the rotation of the 32-bit little-endian bit string. The gates' split-and-swap trick is proved equal to it.

The main results:

- **Completeness.** The window `assign_next` writes satisfies all five gates. After `assign_content`, every enabled window satisfies the gates and every equality constraint holds. The quintuples handed between steps are exactly the standard's states.
- **Functional correctness.** The words `assign_content` returns are the standard compression of the chaining value and block, in the code's rotated order.
- **Under-constraint and layout defects.** These are exhibited and then corrected: see "## Findings". The corrected round constraints are proved both complete (an honest window meets them) and sound over the field (a window that meets them determines the standard's step).

## Model

| member | source | states |
|---|---|---|
| Witness.GetWitnesses | src/circuits/rmd160.rs:92-114 | the ten auxiliary values of one step in 32-bit arithmetic; its properties are the five lemmas below |
| Witness.WitnessSumWithCarry | src/circuits/rmd160.rs:92-97 | wb is r + a + x + offset without wrapping, w0 is that sum mod 2^32, wc is its quotient and lies in 0..3, and w0 + wc * 2^32 == wb |
| Witness.WitnessVariableRotation | src/circuits/rmd160.rs:98-100 | w1_h < 2^shift and w1_l < 2^(32-shift); w1_h * 2^(32-shift) + w1_l == w0; w1_l * 2^shift + w1_h == w1, and w1 is w0 rotated left by shift |
| Witness.WitnessSecondSum | src/circuits/rmd160.rs:101-103 | w2b == w1 + e, a_next is w2b mod 2^32, the carry w2c is 0 or 1 (so w2c * (w2c - 1) == 0), and a_next + w2c * 2^32 == w2b |
| Witness.CarryBit | src/circuits/rmd160.rs:101-103 | the carry of a sum of two words past 2^32 is a bit, and the wrapped sum plus the carry times 2^32 is the sum |
| Witness.WitnessFixedRotation | src/circuits/rmd160.rs:104-106 | w4_h < 2^10 and w4_l < 2^22, w4_h * 2^22 + w4_l == c, and w4_l * 2^10 + w4_h == c_next, which is c rotated left by 10 |
| Witness.WitnessMatchesStep | src/circuits/rmd160.rs:92-114 | [e, a_next, b, c_next, d] from the witness is the standard's step on (a, b, c, d, e), using f_round on the left line and f_(4-round) on the right |
| Witness.BooleanCarryCheckRejectsHonestWitness | src/circuits/rmd160.rs:273 | the boolean check on wc that is commented out would reject an honest witness: with a, x and offset all 2^32 - 1, wc >= 2 and wc * (wc - 1) != 0 |
| Words.LimbsRoundTrip | src/circuits/rmd160.rs:459-466 | the four byte limbs of a word are each below 256 and recombine to the word |
| Words.LimbsRoundTripBack | src/circuits/rmd160.rs:292-321 | four limbs below 256 recombine to a word whose limbs are those limbs |
| Words.LimbAccumulateIsFromLimbs | src/circuits/rmd160.rs:259-263 | the limb sum accumulated one weighted limb at a time (as the gate loops build it) is limb0 + limb1 * 2^8 + limb2 * 2^16 + limb3 * 2^24 |
| Words.RotlSplit | src/circuits/rmd160.rs:98-100 | for 1 <= s <= 32, w >> (32 - s) < 2^s and rotl(w, s) == (w mod 2^(32-s)) * 2^s + (w >> (32-s)) |
| Gates.SumWithBound | src/circuits/rmd160.rs:258-276 | "sum with bound": wb - r - a - x - offset and w0 + wc * 2^32 - wb are 0 in the field, r being the limb sum of r0..r3; the boolean check on wc is left out as in the code |
| Gates.SumWithW1Rol4 | src/circuits/rmd160.rs:278-290 | "sum with w1 rol4": w2b - w1 - e, w2c * (w2c - 1) and a_next + w2c * 2^32 - w2b are 0 in the field |
| Gates.LimbsSum | src/circuits/rmd160.rs:292-321 | "limbs sum": the limbs of b, c and d, weighted by 2^(8i), sum to b, c and d in the field |
| Gates.CRotate | src/circuits/rmd160.rs:323-335 | "c rotate": w4_h * 2^22 + w4_l - c and w4_l * 2^10 + w4_h - c_next are 0 in the field |
| Gates.W0Rotate | src/circuits/rmd160.rs:337-350 | "w0 rotate": w1_h * w1_rr + w1_l - w0 and w1_l * w1_r + w1_h - w1 are 0 in the field |
| Gates.SumWithBoundComplete | src/circuits/rmd160.rs:258-276 | the "sum with bound" gate holds on a window written from get_witnesses |
| Gates.SumWithW1Rol4Complete | src/circuits/rmd160.rs:278-290 | the "sum with w1 rol4" gate, including its boolean check on w2c, holds on a window written from get_witnesses |
| Gates.LimbsSumComplete | src/circuits/rmd160.rs:292-321 | the "limbs sum" gate holds when the limbs of b, c and d are written |
| Gates.CRotateComplete | src/circuits/rmd160.rs:323-335 | the "c rotate" gate holds on a window written from get_witnesses |
| Gates.W0RotateComplete | src/circuits/rmd160.rs:337-350 | the "w0 rotate" gate holds when w1_r = 2^shift and w1_rr = 2^(32-shift) |
| Gates.StepWindowSatisfiesGates | src/circuits/rmd160.rs:258-350 | completeness: a step's window filled from get_witnesses satisfies all five gates |
| Gates.UnselectedWindowUnconstrained | src/circuits/rmd160.rs:258-350 | a window whose hsel is off is read by no gate: any values stored there keep the constraints satisfied (the compression window is such a window) |
| Gates.ForgedWindowPassesGates | src/circuits/rmd160.rs:258-276 | a window written with f(b, c, d) + 1 in place of f(b, c, d) satisfies all five gates, yet its a_next differs from the standard's T |
| Gates.ForgedStepDiffers | src/circuits/rmd160.rs:258-276 | replacing f(b, c, d) by f(b, c, d) + 1 mod 2^32 changes T, for every input |
| Gates.RotlInjective | src/circuits/rmd160.rs:337-350 | rotation by 1..32 is injective on words |
| Field.FieldZeroSmall | src/circuits/rmd160.rs:258-350 | a value that is 0 in the field and of magnitude below P is 0 as an integer, which turns a gate equation into an integer equation |
| Gates.SumWithBoundSound | src/circuits/rmd160.rs:258-276 | over the field, with r a word and wc in 0..3, the two equations give w0 + wc * 2^32 == a + r + x + offset as integers, whatever wb holds |
| Gates.BooleanInField | src/circuits/rmd160.rs:287 | a value below 2^32 with v * (v - 1) == 0 in the field is 0 or 1 |
| Gates.SecondSumSound | src/circuits/rmd160.rs:278-290 | over the field, with w2c below 2^32, w2c is a bit and a_next + w2c * 2^32 == w1 + e as integers, whatever w2b holds |
| Gates.CRotateSound | src/circuits/rmd160.rs:323-335 | over the field, with w4_h < 2^10, w4_l < 2^22 and c_next a field element, both "c rotate" equations hold as integers |
| Gates.SplitFieldEquations | src/circuits/rmd160.rs:337-350 | over the field, with p * q == 2^32, w1_h < p and w1_l < q, both "w0 rotate" equations hold as integers |
| Gates.W0RotateWindow | src/circuits/rmd160.rs:337-350 | on a window over the field, with w1_r = 2^s, w1_rr = 2^(32-s), w0 a word, w1 a field element, w1_h < 2^s and w1_l < 2^(32-s), w1_h * 2^(32-s) + w1_l == w0 and w1_l * 2^s + w1_h == w1 as integers |
| Gates.W0RotateGateRotates | src/circuits/rmd160.rs:337-350 | on a window: with w1_r = 2^s, w1_rr = 2^(32-s), w0 a word, w1 a field element and w1_h, w1_l range-checked, the "w0 rotate" gate forces w1 == rotl(w0, s) |
| Gates.SumWithBoundWindow | src/circuits/rmd160.rs:258-276 | on a window with the sound-round range checks, "sum with bound" gives w0 + wc * 2^32 == a + r + x + offset |
| Gates.SecondSumWindow | src/circuits/rmd160.rs:278-290 | on a window with w1, e, a_next and w2c words, "sum with w1 rol4" gives a_next + w2c * 2^32 == w1 + e |
| Gates.CRotateWindow | src/circuits/rmd160.rs:323-335 | on a window with w4_h, w4_l range-checked, "c rotate" holds as integers |
| Gates.RotationFromSplit | src/circuits/rmd160.rs:323-350 | a split h * 2^(32-s) + l of w with l range-checked, recombined as l * 2^s + h, is rotl(w, s) |
| Gates.WrapFromCarry | src/circuits/rmd160.rs:274 | a 32-bit v with v + q * 2^32 == sum is sum mod 2^32 |
| Gates.SoundStepArith | src/circuits/rmd160.rs:258-350 | the gate equations once brought to the integers, with r tied to f(b, c, d), w1 the rotation of w0 and w4_l, a_next range-checked, give [e, a_next, b, c_next, d] == the standard's step |
| Gates.SoundWindowDeterminesStep | src/circuits/rmd160.rs:258-350 | over the field, with the missing constraints added (r tied to f(b, c, d), fixed cells set, wc in 0..3, w1_h < 2^s, w1_l < 2^(32-s), w4_h < 2^10, w4_l < 2^22, w0, a_next and w2c words), a window satisfying the gates determines the step: its outputs are the standard's step of its registers |
| Gates.StepWindowMeetsSoundConstraints | src/circuits/rmd160.rs:258-350 | the added constraints reject no honest prover: a step's window filled from get_witnesses assigns every cell the gates read and meets all of them |
| Gates.CarryEquation | src/circuits/rmd160.rs:522-585 | the two rows of the intended compression gate, over the field, with the new word a word and the carry in 0..2, give new + carry * 2^32 == the three-way sum as integers |
| Gates.IntendedCompressGateDeterminesWords | src/circuits/rmd160.rs:522-585 | over the field, the compression gate the circuit lacks, with the summands words, new words range-checked to 32 bits and carries to 0..2, pins each new word to its three-way sum mod 2^32 and each carry to its quotient |
| RoundGate.CellsFitWindow | src/circuits/rmd160.rs:120-150 | every cell of the round layout lies in rows 0..4 of its window, and no two of its names share a cell |
| CompressGate.IntendedCellsFitWindow | src/circuits/rmd160.rs:155-203 | every cell of the corrected compression layout (lines, sums, carries and new words in column 5, as the drawing at 155-161 shows) lies in rows 0..4, and no two share a cell |
| CompressGate.NewWordsShareCarryCells | src/circuits/rmd160.rs:193-203 | bnew, cnew, dnew, enew and anew are the same cells as ca0, ca1, ca2, ca3 and ca4 |
| CompressGate.SummandsAreNamedCells | src/circuits/rmd160.rs:169-185 | row k of the compression window holds r0[k], r1[k+1] and r2[k+2] (indices mod 5) in columns 0, 1 and 2 |
| Compression.CompressWords | src/circuits/rmd160.rs:522-587 | the five words assign_compress returns, [anew, bnew, cnew, dnew, enew], each the u32 wrapping sum of its row; its meaning is CompressWordsIsRotatedCombine |
| Compression.Column4AsWritten | src/circuits/rmd160.rs:529-584 | what column 4 holds once the five blocks have run: carry 2 in row 0, cnew, dnew, enew, and carry 4 in row 4 |
| Compression.CarryBounds | src/circuits/rmd160.rs:522-585 | each new word is its three-way sum mod 2^32 and its carry (sum - new) >> 32 is the quotient, in 0..2 |
| Compression.CompressWordsIsRotatedCombine | src/circuits/rmd160.rs:522-587 | the returned [anew, bnew, cnew, dnew, enew] is the standard's final addition rotated right by one, and reordered as [bnew, cnew, dnew, enew, anew] it is the standard's |
| Compression.OutputOrderDiffersFromStandard | src/circuits/rmd160.rs:587 | on a concrete input the code's first returned word differs from the standard's new h0 |
| Compression.ReturnedCellsLoseValues | src/circuits/rmd160.rs:529-584 | on concrete inputs the cells returned for anew and bnew end holding carries, not those words |
| Chip.BindCellSatisfiesCopy | src/circuits/rmd160.rs:395-406 | bind_cell writes the source's value, so once the window is stored the equality constraint holds and the source keeps its value |
| Chip.RotateInputs | src/circuits/rmd160.rs:490-496 | rotate_inputs: one word per entry of the order, entry i being inputs[order[i]] (RotateInputsInverse) |
| Chip.RotateInputsInverse | src/circuits/rmd160.rs:490-496 | entry i of the rotated words is inputs[order[i]]; rotating by an order and then by its inverse gives the inputs back |
| Chip.BindStepInputs | src/circuits/rmd160.rs:421-430 | the window holds a, b, c, d, e, x and the shift powers 2^s and 2^(32-s) |
| Chip.AssignOperandLimbs | src/circuits/rmd160.rs:432-445 | the three limb loops write the limbs of b, c and d and keep the inputs |
| Chip.MixLimbs | src/circuits/rmd160.rs:459-466 | the limbs of r, accumulated with weights 2^(8i), add up to r (the runtime assert) |
| Chip.AssignMixCells | src/circuits/rmd160.rs:458-473 | the window gains the offset and the limbs of r and keeps what it held |
| Chip.AssignWitnessValues | src/circuits/rmd160.rs:474-483 | the window gains the ten witness values and keeps what it held |
| Chip.AssignOutputs | src/circuits/rmd160.rs:485-486 | the window gains a_next and c_next and keeps what it held |
| Chip.FillStepWindow | src/circuits/rmd160.rs:420-486 | all writes of assign_next together give the step's window for get_witnesses' values |
| Chip.AssignStep | src/circuits/rmd160.rs:408-488 | the window is the step's window; the returned cells sit at e, a_next, b, c_next, d; their values are the standard's step of the previous values |
| Chip.Region.AssignNext | src/circuits/rmd160.rs:408-488 | only the window at start changes, the six copies are appended, hsel at start is enabled, and the returned quintuple is the standard's step |
| Chip.BindCompressInputs | src/circuits/rmd160.rs:506-520 | the fifteen binds put r0, r1, r2 into columns 0-2, each line rotated so that row k holds the summands of sum k |
| Chip.CompressBlock | src/circuits/rmd160.rs:522-585 | one block writes sum_k and its carry and new word, the new word being the wrapped sum, and leaves every other cell unchanged |
| Chip.AssignCompressRows | src/circuits/rmd160.rs:522-585 | the five blocks as written return the five wrapped sums, column 3 holds the sums, and column 4 ends as [carry 2, cnew, dnew, enew, carry 4] |
| Chip.AssignCompressStep | src/circuits/rmd160.rs:498-588 | assign_compress as written: the words returned are the five wrapped sums, their cells are column 4, and column 4 holds two carries in place of anew and bnew |
| Chip.Region.AssignCompress | src/circuits/rmd160.rs:498-588 | the same on the region: only the window at start changes, the fifteen copies are appended and no selector is enabled |
| Chip.AssignCompressRowsIntended | src/circuits/rmd160.rs:522-585 | with each new word in a cell of its own, column 4 holds the five carries and column 5 the five wrapped sums |
| Chip.IntendedWindowSatisfiesGate | src/circuits/rmd160.rs:522-585 | a window laid out as intended satisfies the intended compression gate and its range checks (new words below 2^32, carries in 0..2) |
| Chip.AssignCompressIntendedStep | src/circuits/rmd160.rs:498-588 | the corrected assign_compress returns, in the standard's order, the standard's final addition, each returned cell holding its word |
| Chip.Region.AssignCompressIntended | src/circuits/rmd160.rs:498-588 | the same on the region, with the copies appended and no selector enabled |
| Content.TraceStep | src/circuits/rmd160.rs:604-615 | storing one step's window keeps every enabled window satisfying the gates and every copy holding |
| Content.CompressKeepsTrace | src/circuits/rmd160.rs:644 | storing the compression window at row 800 keeps the gates and all copies, the fifteen new ones included |
| Content.RoundStatesChain | src/circuits/rmd160.rs:602-617 | each of the seventeen states of a round is the standard's step of the one before, on the message word, shift and constant the round's tables name |
| Content.AssignLineStep | src/circuits/rmd160.rs:603-615 | one call of assign_next in the loop hands on the next state of the chain and keeps the trace |
| Content.AssignRound | src/circuits/rmd160.rs:603-616 | the inner loop's sixteen steps take the round's first state to its last, in windows start .. start + 75 |
| Content.AssignLine | src/circuits/rmd160.rs:600-617 | one line's eighty steps hand on the standard line's state after eighty steps, every window satisfying the gates and every copy holding |
| Content.AssignLines | src/circuits/rmd160.rs:597-643 | the left line fills rows 0-399 and the right line 400-799; r1 and r2 are the standard's left and right line results |
| Content.AssignContent | src/circuits/rmd160.rs:591-648 | assign_content as written: the constraints and copies hold, the returned words reordered as [1, 2, 3, 4, 0] are the standard compression, the returned cells are column 4 of the compression window (anew on ca4, bnew on ca0, ...), and that column holds two carries |
| Content.AssignCompressAfter | src/circuits/rmd160.rs:644 | the corrected compression window stored after the trace keeps the constraints and copies, satisfies the intended gate and returns the final addition |
| Content.AssignContentIntended | src/circuits/rmd160.rs:591-648 | the corrected assign_content returns exactly the standard compression of the chaining value and block, its window satisfying the intended compression gate |

## Left out

- The halo2 machinery is not modelled: the constraint system, `get_expr`, `assign_region`, advice and fixed assignment, and the `Chip` trait. A region is a map from window starts to windows plus a list of copies and a set of enabled selectors.
- Field arithmetic is modelled by canonical integers and the modulus P: `F::from` and `field_to_u64` are the identity on values below P, and gate equations compare modulo P. Field inversion and the primality of P are not modelled.
- Gates.SecondSumSound: the boolean check on w2c gives w2c in {0, 1} over the field only because P is prime, which is not proved here. The lemma, and with it Gates.SoundWindowDeterminesStep, adds a 32-bit range check on w2c, under which w2c * (w2c - 1) is below P and the check is exact over the integers.
- Gates.BooleanInField: stated for values below 2^32 for the same reason.
- The host code is not part of this model: `u32::atomic` and the tables `R`, `O`, `ROUNDS_OFFSET`, `PR`, `PO`, `PROUNDS_OFFSET` and `H0`. The mixing functions are the parameter `mix` and the tables the parameter `LineTables`, restricted to five groups of sixteen entries with message indices below 16 and shifts in 1..32.
- The limb helpers `u32_to_limbs`, `cell_to_limbs` and `cell_to_u32` of the utils module are not part of this model. They are given by `Words.ToLimbs`, the value of an assigned cell, and the limb round-trip.
- Debug output is left out: the `println!` calls (src/circuits/rmd160.rs:618-624) and the cells' name strings.
- The test module and its `MockProver` setup are left out.
- The `rsel` selector is left out. No gate reads it and no code enables it.
- A shift of 0 is excluded (`ValidStepInputs`). The code's `2u32.pow(32 - shift)` overflows there.
- Gates.SoundWindowDeterminesStep: stated for windows in which every cell the gates read is assigned (`RoundCellsAssigned`) and holds a field element (`FieldWindow`), as in a prover's full assignment. It also assumes the constraints the circuit lacks, which Gates.StepWindowMeetsSoundConstraints shows an honest window meets.
- Other fields than BN254's scalar field are not modelled: the chip is generic in `F: FieldExt`, and the soundness lemmas are proved for this P alone.
- Content.AssignLine, Content.AssignRound, Content.AssignLineStep, Content.AssignLines and Content.AssignCompressAfter split the nested loops of `assign_content` into methods. Each keeps the loop's own order of steps and windows.
- Chip.Region.AssignNext: requires `start` to be a multiple of 5, as `assign_content` always passes. Windows at other offsets would overlap their neighbours, which the model's map of windows keyed by first row does not capture.
- Chip.Region.AssignCompress: requires `start` to be a multiple of 5 for the same reason. The code's `assign_compress` is public and accepts any offset; a call at another offset is not modelled.
- Chip.Region.AssignCompressIntended: requires `start` to be a multiple of 5, like Chip.Region.AssignCompress.
- Content.AssignCompressAfter: requires `cursor` to be a multiple of 5; `assign_content` calls it with 800.
- Chip.Region.AssignNext, Chip.Region.AssignCompress and Chip.Region.AssignCompressIntended: the window is built as a value and stored with one update of `grid`. The code writes it cell by cell into the region. Both give the same final window, and the order of writes inside a window is kept in the window-level methods.

## Findings

| source | as written | input that shows it | evidently intended | confidence | as-written member | corrected member |
|---|---|---|---|---|---|---|
| src/circuits/rmd160.rs:258-276 | no gate ties the limbs of r to f(b, c, d), and the boolean check on wc is commented out (273), so the step's T is not constrained | any step whose window is written with f(b, c, d) + 1 mod 2^32 in place of f(b, c, d) | r constrained to f(b, c, d) and wc range-checked to 0..3 (not the boolean check at 273, which an honest wc of 2 or 3 fails), with range checks on w1_h, w1_l, w4_h, w4_l, w0, a_next and w2c | not executed | Gates.ForgedWindowPassesGates | Gates.SoundWindowDeterminesStep |
| src/circuits/rmd160.rs:258-350 | `configure` creates no compression gate, and the compression window enables no selector, so any values there pass | any value stored in the compression window at row 800 | a gate sum_k = three summands and new_k + ca_k * 2^32 = sum_k on every compression row, with new_k range-checked to 32 bits and ca_k to 0..2 | not executed | Gates.UnselectedWindowUnconstrained | Gates.IntendedCompressGateDeterminesWords |
| src/circuits/rmd160.rs:193-203, 557 | bnew..anew are the cells of ca0..ca4, and line 557 writes cnew's carry to ca0, so the cells returned for anew and bnew end holding carries | r0 = [1, 0, 0, 0, 0], r1 = r2 = 0: anew is 1 but its cell holds 0 | each new word in a cell of its own (column 5, as the layout comment at 155-161 draws it) and each carry in its own row | not executed | Chip.AssignCompressRows | Chip.AssignCompressRowsIntended |
| src/circuits/rmd160.rs:587 | the words are returned as [anew, bnew, cnew, dnew, enew], but the standard's new h0 is the code's bnew | h = [0, 1, 0, 0, 0], both lines 0: the first returned word is 0, the standard's h0 is 1 | return [bnew, cnew, dnew, enew, anew] | not executed | Compression.CompressWordsIsRotatedCombine | Content.AssignContentIntended |
