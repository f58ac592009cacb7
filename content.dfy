/** `assign_content`: the whole compression of one block in one region. The left
    line's 80 steps fill the windows at rows 0, 5, .., 395, the right line's the
    windows at 400, .., 795, and `assign_compress` the window at 800. */
module Content {
  import opened Words
  import opened Ripemd
  import opened Witness
  import opened GateCells
  import RoundGate
  import CompressGate
  import opened Gates
  import opened Compression
  import opened Chip

  /** The first rows of the step windows below `cursor`. */
  function Starts(cursor: nat): set<nat>
  {
    set b: nat | b < cursor && b % 5 == 0
  }

  /** A copy between windows below `cursor` (or a cell of another region). */
  predicate CopyBelow(cp: Copy, cursor: nat)
  {
    cp.start < cursor && (cp.source.loc.Here? ==> cp.source.loc.start < cursor)
  }

  predicate CellsBelow(cs: seq<AssignedCell>, cursor: nat)
  {
    forall i | 0 <= i < |cs| :: cs[i].loc.Here? ==> cs[i].loc.start < cursor
  }

  predicate FromElsewhere(cs: seq<AssignedCell>)
  {
    forall i | 0 <= i < |cs| :: cs[i].loc.Elsewhere?
  }

  /** The region after the steps whose windows lie below `cursor`: only those windows
      are assigned, each has `hsel` enabled and satisfies the round gates, and every
      equality constraint recorded holds and stays below `cursor`. */
  ghost predicate Trace(g: Grid, enabled: set<nat>, copies: seq<Copy>, cursor: nat)
  {
    && (forall b | b in g :: b < cursor)
    && enabled == Starts(cursor)
    && ConstraintsHold(g, enabled)
    && CopiesHold(g, copies)
    && (forall i | 0 <= i < |copies| :: CopyBelow(copies[i], cursor))
  }

  lemma EmptyTrace()
    ensures Trace(map[], {}, [], 0)
  {
    assert Starts(0) == {};
  }

  /** Storing a window above `cursor` changes no cell a copy below `cursor` reads. */
  lemma CopiesBelowKept(g: Grid, copies: seq<Copy>, cursor: nat, w: Window)
    requires CopiesHold(g, copies) && forall i | 0 <= i < |copies| :: CopyBelow(copies[i], cursor)
    ensures CopiesHold(g[cursor := w], copies)
  {
    forall i | 0 <= i < |copies|
      ensures CopyHolds(g[cursor := w], copies[i])
    {
      assert CopyHolds(g, copies[i]);
    }
  }

  /** Cells below `cursor` keep their values when the window at `cursor` is stored. */
  lemma HeldKept(g: Grid, cs: seq<AssignedCell>, cursor: nat, w: Window)
    requires AllHeld(g, cs) && CellsBelow(cs, cursor)
    ensures AllHeld(g[cursor := w], cs)
  {
    forall i | 0 <= i < |cs|
      ensures Held(g[cursor := w], cs[i])
    {
      assert Held(g, cs[i]);
    }
  }

  /** Cells of another region hold their values whatever this region holds. */
  lemma ElsewhereHeld(g: Grid, cs: seq<AssignedCell>)
    requires FromElsewhere(cs)
    ensures AllHeld(g, cs) && CellsBelow(cs, 0)
  {
  }

  /** g' agrees with g on every window below `cursor`. */
  ghost predicate SameBelow(g: Grid, g': Grid, cursor: nat)
  {
    forall b: nat | b < cursor :: WindowAt(g', b) == WindowAt(g, b)
  }

  lemma SameBelowTrans(g1: Grid, g2: Grid, g3: Grid, c: nat, c': nat)
    requires SameBelow(g1, g2, c) && SameBelow(g2, g3, c') && c <= c'
    ensures SameBelow(g1, g3, c)
  {
  }

  /** Cells below `cursor` hold in every grid that agrees below `cursor`. */
  lemma HeldBelowKept(g: Grid, g': Grid, cs: seq<AssignedCell>, cursor: nat)
    requires AllHeld(g, cs) && CellsBelow(cs, cursor) && SameBelow(g, g', cursor)
    ensures AllHeld(g', cs)
  {
    forall i | 0 <= i < |cs|
      ensures Held(g', cs[i])
    {
      assert Held(g, cs[i]);
    }
  }

  /** The cells of `cs` are cells of w, the window at `start`, holding their values. */
  predicate CellsOfWindow(w: Window, start: nat, cs: seq<AssignedCell>)
  {
    forall i | 0 <= i < |cs| :: cs[i].loc.Here? && cs[i].loc.start == start && Has(w, cs[i].loc.cell, cs[i].value)
  }

  lemma WindowCellsHeld(g: Grid, start: nat, w: Window, cs: seq<AssignedCell>)
    requires CellsOfWindow(w, start, cs)
    ensures AllHeld(g[start := w], cs) && CellsBelow(cs, start + 1)
  {
  }

  /** The six copies of a step hold once its window is stored, given that the previous
      state's cells held their values below the window and the message word comes
      from another region. */
  lemma StepCopiesHold(g: Grid, cursor: nat, w: Window, prev: seq<AssignedCell>, input: AssignedCell, p: int, q: int)
    requires |prev| == 5 && AllWords(prev) && IsWord(input.value)
    requires AllHeld(g, prev) && CellsBelow(prev, cursor) && input.loc.Elsewhere?
    requires StepInputs(w, Values(prev), input.value, p, q)
    ensures CopiesHold(g[cursor := w], StepCopies(cursor, prev, input))
    ensures forall i | 0 <= i < 6 :: CopyBelow(StepCopies(cursor, prev, input)[i], cursor + 5)
  {
    HeldKept(g, prev, cursor, w);
    assert Held(g[cursor := w], prev[0]) && Held(g[cursor := w], prev[1]) && Held(g[cursor := w], prev[2]);
    assert Held(g[cursor := w], prev[3]) && Held(g[cursor := w], prev[4]);
  }

  lemma StartsNext(cursor: nat)
    requires cursor % 5 == 0
    ensures Starts(cursor) + {cursor} == Starts(cursor + 5)
  {
    forall b: nat | b in Starts(cursor + 5)
      ensures b in Starts(cursor) + {cursor}
    {
      if b != cursor {
        assert b < cursor;
      }
    }
  }

  /** A window satisfying the round gates may be stored at a new enabled start. */
  lemma EnabledWindowKeepsConstraints(g: Grid, enabled: set<nat>, cursor: nat, w: Window)
    requires ConstraintsHold(g, enabled) && RoundGatesHold(w)
    ensures ConstraintsHold(g[cursor := w], enabled + {cursor})
  {
    forall b | b in enabled + {cursor}
      ensures RoundGatesHold(WindowAt(g[cursor := w], b))
    {
      if b != cursor {
        assert WindowAt(g[cursor := w], b) == WindowAt(g, b);
      }
    }
  }

  /** Copies below `cursor` and the new copies below `cursor + 5`, all holding. */
  lemma AppendedCopiesHold(g: Grid, copies: seq<Copy>, more: seq<Copy>, cursor: nat, w: Window)
    requires CopiesHold(g, copies) && forall i | 0 <= i < |copies| :: CopyBelow(copies[i], cursor)
    requires CopiesHold(g[cursor := w], more) && forall i | 0 <= i < |more| :: CopyBelow(more[i], cursor + 5)
    ensures CopiesHold(g[cursor := w], copies + more)
    ensures forall i | 0 <= i < |copies + more| :: CopyBelow((copies + more)[i], cursor + 5)
  {
    CopiesBelowKept(g, copies, cursor, w);
    var all := copies + more;
    forall i | 0 <= i < |all|
      ensures CopyHolds(g[cursor := w], all[i]) && CopyBelow(all[i], cursor + 5)
    {
      if i >= |copies| {
        assert all[i] == more[i - |copies|];
      }
    }
  }

  /** One step keeps the trace: the new window satisfies the round gates (its
      selector is enabled), and its six copies hold. */
  lemma TraceStep(g: Grid, enabled: set<nat>, copies: seq<Copy>, cursor: nat, w: Window,
                  prev: seq<AssignedCell>, input: AssignedCell, round: nat, s: nat, k: Word, pround: bool, mix: Mix)
    requires Trace(g, enabled, copies, cursor) && cursor % 5 == 0
    requires |prev| == 5 && AllWords(prev) && IsWord(input.value) && ValidStepInputs(round, Values(prev), s)
    requires AllHeld(g, prev) && CellsBelow(prev, cursor) && input.loc.Elsewhere?
    requires StepWindow(w, Values(prev), input.value, s, k, GetWitnesses(round, Values(prev), input.value, s, k, pround, mix))
    ensures Trace(g[cursor := w], enabled + {cursor}, copies + StepCopies(cursor, prev, input), cursor + 5)
  {
    StepWindowSatisfiesGates(w, round, Values(prev), input.value, s, k, pround, mix);
    EnabledWindowKeepsConstraints(g, enabled, cursor, w);
    StartsNext(cursor);
    StepCopiesHold(g, cursor, w, prev, input, Pow2(s), Pow2(32 - s));
    AppendedCopiesHold(g, copies, StepCopies(cursor, prev, input), cursor, w);
  }

  lemma NextWindowStart(start: nat)
    requires start % 5 == 0
    ensures (start + 5) % 5 == 0
  {
  }

  /** The standard's states over one round of a line: each of `states[1..]` is the
      step of the one before it, on the message word and the shift the round's
      tables name for that step. */
  ghost predicate RoundChain(states: seq<seq<Word>>, msg: seq<Word>, t: LineTables, mirrored: bool, mix: Mix, round: nat)
  {
    && round < 5 && |msg| == 16 && |states| == 17
    && (forall i | 0 <= i <= 16 :: |states[i]| == 5)
    && (forall i {:trigger Step(states[i], msg[t.msgIndex[round][i]], t.shift[round][i], t.constant[round], FunctionIndex(round, mirrored), mix)}
          | 0 <= i < 16 ::
          states[i + 1] == Step(states[i], msg[t.msgIndex[round][i]], t.shift[round][i], t.constant[round], FunctionIndex(round, mirrored), mix))
  }

  /** The states of round `round` of a line, as `RunLine` gives them. */
  ghost function RoundStates(h: seq<Word>, msg: seq<Word>, t: LineTables, mirrored: bool, mix: Mix, round: nat): (states: seq<seq<Word>>)
    requires |h| == 5 && |msg| == 16 && round < 5
    ensures |states| == 17
  {
    seq(17, i requires 0 <= i <= 16 => RunLine(h, msg, t, mirrored, mix, round, i))
  }

  lemma RoundStatesChain(h: seq<Word>, msg: seq<Word>, t: LineTables, mirrored: bool, mix: Mix, round: nat)
    requires |h| == 5 && |msg| == 16 && round < 5
    ensures RoundChain(RoundStates(h, msg, t, mirrored, mix, round), msg, t, mirrored, mix, round)
    ensures RoundStates(h, msg, t, mirrored, mix, round)[0] == RunLine(h, msg, t, mirrored, mix, round, 0)
    ensures RoundStates(h, msg, t, mirrored, mix, round)[16] == RunLine(h, msg, t, mirrored, mix, round + 1, 0)
  {
    var states := RoundStates(h, msg, t, mirrored, mix, round);
    forall i | 0 <= i < 16
      ensures states[i + 1] == Step(states[i], msg[t.msgIndex[round][i]], t.shift[round][i], t.constant[round], FunctionIndex(round, mirrored), mix)
    {
      RunLineStep(h, msg, t, mirrored, mix, round, i);
    }
  }

  lemma RunLineStep(h: seq<Word>, msg: seq<Word>, t: LineTables, mirrored: bool, mix: Mix, round: nat, i: nat)
    requires |h| == 5 && |msg| == 16 && round < 5 && i < 16
    ensures RunLine(h, msg, t, mirrored, mix, round, i + 1)
         == Step(RunLine(h, msg, t, mirrored, mix, round, i), msg[t.msgIndex[round][i]], t.shift[round][i], t.constant[round], FunctionIndex(round, mirrored), mix)
  {
  }

  /** One call of `assign_next` inside the loop of `assign_content`, at `next`, on
      the state cells `prev` and the message word `input`: the trace grows by one
      window and the cells handed on hold the standard's next state. */
  method AssignLineStep(region: Region, next: nat, prev: seq<AssignedCell>, input: AssignedCell, round: nat, index: nat,
                        t: LineTables, pround: bool, mix: Mix, ghost msg: seq<Word>, ghost states: seq<seq<Word>>)
    returns (r: seq<AssignedCell>)
    requires |prev| == 5 && AllWords(prev) && IsWord(input.value) && input.loc.Elsewhere?
    requires index < 16 && next % 5 == 0 && RoundChain(states, msg, t, pround, mix, round)
    requires Values(prev) == states[index] && input.value == msg[t.msgIndex[round][index]]
    requires Trace(region.grid, region.enabled, region.copies, next)
    requires AllHeld(region.grid, prev) && CellsBelow(prev, next)
    modifies region
    ensures Trace(region.grid, region.enabled, region.copies, next + 5)
    ensures |r| == 5 && AllWords(r) && AllHeld(region.grid, r) && CellsBelow(r, next + 5)
    ensures Values(r) == states[index + 1]
    ensures SameBelow(old(region.grid), region.grid, next)
  {
    ghost var g, enabled, copies := region.grid, region.enabled, region.copies;
    r := region.AssignNext(next, prev, input, round, index, t.shift, t.constant, pround, mix);
    ghost var w := region.grid[next];
    TraceStep(g, enabled, copies, next, w, prev, input, round, t.shift[round][index], t.constant[round], pround, mix);
    assert CellsOfWindow(w, next, r);
    WindowCellsHeld(g, next, w, r);
    assert Values(r) == Step(states[index], msg[t.msgIndex[round][index]], t.shift[round][index], t.constant[round], FunctionIndex(round, pround), mix);
  }

  /** The inner loop of `assign_content`: the sixteen steps of round `round` from
      `start`, each reading the message word the round's order names. Starting from
      the first of the round's states, it hands on the last. */
  method AssignRound(region: Region, start: nat, prev: seq<AssignedCell>, inputs: seq<AssignedCell>, t: LineTables,
                     round: nat, pround: bool, mix: Mix, ghost states: seq<seq<Word>>)
    returns (r: seq<AssignedCell>, next: nat)
    requires |prev| == 5 && |inputs| == 16 && AllWords(prev) && AllWords(inputs)
    requires RoundChain(states, Values(inputs), t, pround, mix, round) && Values(prev) == states[0]
    requires FromElsewhere(inputs) && start % 5 == 0
    requires Trace(region.grid, region.enabled, region.copies, start)
    requires AllHeld(region.grid, prev) && CellsBelow(prev, start)
    modifies region
    ensures next == start + 80 && next % 5 == 0
    ensures Trace(region.grid, region.enabled, region.copies, next)
    ensures |r| == 5 && AllWords(r) && Values(r) == states[16]
    ensures AllHeld(region.grid, r) && CellsBelow(r, next)
    ensures SameBelow(old(region.grid), region.grid, start)
  {
    r, next := prev, start;
    ghost var msg := Values(inputs);
    for index := 0 to 16
      invariant next == start + 5 * index && next % 5 == 0
      invariant SameBelow(old(region.grid), region.grid, start)
      invariant Trace(region.grid, region.enabled, region.copies, next)
      invariant |r| == 5 && AllWords(r) && Values(r) == states[index]
      invariant AllHeld(region.grid, r) && CellsBelow(r, next)
    {
      var input := RotateInputs(inputs, t.msgIndex[round])[index];
      assert input.value == msg[t.msgIndex[round][index]];
      ghost var g := region.grid;
      r := AssignLineStep(region, next, r, input, round, index, t, pround, mix, msg, states);
      SameBelowTrans(old(region.grid), g, region.grid, start, next);
      NextWindowStart(next);
      next := next + 5;
    }
  }

  /** The double loop of `assign_content` for one line: 80 calls of `assign_next` from
      `start`, round by round. The state handed on is the line's state after 80 steps
      of the standard, every step's window satisfies the round gates and every copy
      holds. */
  method AssignLine(region: Region, start: nat, h: seq<AssignedCell>, inputs: seq<AssignedCell>, t: LineTables,
                    pround: bool, mix: Mix)
    returns (r: seq<AssignedCell>, next: nat)
    requires |h| == 5 && |inputs| == 16 && AllWords(h) && AllWords(inputs)
    requires FromElsewhere(inputs) && start % 5 == 0
    requires Trace(region.grid, region.enabled, region.copies, start)
    requires AllHeld(region.grid, h) && CellsBelow(h, start)
    modifies region
    ensures next == start + 400
    ensures Trace(region.grid, region.enabled, region.copies, next)
    ensures |r| == 5 && AllWords(r) && Values(r) == RunLine(Values(h), Values(inputs), t, pround, mix, 5, 0)
    ensures AllHeld(region.grid, r) && CellsBelow(r, next)
    ensures SameBelow(old(region.grid), region.grid, start)
  {
    r, next := h, start;
    for round := 0 to 5
      invariant next == start + 80 * round && next % 5 == 0
      invariant SameBelow(old(region.grid), region.grid, start)
      invariant Trace(region.grid, region.enabled, region.copies, next)
      invariant |r| == 5 && AllWords(r) && Values(r) == RunLine(Values(h), Values(inputs), t, pround, mix, round, 0)
      invariant AllHeld(region.grid, r) && CellsBelow(r, next)
    {
      ghost var g := region.grid;
      ghost var states := RoundStates(Values(h), Values(inputs), t, pround, mix, round);
      RoundStatesChain(Values(h), Values(inputs), t, pround, mix, round);
      r, next := AssignRound(region, next, r, inputs, t, round, pround, mix, states);
      SameBelowTrans(old(region.grid), g, region.grid, start, next - 80);
    }
  }

  /** The fifteen copies of the compression window hold once it is stored: its
      columns 0 to 2 hold r0, r1 and r2, whose cells held their values below it. */
  lemma CompressCopiesHold(g: Grid, cursor: nat, w: Window, r0: seq<AssignedCell>, r1: seq<AssignedCell>, r2: seq<AssignedCell>)
    requires |r0| == 5 && |r1| == 5 && |r2| == 5 && AllWords(r0) && AllWords(r1) && AllWords(r2)
    requires AllHeld(g, r0) && AllHeld(g, r1) && AllHeld(g, r2)
    requires CellsBelow(r0, cursor) && CellsBelow(r1, cursor) && CellsBelow(r2, cursor)
    requires CompressInputs(w, Values(r0), Values(r1), Values(r2))
    ensures CopiesHold(g[cursor := w], CompressCopies(cursor, r0, r1, r2))
  {
    HeldKept(g, r0, cursor, w);
    HeldKept(g, r1, cursor, w);
    HeldKept(g, r2, cursor, w);
    var cs := CompressCopies(cursor, r0, r1, r2);
    forall i | 0 <= i < 15
      ensures CopyHolds(g[cursor := w], cs[i])
    {
      if i < 5 {
        assert Held(g[cursor := w], r0[i]);
      } else if i < 10 {
        assert Held(g[cursor := w], r1[i - 5]);
      } else {
        assert Held(g[cursor := w], r2[i - 10]);
      }
    }
  }

  /** The compression window is stored at `cursor`, above every step window, with no
      selector enabled: the round gates of the step windows still hold, and so do
      all copies, its own fifteen included. */
  lemma CompressKeepsTrace(g: Grid, enabled: set<nat>, copies: seq<Copy>, cursor: nat, w: Window,
                           r0: seq<AssignedCell>, r1: seq<AssignedCell>, r2: seq<AssignedCell>)
    requires Trace(g, enabled, copies, cursor)
    requires |r0| == 5 && |r1| == 5 && |r2| == 5 && AllWords(r0) && AllWords(r1) && AllWords(r2)
    requires AllHeld(g, r0) && AllHeld(g, r1) && AllHeld(g, r2)
    requires CellsBelow(r0, cursor) && CellsBelow(r1, cursor) && CellsBelow(r2, cursor)
    requires CompressInputs(w, Values(r0), Values(r1), Values(r2))
    ensures ConstraintsHold(g[cursor := w], enabled)
    ensures CopiesHold(g[cursor := w], copies + CompressCopies(cursor, r0, r1, r2))
  {
    UnselectedWindowUnconstrained(g, enabled, cursor, w);
    CopiesBelowKept(g, copies, cursor, w);
    CompressCopiesHold(g, cursor, w, r0, r1, r2);
    var all := copies + CompressCopies(cursor, r0, r1, r2);
    forall i | 0 <= i < |all|
      ensures CopyHolds(g[cursor := w], all[i])
    {
      if i >= |copies| {
        assert all[i] == CompressCopies(cursor, r0, r1, r2)[i - |copies|];
      }
    }
  }

  /** The two loops of `assign_content` in a fresh region: the left line's 80 steps
      in the windows at rows 0 to 395, then the right line's in those at rows 400 to
      795. The cells handed on hold the two lines' final states. */
  method AssignLines(startBuf: seq<AssignedCell>, inputs: seq<AssignedCell>, left: LineTables, right: LineTables, mix: Mix)
    returns (region: Region, r1: seq<AssignedCell>, r2: seq<AssignedCell>)
    requires |startBuf| == 5 && |inputs| == 16 && AllWords(startBuf) && AllWords(inputs)
    requires FromElsewhere(startBuf) && FromElsewhere(inputs)
    ensures fresh(region)
    ensures Trace(region.grid, region.enabled, region.copies, 800)
    ensures |r1| == 5 && AllWords(r1) && Values(r1) == RunLine(Values(startBuf), Values(inputs), left, false, mix, 5, 0)
    ensures |r2| == 5 && AllWords(r2) && Values(r2) == RunLine(Values(startBuf), Values(inputs), right, true, mix, 5, 0)
    ensures AllHeld(region.grid, startBuf) && AllHeld(region.grid, r1) && AllHeld(region.grid, r2)
    ensures CellsBelow(startBuf, 800) && CellsBelow(r1, 800) && CellsBelow(r2, 800)
  {
    region := new Region();
    EmptyTrace();
    ElsewhereHeld(map[], startBuf);
    var start;
    r1, start := AssignLine(region, 0, startBuf, inputs, left, false, mix);
    ghost var g1 := region.grid;
    r2, start := AssignLine(region, start, startBuf, inputs, right, true, mix);
    HeldBelowKept(g1, region.grid, r1, 400);
    ElsewhereHeld(region.grid, startBuf);
  }

  /** `assign_content`, as written: a fresh region holds the 160 step windows and the
      compression window at row 800. Every step window has `hsel` enabled and
      satisfies the round gates, every copy holds, and the five cells returned carry
      the standard's compression function rotated right by one. They are cells of
      column 4 of the compression window (anew on ca4, bnew on ca0, and so on), and
      that column holds `Column4AsWritten`, so the cells returned for anew and bnew
      hold other values than the words returned. */
  method AssignContent(startBuf: seq<AssignedCell>, inputs: seq<AssignedCell>, left: LineTables, right: LineTables, mix: Mix)
    returns (region: Region, out: seq<AssignedCell>)
    requires |startBuf| == 5 && |inputs| == 16 && AllWords(startBuf) && AllWords(inputs)
    requires FromElsewhere(startBuf) && FromElsewhere(inputs)
    ensures fresh(region)
    ensures region.enabled == Starts(800)
    ensures ConstraintsHold(region.grid, region.enabled) && CopiesHold(region.grid, region.copies)
    ensures |out| == 5 && AllWords(out)
    ensures StandardOrder(Values(out)) == Compress(Values(startBuf), Values(inputs), left, right, mix)
    ensures out[0].loc == Here(800, CompressGate.ANew()) && out[1].loc == Here(800, CompressGate.BNew())
    ensures out[2].loc == Here(800, CompressGate.CNew()) && out[3].loc == Here(800, CompressGate.DNew())
    ensures out[4].loc == Here(800, CompressGate.ENew())
    ensures 800 in region.grid
    ensures Column4(region.grid[800], Column4AsWritten(Values(startBuf),
                      RunLine(Values(startBuf), Values(inputs), left, false, mix, 5, 0),
                      RunLine(Values(startBuf), Values(inputs), right, true, mix, 5, 0)))
  {
    var r1, r2;
    region, r1, r2 := AssignLines(startBuf, inputs, left, right, mix);
    ghost var g, enabled, copies := region.grid, region.enabled, region.copies;
    out := region.AssignCompress(800, startBuf, r1, r2);
    CompressKeepsTrace(g, enabled, copies, 800, region.grid[800], startBuf, r1, r2);
    CompressWordsIsRotatedCombine(Values(startBuf), Values(r1), Values(r2));
  }

  /** `assign_content` with the compression window as intended: the compression window
      satisfies the intended gate, the returned cells hold their words, and they are
      the standard's compression function of the chaining value and the block. */
  method AssignContentIntended(startBuf: seq<AssignedCell>, inputs: seq<AssignedCell>, left: LineTables, right: LineTables, mix: Mix)
    returns (region: Region, out: seq<AssignedCell>)
    requires |startBuf| == 5 && |inputs| == 16 && AllWords(startBuf) && AllWords(inputs)
    requires FromElsewhere(startBuf) && FromElsewhere(inputs)
    ensures fresh(region)
    ensures region.enabled == Starts(800)
    ensures ConstraintsHold(region.grid, region.enabled) && CopiesHold(region.grid, region.copies)
    ensures 800 in region.grid && IntendedCompressGate(region.grid[800]) && IntendedCompressRanges(region.grid[800])
    ensures |out| == 5 && AllWords(out) && AllHeld(region.grid, out)
    ensures Values(out) == Compress(Values(startBuf), Values(inputs), left, right, mix)
  {
    var r1, r2;
    region, r1, r2 := AssignLines(startBuf, inputs, left, right, mix);
    out := AssignCompressAfter(region, 800, startBuf, r1, r2);
  }

  /** The intended compression window stored after a trace: the selectors stay as they
      were, every constraint and copy holds, and the cells returned hold the combined
      chaining value. */
  method AssignCompressAfter(region: Region, cursor: nat, r0: seq<AssignedCell>, r1: seq<AssignedCell>, r2: seq<AssignedCell>)
    returns (out: seq<AssignedCell>)
    requires cursor % 5 == 0 && Trace(region.grid, region.enabled, region.copies, cursor)
    requires |r0| == 5 && |r1| == 5 && |r2| == 5 && AllWords(r0) && AllWords(r1) && AllWords(r2)
    requires AllHeld(region.grid, r0) && AllHeld(region.grid, r1) && AllHeld(region.grid, r2)
    requires CellsBelow(r0, cursor) && CellsBelow(r1, cursor) && CellsBelow(r2, cursor)
    modifies region
    ensures region.enabled == old(region.enabled)
    ensures ConstraintsHold(region.grid, region.enabled) && CopiesHold(region.grid, region.copies)
    ensures cursor in region.grid && IntendedCompressGate(region.grid[cursor]) && IntendedCompressRanges(region.grid[cursor])
    ensures |out| == 5 && AllWords(out) && AllHeld(region.grid, out)
    ensures Values(out) == Combine(Values(r0), Values(r1), Values(r2))
  {
    ghost var g, enabled, copies := region.grid, region.enabled, region.copies;
    out := region.AssignCompressIntended(cursor, r0, r1, r2);
    CompressKeepsTrace(g, enabled, copies, cursor, region.grid[cursor], r0, r1, r2);
    assert CellsOfWindow(region.grid[cursor], cursor, out);
    WindowCellsHeld(g, cursor, region.grid[cursor], out);
  }
}
