/** Cells of a five-row gate window (`GateCell`) and the region they are written into. */
module GateCells {

  datatype ColumnKind = Advice | Fixed | Selector

  /** A column of some kind and a row counted from the first row of its window. */
  datatype GateCell = GateCell(kind: ColumnKind, col: nat, row: nat)

  function Adv(col: nat, row: nat): GateCell { GateCell(Advice, col, row) }
  function Fix(col: nat, row: nat): GateCell { GateCell(Fixed, col, row) }
  function Sel(col: nat, row: nat): GateCell { GateCell(Selector, col, row) }

  /** A sort key for cells: by kind, then column, then row. */
  function Key(c: GateCell): int
  {
    (match c.kind case Advice => 0 case Fixed => 1 case Selector => 2) * 10000 + c.col * 100 + c.row
  }

  /** No cell appears twice. */
  predicate Distinct(cs: seq<GateCell>)
  {
    forall i, j | 0 <= i < j < |cs| :: cs[i] != cs[j]
  }

  /** The cells all lie in the five rows of a window. */
  predicate InWindow(cs: seq<GateCell>)
  {
    forall i | 0 <= i < |cs| :: cs[i].row < 5
  }

  /** Two lists of distinct cells of one window, the keys of the first below m and
      those of the second from m up to n, join into one with keys below n. */
  lemma JoinDistinct(cs: seq<GateCell>, ds: seq<GateCell>, m: int, n: int)
    requires Distinct(cs) && Distinct(ds) && InWindow(cs) && InWindow(ds) && m <= n
    requires forall i | 0 <= i < |cs| :: Key(cs[i]) < m
    requires forall j | 0 <= j < |ds| :: m <= Key(ds[j]) < n
    ensures Distinct(cs + ds) && InWindow(cs + ds)
    ensures forall i | 0 <= i < |cs + ds| :: Key((cs + ds)[i]) < n
  {
    forall i, j | 0 <= i < j < |cs + ds|
      ensures (cs + ds)[i] != (cs + ds)[j]
    {
      if j < |cs| {
        assert (cs + ds)[i] == cs[i] && (cs + ds)[j] == cs[j];
      } else if i < |cs| {
        assert Key((cs + ds)[i]) < m <= Key((cs + ds)[j]);
      } else {
        assert (cs + ds)[i] == ds[i - |cs|] && (cs + ds)[j] == ds[j - |cs|];
      }
    }
    forall i | 0 <= i < |cs + ds|
      ensures (cs + ds)[i].row < 5 && Key((cs + ds)[i]) < n
    {
      if i < |cs| {
        assert (cs + ds)[i] == cs[i];
      } else {
        assert (cs + ds)[i] == ds[i - |cs|];
      }
    }
  }

  /** The advice and fixed cells of one window and their values: field elements, each
      held as its canonical integer in 0 .. P - 1 (see `Field`). */
  type Window = map<GateCell, int>

  /** The value of a cell; an unassigned cell reads as 0. */
  function Val(w: Window, c: GateCell): int
  {
    if c in w then w[c] else 0
  }

  predicate Has(w: Window, c: GateCell, v: int)
  {
    c in w && w[c] == v
  }

  /** A region: its windows keyed by their first row. Every window of the chip starts
      at a multiple of 5 and uses rows 0..4 of itself, so region row `start + c.row`
      of column `c` is cell `c` of the window at `start`. */
  type Grid = map<nat, Window>

  function WindowAt(g: Grid, start: nat): Window
  {
    if start in g then g[start] else map[]
  }

  /** The value of cell c of the window at `start`. */
  function ValAt(g: Grid, start: nat, c: GateCell): int
  {
    Val(WindowAt(g, start), c)
  }

  /** Where an assigned cell lives: in a window of this region, or in another region. */
  datatype Loc = Here(start: nat, cell: GateCell) | Elsewhere

  /** `AssignedCell`: the value the chip assigned and where it put it. */
  datatype AssignedCell = AssignedCell(value: int, loc: Loc)

  /** An equality constraint (`constrain_equal`) between cell `cell` of the window at
      `start` and an assigned cell. */
  datatype Copy = Copy(start: nat, cell: GateCell, source: AssignedCell)

  /** The value an assigned cell has in g: its cell's, or, for a cell of another
      region, the value it was assigned. */
  function SourceVal(g: Grid, c: AssignedCell): int
  {
    if c.loc.Here? then ValAt(g, c.loc.start, c.loc.cell) else c.value
  }

  /** The two cells of a copy hold the same value. */
  predicate CopyHolds(g: Grid, cp: Copy)
  {
    ValAt(g, cp.start, cp.cell) == SourceVal(g, cp.source)
  }

  predicate CopiesHold(g: Grid, copies: seq<Copy>)
  {
    forall i | 0 <= i < |copies| :: CopyHolds(g, copies[i])
  }
}

/** Layout of the round window (five rows):

    | hsel | col0 | col1 | col2 | col3 | col4 | col5   | col6   | fix0   |
    | hsel | a    | b    | c    | d    | x    | e      | c_next | offset |
    |      | w0   | b0   | c0   | d0   | r0   | w1_h   | w4_h   | w1_r   |
    |      | wb   | b1   | c1   | d1   | r1   | w1_l   | w4_l   | w1_rr  |
    |      | wc   | b2   | c2   | d2   | r2   | a_next | w2b    |        |
    |      | w1   | b3   | c3   | d3   | r3   |        | w2c    |        | */
module RoundGate {
  import opened GateCells

  function HSel(): GateCell { Sel(0, 0) }
  function Offset(): GateCell { Fix(0, 0) }
  function W1R(): GateCell { Fix(0, 1) }
  function W1RR(): GateCell { Fix(0, 2) }

  function A(): GateCell { Adv(0, 0) }
  function W0(): GateCell { Adv(0, 1) }
  function WB(): GateCell { Adv(0, 2) }
  function WC(): GateCell { Adv(0, 3) }
  function W1(): GateCell { Adv(0, 4) }

  function B(): GateCell { Adv(1, 0) }
  function C(): GateCell { Adv(2, 0) }
  function D(): GateCell { Adv(3, 0) }
  function X(): GateCell { Adv(4, 0) }
  function E(): GateCell { Adv(5, 0) }

  function BLimb(i: nat): GateCell { Adv(1, i + 1) }
  function CLimb(i: nat): GateCell { Adv(2, i + 1) }
  function DLimb(i: nat): GateCell { Adv(3, i + 1) }
  function RLimb(i: nat): GateCell { Adv(4, i + 1) }
  function W1H(): GateCell { Adv(5, 1) }
  function W1L(): GateCell { Adv(5, 2) }
  function ANext(): GateCell { Adv(5, 3) }
  function CNext(): GateCell { Adv(6, 0) }
  function W4H(): GateCell { Adv(6, 1) }
  function W4L(): GateCell { Adv(6, 2) }
  function W2B(): GateCell { Adv(6, 3) }
  function W2C(): GateCell { Adv(6, 4) }

  /** The cells the round gates name in advice column `col`, top to bottom, from row
      0 with no gap. */
  function AdviceColumn(col: nat): (cs: seq<GateCell>)
    ensures |cs| <= 5 && forall i | 0 <= i < |cs| :: cs[i] == Adv(col, i)
  {
    match col
    case 0 => [A(), W0(), WB(), WC(), W1()]
    case 1 => [B(), BLimb(0), BLimb(1), BLimb(2), BLimb(3)]
    case 2 => [C(), CLimb(0), CLimb(1), CLimb(2), CLimb(3)]
    case 3 => [D(), DLimb(0), DLimb(1), DLimb(2), DLimb(3)]
    case 4 => [X(), RLimb(0), RLimb(1), RLimb(2), RLimb(3)]
    case 5 => [E(), W1H(), W1L(), ANext()]
    case 6 => [CNext(), W4H(), W4L(), W2B(), W2C()]
    case _ => []
  }

  /** Advice columns 0 .. n - 1, left to right. */
  function Columns(n: nat): seq<GateCell>
  {
    if n == 0 then [] else Columns(n - 1) + AdviceColumn(n - 1)
  }

  /** The fixed column, top to bottom. */
  function FixedColumn(): (cs: seq<GateCell>)
    ensures |cs| == 3 && forall i | 0 <= i < |cs| :: cs[i] == Fix(0, i)
  {
    [Offset(), W1R(), W1RR()]
  }

  /** Every cell the round gates name, column by column as drawn above: the advice
      columns, then the fixed column, then the selector. */
  function Cells(): seq<GateCell>
  {
    Columns(7) + FixedColumn() + [HSel()]
  }

  /** Advice columns 0 .. n - 1 lie in the window, name no cell twice, and have keys
      below n * 100. */
  lemma {:induction false} ColumnsFit(n: nat)
    ensures InWindow(Columns(n)) && Distinct(Columns(n))
    ensures forall i | 0 <= i < |Columns(n)| :: Key(Columns(n)[i]) < n * 100
  {
    if n > 0 {
      ColumnsFit(n - 1);
      JoinDistinct(Columns(n - 1), AdviceColumn(n - 1), (n - 1) * 100, n * 100);
    }
  }

  /** The layout fits the five rows the chip advances by, and no two names share a
      cell. */
  lemma CellsFitWindow()
    ensures InWindow(Cells()) && Distinct(Cells())
  {
    ColumnsFit(7);
    JoinDistinct(Columns(7), FixedColumn(), 10000, 20000);
    JoinDistinct(Columns(7) + FixedColumn(), [HSel()], 20000, 30000);
  }
}

/** Layout of the compression window (five rows) as the code assigns it:

    | col0 | col1 | col2 | col3 | col4              |
    | a    | b1   | c2   | sum0 | ca0 = bnew        |
    | b    | c1   | d2   | sum1 | ca1 = cnew        |
    | c    | d1   | e2   | sum2 | ca2 = dnew        |
    | d    | e1   | a2   | sum3 | ca3 = enew        |
    | e    | a1   | b2   | sum4 | ca4 = anew        |

    The carries and the new words share column 4. */
module CompressGate {
  import opened GateCells

  function A(): GateCell { Adv(0, 0) }
  function B(): GateCell { Adv(0, 1) }
  function C(): GateCell { Adv(0, 2) }
  function D(): GateCell { Adv(0, 3) }
  function E(): GateCell { Adv(0, 4) }

  function B1(): GateCell { Adv(1, 0) }
  function C1(): GateCell { Adv(1, 1) }
  function D1(): GateCell { Adv(1, 2) }
  function E1(): GateCell { Adv(1, 3) }
  function A1(): GateCell { Adv(1, 4) }

  function C2(): GateCell { Adv(2, 0) }
  function D2(): GateCell { Adv(2, 1) }
  function E2(): GateCell { Adv(2, 2) }
  function A2(): GateCell { Adv(2, 3) }
  function B2(): GateCell { Adv(2, 4) }

  /** sum0 .. sum4 */
  function Sum(i: nat): GateCell { Adv(3, i) }
  /** ca0 .. ca4 */
  function Ca(i: nat): GateCell { Adv(4, i) }

  function BNew(): GateCell { Adv(4, 0) }
  function CNew(): GateCell { Adv(4, 1) }
  function DNew(): GateCell { Adv(4, 2) }
  function ENew(): GateCell { Adv(4, 3) }
  function ANew(): GateCell { Adv(4, 4) }

  /** Each new word sits on a carry: bnew on ca0, cnew on ca1, dnew on ca2,
      enew on ca3, anew on ca4. */
  lemma NewWordsShareCarryCells()
    ensures BNew() == Ca(0) && CNew() == Ca(1) && DNew() == Ca(2) && ENew() == Ca(3) && ANew() == Ca(4)
  {
  }

  /** Row k of the window sums r0[k], r1[(k+1) % 5] and r2[(k+2) % 5], held in columns 0, 1
      and 2 (`line` is 0, 1 or 2). */
  function Summand(line: nat, k: nat): GateCell { Adv(line, k) }

  lemma SummandsAreNamedCells()
    ensures Summand(0, 0) == A() && Summand(0, 1) == B() && Summand(0, 2) == C() && Summand(0, 3) == D() && Summand(0, 4) == E()
    ensures Summand(1, 0) == B1() && Summand(1, 1) == C1() && Summand(1, 2) == D1() && Summand(1, 3) == E1() && Summand(1, 4) == A1()
    ensures Summand(2, 0) == C2() && Summand(2, 1) == D2() && Summand(2, 2) == E2() && Summand(2, 3) == A2() && Summand(2, 4) == B2()
  {
  }

  /** A layout in which the wrapped sum of row k has a cell of its own, in column 5,
      beside its carry in column 4 (the drawing beside the code also gives the new
      words a column 5). */
  function NewIntended(k: nat): GateCell { Adv(5, k) }

  /** Column `col` of the intended layout, top to bottom: the three lines, the sums,
      the carries and the new words. */
  function IntendedColumn(col: nat): (cs: seq<GateCell>)
    ensures |cs| <= 5 && forall i | 0 <= i < |cs| :: cs[i] == Adv(col, i)
  {
    match col
    case 0 => [A(), B(), C(), D(), E()]
    case 1 => [B1(), C1(), D1(), E1(), A1()]
    case 2 => [C2(), D2(), E2(), A2(), B2()]
    case 3 => [Sum(0), Sum(1), Sum(2), Sum(3), Sum(4)]
    case 4 => [Ca(0), Ca(1), Ca(2), Ca(3), Ca(4)]
    case 5 => [NewIntended(0), NewIntended(1), NewIntended(2), NewIntended(3), NewIntended(4)]
    case _ => []
  }

  /** Columns 0 .. n - 1 of the intended layout, left to right. */
  function IntendedCells(n: nat): seq<GateCell>
  {
    if n == 0 then [] else IntendedCells(n - 1) + IntendedColumn(n - 1)
  }

  /** The intended layout fits the five rows the chip advances by, and no two names
      share a cell; the layout as written differs from it only in placing the new
      words on the carries. */
  lemma IntendedCellsFitWindow()
    ensures InWindow(IntendedCells(6)) && Distinct(IntendedCells(6))
  {
    var cs: seq<GateCell> := [];
    for col := 0 to 6
      invariant cs == IntendedCells(col) && InWindow(cs) && Distinct(cs)
      invariant forall i | 0 <= i < |cs| :: Key(cs[i]) < col * 100
    {
      JoinDistinct(cs, IntendedColumn(col), col * 100, (col + 1) * 100);
      cs := cs + IntendedColumn(col);
    }
  }
}
