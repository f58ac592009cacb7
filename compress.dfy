/** The five three-way sums of `assign_compress`, their carries, the order in which
    the code returns them, and what column 4 of the compression window holds once
    the overlapping writes are done. */
module Compression {
  import opened Words
  import opened Ripemd

  predicate Quintuples(r0: seq<Word>, r1: seq<Word>, r2: seq<Word>)
  {
    |r0| == 5 && |r1| == 5 && |r2| == 5
  }

  /** Row k sums r0[k], r1[k+1] and r2[k+2] (indices mod 5) without wrapping:
      k = 0 is the sum behind anew, 1 bnew, 2 cnew, 3 dnew, 4 enew. */
  function SumOf(r0: seq<Word>, r1: seq<Word>, r2: seq<Word>, k: nat): int
    requires Quintuples(r0, r1, r2) && k < 5
  {
    r0[k] as int + r1[(k + 1) % 5] + r2[(k + 2) % 5]
  }

  /** The same sum in `u32` wrapping arithmetic. */
  function NewWord(r0: seq<Word>, r1: seq<Word>, r2: seq<Word>, k: nat): Word
    requires Quintuples(r0, r1, r2) && k < 5
  {
    WrappingAdd(WrappingAdd(r0[k], r1[(k + 1) % 5]), r2[(k + 2) % 5])
  }

  /** `(sum - new) >> 32`; the difference is never negative. */
  function Carry(r0: seq<Word>, r1: seq<Word>, r2: seq<Word>, k: nat): int
    requires Quintuples(r0, r1, r2) && k < 5
  {
    (SumOf(r0, r1, r2, k) - NewWord(r0, r1, r2, k)) / Base
  }

  /** The new word is the sum mod 2^32 and the carry its quotient, at most 2. */
  lemma CarryBounds(r0: seq<Word>, r1: seq<Word>, r2: seq<Word>, k: nat)
    requires Quintuples(r0, r1, r2) && k < 5
    ensures NewWord(r0, r1, r2, k) == SumOf(r0, r1, r2, k) % Base
    ensures Carry(r0, r1, r2, k) == SumOf(r0, r1, r2, k) / Base
    ensures 0 <= Carry(r0, r1, r2, k) <= 2
    ensures NewWord(r0, r1, r2, k) + Carry(r0, r1, r2, k) * Base == SumOf(r0, r1, r2, k)
  {
    var p: int, q: int, t: int := r0[k], r1[(k + 1) % 5], r2[(k + 2) % 5];
    ModAddLeft(p + q, t, Base);
    var sum := SumOf(r0, r1, r2, k);
    var v := NewWord(r0, r1, r2, k);
    assert v == sum % Base;
    DivModUnique(sum - v, Base, sum / Base, 0);
    DivModUnique(sum, Base, sum / Base, v);
  }

  /** What the code returns: [anew, bnew, cnew, dnew, enew]. */
  function CompressWords(r0: seq<Word>, r1: seq<Word>, r2: seq<Word>): (out: seq<Word>)
    requires Quintuples(r0, r1, r2)
    ensures |out| == 5
  {
    [NewWord(r0, r1, r2, 0), NewWord(r0, r1, r2, 1), NewWord(r0, r1, r2, 2), NewWord(r0, r1, r2, 3), NewWord(r0, r1, r2, 4)]
  }

  /** The same words in the standard's order, [bnew, cnew, dnew, enew, anew]. */
  function StandardOrder(out: seq<Word>): seq<Word>
    requires |out| == 5
  {
    [out[1], out[2], out[3], out[4], out[0]]
  }

  /** With r0 the chaining value and r1, r2 the two lines, the code's words are the
      standard's final addition rotated right by one: anew is the new h4 and bnew
      the new h0. */
  lemma CompressWordsIsRotatedCombine(h: seq<Word>, left: seq<Word>, right: seq<Word>)
    requires Quintuples(h, left, right)
    ensures CompressWords(h, left, right) == [Combine(h, left, right)[4]] + Combine(h, left, right)[..4]
    ensures StandardOrder(CompressWords(h, left, right)) == Combine(h, left, right)
  {
    CarryBounds(h, left, right, 0);
    CarryBounds(h, left, right, 1);
    CarryBounds(h, left, right, 2);
    CarryBounds(h, left, right, 3);
    CarryBounds(h, left, right, 4);
  }

  /** The order matters: with h1 = 1 and every other word 0 the code's first word is
      0 while the standard's new h0 is 1. */
  lemma OutputOrderDiffersFromStandard()
    ensures CompressWords([0, 1, 0, 0, 0], [0, 0, 0, 0, 0], [0, 0, 0, 0, 0])[0] == 0
    ensures Combine([0, 1, 0, 0, 0], [0, 0, 0, 0, 0], [0, 0, 0, 0, 0])[0] == 1
  {
  }

  /** Column 4 of the compression window after the code's fifteen writes: the carry of
      row 2 (written to ca0 over bnew), cnew, dnew, enew, and the carry of row 4
      (written to ca4 over anew). */
  function Column4AsWritten(r0: seq<Word>, r1: seq<Word>, r2: seq<Word>): seq<int>
    requires Quintuples(r0, r1, r2)
  {
    [Carry(r0, r1, r2, 2), NewWord(r0, r1, r2, 2), NewWord(r0, r1, r2, 3), NewWord(r0, r1, r2, 4), Carry(r0, r1, r2, 4)]
  }

  /** The cells returned for anew and bnew no longer hold those words: with r0[0] = 1
      and every other word 0, anew is 1 but its cell holds the carry 0; with r0[1] = 1,
      bnew is 1 but its cell holds 0. */
  lemma ReturnedCellsLoseValues()
    ensures CompressWords([1, 0, 0, 0, 0], [0, 0, 0, 0, 0], [0, 0, 0, 0, 0])[0] == 1
    ensures Column4AsWritten([1, 0, 0, 0, 0], [0, 0, 0, 0, 0], [0, 0, 0, 0, 0])[4] == 0
    ensures CompressWords([0, 1, 0, 0, 0], [0, 0, 0, 0, 0], [0, 0, 0, 0, 0])[1] == 1
    ensures Column4AsWritten([0, 1, 0, 0, 0], [0, 0, 0, 0, 0], [0, 0, 0, 0, 0])[0] == 0
  {
  }
}
