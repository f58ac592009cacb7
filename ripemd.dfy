/** The RIPEMD-160 compression function as the standard states it (Dobbertin,
    Bosselaers and Preneel, Appendix A; ISO/IEC 10118-3 dedicated hash-function 1):
    the reference the chip's trace is proved against. The five boolean mixing
    functions and the constant tables are inputs, exactly as the chip takes them. */
module Ripemd {
  import opened Words

  /** f_j(x, y, z) for j in 0..4, supplied by the host (`u32::atomic`). */
  type Mix = (nat, Word, Word, Word) -> Word

  /** One line's tables: message-word index r_j(i), shift s_j(i), constant K_j. */
  datatype Tables = Tables(msgIndex: seq<seq<nat>>, shift: seq<seq<nat>>, constant: seq<Word>)

  /** Five groups of sixteen entries, message indices below 16, shifts in 1..32. */
  predicate WellFormed(t: Tables)
  {
    && |t.msgIndex| == 5 && |t.shift| == 5 && |t.constant| == 5
    && (forall j | 0 <= j < 5 :: |t.msgIndex[j]| == 16 && |t.shift[j]| == 16)
    && (forall j, i | 0 <= j < 5 && 0 <= i < 16 :: t.msgIndex[j][i] < 16 && 1 <= t.shift[j][i] <= 32)
  }

  /** The tables a line may be given. */
  type LineTables = t: Tables | WellFormed(t)
    witness Tables(seq(5, j => seq(16, i => 0)), seq(5, j => seq(16, i => 1)), seq(5, j => 0))

  /** The left line applies f_j in round j, the right line f_(4-j). */
  function FunctionIndex(round: nat, mirrored: bool): nat
    requires round < 5
  {
    if mirrored then 4 - round else round
  }

  /** T := rol_s(A + f(B, C, D) + X + K) + E, all additions mod 2^32; m is f(B, C, D). */
  function T(a: Word, m: Word, x: Word, k: Word, e: Word, s: nat): Word
    requires s <= 32
  {
    (Rotl((a + m + x + k) % Base, s) + e) % Base
  }

  /** One step: (A, B, C, D, E) := (E, T, B, rol_10(C), D). */
  function Step(st: seq<Word>, x: Word, s: nat, k: Word, f: nat, mix: Mix): seq<Word>
    requires |st| == 5 && 1 <= s <= 32
  {
    [st[4], T(st[0], mix(f, st[1], st[2], st[3]), x, k, st[4], s), st[1], Rotl(st[2], 10), st[3]]
  }

  /** The state of a line after `round` whole rounds and the first `index` steps of
      the next one, that is after its first 16 * round + index steps. */
  function RunLine(h: seq<Word>, msg: seq<Word>, t: LineTables, mirrored: bool, mix: Mix, round: nat, index: nat): (st: seq<Word>)
    requires |h| == 5 && |msg| == 16 && round <= 5 && index <= 16 && (round == 5 ==> index == 0)
    ensures |st| == 5
    decreases round, index
  {
    if index == 0 then
      if round == 0 then h else RunLine(h, msg, t, mirrored, mix, round - 1, 16)
    else
      Step(RunLine(h, msg, t, mirrored, mix, round, index - 1), msg[t.msgIndex[round][index - 1]],
           t.shift[round][index - 1], t.constant[round], FunctionIndex(round, mirrored), mix)
  }

  /** The final addition: h0' = h1 + C + D', h1' = h2 + D + E', h2' = h3 + E + A',
      h3' = h4 + A + B', h4' = h0 + B + C' (left line unprimed, right line primed). */
  function Combine(h: seq<Word>, left: seq<Word>, right: seq<Word>): seq<Word>
    requires |h| == 5 && |left| == 5 && |right| == 5
  {
    [ (h[1] + left[2] + right[3]) % Base,
      (h[2] + left[3] + right[4]) % Base,
      (h[3] + left[4] + right[0]) % Base,
      (h[4] + left[0] + right[1]) % Base,
      (h[0] + left[1] + right[2]) % Base ]
  }

  /** The compression function on one 16-word block. */
  function Compress(h: seq<Word>, msg: seq<Word>, left: LineTables, right: LineTables, mix: Mix): seq<Word>
    requires |h| == 5 && |msg| == 16
  {
    Combine(h, RunLine(h, msg, left, false, mix, 5, 0), RunLine(h, msg, right, true, mix, 5, 0))
  }
}
