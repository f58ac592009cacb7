/** 32-bit word arithmetic as the chip uses it: wrapping addition, shifts,
    the reference rotation on a bit sequence, and the 4-byte limb split. */
module Words {

  const Base: int := 0x1_0000_0000

  /** A value of Rust's `u32`. */
  type Word = x: int | 0 <= x < 0x1_0000_0000

  predicate IsWord(x: int) { 0 <= x < Base }

  function Pow2(n: nat): (r: nat)
    ensures r >= 1
  {
    if n == 0 then 1 else 2 * Pow2(n - 1)
  }

  lemma {:induction false} Pow2Add(a: nat, b: nat)
    ensures Pow2(a + b) == Pow2(a) * Pow2(b)
  {
    if a > 0 {
      Pow2Add(a - 1, b);
      assert Pow2(a + b) == 2 * Pow2(a - 1 + b);
    }
  }

  lemma Pow2Values()
    ensures Pow2(8) == 256 && Pow2(10) == 1024 && Pow2(22) == 0x40_0000
    ensures Pow2(32) == Base
  {
  }

  /** 2^s * 2^(32-s) == 2^32 */
  lemma Pow2Split(s: nat)
    requires s <= 32
    ensures Pow2(s) * Pow2(32 - s) == Base
  {
    Pow2Add(s, 32 - s);
    Pow2Values();
  }

  /** Rust's `u32::wrapping_add`. */
  function WrappingAdd(a: Word, b: Word): Word
  {
    (a + b) % Base
  }

  lemma ModAddLeft(x: int, y: int, m: int)
    requires m > 0
    ensures (x % m + y) % m == (x + y) % m
  {
    var q := x / m;
    assert x == q * m + x % m;
    assert x + y == (x % m + y) + q * m;
    ModShift(x % m + y, q, m);
  }

  lemma {:induction false} ModShift(z: int, q: int, m: int)
    requires m > 0
    ensures (z + q * m) % m == z % m
  {
    var d := z / m;
    var r := z % m;
    assert z == d * m + r;
    assert z + q * m == (d + q) * m + r;
    DivModUnique(z + q * m, m, d + q, r);
  }

  /** The quotient and remainder of a division are the only pair with the remainder in range. */
  lemma DivModUnique(n: int, m: int, q: int, r: int)
    requires m > 0 && 0 <= r < m && n == q * m + r
    ensures n / m == q && n % m == r
  {
    var q' := n / m;
    var r' := n % m;
    assert q' * m + r' == q * m + r;
    if q > q' {
      MulAtLeast(q - q', m);
    } else if q < q' {
      MulAtLeast(q' - q, m);
    }
  }

  lemma MulAtLeast(d: int, m: int)
    requires d >= 1 && m > 0
    ensures d * m >= m
  {
    assert d * m == (d - 1) * m + m;
    MulNonNegative(d - 1, m);
  }

  lemma MulNonNegative(a: int, b: int)
    requires a >= 0 && b >= 0
    ensures a * b >= 0
  {
  }

  /** Wrapping additions chained as the code chains them equal one sum taken mod 2^32. */
  lemma WrappingAdd4(p: Word, q: Word, s: Word, t: Word)
    ensures WrappingAdd(WrappingAdd(WrappingAdd(p, q), s), t) == (p + q + s + t) % Base
  {
    ModAddLeft(p + q, s, Base);
    ModAddLeft(p + q + s, t, Base);
  }

  // ---------------------------------------------------------------------------
  // Reference rotation: a word is its 32 bits, least significant first, and a
  // left rotation by s moves the top s bits to the bottom.

  function ToBits(w: nat, n: nat): (bs: seq<bool>)
    ensures |bs| == n
  {
    if n == 0 then [] else [w % 2 == 1] + ToBits(w / 2, n - 1)
  }

  function FromBits(bs: seq<bool>): nat
  {
    if |bs| == 0 then 0 else (if bs[0] then 1 else 0) + 2 * FromBits(bs[1..])
  }

  lemma {:induction false} FromBitsBound(bs: seq<bool>)
    ensures FromBits(bs) < Pow2(|bs|)
  {
    if bs != [] {
      FromBitsBound(bs[1..]);
    }
  }

  /** Thirty-two bits make a word. */
  lemma WordBitsBound(bs: seq<bool>)
    requires |bs| == 32
    ensures FromBits(bs) < Base
  {
    FromBitsBound(bs);
    Pow2Values();
  }

  lemma {:induction false} FromBitsAppend(x: seq<bool>, y: seq<bool>)
    ensures FromBits(x + y) == FromBits(x) + Pow2(|x|) * FromBits(y)
  {
    if x != [] {
      var xy := x + y;
      assert xy[0] == x[0] && xy[1..] == x[1..] + y;
      FromBitsAppend(x[1..], y);
      var b := if x[0] then 1 else 0;
      var rest := FromBits(x[1..]);
      var p := Pow2(|x| - 1);
      var fy := FromBits(y);
      assert FromBits(xy) == b + 2 * FromBits(x[1..] + y);
      MulAssoc2(p, fy);
    } else {
      assert x + y == y;
    }
  }

  lemma MulAssoc2(p: int, f: int)
    ensures 2 * (p * f) == (2 * p) * f
  {
  }

  lemma {:induction false} FromToBits(w: nat, n: nat)
    ensures FromBits(ToBits(w, n)) == w % Pow2(n)
  {
    if n > 0 {
      FromToBits(w / 2, n - 1);
      var bs := ToBits(w, n);
      assert bs[0] == (w % 2 == 1) && bs[1..] == ToBits(w / 2, n - 1);
      assert FromBits(bs) == w % 2 + 2 * ((w / 2) % Pow2(n - 1));
      ModDouble(w, Pow2(n - 1));
    }
  }

  lemma ModDouble(w: nat, p: nat)
    requires p > 0
    ensures w % (2 * p) == w % 2 + 2 * ((w / 2) % p)
  {
    var hi := (w / 2) / p;
    var lo := (w / 2) % p;
    assert w / 2 == hi * p + lo;
    assert w == 2 * (w / 2) + w % 2;
    assert w == hi * (2 * p) + (2 * lo + w % 2);
    DivModUnique(w, 2 * p, hi, 2 * lo + w % 2);
  }

  /** Rust's `>>` on an unsigned value: k halvings. */
  function Shr(w: nat, k: nat): nat
  {
    if k == 0 then w else Shr(w / 2, k - 1)
  }

  lemma {:induction false} ToBitsSplit(w: nat, n: nat, k: nat)
    requires k <= n
    ensures ToBits(w, n) == ToBits(w, k) + ToBits(Shr(w, k), n - k)
  {
    if k > 0 {
      ToBitsSplit(w / 2, n - 1, k - 1);
    }
  }

  lemma {:induction false} ShrBound(w: nat, n: nat, k: nat)
    requires k <= n && w < Pow2(n)
    ensures Shr(w, k) < Pow2(n - k)
  {
    if k > 0 {
      ShrBound(w / 2, n - 1, k - 1);
    }
  }

  /** Shifting right by k divides by 2^k. */
  lemma {:induction false} ShrIsDiv(w: nat, k: nat)
    ensures Shr(w, k) == w / Pow2(k)
  {
    if k > 0 {
      ShrIsDiv(w / 2, k - 1);
      DivDiv(w, 2, Pow2(k - 1));
    }
  }

  lemma DivDiv(w: nat, a: nat, b: nat)
    requires a > 0 && b > 0
    ensures w / a / b == w / (a * b)
  {
    var q := w / a / b;
    var r := w / a % b;
    assert w / a == q * b + r;
    assert w == (q * b + r) * a + w % a;
    assert w == q * (a * b) + (r * a + w % a);
    assert r * a + w % a <= (b - 1) * a + (a - 1);
    DivModUnique(w, a * b, q, r * a + w % a);
  }

  lemma SmallMod(x: int, m: int)
    requires 0 <= x < m
    ensures x % m == x
  {
    DivModUnique(x, m, 0, x);
  }

  function RotateBits(bs: seq<bool>, s: nat): seq<bool>
    requires s <= |bs|
  {
    bs[|bs| - s..] + bs[..|bs| - s]
  }

  /** Rust's `u32::rotate_left(s)`, defined on the bits of the word. */
  function Rotl(w: Word, s: nat): Word
    requires s <= 32
  {
    var bits := RotateBits(ToBits(w, 32), s);
    WordBitsBound(bits);
    FromBits(bits)
  }

  /** A rotation is the low 32-s bits moved up by s plus the high s bits moved down:
      the identity the chip's rotation gates check with two witnesses. */
  lemma RotlSplit(w: Word, s: nat)
    requires 1 <= s <= 32
    ensures Shr(w, 32 - s) < Pow2(s)
    ensures Rotl(w, s) == (w % Pow2(32 - s)) * Pow2(s) + Shr(w, 32 - s)
  {
    RotlOfParts(w, s);
    FromToBits(w, 32 - s);
    HighBits(w, s);
    MulComm(Pow2(s), w % Pow2(32 - s));
  }

  lemma MulComm(a: int, b: int)
    ensures a * b == b * a
  {
  }

  lemma HighBits(w: Word, s: nat)
    requires 1 <= s <= 32
    ensures Shr(w, 32 - s) < Pow2(s)
    ensures FromBits(ToBits(Shr(w, 32 - s), s)) == Shr(w, 32 - s)
  {
    var hiw := Shr(w, 32 - s);
    Pow2Values();
    ShrBound(w, 32, 32 - s);
    FromToBits(hiw, s);
    SmallMod(hiw, Pow2(s));
  }

  lemma RotlOfParts(w: Word, s: nat)
    requires 1 <= s <= 32
    ensures Rotl(w, s) == FromBits(ToBits(Shr(w, 32 - s), s)) + Pow2(s) * FromBits(ToBits(w, 32 - s))
  {
    var lo := ToBits(w, 32 - s);
    var hi := ToBits(Shr(w, 32 - s), s);
    ToBitsSplit(w, 32, 32 - s);
    var bits := ToBits(w, 32);
    assert bits == lo + hi;
    assert RotateBits(bits, s) == hi + lo;
    FromBitsAppend(hi, lo);
  }

  /** A value is its part above bit k and its low k bits. */
  lemma ShrSplit(w: nat, k: nat)
    ensures w == Shr(w, k) * Pow2(k) + w % Pow2(k)
  {
    ShrIsDiv(w, k);
  }

  /** The split at bit k is unique: a high/low pair with the low part below 2^k that
      recombines to w is the shift and the remainder. */
  lemma SplitUnique(w: nat, k: nat, h: int, l: int)
    requires 0 <= l < Pow2(k) && h * Pow2(k) + l == w
    ensures h == Shr(w, k) && l == w % Pow2(k)
  {
    DivModUnique(w, Pow2(k), h, l);
    ShrIsDiv(w, k);
  }

  lemma MulLeftMonotone(a: int, b: int, c: int)
    requires 0 <= a <= b && c >= 0
    ensures a * c <= b * c
  {
    MulNonNegative(b - a, c);
    assert b * c - a * c == (b - a) * c;
  }

  // ---------------------------------------------------------------------------
  // Byte limbs, least significant first.

  function ToLimbs(w: Word): seq<int>
  {
    [w % 256, w / 256 % 256, w / 256 / 256 % 256, w / 256 / 256 / 256]
  }

  function FromLimbs(l: seq<int>): int
    requires |l| == 4
  {
    l[0] + l[1] * 0x100 + l[2] * 0x1_0000 + l[3] * 0x100_0000
  }

  /** The weighted sum limb0 + limb1 * 2^8 + ... + limb(n-1) * 2^(8(n-1)), accumulated
      one limb at a time as the gates and the step writer build it. */
  function LimbAccumulate(l: seq<int>, n: nat): int
    requires 1 <= n <= |l|
  {
    if n == 1 then l[0] else LimbAccumulate(l, n - 1) + l[n - 1] * Pow2(8 * (n - 1))
  }

  lemma LimbWeights()
    ensures Pow2(8) == 0x100 && Pow2(16) == 0x1_0000 && Pow2(24) == 0x100_0000
  {
    Pow2Values();
    Pow2Add(8, 8);
    Pow2Add(16, 8);
  }

  /** Accumulating all four limbs is the recombination of the limbs. */
  lemma LimbAccumulateIsFromLimbs(l: seq<int>)
    requires |l| == 4
    ensures LimbAccumulate(l, 4) == FromLimbs(l)
  {
    LimbWeights();
    assert LimbAccumulate(l, 2) == l[0] + l[1] * 0x100;
    assert LimbAccumulate(l, 3) == l[0] + l[1] * 0x100 + l[2] * 0x1_0000;
  }

  predicate LimbsInRange(l: seq<int>)
  {
    |l| == 4 && forall i | 0 <= i < 4 :: 0 <= l[i] < 256
  }

  /** Splitting a word into limbs and recombining them gives the word back. */
  lemma LimbsRoundTrip(w: Word)
    ensures LimbsInRange(ToLimbs(w)) && FromLimbs(ToLimbs(w)) == w
  {
    var q1 := w / 256;
    var q2 := q1 / 256;
    var q3 := q2 / 256;
    assert w == q1 * 256 + w % 256;
    assert q1 == q2 * 256 + q1 % 256;
    assert q2 == q3 * 256 + q2 % 256;
    assert q3 < 256;
  }

  /** Recombining in-range limbs gives a word whose limbs are those limbs. */
  lemma LimbsRoundTripBack(l: seq<int>)
    requires LimbsInRange(l)
    ensures IsWord(FromLimbs(l)) && ToLimbs(FromLimbs(l)) == l
  {
    var w := FromLimbs(l);
    var r1 := l[1] + l[2] * 256 + l[3] * 0x1_0000;
    var r2 := l[2] + l[3] * 256;
    DivModUnique(w, 256, r1, l[0]);
    DivModUnique(r1, 256, r2, l[1]);
    DivModUnique(r2, 256, l[3], l[2]);
  }
}
