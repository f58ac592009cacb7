/** The scalar field of BN254 (`bn256::Fr`), in which every gate equation is
    checked: an equation holds when its left-hand side is 0 modulo the prime P. A
    cell holds a canonical element, an integer in 0 .. P - 1. */
module Field {

  const P: int := 21888242871839275222246405745257275088548364400416034343698204186575808495617

  /** The canonical representatives of the field's elements. */
  predicate InField(v: int) { 0 <= v < P }

  /** v is 0 in the field. */
  predicate FieldZero(v: int) { v % P == 0 }

  /** The bridge from the field to the integers: a value 0 in the field whose
      magnitude is below P is 0. */
  lemma FieldZeroSmall(v: int)
    requires -P < v < P && FieldZero(v)
    ensures v == 0
  {
    if v < 0 {
      FieldDivMod(v, -1, v + P);
    } else if v > 0 {
      FieldDivMod(v, 0, v);
    }
  }

  /** Sums of field zeros are field zeros. */
  lemma FieldZeroAdd(u: int, v: int)
    requires FieldZero(u) && FieldZero(v)
    ensures FieldZero(u + v)
  {
    FieldDivMod(u + v, u / P + v / P, 0);
  }

  /** Quotient and remainder by P are unique. */
  lemma FieldDivMod(n: int, q: int, r: int)
    requires 0 <= r < P && n == q * P + r
    ensures n / P == q && n % P == r
  {
  }
}
