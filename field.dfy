/** Elements of o1js's native `Field` type: integers modulo the base-field
    prime of the Pallas curve, always held in canonical form. */
module Field {

  /** The modulus of o1js's `Field` (2^254 + 45560315531419706090280762371685220353).
      No proof here depends on its primality, only on its size. */
  const P: int := 28948022309329048855892746252171976963363056481941560715954676764349967630337

  /** A field element: its canonical representative in [0, P). */
  type Felt = x: int | 0 <= x < P

  /** `a.sub(b)`: field subtraction, which wraps around modulo P instead of
      going negative. */
  function Sub(a: Felt, b: Felt): (r: Felt)
    ensures r == (a - b) % P
  {
    if b <= a then a - b else P - (b - a)
  }

  /** `a.greaterThanOrEqual(b)`: compares the canonical representatives as
      integers, so a wrapped-around difference counts as a very large number.
      Equivalently: `a >= b` exactly when `a.sub(b)` does not wrap around. */
  predicate Gte(a: Felt, b: Felt)
    ensures Gte(a, b) <==> Sub(a, b) == a - b
    ensures !Gte(a, b) ==> Sub(b, a) == b - a
  {
    a >= b
  }

  /** Without wrap-around field subtraction is integer subtraction. */
  lemma SubWithoutWrap(a: Felt, b: Felt)
    requires b <= a
    ensures Sub(a, b) == a - b
  {
  }

  /** When the subtrahend is larger the result wraps to the top of the field. */
  lemma SubWrapsAround(a: Felt, b: Felt)
    requires a < b
    ensures Sub(a, b) == P - (b - a)
  {
  }
}
