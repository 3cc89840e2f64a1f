/** Go's 64-bit integers and their decimal text. */
module Integers {
  import opened Decimal

  const MAX_INT64 := 0x7fff_ffff_ffff_ffff
  const TWO_64 := 0x1_0000_0000_0000_0000

  predicate FitsInt64(x: int) {
    -MAX_INT64 - 1 <= x <= MAX_INT64
  }

  /** The value a 64-bit computation keeps. */
  function Wrap(x: int): (w: int)
    ensures FitsInt64(w) && (w == x <==> FitsInt64(x))
  {
    (x + MAX_INT64 + 1) % TWO_64 - MAX_INT64 - 1
  }

  /** Go's division, which truncates toward zero. */
  function Quotient(a: int, b: int): int
    requires b > 0
  {
    if a >= 0 then a / b else -(-a / b)
  }

  /** strconv.FormatInt */
  function Text(x: int): string {
    if x < 0 then "-" + Padded(-x, 1) else Padded(x, 1)
  }

  lemma PaddedNonEmpty(n: nat)
    ensures Padded(n, 1) != "" && AllDigits(Padded(n, 1)) && Value(Padded(n, 1)) == n
  {
    PaddedReadsBack(n, 1);
  }
}
