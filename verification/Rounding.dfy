/** The two roundings of the source as inequalities: what a floor shift and a
    truncating division return, said without division. */
module Rounding {
  import opened Arithmetic

  /** y = floor(n / 2^s). */
  predicate IsFloor(y: int, n: int, s: nat) { y * Pow2(s) <= n < y * Pow2(s) + Pow2(s) }

  /** y is n / d with the fraction dropped. */
  predicate IsTruncation(y: int, n: int, d: int)
  {
    if n >= 0 then y * d <= n < y * d + d else y * d - d < n <= y * d
  }

  lemma ShrIsFloor(n: int, s: nat, y: int)
    ensures Shr(n, s) == y <==> IsFloor(y, n, s)
  {
    hide Pow2;
    DivBounds(n, Pow2(s));
    if IsFloor(y, n, s) { DivUnique(n, Pow2(s), y); }
  }

  lemma TDivIsTruncation(n: int, d: int, y: int)
    requires d > 0
    ensures TDiv(n, d) == y <==> IsTruncation(y, n, d)
  {
    DivBounds(Abs(n), d);
    if IsTruncation(y, n, d) {
      if n >= 0 {
        DivUnique(n, d, y);
      } else {
        DivUnique(-n, d, -y);
      }
    }
  }
}
