/** Optional values, and the division facts the other modules share. */
module Basics {

  datatype Option<+T> = None | Some(value: T)

  lemma MulMonotone(a: int, b: int, c: int)
    requires a <= b && c >= 0
    ensures a * c <= b * c
  {
    assert (b - a) * c >= 0;
  }

  lemma DivBounds(a: int, c: int)
    requires c > 0
    ensures (a / c) * c <= a < (a / c + 1) * c
  {
    assert a == c * (a / c) + a % c;
  }

  lemma DivUnique(a: int, c: int, q: int)
    requires c > 0 && q * c <= a < (q + 1) * c
    ensures a / c == q
  {
    DivBounds(a, c);
    if a / c < q { MulMonotone(a / c + 1, q, c); }
    if a / c > q { MulMonotone(q + 1, a / c, c); }
  }

  lemma DivMonotone(a: int, b: int, c: int)
    requires a <= b && c > 0
    ensures a / c <= b / c
  {
    DivBounds(a, c);
    DivBounds(b, c);
    if a / c > b / c { MulMonotone(b / c + 1, a / c, c); }
  }
}
