/** Rounding of exact amounts, as JavaScript's Math object defines it. */
module Rounding {

  /** Math.round: nearest integer, halves towards positive infinity. */
  function Round(x: real): int {
    (x + 0.5).Floor
  }

  /** Math.ceil. */
  function Ceil(x: real): int {
    -(-x).Floor
  }

  /** Math.trunc: towards zero. */
  function Trunc(x: real): int {
    if x >= 0.0 then x.Floor else Ceil(x)
  }

  function Min(a: int, b: int): int {
    if a <= b then a else b
  }

  function Max(a: int, b: int): int {
    if a <= b then b else a
  }

  predicate IsWhole(x: real) {
    x == x.Floor as real
  }

  /** Floor is the right adjoint of the embedding of the integers. */
  lemma FloorGalois(n: int, x: real)
    ensures n <= x.Floor <==> n as real <= x
  {
  }

  /** Ceil is the left adjoint. */
  lemma CeilGalois(x: real, n: int)
    ensures Ceil(x) <= n <==> x <= n as real
  {
    FloorGalois(-n, -x);
  }

  lemma RoundGalois(x: real, n: int)
    ensures Round(x) <= n <==> x < n as real + 0.5
    ensures n <= Round(x) <==> n as real - 0.5 <= x
  {
    FloorGalois(n, x + 0.5);
    FloorGalois(n + 1, x + 0.5);
  }

  lemma MulMonotone(a: real, b: real, k: real)
    requires a <= b && 0.0 <= k
    ensures a * k <= b * k
  {
    assert 0.0 <= (b - a) * k;
  }

  lemma MulStrict(a: real, b: real, k: real)
    requires a < b && 0.0 < k
    ensures a * k < b * k
  {
    assert 0.0 < (b - a) * k;
  }

  lemma QuotientLe(q: real, d: real, b: real)
    requires d > 0.0
    ensures q <= b <==> q * d <= b * d
  {
    if q <= b {
      MulMonotone(q, b, d);
    } else {
      MulStrict(b, q, d);
    }
  }

  /** Dividing by a positive number moves across an inequality. */
  lemma DivLe(a: real, d: real, b: real)
    requires d > 0.0
    ensures a / d <= b <==> a <= b * d
  {
    QuotientLe(a / d, d, b);
  }
}
