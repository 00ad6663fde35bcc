/** Facts about exact division that the two averages need. */
module Arithmetic {

  lemma MulCast(a: nat, b: nat)
    ensures (a * b) as real == a as real * b as real
  {
  }

  /** A bound on the product bounds the quotient. */
  lemma DivideBack(s: real, c: real, r: real)
    requires c > 0.0 && s <= r * c
    ensures s / c <= r
  {
  }

  lemma DivideBackStrict(s: real, c: real, r: real)
    requires c > 0.0 && r * c < s + 10.0 * c
    ensures r < s / c + 10.0
  {
    var m := s / c;
    assert m * c == s;
    assert s + 10.0 * c == (m + 10.0) * c;
    ScaleBackStrict(r, m + 10.0, c);
  }

  lemma ScaleBackStrict(x: real, y: real, c: real)
    requires c > 0.0 && x * c < y * c
    ensures x < y
  {
  }

  lemma DivideAbove(s: real, c: real, r: real)
    requires c > 0.0 && r * c <= s
    ensures r <= s / c
  {
  }

  lemma DivideTimes(s: real, c: real)
    requires c > 0.0
    ensures (s / c) * c == s
  {
  }

  /** `Math.ceil(a / d)` for naturals, by repeated subtraction. */
  function CeilDiv(a: nat, d: nat): nat
    requires d > 0
  {
    if a <= d then (if a == 0 then 0 else 1) else 1 + CeilDiv(a - d, d)
  }

  /** The rounded-up quotient is the least `q` with `a <= q * d`. */
  lemma {:induction false} CeilDivBounds(a: nat, d: nat)
    requires d > 0
    ensures a <= CeilDiv(a, d) * d < a + d
  {
    if a > d {
      CeilDivBounds(a - d, d);
      assert CeilDiv(a, d) * d == CeilDiv(a - d, d) * d + d;
    }
  }

  /** Any `q` within those bounds is the rounded-up quotient. */
  lemma {:induction false} CeilDivUnique(a: nat, d: nat, q: nat)
    requires d > 0 && a <= q * d < a + d
    ensures CeilDiv(a, d) == q
  {
    if a > d {
      assert (q - 1) * d == q * d - d;
      CeilDivUnique(a - d, d, q - 1);
    }
  }
}
