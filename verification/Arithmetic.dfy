/** The lesser of two numbers, and division by a divisor that is not a constant. */
module Arithmetic {
  function Least(a: int, b: int): int {
    if a < b then a else b
  }

  lemma {:induction false} Division(x: int, d: int)
    requires d > 0
    ensures x == (x / d) * d + x % d && 0 <= x % d < d
  {
  }

  lemma {:induction false} Multiples(p: int, q: int, d: int)
    requires d > 0 && p < q
    ensures p * d + d <= q * d
    decreases q - p
  {
    if p + 1 < q {
      Multiples(p, q - 1, d);
    }
    Distributes(q - 1, d);
  }

  lemma {:induction false} Quotients(p: int, r: int, q: int, s: int, d: int)
    requires 0 <= r < d && 0 <= s < d && p * d + r <= q * d + s
    ensures p <= q
  {
    if q < p {
      Multiples(q, p, d);
    }
  }

  lemma {:induction false} QuotientGrows(x: int, y: int, d: int)
    requires d > 0 && x <= y
    ensures x / d <= y / d
  {
    Division(x, d);
    Division(y, d);
    Quotients(x / d, x % d, y / d, y % d, d);
  }

  lemma {:induction false} DivideOnce(x: int, d: int)
    requires d > 0
    ensures (x + d) / d == x / d + 1
  {
    Division(x, d);
    Division(x + d, d);
    Distributes(x / d, d);
    Quotients((x + d) / d, (x + d) % d, x / d + 1, x % d, d);
    Quotients(x / d + 1, x % d, (x + d) / d, (x + d) % d, d);
  }

  lemma {:induction false} Distributes(q: int, d: int)
    ensures (q + 1) * d == q * d + d
  {
  }

  lemma {:induction false} QuotientAndRemainder(x: int, q: int, r: int, d: int)
    requires 0 <= r < d && x == q * d + r
    ensures x / d == q && x % d == r
  {
    Division(x, d);
    Quotients(x / d, x % d, q, r, d);
    Quotients(q, r, x / d, x % d, d);
  }
}
