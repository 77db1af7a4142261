/** Quotients and remainders. */
module Arithmetic {
  lemma {:induction false} Divided(a: int, p: int, q: int, r: int)
    requires a == p * q + r && 0 <= r < p
    ensures a / p == q && a % p == r
  {
    var m, n := a / p, a % p;
    assert a == p * m + n && 0 <= n < p;
    if m < q { AtLeastOne(p, q - m); } else if m > q { AtLeastOne(p, m - q); }
  }

  lemma {:induction false} AtLeastOne(p: int, d: int)
    requires p > 0 && d >= 1
    ensures p * d >= p
  {}

  lemma {:induction false} ModShift(x: int, p: int, q: int)
    requires p > 0
    ensures (x + q * p) % p == x % p
  {
    assert x + q * p == p * (x / p + q) + x % p;
    Divided(x + q * p, p, x / p + q, x % p);
  }

  lemma {:induction false} ModAdd(x: int, y: int, p: int)
    requires p > 0
    ensures (x % p + y) % p == (x + y) % p
  {
    assert x + y == x % p + y + x / p * p;
    ModShift(x % p + y, p, x / p);
  }
}
