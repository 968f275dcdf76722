/** Division with remainder. */
module Arithmetic {

  lemma ModUnique(n: nat, d: nat, q: nat, r: nat)
    requires d > 0 && n == q * d + r && r < d
    ensures n % d == r
  {
    var q', r' := n / d, n % d;
    assert n == q' * d + r';
    if q > q' {
      Apart(q, q', d);
    } else if q < q' {
      Apart(q', q, d);
    }
  }

  lemma Apart(x: nat, y: nat, d: nat)
    requires x > y
    ensures x * d >= y * d + d
  {
    assert x * d == (y + 1) * d + (x - y - 1) * d;
    NotNegative(x - y - 1, d);
    assert (y + 1) * d == y * d + d;
  }

  lemma NotNegative(x: nat, d: nat)
    ensures x * d >= 0
  {
  }

  lemma Divides(n: nat, x: nat, y: nat)
    requires n == x * y && x > 0 && y > 0
    ensures n % x == 0 && n % y == 0
  {
    assert n == y * x;
    ModUnique(n, x, y, 0);
    ModUnique(n, y, x, 0);
  }

  /** Products grow with their factors. */
  lemma TimesMono(a: nat, b: nat, x: nat, y: nat)
    requires a <= x && b <= y
    ensures a * b <= x * y
  {
    assert x * y == a * y + (x - a) * y;
    assert a * y == a * b + a * (y - b);
    NotNegative(x - a, y);
    NotNegative(a, y - b);
  }
}
