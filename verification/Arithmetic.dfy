/** Division and remainder by a variable, where the solver needs the product written out. */
module Arithmetic {

  lemma QuotientStep(d: nat, p: nat)
    requires 0 < p <= d
    ensures (d - p) / p + 1 == d / p
  {
    var q := (d - p) / p;
    assert d == (q + 1) * p + (d - p) % p;
    QuotientUnique(d, p, q + 1, (d - p) % p);
  }

  lemma SmallQuotient(d: nat, p: nat)
    requires 0 < p && d < p
    ensures d / p == 0 && d % p == d
  {
    QuotientUnique(d, p, 0, d);
  }

  lemma QuotientUnique(d: nat, p: nat, q: int, r: nat)
    requires 0 < p && d == q * p + r && r < p
    ensures d / p == q && d % p == r
  {
    var q', r' := d / p, d % p;
    assert d == q' * p + r';
    assert (q - q') * p == r' - r;
    TimesMonotone(1, q - q', p);
    TimesMonotone(q - q', -1, p);
  }

  lemma TimesMonotone(a: int, b: int, p: nat)
    ensures a <= b ==> a * p <= b * p
  {
  }

  lemma TimesNext(k: int, p: int)
    ensures (k + 1) * p == k * p + p
  {
  }

  lemma MultipleAligned(k: nat, m: nat)
    requires 0 < m
    ensures (k * m) % m == 0
  {
    QuotientUnique(k * m, m, k, 0);
  }

  lemma DifferenceAligned(a: nat, b: nat, m: nat)
    requires 0 < m && b <= a && a % m == 0 && b % m == 0
    ensures (a - b) % m == 0
  {
    var p, q := a / m, b / m;
    assert a - b == (p - q) * m;
    QuotientUnique(a - b, m, p - q, 0);
  }

  lemma SumAligned(a: nat, b: nat, m: nat)
    requires 0 < m && a % m == 0 && b % m == 0
    ensures (a + b) % m == 0
  {
    var p, q := a / m, b / m;
    assert a + b == (p + q) * m;
    QuotientUnique(a + b, m, p + q, 0);
  }
}
