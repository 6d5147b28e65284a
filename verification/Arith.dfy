/** Products and remainders, for the few places that need them. */
module Arith {

  lemma MulGrows(n: int, d: int)
    requires n > 0
    ensures d > 0 ==> n * d >= n
  {
  }

  lemma MulShrinks(n: int, d: int)
    requires n > 0
    ensures d < 0 ==> n * d <= -n
  {
  }

  lemma Negated(q: int, n: int)
    ensures (-q) * n == -(q * n)
  {
  }

  lemma RemainderIs(q: int, n: int, r: int)
    requires n > 0 && 0 <= r < n
    ensures (q * n + r) % n == r
  {
    var v := q * n + r;
    var d := v / n - q;
    assert v == n * (v / n) + v % n;
    assert n * d == n * (v / n) - n * q == r - v % n;
    MulGrows(n, d);
    MulShrinks(n, d);
  }

  /** Whole turns do not matter. */
  lemma TurnsDrop(a: int, n: int, q: int)
    requires n > 0
    ensures (a + q * n) % n == a % n
  {
    var p, r := a / n, a % n;
    assert a == n * p + r;
    Collect(n, p, q, r);
    RemainderIs(p + q, n, r);
  }

  lemma Collect(n: int, p: int, q: int, r: int)
    ensures n * p + r + q * n == (p + q) * n + r
  {
  }

  lemma DivBounds(v: int, n: int)
    requires n > 0
    ensures v - n < (v / n) * n <= v
  {
    assert v == n * (v / n) + v % n;
  }
}
