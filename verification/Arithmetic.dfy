/** Facts about products and remainders that the solver does not find by itself. */
module Arithmetic {

  lemma Scaled(a: int, b: int, w: int)
    requires a <= b && w > 0
    ensures a * w <= b * w
  {
    assert (b - a) * w >= 0;
    assert (b - a) * w == b * w - a * w;
  }

  lemma DivMod(q: int, w: int, r: int)
    requires w > 0 && 0 <= r < w
    ensures (q * w + r) / w == q && (q * w + r) % w == r
  {
    var i := q * w + r;
    assert i == (i / w) * w + i % w;
    var d := i / w - q;
    assert d * w == (i / w) * w - q * w;
    assert d * w == r - i % w;
    if d >= 1 { Scaled(1, d, w); }
    if d <= -1 { Scaled(d, -1, w); }
  }

  lemma ModShift(a: int, q: int, n: int)
    requires n > 0
    ensures (a + q * n) % n == a % n
  {
    var q0, r := a / n, a % n;
    assert a == q0 * n + r;
    assert a + q * n == (q0 + q) * n + r;
    DivMod(q0 + q, n, r);
  }

  lemma ModPlus(a: int, b: int, n: int)
    requires n > 0
    ensures (a % n + b) % n == (a + b) % n
  {
    var q := a / n;
    assert a == q * n + a % n;
    ModShift(a % n + b, q, n);
  }
}
