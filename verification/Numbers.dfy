/** Powers of two, and the division laws the word-level models rest on. */
module Numbers {
  function Pow2(n: nat): (p: nat)
    ensures p > 0
  {
    if n == 0 then 1 else 2 * Pow2(n - 1)
  }

  lemma {:induction false} Pow2Add(m: nat, n: nat)
    ensures Pow2(m + n) == Pow2(m) * Pow2(n)
  {
    if m != 0 {
      Pow2Add(m - 1, n);
      assert 2 * Pow2(m - 1) * Pow2(n) == 2 * (Pow2(m - 1) * Pow2(n));
    }
  }

  lemma {:induction false} Pow2Monotone(m: nat, n: nat)
    requires m <= n
    ensures Pow2(m) <= Pow2(n)
  {
    if m < n {
      Pow2Monotone(m, n - 1);
    }
  }

  lemma MulOrder(a: int, b: int, c: int)
    requires a <= b && c >= 0
    ensures a * c <= b * c
  {
  }

  lemma MulStep(a: int, b: int, c: int)
    requires c > 0
    ensures a < b ==> a * c + c <= b * c
  {
    if a < b {
      MulOrder(a + 1, b, c);
      assert (a + 1) * c == a * c + c;
    }
  }

  lemma DivIs(x: int, d: int, q: int, r: int)
    requires d > 0 && x == q * d + r && 0 <= r < d
    ensures x / d == q && x % d == r
  {
    var q', r' := x / d, x % d;
    assert x == q' * d + r';
    MulStep(q, q', d);
    MulStep(q', q, d);
  }

  lemma DivDiv(x: int, a: int, b: int)
    requires a > 0 && b > 0
    ensures a * b > 0 && x / (a * b) == x / a / b
    ensures x % (a * b) == x % a + a * (x / a % b)
  {
    MulOrder(1, a, b);
    var q, r, s := x / a / b, x / a % b, x % a;
    assert x / a == q * b + r;
    calc {
      x;
      (q * b + r) * a + s;
      (q * b) * a + (r * a + s);
      { assert (q * b) * a == q * (b * a) == q * (a * b); }
      q * (a * b) + (r * a + s);
    }
    MulOrder(r, b - 1, a);
    MulOrder(0, r, a);
    assert (b - 1) * a == a * b - a;
    assert r * a == a * r;
    DivIs(x, a * b, q, r * a + s);
  }

  /** Adding a multiple of the divisor. */
  lemma ModAdd(x: int, k: int, d: int)
    requires d > 0
    ensures (x + k * d) % d == x % d && (x + k * d) / d == x / d + k
  {
    assert x + k * d == (x / d + k) * d + x % d by {
      assert (x / d + k) * d == (x / d) * d + k * d;
    }
    DivIs(x + k * d, d, x / d + k, x % d);
  }

  /** The `k`-th of `n` slots of size `b`. */
  lemma Slot(k: nat, n: nat, b: nat)
    requires k < n && b > 0
    ensures 0 <= k * b && k * b + b == (k + 1) * b <= n * b
    ensures k * b % (n * b) == k * b
    ensures k + 1 < n ==> (k * b + b) % (n * b) == k * b + b
  {
    MulOrder(0, k, b);
    MulStep(k, n, b);
    MulStep(k + 1, n, b);
    assert (k + 1) * b == k * b + b;
    DivIs(k * b, n * b, 0, k * b);
    if k + 1 < n {
      DivIs(k * b + b, n * b, 0, k * b + b);
    }
  }
}
