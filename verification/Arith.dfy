// Multiplication and floor-division facts the apportionment and the quantizer rest on.

module Arith {

  lemma MulMono(a: int, b: int, c: int)
    requires a <= b && c >= 0
    ensures a * c <= b * c
  {}

  lemma MulDist(a: int, b: int, c: int)
    ensures (a + b) * c == a * c + b * c
  {}

  lemma MulStrict(a: int, b: int, c: int)
    requires a < b && c > 0
    ensures a * c + c <= b * c
  {
    MulMono(a + 1, b, c);
    MulDist(a, 1, c);
  }

  // Comparing products by a positive factor compares the other factors.
  lemma MulCancel(a: int, b: int, c: int)
    requires a * c < b * c && c > 0
    ensures a < b
  {
    if b <= a {
      MulMono(b, a, c);
    }
  }

  lemma DivUnique(a: int, n: int, q: int, r: int)
    requires 0 <= r < n && a == q * n + r
    ensures a / n == q && a % n == r
  {
    var q', r' := a / n, a % n;
    DivMod(a, n);
    if q < q' {
      MulStrict(q, q', n);
    } else if q' < q {
      MulStrict(q', q, n);
    }
  }

  lemma DivMod(a: int, n: int)
    requires n > 0
    ensures a == (a / n) * n + a % n && 0 <= a % n < n
  {}

  lemma DivPlus(a: int, k: int, n: int)
    requires n > 0
    ensures (a + k * n) / n == a / n + k
  {
    DivMod(a, n);
    MulDist(a / n, k, n);
    DivUnique(a + k * n, n, a / n + k, a % n);
  }

  lemma DivMono(a: int, b: int, n: int)
    requires n > 0 && a <= b
    ensures a / n <= b / n
  {
    DivMod(a, n);
    DivMod(b, n);
    if b / n < a / n {
      MulStrict(b / n, a / n, n);
    }
  }

  lemma DivExact(k: int, n: int)
    requires n > 0
    ensures (k * n) / n == k && (k * n) % n == 0
  {
    DivUnique(k * n, n, k, 0);
  }

  lemma MulNonNegR(a: real, b: real)
    requires a >= 0.0 && b >= 0.0
    ensures a * b >= 0.0
  {}

  lemma MulSubR(a: real, b: real, c: real)
    ensures (a - b) * c == a * c - b * c
  {}
}
