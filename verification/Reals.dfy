/** Facts about division of real numbers. */
module Reals {

  lemma Product(a: real, b: real)
    ensures a > 0.0 && b > 0.0 ==> a * b > 0.0
    ensures a >= 0.0 && b >= 0.0 ==> a * b >= 0.0
    ensures a <= 0.0 && b >= 0.0 ==> a * b <= 0.0
  {
  }

  lemma ReciprocalLess(a: real, b: real)
    requires 0.0 < a < b
    ensures 1.0 / b < 1.0 / a
  {
    var x, y := 1.0 / a, 1.0 / b;
    assert x * a == 1.0 && y * b == 1.0;
    Product(y, b - a);
    assert y * b == y * a + y * (b - a);
    assert (x - y) * a == x * a - y * a;
    Product(x - y, a);
  }

  lemma Ratio(a: real, b: real)
    requires b > 0.0
    ensures (a >= 0.0 <==> a / b >= 0.0) && (a <= b <==> a / b <= 1.0) && (a == b <==> a / b == 1.0)
  {
    var q := a / b;
    assert q * b == a;
    assert (q - 1.0) * b == a - b;
    Product(q, b);
    Product(q - 1.0, b);
    Product(1.0 - q, b);
    assert (1.0 - q) * b == b - a;
  }

  lemma Divided(a: real, b: real, n: real)
    requires a <= b && n > 0.0
    ensures a / n <= b / n
  {
    var x, y := a / n, b / n;
    assert x * n == a && y * n == b;
    assert (x - y) * n == a - b;
    Product(x - y, n);
  }
}
