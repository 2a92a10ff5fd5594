/**
 Facts about products and quotients.
 */
module Arithmetic {
  lemma Times(a: real, b: real, k: real)
    requires a <= b && k >= 0.0
    ensures a * k <= b * k
  {
    assert (b - a) * k >= 0.0;
  }

  lemma NonNegative(a: real, b: real)
    requires a >= 0.0 && b >= 0.0
    ensures a * b >= 0.0
  {
  }

  /** A part of `d`. */
  lemma Part(w: real, d: real)
    requires 0.0 <= w <= 1.0 && d >= 0.0
    ensures 0.0 <= w * d <= d
  {
    Times(w, 1.0, d);
    NonNegative(w, d);
  }

  lemma Cancel(x: real, y: real, k: real)
    requires k > 0.0 && x * k <= y * k
    ensures x <= y
  {
    assert x > y ==> (x - y) * k > 0.0;
  }

  lemma Restore(a: real, b: real)
    requires b != 0.0
    ensures a / b * b == a
  {
  }

  /** Comparing quotients by cross products. */
  lemma Cross(a: real, b: real, c: real, d: real)
    requires b > 0.0 && d > 0.0 && a * d <= c * b
    ensures a / b <= c / d
  {
    var x, y := a / b, c / d;
    Restore(a, b);
    Restore(c, d);
    assert x * (b * d) == (x * b) * d;
    assert y * (b * d) == (y * d) * b;
    assert b * d > 0.0;
    Cancel(x, y, b * d);
  }

  lemma Between(a: real, low: real, high: real, k: real)
    requires k > 0.0 && low * k <= a <= high * k
    ensures low <= a / k <= high
  {
    Restore(a, k);
    Cancel(a / k, high, k);
    Cancel(low, a / k, k);
  }

  lemma SquareBound(n: real, root: real)
    requires root > 0.0 && n * n <= root * root
    ensures -root <= n <= root
  {
    assert n > root ==> (n - root) * (n + root) > 0.0;
    assert n < -root ==> (-n - root) * (-n + root) > 0.0;
    assert (n - root) * (n + root) == n * n - root * root;
    assert (-n - root) * (-n + root) == n * n - root * root;
  }

  lemma TimesOrder(a: int, b: int, c: int)
    requires c >= 0
    ensures a <= b ==> a * c <= b * c && c * a <= c * b
  {
  }
}
