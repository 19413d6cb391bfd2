/** Facts about products, quotients and remainders, each on its own so that no proof meets two at once. */
module IntMath {
  function Min(x: int, y: int): int { if x < y then x else y }

  lemma Monotone(a: nat, k: int, l: int)
    requires k <= l
    ensures a * k <= a * l == l * a
  {
  }

  lemma MulSucc(c: int, z: int)
    ensures c * (z + 1) == c * z + c
  {
  }

  lemma DivMod(a: nat, b: nat)
    requires b > 0
    ensures a / b * b + a % b == a && 0 <= a % b < b && a / b >= 0
  {
  }

  lemma ModAsDifference(x: int, n: int)
    requires n > 0
    ensures x % n == x + n * -(x / n)
  {
    assert n * -(x / n) == -(n * (x / n));
  }

  /** A multiple of `n` smaller than `n` is zero. */
  lemma NoGap(n: int, d: int, m: int)
    requires n > 0 && n * d == m && -n < m < n
    ensures m == 0 && d == 0
  {
    if d >= 1 {
      Monotone(n, 1, d);
    } else if d <= -1 {
      Monotone(n, d, -1);
    }
  }

  lemma UniqueRemainder(x: int, n: int, q: int, r: int)
    requires n > 0 && x == n * q + r && 0 <= r < n
    ensures x / n == q && x % n == r
  {
    var q', r' := x / n, x % n;
    assert n * (q - q') == r' - r;
    NoGap(n, q - q', r' - r);
  }

  lemma UniqueQuotient(x: int, n: int, q: int)
    requires n > 0 && n * q <= x < n * q + n
    ensures x / n == q
  {
    UniqueRemainder(x, n, q, x - n * q);
  }

  lemma MultipleMod(n: int, q: int)
    requires n > 0
    ensures (n * q) % n == 0
  {
    UniqueRemainder(n * q, n, q, 0);
  }

  lemma SameRemainder(x: int, y: int, n: int, k: int)
    requires n > 0 && x == y + n * k
    ensures x % n == y % n
  {
    var q := y / n;
    assert x == n * (q + k) + y % n;
    UniqueRemainder(x, n, q + k, y % n);
  }

  /** C's division and remainder truncate toward zero. */
  function TruncDiv(x: int, y: int): int
    requires y > 0
  {
    if x >= 0 then x / y else -(-x / y)
  }

  function TruncMod(x: int, y: int): int
    requires y > 0
  {
    x - y * TruncDiv(x, y)
  }

  /** The truncated remainder of a negative number is minus that of its negation. */
  lemma {:induction false} NegatedRemainder(x: int, n: int, q: int, m: int)
    requires n > 0 && x < 0 && q == -x / n && m == -x % n && q * n + m == -x
    ensures TruncMod(x, n) == -m
    ensures x % n == 0 <==> m == 0
  {
    assert n * -q == -(q * n);
    if m == 0 {
      UniqueRemainder(x, n, -q, 0);
    } else {
      assert n * (-q - 1) == -(q * n) - n;
      UniqueRemainder(x, n, -q - 1, n - m);
    }
  }
}
