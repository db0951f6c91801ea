/** The C++ integer conversions and operators the core relies on, written out
    over unbounded integers and exact reals. */
module CArith {

  /** Implicit C++ conversion of a double to int: truncation toward zero. */
  function TruncateToInt(x: real): (n: int)
    ensures x >= 0.0 ==> n as real <= x < n as real + 1.0
    ensures x < 0.0 ==> n as real - 1.0 < x <= n as real
  {
    if x >= 0.0 then x.Floor else -((-x).Floor)
  }

  /** C++ integer division by a positive divisor, which truncates toward zero. */
  function CDiv(a: int, m: int): int
    requires m > 0
  {
    if a >= 0 then a / m else -((-a) / m)
  }

  /** C++ remainder by a positive divisor: the sign follows the dividend. */
  function CRem(a: int, m: int): int
    requires m > 0
  {
    a - CDiv(a, m) * m
  }

  lemma {:induction false} MulNonneg(a: int, b: int)
    requires a >= 0 && b > 0
    ensures a * b >= 0
  {
  }

  lemma {:induction false} MulAtLeast(t: int, m: int)
    requires m > 0
    ensures t >= 1 ==> t * m >= m
    ensures t <= -1 ==> t * m <= -m
  {
    if t >= 1 { assert t * m == (t - 1) * m + m; MulNonneg(t - 1, m); }
    if t <= -1 { assert t * m == -((-t - 1) * m) - m; MulNonneg(-t - 1, m); }
  }

  /** Division and remainder of an exact multiple. */
  lemma {:induction false} MulDivMod(k: int, m: int)
    requires m > 0
    ensures (k * m) % m == 0 && (k * m) / m == k
  {
    var q, r := (k * m) / m, (k * m) % m;
    assert k * m == q * m + r && 0 <= r < m;
    assert (k - q) * m == r by { assert (k - q) * m == k * m - q * m; }
    MulAtLeast(k - q, m);
  }

  /** The truncating remainder is zero exactly when the Euclidean one is, that is,
      exactly when m divides a. */
  lemma {:induction false} CRemZeroIffDivides(a: int, m: int)
    requires m > 0
    ensures CRem(a, m) == 0 <==> a % m == 0
  {
    if a < 0 {
      var b := -a;
      assert b == (b / m) * m + b % m;
      assert CRem(a, m) == -(b % m);
      if b % m == 0 {
        assert a == (-(b / m)) * m;
        MulDivMod(-(b / m), m);
      }
      if a % m == 0 {
        assert a == (a / m) * m + a % m;
        assert b == (-(a / m)) * m;
        MulDivMod(-(a / m), m);
      }
    }
  }
}
