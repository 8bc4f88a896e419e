/** The numeric conversions the script applies to parsed fields: int() on a
    float and round(x, 2). Both are modelled on exact reals. */
module Numbers {

  predicate IsIntegral(x: real) {
    x.Floor as real == x
  }

  /** x is a whole number of hundredths, i.e. already has at most two decimals. */
  predicate IsCent(x: real) {
    IsIntegral(100.0 * x)
  }

  function Abs(x: real): real {
    if x < 0.0 then -x else x
  }

  /** x lies within `tolerance` of y. */
  predicate Near(x: real, y: real, tolerance: real) {
    y - tolerance <= x <= y + tolerance
  }

  /** Python's int() on a float: truncation toward zero, not the floor. */
  function Trunc(x: real): (n: int)
    ensures 0.0 <= x ==> 0 <= n && n as real <= x < n as real + 1.0
    ensures x < 0.0 ==> n <= 0 && n as real - 1.0 < x <= n as real
  {
    if x >= 0.0 then x.Floor else -((-x).Floor)
  }

  /** round(x, 2): the nearest hundredth, ties to the even hundredth. */
  function Round2(x: real): (r: real)
    ensures IsCent(r)
    ensures Near(r, x, 0.005)
  {
    var y := 100.0 * x;
    var n := y.Floor;
    var f := y - n as real;
    var m := if f < 0.5 then n else if f > 0.5 then n + 1 else if n % 2 == 0 then n else n + 1;
    assert (m as real).Floor == m;
    m as real / 100.0
  }

  lemma IntegralSum(a: real, b: real)
    requires IsIntegral(a) && IsIntegral(b)
    ensures IsIntegral(a + b)
  {
    var p, q := a.Floor, b.Floor;
    assert a + b == (p + q) as real;
    assert ((p + q) as real).Floor == p + q;
  }

  /** Sums of values with at most two decimals have at most two decimals. */
  lemma CentSum(a: real, b: real)
    requires IsCent(a) && IsCent(b)
    ensures IsCent(a + b)
  {
    assert 100.0 * (a + b) == 100.0 * a + 100.0 * b;
    IntegralSum(100.0 * a, 100.0 * b);
  }

  lemma IntegralIsCent(x: real)
    requires IsIntegral(x)
    ensures IsCent(x)
  {
    var n := x.Floor;
    assert 100.0 * x == (100 * n) as real;
    assert ((100 * n) as real).Floor == 100 * n;
  }

  /** Rounding a value that already has two decimals leaves it unchanged. */
  lemma Round2OfCent(x: real)
    requires IsCent(x)
    ensures Round2(x) == x
  {
    var y := 100.0 * x;
    assert y.Floor as real == y;
  }

  /** A value exactly halfway between two hundredths goes to the even one. */
  lemma Round2TieIsEven(x: real)
    requires 100.0 * x - (100.0 * x).Floor as real == 0.5
    ensures (100.0 * Round2(x)).Floor % 2 == 0
    ensures Near(Round2(x), x, 0.005)
  {
    var n := (100.0 * x).Floor;
    var m := if n % 2 == 0 then n else n + 1;
    assert Round2(x) == m as real / 100.0;
    assert 100.0 * Round2(x) == m as real;
    assert (m as real).Floor == m;
  }

  /** Round2(x) is at least as close to x as any other value with two decimals. */
  lemma Round2Nearest(x: real, c: real)
    requires IsCent(c)
    ensures Abs(Round2(x) - x) <= Abs(c - x)
  {
    var y := 100.0 * x;
    var n := y.Floor;
    var f := y - n as real;
    var m := if f < 0.5 then n else if f > 0.5 then n + 1 else if n % 2 == 0 then n else n + 1;
    var k := (100.0 * c).Floor;
    assert Round2(x) == m as real / 100.0;
    assert Abs(Round2(x) - x) == Abs(m as real - y) / 100.0;
    assert Abs(c - x) == Abs(k as real - y) / 100.0;
    if k <= n {
      assert y - k as real >= f;
    } else {
      assert k as real - y >= 1.0 - f;
    }
  }
}
