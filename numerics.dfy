// Numeric vocabulary shared by every module: Python's float infinity,
// its integer conversions, the square root and trigonometry the simulator
// calls, and the random draws it makes.

module Numerics {

  datatype Option<T> = None | Some(value: T)

  /** A Python float that is either `float('inf')` / `np.inf` or finite.
      Personal and global bests start at infinity. */
  datatype Ext = Inf | Fin(v: real)
  {
    /** `f <= self` in Python float order. */
    predicate AtLeast(f: real) { Inf? || f <= v }

    /** `f < self` in Python float order. */
    predicate Above(f: real) { Inf? || f < v }
  }

  /** `a <= b` between two extended values. */
  predicate LeExt(a: Ext, b: Ext)
  {
    b.Inf? || (a.Fin? && a.v <= b.v)
  }

  /** Python's `min(e, f)` for an extended and a finite value. */
  function MinExt(e: Ext, f: real): (m: Ext)
    ensures LeExt(m, e) && LeExt(m, Fin(f))
    ensures m == e || m == Fin(f)
  {
    if e.AtLeast(f) then Fin(f) else e
  }

  function Abs(x: real): (r: real)
    ensures r >= 0.0 && (r == x || r == -x)
  {
    if x < 0.0 then -x else x
  }

  function Min(a: real, b: real): real { if a <= b then a else b }

  function Max(a: real, b: real): real { if a >= b then a else b }

  function MinInt(a: int, b: int): int { if a <= b then a else b }

  function MaxInt(a: int, b: int): int { if a >= b then a else b }

  /** `math.floor`. */
  function Floor(x: real): (n: int)
    ensures n as real <= x < n as real + 1.0
  {
    x.Floor
  }

  /** `math.ceil`. */
  function Ceil(x: real): (n: int)
    ensures x <= n as real < x + 1.0
  {
    -((-x).Floor)
  }

  /** Python's `int(x)` on a float: truncation toward zero. */
  function Trunc(x: real): (n: int)
    ensures 0.0 <= x ==> n as real <= x < n as real + 1.0
    ensures x < 0.0 ==> n as real - 1.0 < x <= n as real
  {
    if x >= 0.0 then x.Floor else -((-x).Floor)
  }

  /** The position Python's `xs[i]` reads in a list of length `n`: a
      negative index counts from the end, and one outside `[-n, n)` raises
      `IndexError` (`None`). */
  function PyIndex(i: int, n: nat): (r: Option<nat>)
    ensures r.Some? <==> -(n as int) <= i < n
    ensures r.Some? ==> r.value < n && (r.value == i || r.value == i + n)
  {
    if 0 <= i < n then Some(i) else if -(n as int) <= i < 0 then Some(i + n) else None
  }

  /** `math.sqrt`, supplied by the caller: any total function that returns
      the non-negative square root of every non-negative argument. */
  ghost predicate IsSqrt(sqrt: real -> real)
  {
    forall x :: 0.0 <= x ==> 0.0 <= sqrt(x) && sqrt(x) * sqrt(x) == x
  }

  lemma MulNonNeg(a: real, b: real)
    requires 0.0 <= a && 0.0 <= b
    ensures 0.0 <= a * b
  {
    if a > 0.0 && b > 0.0 { }
  }

  lemma MulNonPos(a: real, b: real)
    requires a <= 0.0 && 0.0 <= b
    ensures a * b <= 0.0
  {
    if a < 0.0 && b > 0.0 { }
  }

  lemma MulPos(a: real, b: real)
    requires 0.0 < a && 0.0 < b
    ensures 0.0 < a * b
  {
  }

  /** A factor whose product with a positive number is non-negative is
      itself non-negative. */
  lemma NonNegFactor(d: real, m: real)
    requires 0.0 < m && 0.0 <= d * m
    ensures 0.0 <= d
  {
    if d < 0.0 { MulPos(-d, m); }
  }

  /** The same with strict signs. */
  lemma PosFactor(d: real, m: real)
    requires 0.0 < m && 0.0 < d * m
    ensures 0.0 < d
  {
    if d <= 0.0 { MulNonPos(d, m); }
  }

  /** Squaring is strictly increasing on the non-negative reals. */
  lemma SquareLess(a: real, b: real)
    requires 0.0 <= a < b
    ensures a * a < b * b
  {
    MulPos(b - a, b + a);
    assert (b - a) * (b + a) == b * b - a * a;
  }

  lemma SquareLe(a: real, b: real)
    requires 0.0 <= a <= b
    ensures a * a <= b * b
  {
    if a < b { SquareLess(a, b); }
  }

  lemma SqrtZeroIff(sqrt: real -> real, x: real)
    requires IsSqrt(sqrt) && 0.0 <= x
    ensures sqrt(x) == 0.0 <==> x == 0.0
  {
    var s := sqrt(x);
    assert 0.0 <= s && s * s == x;
    if s > 0.0 {
      SquareLess(0.0, s);
    }
  }

  lemma SqrtPositive(sqrt: real -> real, x: real)
    requires IsSqrt(sqrt) && 0.0 < x
    ensures 0.0 < sqrt(x)
  {
    SqrtZeroIff(sqrt, x);
  }

  /** `sqrt(d2) < r`, the form in which the source compares a distance with
      a radius, holds exactly when `0 < r` and `d2 < r * r`. */
  lemma SqrtBelow(sqrt: real -> real, d2: real, r: real)
    requires IsSqrt(sqrt) && 0.0 <= d2
    ensures sqrt(d2) < r <==> 0.0 < r && d2 < r * r
  {
    var s := sqrt(d2);
    assert 0.0 <= s && s * s == d2;
    if s < r {
      SquareLess(s, r);
    } else if r < s {
      if 0.0 <= r { SquareLess(r, s); }
    }
  }

  /** `math.cos`, `math.sin`, `math.atan2` and `math.radians`, supplied by
      the caller. Only the speed bounds need a property of them,
      `Pythagorean`. */
  datatype Trig = Trig(
    cos: real -> real,
    sin: real -> real,
    atan2: (real, real) -> real,
    radians: real -> real)

  /** `cos^2 + sin^2 = 1`. */
  ghost predicate Pythagorean(trig: Trig)
  {
    forall a :: trig.cos(a) * trig.cos(a) + trig.sin(a) * trig.sin(a) == 1.0
  }

  /** A unit direction scaled by `step` has squared length `step^2`. */
  lemma ScaledUnit(c: real, s: real, step: real)
    requires c * c + s * s == 1.0
    ensures (c * step) * (c * step) + (s * step) * (s * step) == step * step
    ensures (step * c) * (step * c) + (step * s) * (step * s) == step * step
  {
    assert (c * step) * (c * step) + (s * step) * (s * step) == (c * c + s * s) * (step * step);
  }

  /** A value of `random.random()`. */
  type Unit = u: real | 0.0 <= u < 1.0

  lemma BelowFromSlack(a: real, b: real, u: real)
    requires (b - a) * (1.0 - u) >= 0.0
    ensures a + (b - a) * u <= b
  {
  }

  lemma AboveFromSign(a: real, b: real, u: real)
    requires (b - a) * u >= 0.0
    ensures a <= a + (b - a) * u
  {
  }

  lemma BelowFromSign(a: real, b: real, u: real)
    requires (b - a) * u <= 0.0
    ensures a + (b - a) * u <= a
  {
  }

  lemma AboveFromSlack(a: real, b: real, u: real)
    requires (b - a) * (1.0 - u) <= 0.0
    ensures b <= a + (b - a) * u
  {
  }

  /** `random.uniform(a, b)`, which CPython defines as `a + (b - a) * random()`:
      the draw lies between the two bounds, whichever order they come in. */
  function Uniform(a: real, b: real, u: Unit): (r: real)
    ensures a <= b ==> a <= r <= b
    ensures b <= a ==> b <= r <= a
  {
    if a <= b then
      MulNonNeg(b - a, u);
      AboveFromSign(a, b, u);
      MulNonNeg(b - a, 1.0 - u);
      BelowFromSlack(a, b, u);
      a + (b - a) * u
    else
      MulNonPos(b - a, u);
      BelowFromSign(a, b, u);
      MulNonPos(b - a, 1.0 - u);
      AboveFromSlack(a, b, u);
      a + (b - a) * u
  }
}
