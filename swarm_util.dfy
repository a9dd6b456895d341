// The swarm helpers RDPSO_util.py and dPSO_util.py share; the two files
// carry the same code, dPSO_util.py adding only `is_collision_particles`
// (module Collision). The fitness, the personal and global bests, the
// velocity clamp, the unit vectors, the obstacle escape search and the
// swarm initialisation.

module SwarmUtil {
  import opened Numerics
  import opened Geometry
  import opened ContinuousGrid
  import opened Collision

  /** `getFitness`: three square roots of the squared distance, that is the
      fourth root of the distance from `(x, y)` to the goal. */
  function Fitness(sqrt: real -> real, gx: real, gy: real, x: real, y: real): real
  {
    sqrt(sqrt(sqrt(SqDist(gx, gy, x, y))))
  }

  lemma SquarePos(a: real)
    requires a != 0.0
    ensures a * a > 0.0
  {
    if a > 0.0 {
      MulPos(a, a);
    } else {
      MulPos(-a, -a);
      assert (-a) * (-a) == a * a;
    }
  }
  lemma SquaresPosLeft(a: real, b: real)
    requires a != 0.0
    ensures 0.0 < a * a + b * b
  {
    SquareNonNeg(b);
    SquarePos(a);
  }
  lemma SquaresPosRight(a: real, b: real)
    requires b != 0.0
    ensures 0.0 < a * a + b * b
  {
    SquareNonNeg(a);
    SquarePos(b);
  }
  lemma SquaresPos(a: real, b: real)
    requires a != 0.0 || b != 0.0
    ensures 0.0 < a * a + b * b
  {
    if a != 0.0 {
      SquaresPosLeft(a, b);
    } else {
      SquaresPosRight(a, b);
    }
  }
  lemma LengthPos(a: real, b: real, sqrt: real -> real)
    requires IsSqrt(sqrt) && (a != 0.0 || b != 0.0)
    ensures 0.0 < sqrt(a * a + b * b)
  {
    var n := a * a + b * b;
    SquaresPos(a, b);
    calc {
      0.0;
    <
      a * a + b * b;
    ==
      n;
    }
    SqrtPositive(sqrt, n);
  }
  lemma LengthOfZero(a: real, b: real, sqrt: real -> real)
    requires IsSqrt(sqrt) && a == 0.0 && b == 0.0
    ensures sqrt(a * a + b * b) == 0.0
  {
    var n := a * a + b * b;
    calc {
      n;
    ==
      0.0 * 0.0 + 0.0 * 0.0;
    ==
      0.0;
    }
    SqrtZeroIff(sqrt, n);
  }
  lemma LengthSquared(a: real, b: real, sqrt: real -> real)
    requires IsSqrt(sqrt)
    ensures 0.0 <= a * a + b * b
    ensures 0.0 <= sqrt(a * a + b * b) && sqrt(a * a + b * b) * sqrt(a * a + b * b) == a * a + b * b
  {
    SquareNonNeg(a);
    SquareNonNeg(b);
  }
  lemma LengthZeroIff(a: real, b: real, sqrt: real -> real)
    requires IsSqrt(sqrt)
    ensures 0.0 <= a * a + b * b
    ensures 0.0 <= sqrt(a * a + b * b) && sqrt(a * a + b * b) * sqrt(a * a + b * b) == a * a + b * b
    ensures sqrt(a * a + b * b) == 0.0 <==> a == 0.0 && b == 0.0
  {
    LengthSquared(a, b, sqrt);
    if a == 0.0 && b == 0.0 {
      LengthOfZero(a, b, sqrt);
    } else {
      LengthPos(a, b, sqrt);
    }
  }

  lemma DistPos(x1: real, y1: real, x2: real, y2: real, sqrt: real -> real)
    requires IsSqrt(sqrt) && (x1 != x2 || y1 != y2)
    ensures 0.0 < sqrt(SqDist(x1, y1, x2, y2))
  {
    SqDistPos(x1, y1, x2, y2);
    SqrtPositive(sqrt, SqDist(x1, y1, x2, y2));
  }
  lemma SqDistPosX(x1: real, y1: real, x2: real, y2: real)
    requires x1 != x2
    ensures 0.0 < SqDist(x1, y1, x2, y2)
  {
    var dx, dy := x1 - x2, y1 - y2;
    SquaresPosLeft(dx, dy);
    calc {
      0.0;
    <
      dx * dx + dy * dy;
    ==
      SqDist(x1, y1, x2, y2);
    }
  }
  lemma SqDistPosY(x1: real, y1: real, x2: real, y2: real)
    requires y1 != y2
    ensures 0.0 < SqDist(x1, y1, x2, y2)
  {
    var dx, dy := x1 - x2, y1 - y2;
    SquaresPosRight(dx, dy);
    calc {
      0.0;
    <
      dx * dx + dy * dy;
    ==
      SqDist(x1, y1, x2, y2);
    }
  }
  lemma SqDistPos(x1: real, y1: real, x2: real, y2: real)
    requires x1 != x2 || y1 != y2
    ensures 0.0 < SqDist(x1, y1, x2, y2)
  {
    if x1 != x2 {
      SqDistPosX(x1, y1, x2, y2);
    } else {
      SqDistPosY(x1, y1, x2, y2);
    }
  }
  lemma DistZero(x1: real, y1: real, sqrt: real -> real)
    requires IsSqrt(sqrt)
    ensures sqrt(SqDist(x1, y1, x1, y1)) == 0.0
  {
    SqrtZeroIff(sqrt, SqDist(x1, y1, x1, y1));
  }

  lemma FitnessZeroIff(sqrt: real -> real, gx: real, gy: real, x: real, y: real)
    requires IsSqrt(sqrt)
    ensures 0.0 <= Fitness(sqrt, gx, gy, x, y)
    ensures Fitness(sqrt, gx, gy, x, y) == 0.0 <==> gx == x && gy == y
  {
    SqDistNonNeg(gx, gy, x, y);
    var d := sqrt(SqDist(gx, gy, x, y));
    if gx == x && gy == y {
      DistZero(gx, gy, sqrt);
      SqrtZeroIff(sqrt, d);
      SqrtZeroIff(sqrt, sqrt(d));
    } else {
      DistPos(gx, gy, x, y, sqrt);
      SqrtPositive(sqrt, d);
      SqrtPositive(sqrt, sqrt(d));
    }
  }
  lemma FitnessFourthRoot(sqrt: real -> real, gx: real, gy: real, x: real, y: real)
    requires IsSqrt(sqrt)
    ensures var f := Fitness(sqrt, gx, gy, x, y);
            (f * f) * (f * f) == sqrt(SqDist(gx, gy, x, y))
  {
    SqDistNonNeg(gx, gy, x, y);
    var d := sqrt(SqDist(gx, gy, x, y));
    var s := sqrt(d);
    var f := sqrt(s);
    assert f * f == s;
    assert s * s == d;
  }

  /** The fitness summed over the goals, as the loops of
      `update_GbestPbest` and `init_RDPSO` compute it. */
  function FitnessSum(sqrt: real -> real, goalsX: seq<real>, goalsY: seq<real>, x: real, y: real): real
    requires |goalsX| <= |goalsY|
  {
    if goalsX == [] then 0.0
    else FitnessSum(sqrt, goalsX[..|goalsX| - 1], goalsY, x, y)
         + Fitness(sqrt, goalsX[|goalsX| - 1], goalsY[|goalsX| - 1], x, y)
  }

  /** The summed fitness is never negative, and is zero exactly when every
      goal lies at `(x, y)`. */
  lemma {:induction false} FitnessSumZeroIff(sqrt: real -> real, goalsX: seq<real>, goalsY: seq<real>, x: real, y: real)
    requires IsSqrt(sqrt) && |goalsX| <= |goalsY|
    ensures 0.0 <= FitnessSum(sqrt, goalsX, goalsY, x, y)
    ensures FitnessSum(sqrt, goalsX, goalsY, x, y) == 0.0 <==>
            forall k :: 0 <= k < |goalsX| ==> goalsX[k] == x && goalsY[k] == y
    decreases |goalsX|
  {
    if goalsX != [] {
      var n := |goalsX| - 1;
      FitnessSumZeroIff(sqrt, goalsX[..n], goalsY, x, y);
      FitnessZeroIff(sqrt, goalsX[n], goalsY[n], x, y);
      if forall k :: 0 <= k < n ==> goalsX[..n][k] == x && goalsY[k] == y {
        assert forall k :: 0 <= k < n ==> goalsX[k] == x && goalsY[k] == y by {
          forall k | 0 <= k < n ensures goalsX[k] == x && goalsY[k] == y {
            assert goalsX[..n][k] == goalsX[k];
          }
        }
      } else {
        var k :| 0 <= k < n && !(goalsX[..n][k] == x && goalsY[k] == y);
        assert goalsX[..n][k] == goalsX[k];
      }
    }
  }

  /** The summing loop of `update_GbestPbest`, `init_RDPSO` and the dPSO
      step. */
  method SumFitness(goalsX: seq<real>, goalsY: seq<real>, x: real, y: real, sqrt: real -> real) returns (f: real)
    requires |goalsX| <= |goalsY|
    ensures f == FitnessSum(sqrt, goalsX, goalsY, x, y)
  {
    f := 0.0;
    var k := 0;
    while k < |goalsX|
      invariant 0 <= k <= |goalsX|
      invariant f == FitnessSum(sqrt, goalsX[..k], goalsY, x, y)
    {
      assert goalsX[..k + 1][..k] == goalsX[..k];
      f := f + Fitness(sqrt, goalsX[k], goalsY[k], x, y);
      k := k + 1;
    }
    assert goalsX[..k] == goalsX;
  }

  /** A personal best with its position, and the global best with its
      position. */
  datatype Bests = Bests(pbest: Ext, px: real, py: real, gbest: Ext, gx: real, gy: real)

  /** The bests after one fitness value `f` observed at `(x, y)`, as
      `update_GbestPbest` keeps them: each best takes `f` when `f` is not
      above it, so neither ever grows and each becomes the minimum; the global
      position then takes the personal position. */
  function BestsAfter(b: Bests, f: real, x: real, y: real): (n: Bests)
    ensures LeExt(n.pbest, b.pbest) && LeExt(n.gbest, b.gbest)
    ensures n.pbest == MinExt(b.pbest, f) && n.gbest == MinExt(b.gbest, f)
    ensures b.pbest.AtLeast(f) ==> n.px == x && n.py == y
    ensures !b.pbest.AtLeast(f) ==> n.px == b.px && n.py == b.py
    ensures !b.gbest.AtLeast(f) ==> n.gx == b.gx && n.gy == b.gy
    ensures b.gbest.AtLeast(f) ==> n.gx == n.px && n.gy == n.py
  {
    var pbest := if b.pbest.AtLeast(f) then Fin(f) else b.pbest;
    var px := if b.pbest.AtLeast(f) then x else b.px;
    var py := if b.pbest.AtLeast(f) then y else b.py;
    if b.gbest.AtLeast(f) then Bests(pbest, px, py, Fin(f), px, py)
    else Bests(pbest, px, py, b.gbest, b.gx, b.gy)
  }

  /** A global best that was reached by some personal best stays at that
      personal best's position when the same agent improves it. */
  lemma BestsAfterImproving(b: Bests, f: real, x: real, y: real)
    requires b.pbest.AtLeast(f) && b.gbest.AtLeast(f)
    ensures BestsAfter(b, f, x, y) == Bests(Fin(f), x, y, Fin(f), x, y)
  {
  }

  /** `update_GbestPbest` for an agent. */
  method UpdateGbestPbest(r: Agent, gx: real, gy: real, gbest: Ext, goalsX: seq<real>, goalsY: seq<real>,
                          sqrt: real -> real)
    returns (newGbest: Ext, newGx: real, newGy: real)
    requires |goalsX| <= |goalsY|
    modifies r`pbest, r`px, r`py
    ensures Bests(r.pbest, r.px, r.py, newGbest, newGx, newGy)
            == BestsAfter(Bests(old(r.pbest), old(r.px), old(r.py), gbest, gx, gy),
                          FitnessSum(sqrt, goalsX, goalsY, r.x, r.y), r.x, r.y)
  {
    newGx, newGy, newGbest := gx, gy, gbest;
    var f := SumFitness(goalsX, goalsY, r.x, r.y, sqrt);
    if r.pbest.AtLeast(f) {
      r.pbest := Fin(f);
      r.px := r.x;
      r.py := r.y;
    }
    if newGbest.AtLeast(f) {
      newGbest := Fin(f);
      newGx := r.px;
      newGy := r.py;
    }
  }

  /** The velocity is larger than `Limit_maxVelocity` allows on some axis. */
  predicate ExceedsHalf(vx: real, vy: real, vLimit: real)
  {
    Abs(vx) > vLimit / 2.0 || Abs(vy) > vLimit / 2.0
  }

  /** `Limit_maxVelocity`: a velocity with a component above half the limit
      is rescaled to length `vLimit`; any other is returned as it is. `None`
      is the `ZeroDivisionError` of a zero velocity under a negative limit. */
  function LimitMaxVelocity(vx: real, vy: real, vLimit: real, sqrt: real -> real): (v: Option<(real, real)>)
    requires IsSqrt(sqrt)
    ensures v.None? <==> ExceedsHalf(vx, vy, vLimit) && vx == 0.0 && vy == 0.0
    ensures !ExceedsHalf(vx, vy, vLimit) ==> v == Some((vx, vy))
  {
    if ExceedsHalf(vx, vy, vLimit) then
      LengthZeroIff(vx, vy, sqrt);
      var k := sqrt(vx * vx + vy * vy);
      if k == 0.0 then None else Some((vx * vLimit / k, vy * vLimit / k))
    else
      Some((vx, vy))
  }

  lemma ScaledSquares(a: real, b: real, s: real)
    ensures (a * s) * (a * s) + (b * s) * (b * s) == (s * s) * (a * a + b * b)
  {
  }

  /** The vector `(a, b)` of length `k`, rescaled by `l / k`, has length `|l|`,
      stays on its line and, for `l >= 0`, keeps its direction. */
  lemma RescaleAlgebra(a: real, b: real, l: real, k: real)
    requires 0.0 < k && k * k == a * a + b * b
    ensures (a * l / k) * (a * l / k) + (b * l / k) * (b * l / k) == l * l
    ensures (a * l / k) * b == (b * l / k) * a
    ensures 0.0 <= l ==> 0.0 <= (a * l / k) * a && 0.0 <= (b * l / k) * b
  {
    var s := l / k;
    assert a * l / k == a * s;
    assert b * l / k == b * s;
    ScaledSquares(a, b, s);
    assert s * k == l;
    assert (s * s) * (k * k) == (s * k) * (s * k);
    if 0.0 <= l {
      MulNonNeg(l, 1.0 / k);
      assert s == l * (1.0 / k);
      SquareNonNeg(a);
      SquareNonNeg(b);
      MulNonNeg(a * a, s);
      MulNonNeg(b * b, s);
      assert (a * s) * a == (a * a) * s;
      assert (b * s) * b == (b * b) * s;
    }
  }

  /** A clamped velocity has length exactly `vLimit`, lies on the line of
      the original and, for a non-negative limit, points the same way. */
  lemma LimitRescales(vx: real, vy: real, vLimit: real, sqrt: real -> real)
    requires IsSqrt(sqrt) && ExceedsHalf(vx, vy, vLimit) && (vx != 0.0 || vy != 0.0)
    ensures LimitMaxVelocity(vx, vy, vLimit, sqrt).Some?
    ensures var v := LimitMaxVelocity(vx, vy, vLimit, sqrt).value;
            v.0 * v.0 + v.1 * v.1 == vLimit * vLimit
            && v.0 * vy == v.1 * vx
            && (0.0 <= vLimit ==> 0.0 <= v.0 * vx && 0.0 <= v.1 * vy)
  {
    LengthZeroIff(vx, vy, sqrt);
    var k := sqrt(vx * vx + vy * vy);
    assert LimitMaxVelocity(vx, vy, vLimit, sqrt) == Some((vx * vLimit / k, vy * vLimit / k));
    RescaleAlgebra(vx, vy, vLimit, k);
  }

  lemma HalfSquare(a: real, l: real)
    requires 0.0 <= l && Abs(a) <= l / 2.0
    ensures 4.0 * (a * a) <= l * l
  {
    SquareLe(Abs(a), l / 2.0);
    assert Abs(a) * Abs(a) == a * a;
  }

  lemma HalfSquares(a: real, b: real, l: real)
    requires 0.0 <= l && Abs(a) <= l / 2.0 && Abs(b) <= l / 2.0
    ensures a * a + b * b <= l * l
  {
    HalfSquare(a, l);
    HalfSquare(b, l);
    SquareNonNeg(l);
  }

  /** Under a non-negative limit the clamp never fails and its result is
      never longer than `vLimit`. */
  lemma LimitBounded(vx: real, vy: real, vLimit: real, sqrt: real -> real)
    requires IsSqrt(sqrt) && 0.0 <= vLimit
    ensures LimitMaxVelocity(vx, vy, vLimit, sqrt).Some?
    ensures var v := LimitMaxVelocity(vx, vy, vLimit, sqrt).value;
            v.0 * v.0 + v.1 * v.1 <= vLimit * vLimit
  {
    if ExceedsHalf(vx, vy, vLimit) {
      assert vx != 0.0 || vy != 0.0;
      LimitRescales(vx, vy, vLimit, sqrt);
    } else {
      assert LimitMaxVelocity(vx, vy, vLimit, sqrt) == Some((vx, vy));
      HalfSquares(vx, vy, vLimit);
    }
  }

  /** The offset `(dx, dy)` divided by its length when that is positive. */
  function Normalize(dx: real, dy: real, sqrt: real -> real): (real, real)
  {
    var len := sqrt(dx * dx + dy * dy);
    if len > 0.0 then (dx / len, dy / len) else (dx, dy)
  }

  /** `u` is the direction of the offset `(dx, dy)`: zero for a zero offset,
      otherwise of unit length, on the offset's line and pointing its way. */
  predicate DirectionOf(u: (real, real), dx: real, dy: real)
  {
    if dx == 0.0 && dy == 0.0 then u == (0.0, 0.0)
    else u.0 * u.0 + u.1 * u.1 == 1.0 && u.0 * dy == u.1 * dx && 0.0 <= u.0 * dx && 0.0 <= u.1 * dy
  }

  /** Normalising an offset yields its direction. */
  lemma NormalizeUnit(dx: real, dy: real, sqrt: real -> real)
    requires IsSqrt(sqrt)
    ensures DirectionOf(Normalize(dx, dy, sqrt), dx, dy)
  {
    LengthZeroIff(dx, dy, sqrt);
    if dx != 0.0 || dy != 0.0 {
      var len := sqrt(dx * dx + dy * dy);
      RescaleAlgebra(dx, dy, 1.0, len);
      assert dx * 1.0 / len == dx / len && dy * 1.0 / len == dy / len;
      assert Normalize(dx, dy, sqrt) == (dx / len, dy / len);
    }
  }

  /** `Unit_speed`: the directions from the position `(x, y)` to the personal
      best `(px, py)` and to the global best `(gx, gy)`, each of unit length,
      or zero where the best is the position itself. */
  function UnitSpeed(x: real, y: real, px: real, py: real, gx: real, gy: real, sqrt: real -> real)
    : (u: (real, real, real, real))
    requires IsSqrt(sqrt)
    ensures DirectionOf((u.0, u.1), px - x, py - y)
    ensures DirectionOf((u.2, u.3), gx - x, gy - y)
  {
    var p := Normalize(px - x, py - y, sqrt);
    var g := Normalize(gx - x, gy - y, sqrt);
    NormalizeUnit(px - x, py - y, sqrt);
    NormalizeUnit(gx - x, gy - y, sqrt);
    (p.0, p.1, g.0, g.1)
  }

  /** The number of heading offsets and of speed fractions `avoidObstacle`
      tries. */
  const HEADINGS: nat := 36
  const SPEEDS: nat := 5

  /** Heading offset `a` in degrees, in the order the search tries them:
      10, -10, 20, -20, ..., 180, -180. */
  function Angle(a: nat): (d: int)
    requires a < HEADINGS
    ensures 10 <= d <= 180 || -180 <= d <= -10
  {
    if a % 2 == 0 then 10 * (a / 2 + 1) else -10 * (a / 2 + 1)
  }

  /** Speed fraction `m` of the limit, largest first: 1.0, 0.8, ..., 0.2. */
  function Fraction(m: nat): (f: real)
    requires m < SPEEDS
    ensures 0.0 < f <= 1.0
  {
    1.0 - 0.2 * m as real
  }

  /** What `avoidObstacle` reads of the body it moves and of the blocked
      velocity. */
  datatype Probe = Probe(x: real, y: real, radius: real, vx: real, vy: real, vLimit: real)

  /** Candidate `(m, a)` of the search, as `(new_x, new_y, ndx, ndy)`:
      fraction `m` of the limit along heading offset `a` from the velocity. */
  function Candidate(p: Probe, trig: Trig, m: nat, a: nat): (real, real, real, real)
    requires m < SPEEDS && a < HEADINGS
  {
    var magnitude := p.vLimit * Fraction(m);
    var theta := trig.atan2(p.vy, p.vx) + trig.radians(Angle(a) as real);
    var ndx := trig.cos(theta) * magnitude;
    var ndy := trig.sin(theta) * magnitude;
    (p.x + ndx, p.y + ndy, ndx, ndy)
  }

  /** Every candidate velocity has the speed of its fraction of the limit,
      so none is faster than the limit. */
  lemma CandidateSpeed(p: Probe, trig: Trig, m: nat, a: nat)
    requires Pythagorean(trig) && m < SPEEDS && a < HEADINGS && 0.0 <= p.vLimit
    ensures var c := Candidate(p, trig, m, a);
            c.2 * c.2 + c.3 * c.3 == (p.vLimit * Fraction(m)) * (p.vLimit * Fraction(m)) <= p.vLimit * p.vLimit
  {
    var magnitude := p.vLimit * Fraction(m);
    var theta := trig.atan2(p.vy, p.vx) + trig.radians(Angle(a) as real);
    ScaledUnit(trig.cos(theta), trig.sin(theta), magnitude);
    MulNonNeg(p.vLimit, Fraction(m));
    MulNonNeg(p.vLimit, 1.0 - Fraction(m));
    assert p.vLimit * (1.0 - Fraction(m)) == p.vLimit - magnitude;
    SquareLe(magnitude, p.vLimit);
  }

  /** What the collision tests of `avoidObstacle` look at, as values: the
      arena, the obstacles, and each agent's square with whether it is some
      agent other than the one that moves. */
  datatype Scene = Scene(w: real, h: real, obstacles: seq<Box>, agents: seq<(bool, Box)>)

  /** The scene `self` sees in `grid`. */
  ghost function SceneOf(grid: Grid, self: object?): (s: Scene)
    reads grid, grid.agents
    ensures s.w == grid.width as real && s.h == grid.height as real && s.obstacles == grid.obstacles
    ensures |s.agents| == |grid.agents|
    ensures forall k :: 0 <= k < |grid.agents| ==> s.agents[k] == (grid.agents[k] != self, AgentBox(grid.agents[k]))
  {
    Scene(grid.width as real, grid.height as real, grid.obstacles,
          seq(|grid.agents|, k requires 0 <= k < |grid.agents| reads grid, grid.agents => (grid.agents[k] != self, AgentBox(grid.agents[k]))))
  }

  /** A body of radius `r` at `(x, y)` stays in the arena and reaches no
      obstacle and no other agent's square. */
  predicate Free(s: Scene, x: real, y: real, r: real)
  {
    !HitsObstacle(s.w, s.h, s.obstacles, x, y, r)
    && !exists k :: 0 <= k < |s.agents| && s.agents[k].0 && CircleHitsBox(x, y, r, s.agents[k].1)
  }

  /** `Free` on the scene is exactly "neither `is_collision` nor
      `is_collision_agents` reports a hit". */
  lemma SceneFree(grid: Grid, self: object?, x: real, y: real, r: real)
    ensures Free(SceneOf(grid, self), x, y, r) <==>
            !HitsObstacle(grid.width as real, grid.height as real, grid.obstacles, x, y, r)
            && !HitsAgent(grid.width as real, grid.height as real, grid.agents, self, x, y, r)
  {
    var s := SceneOf(grid, self);
    if exists k :: 0 <= k < |grid.agents| && grid.agents[k] != self && CircleHitsBox(x, y, r, AgentBox(grid.agents[k])) {
      var k :| 0 <= k < |grid.agents| && grid.agents[k] != self && CircleHitsBox(x, y, r, AgentBox(grid.agents[k]));
      assert s.agents[k].0 && CircleHitsBox(x, y, r, s.agents[k].1);
    }
  }

  /** Candidate `(m, a)` lands the body somewhere free. */
  predicate CandidateFree(s: Scene, p: Probe, trig: Trig, m: nat, a: nat)
    requires m < SPEEDS && a < HEADINGS
  {
    var c := Candidate(p, trig, m, a);
    Free(s, c.0, c.1, p.radius)
  }

  /** Candidate `(m, a)` comes before candidate `(m2, a2)` in the search. */
  predicate Before(m: nat, a: nat, m2: nat, a2: nat)
  {
    m < m2 || (m == m2 && a < a2)
  }

  /** A table with one entry per candidate, indexed `[m][a]`. */
  predicate Table<T>(t: seq<seq<T>>)
  {
    |t| == SPEEDS && forall m :: 0 <= m < SPEEDS ==> |t[m]| == HEADINGS
  }

  /** Which candidates are free in the scene. */
  ghost function Frees(s: Scene, p: Probe, trig: Trig): (fs: seq<seq<bool>>)
    ensures Table(fs)
    ensures forall m, a :: 0 <= m < SPEEDS && 0 <= a < HEADINGS ==> fs[m][a] == CandidateFree(s, p, trig, m, a)
  {
    seq(SPEEDS, m requires 0 <= m < SPEEDS =>
      seq(HEADINGS, a requires 0 <= a < HEADINGS => CandidateFree(s, p, trig, m, a)))
  }

  /** The first free candidate at or after `(m, a)`, speed by speed and
      heading by heading. */
  function FirstFree(fs: seq<seq<bool>>, m: nat, a: nat): (r: Option<(nat, nat)>)
    requires Table(fs) && m <= SPEEDS && a <= HEADINGS
    ensures r.Some? ==> r.value.0 < SPEEDS && r.value.1 < HEADINGS && !Before(r.value.0, r.value.1, m, a)
    // `fs` never changes; naming it here keeps the verifier from unrolling
    // the whole search whenever the start is a literal position.
    decreases SPEEDS - m, HEADINGS - a, fs
  {
    if m == SPEEDS then None
    else if a == HEADINGS then FirstFree(fs, m + 1, 0)
    else if fs[m][a] then Some((m, a))
    else FirstFree(fs, m, a + 1)
  }

  /** Every candidate from `(m, a)` on and before `(m3, a3)` is blocked. */
  predicate BlockedBetween(fs: seq<seq<bool>>, m: nat, a: nat, m3: nat, a3: nat)
    requires Table(fs)
  {
    forall m2: nat, a2: nat ::
      m2 < SPEEDS && a2 < HEADINGS && !Before(m2, a2, m, a) && Before(m2, a2, m3, a3) ==> !fs[m2][a2]
  }

  /** `FirstFree` finds a free candidate with every one between the start
      and it blocked, and finds none only when every remaining candidate is
      blocked. */
  lemma {:induction false} FirstFreeIsFirst(fs: seq<seq<bool>>, m: nat, a: nat)
    requires Table(fs) && m <= SPEEDS && a <= HEADINGS
    ensures match FirstFree(fs, m, a)
            case Some(k) => fs[k.0][k.1] && BlockedBetween(fs, m, a, k.0, k.1)
            case None => BlockedBetween(fs, m, a, SPEEDS, 0)
    decreases SPEEDS - m, HEADINGS - a
  {
    if m == SPEEDS {
    } else if a == HEADINGS {
      FirstFreeIsFirst(fs, m + 1, 0);
    } else if !fs[m][a] {
      FirstFreeIsFirst(fs, m, a + 1);
    }
  }

  /** One step of `avoidObstacle`: candidate `(m, a)` and whether it is
      free, by `is_collision` and then `is_collision_agents`. */
  method TryCandidate(self: object?, p: Probe, grid: Grid, trig: Trig, m: nat, a: nat, sqrt: real -> real)
    returns (free: bool, c: (real, real, real, real))
    requires IsSqrt(sqrt) && m < SPEEDS && a < HEADINGS
    ensures c == Candidate(p, trig, m, a)
    ensures free <==> CandidateFree(SceneOf(grid, self), p, trig, m, a)
  {
    c := Candidate(p, trig, m, a);
    var hit := IsCollision(grid, c.0, c.1, p.radius, sqrt);
    if !hit {
      hit := IsCollisionAgents(self, grid, c.0, c.1, p.radius, sqrt);
    }
    SceneFree(grid, self, c.0, c.1, p.radius);
    free := !hit;
  }

  /** The inner loop of `avoidObstacle`: every heading at speed fraction
      `m`, in order, stopping at the first free candidate. */
  method TryHeadings(self: object?, p: Probe, grid: Grid, trig: Trig, m: nat, sqrt: real -> real, ghost fs: seq<seq<bool>>)
    returns (found: bool, c: (real, real, real, real))
    requires IsSqrt(sqrt) && m < SPEEDS && fs == Frees(SceneOf(grid, self), p, trig)
    ensures found ==> match FirstFree(fs, m, 0)
                      case Some(k) => c == Candidate(p, trig, k.0, k.1)
                      case None => false
    ensures !found ==> FirstFree(fs, m, 0) == FirstFree(fs, m + 1, 0)
  {
    var a := 0;
    while a < HEADINGS
      invariant 0 <= a <= HEADINGS
      invariant FirstFree(fs, m, 0) == FirstFree(fs, m, a)
    {
      found, c := TryCandidate(self, p, grid, trig, m, a, sqrt);
      if found {
        return;
      }
      a := a + 1;
    }
    return false, (p.x, p.y, 0.0, 0.0);
  }

  /** `avoidObstacle`: the first candidate, largest speed first and then in
      heading order, that collides with neither an obstacle nor another
      agent; if all 180 are blocked, the body stays where it is with zero
      velocity. The body itself is not changed. */
  method AvoidObstacle(self: object?, p: Probe, grid: Grid, trig: Trig, sqrt: real -> real)
    returns (r: (real, real, real, real))
    requires IsSqrt(sqrt)
    ensures r == match FirstFree(Frees(SceneOf(grid, self), p, trig), 0, 0)
                 case Some(k) => Candidate(p, trig, k.0, k.1)
                 case None => (p.x, p.y, 0.0, 0.0)
  {
    ghost var fs := Frees(SceneOf(grid, self), p, trig);
    var m := 0;
    while m < SPEEDS
      invariant 0 <= m <= SPEEDS
      invariant FirstFree(fs, 0, 0) == FirstFree(fs, m, 0)
    {
      var found, c := TryHeadings(self, p, grid, trig, m, sqrt, fs);
      if found {
        return c;
      }
      m := m + 1;
    }
    return (p.x, p.y, 0.0, 0.0);
  }

  /** The x coordinates of the targets, in list order. */
  function TargetXs(ts: seq<Option<Box>>): (xs: seq<real>)
    requires forall t :: t in ts ==> t.Some?
    ensures |xs| == |ts| && forall k :: 0 <= k < |ts| ==> xs[k] == ts[k].value.cx
  {
    seq(|ts|, k requires 0 <= k < |ts| => ts[k].value.cx)
  }

  /** The y coordinates of the targets, in list order. */
  function TargetYs(ts: seq<Option<Box>>): (ys: seq<real>)
    requires forall t :: t in ts ==> t.Some?
    ensures |ys| == |ts| && forall k :: 0 <= k < |ts| ==> ys[k] == ts[k].value.cy
  {
    seq(|ts|, k requires 0 <= k < |ts| => ts[k].value.cy)
  }

  /** The initial global best `init_RDPSO` and `init_dPSO` start from. */
  const INITIAL_GBEST: real := 200000.0

  /** One agent as the initial best pass sees it: its summed fitness, its
      position, and whether that fitness is strictly below its personal
      best. */
  datatype Sample = Sample(f: real, x: real, y: real, improves: bool)

  /** The global best and its position after the initial pass over `ss`, in
      order: an improving agent strictly below the best so far replaces it. */
  function GlobalFrom(ss: seq<Sample>): (real, real, real)
  {
    if ss == [] then (INITIAL_GBEST, 0.0, 0.0)
    else
      var g := GlobalFrom(ss[..|ss| - 1]);
      var s := ss[|ss| - 1];
      if s.improves && s.f < g.0 then (s.f, s.x, s.y) else g
  }

  /** The initial global best is at most 200000 and at most every improving
      agent's fitness, and it is either the starting `(200000, 0, 0)` or the
      fitness and position of an improving agent. */
  lemma {:induction false} GlobalFromIsLeast(ss: seq<Sample>)
    ensures GlobalFrom(ss).0 <= INITIAL_GBEST
    ensures forall i :: 0 <= i < |ss| && ss[i].improves ==> GlobalFrom(ss).0 <= ss[i].f
    ensures GlobalFrom(ss) == (INITIAL_GBEST, 0.0, 0.0)
            || exists i :: 0 <= i < |ss| && ss[i].improves && GlobalFrom(ss) == (ss[i].f, ss[i].x, ss[i].y)
    decreases |ss|
  {
    if ss != [] {
      var n := |ss| - 1;
      GlobalFromIsLeast(ss[..n]);
      assert forall i :: 0 <= i < n ==> ss[..n][i] == ss[i];
      if GlobalFrom(ss[..n]) != (INITIAL_GBEST, 0.0, 0.0) {
        var i :| 0 <= i < n && ss[..n][i].improves && GlobalFrom(ss[..n]) == (ss[..n][i].f, ss[..n][i].x, ss[..n][i].y);
      }
    }
  }

  /** The samples of `agents` against the goal lists, with `p0` their personal
      bests before the pass. */
  ghost function Samples(agents: seq<Agent>, p0: seq<Ext>, goalsX: seq<real>, goalsY: seq<real>,
                         sqrt: real -> real): (ss: seq<Sample>)
    reads agents`x, agents`y
    requires |p0| == |agents| && |goalsX| <= |goalsY|
    ensures |ss| == |agents|
    ensures forall i :: 0 <= i < |agents| ==>
              ss[i] == Sample(FitnessSum(sqrt, goalsX, goalsY, agents[i].x, agents[i].y), agents[i].x, agents[i].y,
                              p0[i].Above(FitnessSum(sqrt, goalsX, goalsY, agents[i].x, agents[i].y)))
  {
    if agents == [] then []
    else
      var n := |agents| - 1;
      var f := FitnessSum(sqrt, goalsX, goalsY, agents[n].x, agents[n].y);
      Samples(agents[..n], p0[..n], goalsX, goalsY, sqrt) + [Sample(f, agents[n].x, agents[n].y, p0[n].Above(f))]
  }

  /** An agent's personal best and its position `now`, after the initial
      pass, for an agent at `(x, y)` with fitness `f` whose best was
      `before`: taken only on strict improvement. */
  predicate InitialPbest(now: (Ext, real, real), x: real, y: real, f: real, before: (Ext, real, real))
  {
    if before.0.Above(f) then now == (Fin(f), x, y) else now == before
  }

  /** The first loop of `init_RDPSO` / `init_dPSO`: `Vx` drawn in `[0, step]`
      and `Vy` in `[-step, step]`. */
  method InitialVelocities(agents: seq<Agent>, step: real, draws: seq<(Unit, Unit)>)
    requires |draws| == |agents|
    requires forall p, q :: 0 <= p < q < |agents| ==> agents[p] != agents[q]
    modifies agents`vx, agents`vy
    ensures forall i :: 0 <= i < |agents| ==>
              agents[i].vx == Uniform(0.0, step, draws[i].0) && agents[i].vy == Uniform(-step, step, draws[i].1)
  {
    var k := 0;
    while k < |agents|
      invariant 0 <= k <= |agents|
      invariant forall i :: 0 <= i < k ==>
                  agents[i].vx == Uniform(0.0, step, draws[i].0) && agents[i].vy == Uniform(-step, step, draws[i].1)
      modifies agents`vx, agents`vy
    {
      agents[k].SetVelocity(Uniform(0.0, step, draws[k].0), Uniform(-step, step, draws[k].1));
      k := k + 1;
    }
  }

  /** The goal lists: the target coordinates, in target order. */
  method GoalLists(targets: seq<Option<Box>>) returns (goalsX: seq<real>, goalsY: seq<real>)
    requires forall t :: t in targets ==> t.Some?
    ensures goalsX == TargetXs(targets) && goalsY == TargetYs(targets)
  {
    goalsX, goalsY := [], [];
    var k := 0;
    while k < |targets|
      invariant 0 <= k <= |targets|
      invariant |goalsX| == |goalsY| == k
      invariant forall j :: 0 <= j < k ==> goalsX[j] == targets[j].value.cx && goalsY[j] == targets[j].value.cy
    {
      goalsX := goalsX + [targets[k].value.cx];
      goalsY := goalsY + [targets[k].value.cy];
      k := k + 1;
    }
  }

  /** The personal best step of the initial pass for one agent: taken only
      when `f` is strictly below it. */
  method TakeInitialPbest(a: Agent, f: real) returns (improved: bool)
    modifies a`px, a`py, a`pbest
    ensures improved == old(a.pbest).Above(f)
    ensures InitialPbest((a.pbest, a.px, a.py), a.x, a.y, f, (old(a.pbest), old(a.px), old(a.py)))
  {
    improved := a.pbest.Above(f);
    if improved {
      a.px := a.x;
      a.py := a.y;
      a.pbest := Fin(f);
    }
  }

  /** The second loop of `init_RDPSO` / `init_dPSO`, over the samples `ss`
      of the agents, with `p0`, `px0` and `py0` their personal bests before
      it: each agent strictly below its personal best takes it, and the
      global best follows `GlobalFrom`. */
  method InitialBests(agents: seq<Agent>, ghost ss: seq<Sample>, ghost p0: seq<Ext>, ghost px0: seq<real>,
                      ghost py0: seq<real>, goalsX: seq<real>, goalsY: seq<real>, sqrt: real -> real)
    returns (gbest: real, gx: real, gy: real)
    requires |goalsX| <= |goalsY| && |ss| == |p0| == |px0| == |py0| == |agents|
    requires forall p, q :: 0 <= p < q < |agents| ==> agents[p] != agents[q]
    requires forall i :: 0 <= i < |agents| ==>
               agents[i].x == ss[i].x && agents[i].y == ss[i].y
               && ss[i].f == FitnessSum(sqrt, goalsX, goalsY, ss[i].x, ss[i].y) && ss[i].improves == p0[i].Above(ss[i].f)
               && agents[i].pbest == p0[i] && agents[i].px == px0[i] && agents[i].py == py0[i]
    modifies agents`px, agents`py, agents`pbest
    ensures forall i :: 0 <= i < |agents| ==> InitialPbest((agents[i].pbest, agents[i].px, agents[i].py), agents[i].x, agents[i].y, ss[i].f,
                                                       (p0[i], px0[i], py0[i]))
    ensures (gbest, gx, gy) == GlobalFrom(ss)
  {
    gbest, gx, gy := INITIAL_GBEST, 0.0, 0.0;
    var k := 0;
    while k < |agents|
      invariant 0 <= k <= |agents|
      invariant forall i :: 0 <= i < k ==> InitialPbest((agents[i].pbest, agents[i].px, agents[i].py), agents[i].x, agents[i].y, ss[i].f,
                                                       (p0[i], px0[i], py0[i]))
      invariant forall i :: k <= i < |agents| ==> unchanged(agents[i])
      invariant (gbest, gx, gy) == GlobalFrom(ss[..k])
      modifies agents`px, agents`py, agents`pbest
    {
      var a := agents[k];
      var f := SumFitness(goalsX, goalsY, a.x, a.y, sqrt);
      assert ss[..k + 1][..k] == ss[..k];
      var improved := TakeInitialPbest(a, f);
      if improved && f < gbest {
        gbest := f;
        gx := a.px;
        gy := a.py;
      }
      k := k + 1;
    }
    assert ss[..k] == ss;
  }

  /** `init_RDPSO` / `init_dPSO` for the grid's `agents` and `targets`:
      velocities drawn from `draws`, the goal lists read off the targets,
      then the initial personal and global bests. */
  method InitSwarm(agents: seq<Agent>, targets: seq<Option<Box>>, step: real, draws: seq<(Unit, Unit)>,
                   sqrt: real -> real)
    returns (goalsX: seq<real>, goalsY: seq<real>, gx: real, gy: real, gbest: real)
    requires forall t :: t in targets ==> t.Some?
    requires |draws| == |agents| && forall p, q :: 0 <= p < q < |agents| ==> agents[p] != agents[q]
    modifies agents`vx, agents`vy, agents`px, agents`py, agents`pbest
    ensures goalsX == TargetXs(targets) && goalsY == TargetYs(targets)
    ensures forall i :: 0 <= i < |agents| ==>
              agents[i].vx == Uniform(0.0, step, draws[i].0) && agents[i].vy == Uniform(-step, step, draws[i].1)
    ensures forall i :: 0 <= i < |agents| ==>
              var a := agents[i];
              InitialPbest((a.pbest, a.px, a.py), a.x, a.y, FitnessSum(sqrt, goalsX, goalsY, a.x, a.y),
                           (old(a.pbest), old(a.px), old(a.py)))
    ensures (gbest, gx, gy) == GlobalFrom(Samples(agents, old(PbestsOf(agents)), goalsX, goalsY, sqrt))
  {
    ghost var p0 := PbestsOf(agents);
    InitialVelocities(agents, step, draws);
    assert PbestsOf(agents) == p0;
    goalsX, goalsY := GoalLists(targets);
    ghost var px0, py0 := PxsOf(agents), PysOf(agents);
    ghost var ss := Samples(agents, p0, goalsX, goalsY, sqrt);
    gbest, gx, gy := InitialBests(agents, ss, p0, px0, py0, goalsX, goalsY, sqrt);
    assert Samples(agents, p0, goalsX, goalsY, sqrt) == ss;
  }

  /** The personal bests of `agents`, in order. */
  ghost function PbestsOf(agents: seq<Agent>): (ps: seq<Ext>)
    reads agents`pbest
    ensures |ps| == |agents| && forall i :: 0 <= i < |agents| ==> ps[i] == agents[i].pbest
  {
    if agents == [] then [] else PbestsOf(agents[..|agents| - 1]) + [agents[|agents| - 1].pbest]
  }

  /** The `px` of `agents`, in order. */
  ghost function PxsOf(agents: seq<Agent>): (xs: seq<real>)
    reads agents`px
    ensures |xs| == |agents| && forall i :: 0 <= i < |agents| ==> xs[i] == agents[i].px
  {
    if agents == [] then [] else PxsOf(agents[..|agents| - 1]) + [agents[|agents| - 1].px]
  }

  /** The `py` of `agents`, in order. */
  ghost function PysOf(agents: seq<Agent>): (ys: seq<real>)
    reads agents`py
    ensures |ys| == |agents| && forall i :: 0 <= i < |agents| ==> ys[i] == agents[i].py
  {
    if agents == [] then [] else PysOf(agents[..|agents| - 1]) + [agents[|agents| - 1].py]
  }
}
