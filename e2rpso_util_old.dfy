// Old_versions/E2RPSO_util.py: the helpers of the first E2RPSO version.
// Obstacles and robots are sensed on boxes whose edges are rounded up; the
// personal best keeps its previous value and a running average; obstacle
// avoidance tries eight fixed directions; an exploration-credit table picks
// the farthest, least explored cell; and a goal is dropped from the goal
// lists once a robot has come close to it.

module E2RPSOUtilOld {
  import opened Numerics
  import opened Geometry
  import opened ContinuousGrid
  import opened SwarmUtil

  // ----- sensing -----

  /** `(x, y)` lies in box `b` once the box's edges are rounded up by
      `math.ceil` and it is grown by `radius` on every side, edges
      included. */
  predicate InRoundedBox(b: Box, radius: real, x: real, y: real)
  {
    && Ceil(b.cx - b.hw) as real - radius <= x <= Ceil(b.cx + b.hw) as real + radius
    && Ceil(b.cy - b.hh) as real - radius <= y <= Ceil(b.cy + b.hh) as real + radius
  }

  /** `detect_ob`: 1 when the robot's corner `(x + size, y + size)` or its
      corner `(x - size, y - size)` lies in the obstacle's rounded box grown
      by `radius`, 0 otherwise. */
  function DetectOb(x: real, y: real, size: real, radius: real, ob: Box): (out: int)
    ensures out == 0 || out == 1
    ensures out == 1 <==> InRoundedBox(ob, radius, x + size, y + size) || InRoundedBox(ob, radius, x - size, y - size)
  {
    var xMin, xMax := Ceil(ob.cx - ob.hw), Ceil(ob.cx + ob.hw);
    var yMin, yMax := Ceil(ob.cy - ob.hh), Ceil(ob.cy + ob.hh);
    if (xMin as real - radius <= x + size <= xMax as real + radius
        && yMin as real - radius <= y + size <= yMax as real + radius)
       || (xMin as real - radius <= x - size <= xMax as real + radius
           && yMin as real - radius <= y - size <= yMax as real + radius)
    then 1 else 0
  }

  /** `detect_ob_self`: 1 when `(x, y)` lies in the other robot's square,
      rounded up and grown by `radius`, 0 otherwise. */
  function DetectObSelf(x: real, y: real, radius: real, robot: Box): (out: int)
    ensures out == 0 || out == 1
    ensures out == 1 <==> InRoundedBox(robot, radius, x, y)
  {
    var xMin, xMax := Ceil(robot.cx - robot.hw), Ceil(robot.cx + robot.hw);
    var yMin, yMax := Ceil(robot.cy - robot.hh), Ceil(robot.cy + robot.hh);
    if xMin as real - radius <= x <= xMax as real + radius && yMin as real - radius <= y <= yMax as real + radius
    then 1 else 0
  }

  /** The rounding never loses contact: with a margin of at least one, a
      corner inside the obstacle is sensed, and so is a point inside another
      robot's square. A larger margin senses at least as much. */
  lemma SensingCovers(b: Box, radius: real, radius2: real, x: real, y: real, size: real)
    requires 1.0 <= radius <= radius2
    ensures b.Contains(x + size, y + size) ==> DetectOb(x, y, size, radius, b) == 1
    ensures b.Contains(x, y) ==> DetectObSelf(x, y, radius, b) == 1
    ensures DetectOb(x, y, size, radius, b) == 1 ==> DetectOb(x, y, size, radius2, b) == 1
    ensures DetectObSelf(x, y, radius, b) == 1 ==> DetectObSelf(x, y, radius2, b) == 1
  {
    var lo, hi := Ceil(b.cx - b.hw), Ceil(b.cx + b.hw);
    assert lo as real - radius <= b.cx - b.hw && b.cx + b.hw <= hi as real + radius;
    var lo2, hi2 := Ceil(b.cy - b.hh), Ceil(b.cy + b.hh);
    assert lo2 as real - radius <= b.cy - b.hh && b.cy + b.hh <= hi2 as real + radius;
  }

  // ----- fitness and bests -----

  /** `getFitness` of this version: the plain Euclidean distance. */
  function Distance(sqrt: real -> real, gx: real, gy: real, x: real, y: real): real
  {
    sqrt(SqDist(gx, gy, x, y))
  }

  /** The distances summed over the goals, as the loops of
      `update_GbestPbest` and `init_E2RPSO` compute them. */
  function DistanceSum(sqrt: real -> real, goalsX: seq<real>, goalsY: seq<real>, x: real, y: real): real
    requires |goalsX| <= |goalsY|
  {
    if goalsX == [] then 0.0
    else DistanceSum(sqrt, goalsX[..|goalsX| - 1], goalsY, x, y)
         + Distance(sqrt, goalsX[|goalsX| - 1], goalsY[|goalsX| - 1], x, y)
  }

  /** Every one of the first `n` goals lies at `(x, y)`. */
  predicate AllAt(goalsX: seq<real>, goalsY: seq<real>, n: nat, x: real, y: real)
    requires n <= |goalsX| && n <= |goalsY|
  {
    forall k :: 0 <= k < n ==> goalsX[k] == x && goalsY[k] == y
  }

  /** One distance is never negative, and is zero exactly at the goal. */
  lemma DistanceZeroIff(sqrt: real -> real, gx: real, gy: real, x: real, y: real)
    requires IsSqrt(sqrt)
    ensures 0.0 <= Distance(sqrt, gx, gy, x, y)
    ensures Distance(sqrt, gx, gy, x, y) == 0.0 <==> gx == x && gy == y
  {
    SqDistNonNeg(gx, gy, x, y);
    if gx == x && gy == y {
      DistZero(gx, gy, sqrt);
    } else {
      DistPos(gx, gy, x, y, sqrt);
    }
  }

  /** The summed distance is never negative, and is zero exactly when every
      goal lies at `(x, y)`. */
  lemma {:induction false} DistanceSumZeroIff(sqrt: real -> real, goalsX: seq<real>, goalsY: seq<real>, x: real, y: real)
    requires IsSqrt(sqrt) && |goalsX| <= |goalsY|
    ensures 0.0 <= DistanceSum(sqrt, goalsX, goalsY, x, y)
    ensures DistanceSum(sqrt, goalsX, goalsY, x, y) == 0.0 <==> AllAt(goalsX, goalsY, |goalsX|, x, y)
    decreases |goalsX|
  {
    if goalsX != [] {
      var n := |goalsX| - 1;
      var init := goalsX[..n];
      DistanceSumZeroIff(sqrt, init, goalsY, x, y);
      DistanceZeroIff(sqrt, goalsX[n], goalsY[n], x, y);
      assert AllAt(init, goalsY, n, x, y) <==> AllAt(goalsX, goalsY, n, x, y) by {
        assert forall k :: 0 <= k < n ==> init[k] == goalsX[k];
      }
    }
  }

  /** The summing loop. */
  method SumDistances(goalsX: seq<real>, goalsY: seq<real>, x: real, y: real, sqrt: real -> real) returns (f: real)
    requires |goalsX| <= |goalsY|
    ensures f == DistanceSum(sqrt, goalsX, goalsY, x, y)
  {
    f := 0.0;
    var k := 0;
    while k < |goalsX|
      invariant 0 <= k <= |goalsX|
      invariant f == DistanceSum(sqrt, goalsX[..k], goalsY, x, y)
    {
      assert goalsX[..k + 1][..k] == goalsX[..k];
      f := f + Distance(sqrt, goalsX[k], goalsY[k], x, y);
      k := k + 1;
    }
    assert goalsX[..k] == goalsX;
  }

  /** An agent's personal best, the best before it, their running average
      and the best's position, with the global best and its position. */
  datatype Record = Record(pbest: Ext, pbestP: Ext, pbestAvg: Ext, px: real, py: real,
                           gbest: Ext, gx: real, gy: real)

  /** `(pbest_avg * t + f) / (t + 1)`; an infinite average stays infinite
      (Python's `inf * 0` would be NaN, hence the requirement). */
  function RunningAvg(avg: Ext, f: real, t: nat): Ext
    requires avg.Fin? || 0 < t
  {
    match avg
    case Inf => Inf
    case Fin(a) => Fin((a * t as real + f) / (t as real + 1.0))
  }

  /** The running average lies between the old average and the new value. */
  lemma RunningAvgBetween(a: real, f: real, t: nat)
    ensures Min(a, f) <= RunningAvg(Fin(a), f, t).v <= Max(a, f)
  {
    var n := t as real;
    var c := n + 1.0;
    var lo, hi := Min(a, f), Max(a, f);
    assert lo * c == lo * n + lo;
    assert hi * c == hi * n + hi;
    MulLe(lo, a, n);
    MulLe(a, hi, n);
    DivBounds(a * n + f, c, lo, hi);
  }

  /** Multiplying by a non-negative factor keeps an inequality. */
  lemma MulLe(a: real, b: real, n: real)
    requires a <= b && 0.0 <= n
    ensures a * n <= b * n
  {
    var d := b - a;
    MulNonNeg(d, n);
    assert d * n == b * n - a * n;
  }

  /** Dividing by a positive number keeps bounds that hold after
      multiplying by it. */
  lemma DivBounds(p: real, c: real, lo: real, hi: real)
    requires 0.0 < c && lo * c <= p <= hi * c
    ensures lo <= p / c <= hi
  {
    var q := p / c;
    assert q * c == p;
  }

  /** The record after one fitness value `f` observed at `(x, y)` in
      iteration `t`, as `update_GbestPbest` keeps it. On a personal
      improvement (`f <= pbest`) the old best moves to `pbest_p`, the best
      takes `f` and its position, and the running average takes `f` in;
      then the global best takes `f` when `f` is not above it, with the
      (new) personal position. */
  function RecordAfter(b: Record, f: real, x: real, y: real, t: nat): (n: Record)
    requires b.pbestAvg.Fin? || 0 < t
  {
    var b1 := if b.pbest.AtLeast(f)
              then b.(pbestP := b.pbest, pbest := Fin(f), pbestAvg := RunningAvg(b.pbestAvg, f, t), px := x, py := y)
              else b;
    if b1.gbest.AtLeast(f) then b1.(gbest := Fin(f), gx := b1.px, gy := b1.py) else b1
  }

  /** Neither best ever grows: each becomes the minimum of itself and `f`.
      An improvement keeps the previous best in `pbest_p` and moves the
      running average towards `f`; otherwise the personal part is kept,
      and the global part is kept when `f` is above it. */
  lemma RecordAfterMin(b: Record, f: real, x: real, y: real, t: nat)
    requires b.pbestAvg.Fin? || 0 < t
    ensures var n := RecordAfter(b, f, x, y, t);
            && n.pbest == MinExt(b.pbest, f) && n.gbest == MinExt(b.gbest, f)
            && LeExt(n.pbest, b.pbest) && LeExt(n.gbest, b.gbest)
            && (b.pbest.AtLeast(f) ==> n.pbestP == b.pbest && n.px == x && n.py == y)
            && (b.pbest.AtLeast(f) && b.pbestAvg.Fin? ==>
                  n.pbestAvg.Fin? && Min(b.pbestAvg.v, f) <= n.pbestAvg.v <= Max(b.pbestAvg.v, f))
            && (!b.pbest.AtLeast(f) ==> (n.pbest, n.pbestP, n.pbestAvg, n.px, n.py) == (b.pbest, b.pbestP, b.pbestAvg, b.px, b.py))
            && (!b.gbest.AtLeast(f) ==> (n.gbest, n.gx, n.gy) == (b.gbest, b.gx, b.gy))
            && (b.gbest.AtLeast(f) ==> n.gx == n.px && n.gy == n.py)
  {
    if b.pbest.AtLeast(f) && b.pbestAvg.Fin? {
      RunningAvgBetween(b.pbestAvg.v, f, t);
    }
  }

  /** The record of agent `r` with the global best `(gbest, gx, gy)`. */
  ghost function RecordOf(r: Agent, gbest: Ext, gx: real, gy: real): Record
    reads r
  {
    Record(r.pbest, r.pbestP, r.pbestAvg, r.px, r.py, gbest, gx, gy)
  }

  /** `update_GbestPbest` of this version: the fitness is taken at
      `agent`'s position and the bests of `r` are updated (the callers pass
      the same robot twice); the two velocity arguments only fed a
      commented-out print and are omitted. */
  method UpdateBests(r: Agent, gx: real, gy: real, gbest: Ext, goalsX: seq<real>, goalsY: seq<real>, agent: Agent,
                     t: nat, sqrt: real -> real)
    returns (newGbest: Ext, newGx: real, newGy: real)
    requires |goalsX| <= |goalsY| && (r.pbestAvg.Fin? || 0 < t)
    modifies r`pbest, r`pbestP, r`pbestAvg, r`px, r`py
    ensures RecordOf(r, newGbest, newGx, newGy)
            == RecordAfter(old(RecordOf(r, gbest, gx, gy)), DistanceSum(sqrt, goalsX, goalsY, agent.x, agent.y),
                           r.x, r.y, t)
  {
    newGx, newGy, newGbest := gx, gy, gbest;
    var f := SumDistances(goalsX, goalsY, agent.x, agent.y, sqrt);
    if r.pbest.AtLeast(f) {
      r.pbestP := r.pbest;
      r.pbest := Fin(f);
      r.pbestAvg := RunningAvg(r.pbestAvg, f, t);
      r.px := r.x;
      r.py := r.y;
    }
    if newGbest.AtLeast(f) {
      newGbest := Fin(f);
      newGx := r.px;
      newGy := r.py;
    }
  }

  // ----- eight-direction obstacle avoidance -----

  /** The eight probe offsets of `avoidObstacle`, before the signs of the
      velocity are applied. */
  const PROBE_X: seq<real> := [3.0, 3.0, 0.0, 3.0, -3.0, 0.0, -3.0, -3.0]
  const PROBE_Y: seq<real> := [3.0, 0.0, 3.0, -3.0, 3.0, -3.0, 0.0, -3.0]
  const PROBES: nat := 8

  /** `v / abs(v)` for a non-zero component, which is its sign, and 1 for
      a zero component. */
  function Heading(v: real): (s: real)
    ensures s == 1.0 || s == -1.0
    ensures v < 0.0 <==> s == -1.0
  {
    if v < 0.0 then -1.0 else 1.0
  }

  /** What `avoidObstacle` senses from `(x, y)` for robot `i`: an obstacle
      by `detect_ob` with the robot's half size and radius, or another robot
      by `detect_ob_self` with a margin of that robot's half size plus one. */
  predicate Sensed(obs: seq<Box>, robots: seq<Box>, i: int, x: real, y: real, size: real, radius: real)
  {
    || (exists k :: 0 <= k < |obs| && DetectOb(x, y, size, radius, obs[k]) == 1)
    || (exists j :: 0 <= j < |robots| && j != i && DetectObSelf(x, y, robots[j].hw + 1.0, robots[j]) == 1)
  }

  /** Every probe point lies 0 or 3 away from the robot along each axis. */
  lemma ProbeOffsets(x: real, y: real, zx: real, zy: real, k: nat)
    requires k < PROBES && (zx == 1.0 || zx == -1.0) && (zy == 1.0 || zy == -1.0)
    ensures var p := ProbePoint(x, y, zx, zy, k);
            (Abs(p.0 - x) == 0.0 || Abs(p.0 - x) == 3.0) && (Abs(p.1 - y) == 0.0 || Abs(p.1 - y) == 3.0)
  {
    assert PROBE_X[k] == 0.0 || PROBE_X[k] == 3.0 || PROBE_X[k] == -3.0;
    assert PROBE_Y[k] == 0.0 || PROBE_Y[k] == 3.0 || PROBE_Y[k] == -3.0;
  }

  /** The point probe `k` reaches from `(x, y)` under the signs `(zx, zy)`. */
  function ProbePoint(x: real, y: real, zx: real, zy: real, k: nat): (real, real)
    requires k < PROBES
  {
    (x + PROBE_X[k] * zx, y + PROBE_Y[k] * zy)
  }

  /** Probe `k` from `(x, y)` under the signs `(zx, zy)` senses something. */
  predicate ProbeBlocked(obs: seq<Box>, robots: seq<Box>, i: int, x: real, y: real, size: real, radius: real,
                         zx: real, zy: real, k: nat)
    requires k < PROBES
  {
    var p := ProbePoint(x, y, zx, zy, k);
    Sensed(obs, robots, i, p.0, p.1, size, radius)
  }

  /** Which of the eight probes sense something. */
  function Blocks(obs: seq<Box>, robots: seq<Box>, i: int, x: real, y: real, size: real, radius: real,
                  zx: real, zy: real): seq<bool>
  {
    seq(PROBES, k requires 0 <= k < PROBES => ProbeBlocked(obs, robots, i, x, y, size, radius, zx, zy, k))
  }

  /** The first probe from `k` on that is not blocked. */
  function FirstOpen(blocked: seq<bool>, k: nat): (r: Option<nat>)
    requires k <= |blocked|
    ensures r.Some? ==> k <= r.value < |blocked|
    decreases |blocked| - k
  {
    if k == |blocked| then None
    else if !blocked[k] then Some(k)
    else FirstOpen(blocked, k + 1)
  }

  /** `FirstOpen` answers the first open probe, and none when every probe
      from `k` on is blocked. */
  lemma {:induction false} FirstOpenIsFirst(blocked: seq<bool>, k: nat)
    requires k <= |blocked|
    ensures var r := FirstOpen(blocked, k);
            && (r.Some? ==> !blocked[r.value])
            && forall m :: k <= m < |blocked| && (r.None? || m < r.value) ==> blocked[m]
    decreases |blocked| - k
  {
    if k < |blocked| {
      FirstOpenIsFirst(blocked, k + 1);
    }
  }

  /** The answer `(ob, po_x, po_y)` of `avoidObstacle` for robot `i` at
      `(x, y)` moving with `(vx, vy)`: nothing sensed gives `ob = 0` and the
      robot's own point; otherwise `ob = 1` and the point of the first open
      probe, or the robot's own point if all eight are blocked. */
  function Avoidance(obs: seq<Box>, robots: seq<Box>, i: int, x: real, y: real, size: real, radius: real,
                     vx: real, vy: real): (int, real, real)
  {
    if !Sensed(obs, robots, i, x, y, size, radius) then (0, x, y)
    else
      var zx, zy := Heading(vx), Heading(vy);
      match FirstOpen(Blocks(obs, robots, i, x, y, size, radius, zx, zy), 0)
      case Some(k) => (1, ProbePoint(x, y, zx, zy, k).0, ProbePoint(x, y, zx, zy, k).1)
      case None => (1, x, y)
  }

  /** `ob` reports exactly whether anything is sensed; the avoidance point
      differs from the robot's point by 0 or 3 on each axis, and a point
      that differs senses nothing. */
  lemma AvoidanceSteps(obs: seq<Box>, robots: seq<Box>, i: int, x: real, y: real, size: real, radius: real,
                       vx: real, vy: real)
    ensures var a := Avoidance(obs, robots, i, x, y, size, radius, vx, vy);
            && (a.0 == 1 <==> Sensed(obs, robots, i, x, y, size, radius)) && (a.0 == 0 || a.0 == 1)
            && (a.0 == 0 ==> a.1 == x && a.2 == y)
            && (Abs(a.1 - x) == 0.0 || Abs(a.1 - x) == 3.0) && (Abs(a.2 - y) == 0.0 || Abs(a.2 - y) == 3.0)
            && ((a.1, a.2) != (x, y) ==> !Sensed(obs, robots, i, a.1, a.2, size, radius))
  {
    var zx, zy := Heading(vx), Heading(vy);
    var blocked := Blocks(obs, robots, i, x, y, size, radius, zx, zy);
    FirstOpenIsFirst(blocked, 0);
    var r := FirstOpen(blocked, 0);
    if Sensed(obs, robots, i, x, y, size, radius) && r.Some? {
      var k := r.value;
      assert !ProbeBlocked(obs, robots, i, x, y, size, radius, zx, zy, k);
      ProbeOffsets(x, y, zx, zy, k);
    }
  }

  /** One sensing pass of `avoidObstacle`: the obstacle loop, then the robot
      loop, each stopping at its first hit; `robots` are the agents' squares. */
  method Sense(obs: seq<Box>, agents: seq<Agent>, ghost robots: seq<Box>, i: int, x: real, y: real, size: real,
               radius: real)
    returns (hit: bool)
    requires robots == AgentBoxes(agents)
    ensures hit == Sensed(obs, robots, i, x, y, size, radius)
  {
    var k := 0;
    while k < |obs|
      invariant 0 <= k <= |obs|
      invariant forall m :: 0 <= m < k ==> DetectOb(x, y, size, radius, obs[m]) == 0
    {
      if DetectOb(x, y, size, radius, obs[k]) == 1 {
        return true;
      }
      k := k + 1;
    }
    var j := 0;
    while j < |agents|
      invariant 0 <= j <= |agents|
      invariant forall m :: 0 <= m < j && m != i ==> DetectObSelf(x, y, robots[m].hw + 1.0, robots[m]) == 0
    {
      if j != i && DetectObSelf(x, y, agents[j].halfSize + 1.0, AgentBox(agents[j])) == 1 {
        return true;
      }
      j := j + 1;
    }
    return false;
  }

  /** `avoidObstacle(r, obs_list, agents, i)`. */
  method AvoidObstacle(r: Agent, obs: seq<Box>, agents: seq<Agent>, i: int) returns (ob: int, pox: real, poy: real)
    ensures (ob, pox, poy) == Avoidance(obs, AgentBoxes(agents), i, r.x, r.y, r.halfSize, r.radius, r.vx, r.vy)
  {
    ghost var robots := AgentBoxes(agents);
    var x, y, size, radius := r.x, r.y, r.halfSize, r.radius;
    pox, poy := x, y;
    var sensed := Sense(obs, agents, robots, i, x, y, size, radius);
    ob := if sensed then 1 else 0;
    var zx, zy := Heading(r.vx), Heading(r.vy);
    ghost var blocked := Blocks(obs, robots, i, x, y, size, radius, zx, zy);
    if sensed {
      var k := 0;
      while k < PROBES
        invariant 0 <= k <= PROBES
        invariant FirstOpen(blocked, 0) == FirstOpen(blocked, k)
      {
        var p := ProbePoint(x, y, zx, zy, k);
        var blocked := Sense(obs, agents, robots, i, p.0, p.1, size, radius);
        if !blocked {
          pox, poy := p.0, p.1;
          return;
        }
        k := k + 1;
      }
    }
  }

  // ----- exploration credit -----

  function AbsInt(n: int): (m: nat)
    ensures m == n || m == -n
  {
    if n < 0 then -n else n
  }

  /** The cell `find_FarthestAndEmptiestArea` places the robot in:
      `int(int((y - 1) / 50) * SIDE / 50 + int(x / 50))`, each `int`
      truncating toward zero. */
  function AreaOf(x: real, y: real, side: int): int
  {
    Trunc((Trunc((y - 1.0) / 50.0) * side) as real / 50.0 + Trunc(x / 50.0) as real)
  }

  /** `Out_list[j] * dis` for cell `j`, where `dis` is the distance from
      cell `area` on a twenty-column layout: the column gap
      `|area % 20 - j % 20|` and the row gap `int(|area - j| / 20)`. */
  function Score(out: seq<int>, area: int, j: nat, sqrt: real -> real): real
    requires j < |out|
  {
    var xd := AbsInt(area % 20 - j % 20);
    var yd := AbsInt(area - j) / 20;
    out[j] as real * sqrt((xd * xd + yd * yd) as real)
  }

  /** The threshold the search for the farthest cell starts from. */
  const FLOOR_SCORE: real := -10000.0

  /** `far` is the answer of the farthest-cell search: the first cell of
      greatest score when some score exceeds -10000, and cell 0 otherwise. */
  ghost predicate IsFarthest(out: seq<int>, area: int, far: nat, sqrt: real -> real)
  {
    || (far == 0 && forall j :: 0 <= j < |out| ==> Score(out, area, j, sqrt) <= FLOOR_SCORE)
    || (&& far < |out| && FLOOR_SCORE < Score(out, area, far, sqrt)
        && (forall j :: 0 <= j < |out| ==> Score(out, area, j, sqrt) <= Score(out, area, far, sqrt))
        && (forall j :: 0 <= j < far ==> Score(out, area, j, sqrt) < Score(out, area, far, sqrt)))
  }

  /** The characterisation determines the cell: two answers coincide. */
  lemma FarthestUnique(out: seq<int>, area: int, f1: nat, f2: nat, sqrt: real -> real)
    requires IsFarthest(out, area, f1, sqrt) && IsFarthest(out, area, f2, sqrt)
    ensures f1 == f2
  {
  }

  /** `find_FarthestAndEmptiestArea(r, Out_list, SIDE)`: the robot's cell and
      the farthest, least explored cell, by a strict `>` scan. */
  method FindFarthest(r: Agent, out: array<int>, side: int, sqrt: real -> real) returns (area: int, far: nat)
    ensures area == AreaOf(r.x, r.y, side)
    ensures IsFarthest(out[..], area, far, sqrt)
  {
    var cells := out[..];
    area := AreaOf(r.x, r.y, side);
    far := 0;
    var best := FLOOR_SCORE;
    ghost var found := false;
    var j := 0;
    while j < |cells|
      invariant 0 <= j <= |cells|
      invariant forall m :: 0 <= m < j ==> Score(cells, area, m, sqrt) <= best
      invariant !found ==> far == 0 && best == FLOOR_SCORE
      invariant found ==> far < j && FLOOR_SCORE < best && best == Score(cells, area, far, sqrt)
      invariant found ==> forall m :: 0 <= m < far ==> Score(cells, area, m, sqrt) < best
    {
      var score := Score(cells, area, j, sqrt);
      if score > best {
        best, far, found := score, j, true;
      }
      j := j + 1;
    }
  }

  // ----- goals -----

  /** The reach within which a robot counts a goal: the first agent's
      radius, the target half size and 3. */
  ghost function Reach(grid: Grid): real
    requires grid.agents != []
    reads grid`agents
  {
    grid.agents[0].radius + grid.targetHalfSize + 3.0
  }

  /** `goal_c` after the first loop of `judge_allGoalReached`: every goal
      within `reach` of `(x, y)` gains one hit. */
  function Counted(goalC: seq<nat>, goalsX: seq<real>, goalsY: seq<real>, x: real, y: real, reach: real)
    : (cs: seq<nat>)
    requires |goalC| == |goalsX| == |goalsY|
    ensures |cs| == |goalC|
  {
    seq(|goalC|, k requires 0 <= k < |goalC| =>
      goalC[k] + (if WithinRadius(SqDist(goalsX[k], goalsY[k], x, y), reach) then 1 else 0))
  }

  /** The first goal from `k` on with at least one hit. */
  function FirstHit(cs: seq<nat>, k: nat): (r: Option<nat>)
    requires k <= |cs|
    ensures r.Some? ==> k <= r.value < |cs| && cs[r.value] >= 1
    decreases |cs| - k
  {
    if k == |cs| then None else if cs[k] >= 1 then Some(k) else FirstHit(cs, k + 1)
  }

  /** `FirstHit` misses no earlier hit, and answers none only when no goal
      from `k` on has one. */
  lemma {:induction false} FirstHitIsFirst(cs: seq<nat>, k: nat)
    requires k <= |cs|
    ensures var r := FirstHit(cs, k);
            forall m :: k <= m < |cs| && (r.None? || m < r.value) ==> cs[m] == 0
    decreases |cs| - k
  {
    if k < |cs| {
      FirstHitIsFirst(cs, k + 1);
    }
  }

  /** `del s[k]`. */
  function Drop<T>(s: seq<T>, k: nat): (d: seq<T>)
    requires k < |s|
    ensures |d| == |s| - 1
    ensures forall m :: 0 <= m < |d| ==> d[m] == if m < k then s[m] else s[m + 1]
  {
    s[..k] + s[k + 1..]
  }

  /** The goal lists after `judge_allGoalReached`: the first goal with a hit
      is dropped from all three lists, and only then is the global best
      reset to 100000. */
  function Judged(goalsX: seq<real>, goalsY: seq<real>, hits: seq<nat>, gbest: Ext)
    : (r: (seq<real>, seq<real>, seq<nat>, Ext))
    requires |hits| == |goalsX| == |goalsY|
  {
    match FirstHit(hits, 0)
    case Some(k) => (Drop(goalsX, k), Drop(goalsY, k), Drop(hits, k), Fin(100000.0))
    case None => (goalsX, goalsY, hits, gbest)
  }

  /** At most one goal goes per call, the three lists stay the same length,
      a goal goes exactly when some goal has a hit, and the global best is
      reset exactly then. Each hit count grows by at most one. */
  lemma JudgedDropsOne(goalC: seq<nat>, goalsX: seq<real>, goalsY: seq<real>, x: real, y: real, reach: real,
                       gbest: Ext)
    requires |goalC| == |goalsX| == |goalsY|
    ensures var hits := Counted(goalC, goalsX, goalsY, x, y, reach);
            var r := Judged(goalsX, goalsY, hits, gbest);
            && |r.0| == |r.1| == |r.2|
            && (|r.0| == |goalsX| - 1 <==> exists m :: 0 <= m < |hits| && hits[m] >= 1)
            && (|r.0| == |goalsX| <==> forall m :: 0 <= m < |hits| ==> hits[m] == 0)
            && (r.3 == gbest || (r.3 == Fin(100000.0) && |r.0| == |goalsX| - 1))
            && forall m :: 0 <= m < |hits| ==> goalC[m] <= hits[m] <= goalC[m] + 1
  {
    var hits := Counted(goalC, goalsX, goalsY, x, y, reach);
    FirstHitIsFirst(hits, 0);
  }

  /** The first loop of `judge_allGoalReached`. */
  method CountHits(goalsX: seq<real>, goalsY: seq<real>, x: real, y: real, goalC: seq<nat>, reach: real,
                   sqrt: real -> real)
    returns (cs: seq<nat>)
    requires IsSqrt(sqrt) && |goalC| == |goalsX| == |goalsY|
    ensures cs == Counted(goalC, goalsX, goalsY, x, y, reach)
  {
    cs := goalC;
    var k := 0;
    while k < |goalsX|
      invariant 0 <= k <= |goalsX| && |cs| == |goalC|
      invariant forall m :: 0 <= m < |cs| ==>
                  cs[m] == if m < k then Counted(goalC, goalsX, goalsY, x, y, reach)[m] else goalC[m]
    {
      SqDistNonNeg(goalsX[k], goalsY[k], x, y);
      SqrtBelow(sqrt, SqDist(goalsX[k], goalsY[k], x, y), reach);
      if Distance(sqrt, goalsX[k], goalsY[k], x, y) < reach {
        cs := cs[k := cs[k] + 1];
      }
      k := k + 1;
    }
  }

  /** The matrix after the judging: the square of half size `radius`
      around goal `f` is cleared, when a goal was reached, and every other
      cell keeps its value. */
  twostate predicate Cleared(grid: Grid, goalsX: seq<real>, goalsY: seq<real>, f: Option<nat>, radius: real)
    reads grid, grid.cells
  {
    forall r, c :: 0 <= r < grid.height && 0 <= c < grid.width && r < grid.cells.Length0 && c < grid.cells.Length1 ==>
      grid.cells[r, c]
      == if f.Some? && f.value < |goalsX| && f.value < |goalsY|
            && grid.Covers(Paint(goalsX[f.value], goalsY[f.value], radius, radius, FREE), r, c)
         then FREE else old(grid.cells[r, c])
  }

  /** `judge_allGoalReached(goal_list_x, goal_list_y, agent, goal_c, Gbest,
      grid, radius)`: the hits of `agent`, then the first goal with a hit
      is cleared from the matrix with half size `radius` and dropped. */
  method JudgeAllGoalReached(goalsX: seq<real>, goalsY: seq<real>, agent: Agent, goalC: seq<nat>, gbest: Ext,
                             grid: Grid, radius: real, sqrt: real -> real)
    returns (xs: seq<real>, ys: seq<real>, cs: seq<nat>, g: Ext)
    requires IsSqrt(sqrt) && grid.Shaped() && |goalC| == |goalsX| == |goalsY|
    requires goalsX != [] ==> grid.agents != []
    modifies grid.cells
    ensures var reach := if grid.agents == [] then 0.0 else Reach(grid);
            (xs, ys, cs, g) == Judged(goalsX, goalsY, Counted(goalC, goalsX, goalsY, agent.x, agent.y, reach), gbest)
    ensures var reach := if grid.agents == [] then 0.0 else Reach(grid);
            Cleared(grid, goalsX, goalsY, FirstHit(Counted(goalC, goalsX, goalsY, agent.x, agent.y, reach), 0), radius)
  {
    ghost var reach := if grid.agents == [] then 0.0 else Reach(grid);
    var hits := goalC;
    if goalsX != [] {
      hits := CountHits(goalsX, goalsY, agent.x, agent.y, goalC, grid.agents[0].radius + grid.targetHalfSize + 3.0, sqrt);
    }
    assert hits == Counted(goalC, goalsX, goalsY, agent.x, agent.y, reach);
    xs, ys, cs, g := goalsX, goalsY, hits, gbest;
    var k := 0;
    while k < |hits|
      invariant 0 <= k <= |hits|
      invariant FirstHit(hits, 0) == FirstHit(hits, k)
      invariant unchanged(grid.cells)
    {
      if hits[k] >= 1 {
        grid.RemoveTarget(goalsX[k], goalsY[k], radius);
        xs, ys, cs := Drop(goalsX, k), Drop(goalsY, k), Drop(hits, k);
        g := Fin(100000.0);
        return;
      }
      k := k + 1;
    }
  }

  // ----- averages and inertia -----

  /** The sum of Python floats: infinite as soon as one term is. */
  function ExtSum(ps: seq<Ext>): Ext
  {
    if ps == [] then Fin(0.0)
    else
      match (ExtSum(ps[..|ps| - 1]), ps[|ps| - 1])
      case (Fin(s), Fin(p)) => Fin(s + p)
      case _ => Inf
  }

  /** The arithmetic mean of `ps`. */
  function Mean(ps: seq<Ext>): Ext
    requires ps != []
  {
    match ExtSum(ps)
    case Inf => Inf
    case Fin(s) => Fin(s / |ps| as real)
  }

  /** A finite sum of values in `[lo, hi]` lies in `[n * lo, n * hi]`. */
  lemma {:induction false} ExtSumBounds(ps: seq<Ext>, lo: real, hi: real)
    requires forall k :: 0 <= k < |ps| ==> ps[k].Fin? && lo <= ps[k].v <= hi
    ensures ExtSum(ps).Fin?
    ensures |ps| as real * lo <= ExtSum(ps).v <= |ps| as real * hi
    decreases |ps|
  {
    if ps != [] {
      var n := |ps| - 1;
      assert forall k :: 0 <= k < n ==> ps[..n][k] == ps[k];
      ExtSumBounds(ps[..n], lo, hi);
      assert (n + 1) as real * lo == n as real * lo + lo;
      assert (n + 1) as real * hi == n as real * hi + hi;
    }
  }

  /** An infinite personal best makes the sum infinite. */
  lemma {:induction false} ExtSumInf(ps: seq<Ext>, k: nat)
    requires k < |ps| && ps[k].Inf?
    ensures ExtSum(ps).Inf?
    decreases |ps|
  {
    var n := |ps| - 1;
    if k < n {
      assert ps[..n][k] == ps[k];
      ExtSumInf(ps[..n], k);
    }
  }

  /** The mean of finite values lies between their bounds; one infinite
      value makes it infinite. */
  lemma MeanBetween(ps: seq<Ext>, lo: real, hi: real)
    requires ps != []
    ensures (forall k :: 0 <= k < |ps| ==> ps[k].Fin? && lo <= ps[k].v <= hi) ==>
              Mean(ps).Fin? && lo <= Mean(ps).v <= hi
    ensures (exists k :: 0 <= k < |ps| && ps[k].Inf?) ==> Mean(ps).Inf?
  {
    if forall k :: 0 <= k < |ps| ==> ps[k].Fin? && lo <= ps[k].v <= hi {
      ExtSumBounds(ps, lo, hi);
      DivBounds(ExtSum(ps).v, |ps| as real, lo, hi);
    }
    if k :| 0 <= k < |ps| && ps[k].Inf? {
      ExtSumInf(ps, k);
    }
  }

  /** `update_best_avg`: the mean of the agents' personal bests; an empty
      agent list would divide by zero. */
  method UpdateBestAvg(agents: seq<Agent>) returns (avg: Ext)
    requires agents != []
    ensures avg == Mean(PbestsOf(agents))
  {
    ghost var ps := PbestsOf(agents);
    var sum := Fin(0.0);
    var k := 0;
    while k < |agents|
      invariant 0 <= k <= |agents|
      invariant sum == ExtSum(ps[..k])
    {
      assert ps[..k + 1][..k] == ps[..k];
      sum := match (sum, agents[k].pbest)
             case (Fin(s), Fin(p)) => Fin(s + p)
             case _ => Inf;
      k := k + 1;
    }
    assert ps[..k] == ps;
    avg := match sum
           case Inf => Inf
           case Fin(s) => Fin(s / |agents| as real);
  }

  /** Python's `min(a, b) / max(a, b)` on floats, `None` where Python has no
      number: a zero maximum raises `ZeroDivisionError` and two infinities
      give NaN. One infinity gives 0. */
  function Ratio(a: Ext, b: Ext): Option<real>
  {
    match (a, b)
    case (Fin(p), Fin(q)) => if Max(p, q) == 0.0 then None else Some(Min(p, q) / Max(p, q))
    case (Inf, Inf) => None
    case _ => Some(0.0)
  }

  /** A value that is infinite or a non-negative number, as every sum of
      distances is. */
  predicate NonNeg(e: Ext)
  {
    e.Inf? || 0.0 <= e.v
  }

  /** The inertia weight both versions of `E2RPSO` compute from the agent's
      previous and current personal bests, the global best and the average
      personal best: `0.9 - 0.5 * (1 - min/max) + min/max`. */
  function Weight(pbestP: Ext, pbest: Ext, gbest: Ext, bestAvg: Ext): Option<real>
  {
    var a := Ratio(pbestP, pbest);
    var b := Ratio(gbest, bestAvg);
    if a.None? || b.None? then None else Some(0.9 - 0.5 * (1.0 - a.value) + b.value)
  }

  /** Between non-negative values both ratios lie in `[0, 1]`, so a defined
      weight lies in `[0.4, 1.9]`. */
  lemma WeightRange(pbestP: Ext, pbest: Ext, gbest: Ext, bestAvg: Ext)
    requires NonNeg(pbestP) && NonNeg(pbest) && NonNeg(gbest) && NonNeg(bestAvg)
    ensures Weight(pbestP, pbest, gbest, bestAvg).Some? ==> 0.4 <= Weight(pbestP, pbest, gbest, bestAvg).value <= 1.9
  {
    RatioUnit(pbestP, pbest);
    RatioUnit(gbest, bestAvg);
  }

  lemma RatioUnit(a: Ext, b: Ext)
    requires NonNeg(a) && NonNeg(b)
    ensures Ratio(a, b).Some? ==> 0.0 <= Ratio(a, b).value <= 1.0
  {
    if a.Fin? && b.Fin? && Max(a.v, b.v) != 0.0 {
      DivBounds(Min(a.v, b.v), Max(a.v, b.v), 0.0, 1.0);
    }
  }

  // ----- initialisation -----

  /** The credit every cell of the exploration table starts with. */
  const START_CREDIT: int := 100

  /** Agent `a` took the fitness `f` as its first personal best: all three
      bests are `f` and its position is the best position. */
  ghost predicate Seeded(a: Agent, f: real)
    reads a
  {
    a.pbest == Fin(f) && a.pbestP == Fin(f) && a.pbestAvg == Fin(f) && a.px == a.x && a.py == a.y
  }

  /** The personal best step of `init_E2RPSO` for one agent: taken only when
      `f` is strictly below the personal best. */
  method SeedAgent(a: Agent, f: real)
    modifies a`pbest, a`pbestP, a`pbestAvg, a`px, a`py
    ensures old(a.pbest).Above(f) ==> Seeded(a, f)
    ensures !old(a.pbest).Above(f) ==> unchanged(a)
  {
    if a.pbest.Above(f) {
      a.pbestP := Fin(f);
      a.pbest := Fin(f);
      a.pbestAvg := Fin(f);
      a.px := a.x;
      a.py := a.y;
    }
  }

  /** The exploration table: 200 * 200 cells and then `int(width / 20) *
      int(height / 20)` more, each with the starting credit. */
  method CreditTable(width: nat, height: nat) returns (out: array<int>)
    ensures fresh(out) && out.Length == 40000 + (width / 20) * (height / 20)
    ensures forall k :: 0 <= k < out.Length ==> out[k] == START_CREDIT
  {
    var cells: seq<int> := [];
    var n := 0;
    while n < 200 * 200
      invariant 0 <= n <= 200 * 200 && |cells| == n
      invariant forall k :: 0 <= k < |cells| ==> cells[k] == START_CREDIT
    {
      cells := cells + [START_CREDIT];
      n := n + 1;
    }
    var extra := (width / 20) * (height / 20);
    n := 0;
    while n < extra
      invariant 0 <= n <= extra && |cells| == 40000 + n
      invariant forall k :: 0 <= k < |cells| ==> cells[k] == START_CREDIT
    {
      cells := cells + [START_CREDIT];
      n := n + 1;
    }
    out := new int[|cells|](k requires 0 <= k < |cells| => cells[k]);
  }

  /** `init_E2RPSO(grid)`: the exploration table, zero hits for each of the
      `nr_of_targets` goals, the goal lists and the half size of the last
      target, and every agent strictly below its personal best seeded with
      its summed distance. The global best it also computes is never
      returned. */
  method InitE2RPSO(grid: Grid, nrOfTargets: nat, sqrt: real -> real)
    returns (out: array<int>, goalsX: seq<real>, goalsY: seq<real>, goalC: seq<nat>, targetRadius: real)
    requires grid.Valid() && forall t :: t in grid.targets ==> t.Some?
    modifies grid.agents`pbest, grid.agents`pbestP, grid.agents`pbestAvg, grid.agents`px, grid.agents`py
    ensures fresh(out) && out.Length == 40000 + (grid.width / 20) * (grid.height / 20)
    ensures forall k :: 0 <= k < out.Length ==> out[k] == START_CREDIT
    ensures |goalC| == nrOfTargets && forall k :: 0 <= k < |goalC| ==> goalC[k] == 0
    ensures goalsX == TargetXs(grid.targets) && goalsY == TargetYs(grid.targets)
    ensures targetRadius == if grid.targets == [] then 0.0 else grid.targets[|grid.targets| - 1].value.hw
    ensures forall j :: 0 <= j < |grid.agents| ==>
              var f := DistanceSum(sqrt, goalsX, goalsY, grid.agents[j].x, grid.agents[j].y);
              if old(grid.agents[j].pbest).Above(f) then Seeded(grid.agents[j], f) else unchanged(grid.agents[j])
  {
    out := CreditTable(grid.width, grid.height);
    goalC := [];
    while |goalC| < nrOfTargets
      invariant |goalC| <= nrOfTargets && forall k :: 0 <= k < |goalC| ==> goalC[k] == 0
    {
      goalC := goalC + [0];
    }
    goalsX, goalsY := GoalLists(grid.targets);
    targetRadius := 0.0;
    if grid.targets != [] {
      targetRadius := grid.targets[|grid.targets| - 1].value.hw;
    }
    SeedAgents(grid.agents, goalsX, goalsY, sqrt);
  }

  /** The last loop of `init_E2RPSO`, agent by agent. */
  method SeedAgents(agents: seq<Agent>, goalsX: seq<real>, goalsY: seq<real>, sqrt: real -> real)
    requires |goalsX| <= |goalsY|
    requires forall p, q :: 0 <= p < q < |agents| ==> agents[p] != agents[q]
    modifies agents`pbest, agents`pbestP, agents`pbestAvg, agents`px, agents`py
    ensures forall j :: 0 <= j < |agents| ==>
              var f := DistanceSum(sqrt, goalsX, goalsY, agents[j].x, agents[j].y);
              if old(agents[j].pbest).Above(f) then Seeded(agents[j], f) else unchanged(agents[j])
  {
    var k := 0;
    while k < |agents|
      invariant 0 <= k <= |agents|
      invariant forall j :: 0 <= j < k ==>
                  var f := DistanceSum(sqrt, goalsX, goalsY, agents[j].x, agents[j].y);
                  if old(agents[j].pbest).Above(f) then Seeded(agents[j], f) else unchanged(agents[j])
      invariant forall j :: k <= j < |agents| ==> unchanged(agents[j])
    {
      var f := SumDistances(goalsX, goalsY, agents[k].x, agents[k].y, sqrt);
      SeedAgent(agents[k], f);
      k := k + 1;
    }
  }
}
