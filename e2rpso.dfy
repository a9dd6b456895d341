// The exploration-enhanced swarm search of E2RPSO.py: every step each agent
// spends one credit of the 10 by 10 area it stands in (and, every 50 steps,
// one of a far area it is sent to), picks its cognitive, social and
// exploration coefficients from the credit left in its own area, moves with
// a limited velocity among the obstacles and the other agents, and falls
// back to the obstacle avoidance when the move is blocked. After the agent
// loop the agents are repainted, at most one target is credited, and the
// found targets are dropped from the target and goal lists.
//
// E2RPSO.py calls a helper module of its own that is not part of this
// model. Where its calls agree with the earlier helper module (the average
// personal best, the unit speeds, the velocity limit) that module's
// behaviour is used; the other four calls (the initialisation, the choice
// of the far area, the obstacle avoidance and the best update) are inputs:
// their results come with the agent's draws.

module E2RPSO {
  import opened Numerics
  import opened Geometry
  import opened ContinuousGrid
  import opened Collision
  import opened SwarmUtil
  import opened SearchStep
  import RDPSO
  import opened E2RPSOUtilOld

  /** The cognitive and social coefficients. */
  const C1: real := 0.4
  const C2: real := 0.9
  /** The exploration coefficient `C3_index * C2` with `C3_index = 1.5`. */
  const C3: real := 1.5 * C2
  /** The credit one visit spends. */
  const K: int := 1
  /** The far area is chosen again on every step that is a multiple of this. */
  const UF: nat := 50
  /** The credit below which an agent stops following its bests. */
  const EXPLORE: int := 25

  // ----- the credit table -----

  /** The credit left in the whole table. */
  function Sum(s: seq<int>): int
  {
    if s == [] then 0 else s[0] + Sum(s[1..])
  }

  /** Changing one entry changes the total by the difference. */
  lemma {:induction false} SumUpdate(s: seq<int>, i: nat, v: int)
    requires i < |s|
    ensures Sum(s[i := v]) == Sum(s) - s[i] + v
  {
    if i == 0 {
      assert s[i := v][1..] == s[1..];
    } else {
      assert s[i := v][1..] == s[1..][i - 1 := v];
      SumUpdate(s[1..], i - 1, v);
    }
  }

  /** `Out_list[i] -= K`: Python's index rules pick the entry (a negative
      index counts from the end, one out of range raises `IndexError`, here
      `None`), which loses `K` credits; the table's total drops by `K`. */
  method Spend(out: array<int>, i: int) returns (cell: Option<nat>)
    modifies out
    ensures cell == PyIndex(i, out.Length)
    ensures cell.Some? ==> out[..] == old(out[..])[cell.value := old(out[cell.value]) - K]
    ensures cell.Some? ==> Sum(out[..]) == Sum(old(out[..])) - K
    ensures cell.None? ==> out[..] == old(out[..])
  {
    cell := PyIndex(i, out.Length);
    if cell.Some? {
      SumUpdate(out[..], cell.value, out[cell.value] - K);
      out[cell.value] := out[cell.value] - K;
    }
  }

  // ----- areas -----

  /** `int(int((y - 1) / 10) * SIDE / 10 + int(x / 10))`: the 10 by 10 area
      of the point `(x, y)` on a map of side `side`, counted row by row with
      `side / 10` areas to a row. On the map its row and column are
      recovered from it. */
  function AreaId(x: real, y: real, side: int): (id: int)
    ensures 0.0 <= x < side as real && 0.0 <= y && 10 <= side && side % 10 == 0 ==>
              0 <= id && id % (side / 10) == Trunc(x / 10.0) && id / (side / 10) == Trunc((y - 1.0) / 10.0)
  {
    var row, col := Trunc((y - 1.0) / 10.0), Trunc(x / 10.0);
    var id := Trunc((row * side) as real / 10.0 + col as real);
    if 0.0 <= x < side as real && 0.0 <= y && 10 <= side && side % 10 == 0 then
      AreaOfCell(row, col, side);
      id
    else
      id
  }

  /** A row and a column of areas, as `AreaId` combines them. */
  lemma AreaOfCell(row: int, col: int, side: int)
    requires 0 <= row && 10 <= side && side % 10 == 0
    ensures Trunc((row * side) as real / 10.0 + col as real) == row * (side / 10) + col
    ensures 0 <= col < side / 10 ==>
              var id := row * (side / 10) + col; 0 <= id && id % (side / 10) == col && id / (side / 10) == row
  {
    var cols := side / 10;
    assert side == 10 * cols;
    assert row * side == 10 * (row * cols);
    assert (row * side) as real / 10.0 == (row * cols) as real;
    if 0 <= col < cols {
      RowColumnOf(row, col, cols);
    }
  }

  /** A column below `cols` and a non-negative row are recovered from
      `row * cols + col`. */
  lemma RowColumnOf(row: int, col: int, cols: int)
    requires 0 <= row && 0 <= col < cols
    ensures 0 <= row * cols + col
    ensures (row * cols + col) % cols == col && (row * cols + col) / cols == row
  {
    var n := row * cols + col;
    MulNonNegInt(row, cols);
    var q, r := n / cols, n % cols;
    assert n == cols * q + r && 0 <= r < cols;
    assert cols * (q - row) == col - r;
    if q > row {
      MulAtLeast(q - row, cols);
    } else if q < row {
      MulAtLeast(row - q, cols);
    }
  }

  lemma MulNonNegInt(a: int, b: int)
    requires 0 <= a && 0 <= b
    ensures 0 <= a * b
  {
  }

  lemma MulAtLeast(a: int, b: int)
    requires 1 <= a && 0 <= b
    ensures b <= b * a
  {
    assert b * a == b + b * (a - 1);
    MulNonNegInt(b, a - 1);
  }

  /** The number of areas in a row of a map of side `side` (one on a map
      narrower than an area). */
  function Columns(side: int): (cols: nat)
    ensures 1 <= cols && (10 <= side ==> cols == side / 10)
  {
    if side < 10 then 1 else side / 10
  }

  /** The centre of area `id` on a map of side `side`. */
  function FarCentreOn(id: int, side: int): (p: (real, real))
  {
    var cols := Columns(side);
    (((id % cols) * 10 + 5) as real, ((id / cols) * 10 + 5) as real)
  }

  /** The steering point is the centre of the far area: it lies in that area. */
  lemma {:induction false} FarCentreRoundTrip(id: int, side: int)
    requires 0 <= id && 10 <= side && side % 10 == 0
    ensures var p := FarCentreOn(id, side); AreaId(p.0, p.1, side) == id
  {
    var cols := side / 10;
    var row, col := id / cols, id % cols;
    var p := FarCentreOn(id, side);
    assert p == ((col * 10 + 5) as real, (row * 10 + 5) as real);
    assert (p.1 - 1.0) / 10.0 == row as real + 0.4;
    assert Trunc((p.1 - 1.0) / 10.0) == row;
    assert p.0 / 10.0 == col as real + 0.5;
    assert Trunc(p.0 / 10.0) == col;
    AreaOfCell(row, col, side);
    assert id == cols * row + col;
  }

  /** `((id % 10) * 10 + 5, (id // 10) * 10 + 5)`: the steering point as the
      loop decodes it, ten areas to a row whatever the map's side. */
  function FarCentre(id: int): (p: (real, real))
  {
    (((id % 10) * 10 + 5) as real, ((id / 10) * 10 + 5) as real)
  }

  /** On the 100 wide map the decoding as written is the centre of the area. */
  lemma FarCentreOn100(id: int)
    ensures FarCentre(id) == FarCentreOn(id, 100)
  {
  }

  /** On the 200 wide map the point decoded for area 25 lies in area 45. */
  lemma FarCentreMisplaced()
    ensures FarCentre(25) == (55.0, 25.0)
    ensures AreaId(55.0, 25.0, 200) == 45
    ensures FarCentreOn(25, 200) == (55.0, 15.0) && AreaId(55.0, 15.0, 200) == 25
  {
    assert Trunc((25.0 - 1.0) / 10.0) == 2;
    assert Trunc(55.0 / 10.0) == 5;
    assert Trunc((2 * 200) as real / 10.0 + 5 as real) == 45;
    assert Trunc((15.0 - 1.0) / 10.0) == 1;
    assert Trunc((1 * 200) as real / 10.0 + 5 as real) == 25;
  }

  // ----- coefficients and velocity -----

  /** `(c1, c2, c3)` from the credit left in the agent's own area: a spent
      area (no credit left) pulls to the far area with `2 * C3`, a nearly
      spent one (under 25) with `C3`, and otherwise the agent follows its
      bests with `C1` and `C2` and no pull to the far area. */
  function Tier(credit: int): (k: (real, real, real))
    ensures credit <= 0 ==> k == (0.0, 0.0, 2.0 * C3)
    ensures 0 < credit < EXPLORE ==> k == (0.0, 0.0, C3)
    ensures EXPLORE <= credit ==> k == (C1, C2, 0.0)
  {
    if credit <= 0 then (0.0, 0.0, 2.0 * C3)
    else if credit < EXPLORE then (0.0, 0.0, C3)
    else (C1, C2, 0.0)
  }

  /** Exactly one of the two pulls is on: the agent follows its bests exactly
      when its area has 25 credits or more, and is drawn to the far area
      exactly when it has fewer. */
  lemma TierExclusive(credit: int)
    ensures Tier(credit).0 == 0.0 <==> credit < EXPLORE
    ensures Tier(credit).1 == 0.0 <==> credit < EXPLORE
    ensures Tier(credit).2 == 0.0 <==> EXPLORE <= credit
  {
  }

  /** The less credit is left, the stronger the pull to the far area and the
      weaker the pull to the bests. */
  lemma TierMonotone(a: int, b: int)
    requires a <= b
    ensures Tier(b).2 <= Tier(a).2
    ensures Tier(a).0 <= Tier(b).0 && Tier(a).1 <= Tier(b).1
  {
  }

  /** The velocity before the limit: inertia, the cognitive and social pulls
      along the unit speeds `u`, the exploration pull along the direction
      `e` to the far area, with the draws `r`, times 100. */
  function Velocity(w: real, vx: real, vy: real, u: (real, real, real, real), r: (real, real, real),
                    k: (real, real, real), e: (real, real)): (v: (real, real))
  {
    (100.0 * (w * vx + r.0 * k.0 * u.0 + k.1 * r.1 * u.2 + k.2 * r.2 * e.0),
     100.0 * (w * vy + r.0 * k.0 * u.1 + k.1 * r.1 * u.3 + k.2 * r.2 * e.1))
  }

  /** An agent whose area has 25 credits or more ignores the far area, and
      one whose area has fewer ignores its bests. */
  lemma VelocityFollowsTier(w: real, vx: real, vy: real, u: (real, real, real, real), u': (real, real, real, real),
                            r: (real, real, real), credit: int, e: (real, real), e': (real, real))
    ensures EXPLORE <= credit ==> Velocity(w, vx, vy, u, r, Tier(credit), e) == Velocity(w, vx, vy, u, r, Tier(credit), e')
    ensures credit < EXPLORE ==> Velocity(w, vx, vy, u, r, Tier(credit), e) == Velocity(w, vx, vy, u', r, Tier(credit), e)
  {
  }

  /** `((pu_x - x) / dist, (pu_y - y) / dist)` with `dist = hypot(pu_x - x,
      pu_y - y)`: the unit direction from the agent to the steering point,
      `None` where `dist` is 0 and Python raises `ZeroDivisionError`. */
  function FarDirection(x: real, y: real, pu: (real, real), sqrt: real -> real): (e: Option<(real, real)>)
    requires IsSqrt(sqrt)
    ensures e.None? <==> pu == (x, y)
    ensures e.Some? ==> DirectionOf(e.value, pu.0 - x, pu.1 - y)
  {
    var dx, dy := pu.0 - x, pu.1 - y;
    LengthZeroIff(dx, dy, sqrt);
    if dx == 0.0 && dy == 0.0 then None
    else
      NormalizeUnit(dx, dy, sqrt);
      Some(Normalize(dx, dy, sqrt))
  }

  // ----- moving -----

  /** The outcome of a turn's moves for an agent that stood at `(x, y)`
      with the trajectory `xs`, `ys`: the step `v` is taken exactly when
      its destination keeps clear of the arena's edge, the obstacles and
      the other agents (which the turn does not move); otherwise the agent
      goes to the point and velocity `avoid`. Either way its last point is
      `(x, y)` and its trajectory grows by its new point. */
  ghost predicate Relocated(agent: Agent, grid: Grid, x: real, y: real, xs: seq<real>, ys: seq<real>, moved: bool,
                            v: (real, real), avoid: (real, real, real, real))
    reads agent, grid, grid.agents
  {
    && (moved <==>
          && !HitsObstacle(grid.width as real, grid.height as real, grid.obstacles, x + v.0, y + v.1, agent.radius)
          && !HitsAgent(grid.width as real, grid.height as real, grid.agents, agent, x + v.0, y + v.1, agent.radius))
    && (moved ==> agent.x == x + v.0 && agent.y == y + v.1 && (agent.vx, agent.vy) == v)
    && (!moved ==> (agent.x, agent.y, agent.vx, agent.vy) == avoid)
    && agent.lastX == x && agent.lastY == y
    && agent.listX == xs + [agent.x] && agent.listY == ys + [agent.y]
  }

  /** `move` with the limited velocity `v`, which commits the step only when
      the destination keeps clear of the arena's edge, the obstacles and the
      other agents; otherwise the agent goes to the point `avoidObstacle`
      proposes, with its velocity. `setVelocity` follows in both cases. */
  method Relocate(agent: Agent, grid: Grid, v: (real, real), avoid: (real, real, real, real), sqrt: real -> real)
    returns (moved: bool)
    requires agent.Valid() && IsSqrt(sqrt)
    modifies agent`x, agent`y, agent`lastX, agent`lastY, agent`listX, agent`listY, agent`vx, agent`vy
    ensures agent.Valid()
    ensures Relocated(agent, grid, old(agent.x), old(agent.y), old(agent.listX), old(agent.listY), moved, v, avoid)
  {
    moved := MoveAmongAgents(agent, v.0, v.1, grid, sqrt);
    var vx, vy := v.0, v.1;
    if !moved {
      agent.SetCoords(avoid.0, avoid.1);
      vx, vy := avoid.2, avoid.3;
    }
    agent.SetVelocity(vx, vy);
    assert forall k :: 0 <= k < |grid.agents| && grid.agents[k] != agent ==>
             old(AgentBox(grid.agents[k])) == AgentBox(grid.agents[k]);
  }

  /** What `update_GbestPbest` returns and leaves in the agent: the personal
      bests and their point, and the global best and its point. */
  datatype Update = Update(pbest: Ext, pbestP: Ext, px: real, py: real, gbest: Ext, gx: real, gy: real)

  /** The draws of one agent's turn: the three `random.uniform(0, 1)` draws,
      and the results of the helper calls whose code is not part of this
      model: the far area `find_FarthestAndEmptiestArea` picks, the point
      and velocity `avoidObstacle` proposes, and the bests
      `update_GbestPbest` yields. */
  datatype Choice = Choice(r1: Unit, r2: Unit, r3: Unit, far: int, avoid: (real, real, real, real), update: Update)

  /** The agent holds the personal bests of `u`. */
  predicate Recorded(agent: Agent, u: Update)
    reads agent
  {
    (agent.pbest, agent.pbestP, agent.px, agent.py) == (u.pbest, u.pbestP, u.px, u.py)
  }

  /** `update_GbestPbest` as its results are given. */
  method Record(agent: Agent, u: Update) returns (g: Ext, gx: real, gy: real)
    modifies agent`pbest, agent`pbestP, agent`px, agent`py
    ensures (agent.pbest, agent.pbestP, agent.px, agent.py) == (u.pbest, u.pbestP, u.px, u.py)
    ensures (g, gx, gy) == (u.gbest, u.gx, u.gy)
  {
    agent.pbest, agent.pbestP, agent.px, agent.py := u.pbest, u.pbestP, u.px, u.py;
    g, gx, gy := u.gbest, u.gx, u.gy;
  }

  // ----- one agent's turn -----

  /** The velocity the agent aims for in its turn: inertia with weight
      `w` and the pulls with coefficients `k` along the unit speeds to its
      bests and the direction `e` to the far area, from its velocity and
      point (read at the start of the turn), then the velocity limit. */
  function Aimed(agent: Agent, w: real, k: (real, real, real), e: (real, real), gx: real, gy: real,
                 ch: Choice, vLimit: real, sqrt: real -> real): (v: (real, real))
    requires IsSqrt(sqrt) && 0.0 <= vLimit
    reads agent
    ensures v.0 * v.0 + v.1 * v.1 <= vLimit * vLimit
  {
    var r := (Uniform(0.0, 1.0, ch.r1), Uniform(0.0, 1.0, ch.r2), Uniform(0.0, 1.0, ch.r3));
    var u := UnitSpeed(agent.x, agent.y, agent.px, agent.py, gx, gy, sqrt);
    var raw := Velocity(w, agent.vx, agent.vy, u, r, k, e);
    RDPSO.Limited(raw.0, raw.1, vLimit, sqrt)
  }

  /** The turn of `agent` in step `steps`, with `far` its far area so far:
      the inertia weight, the credit spent in its own area (and every 50
      steps in a newly chosen far area), the coefficients from the credit
      left in its own area, the direction to the centre of the far area as
      the loop decodes it, then the velocity, the move and the best update.
      `crashed` stands for a Python exception: a weight with no value, a
      table index out of range, or an agent standing on the steering point.
      Without one the table loses one credit, or two on a step that picks a
      far area, the agent moves by the `Relocate` rule with the velocity it
      aims for, and its bests are the ones recorded. */
  method Turn(agent: Agent, grid: Grid, out: array<int>, steps: nat, far: int, gbest: Ext, gx: real, gy: real,
              bestAvg: Ext, ch: Choice, vLimit: real, sqrt: real -> real)
    returns (crashed: bool, far': int, g: Ext, nx: real, ny: real, moved: bool)
    requires agent.Valid() && IsSqrt(sqrt) && 0.0 <= vLimit
    modifies out, agent`x, agent`y, agent`lastX, agent`lastY, agent`listX, agent`listY, agent`vx, agent`vy
    modifies agent`pbest, agent`pbestP, agent`px, agent`py
    ensures agent.Valid()
    ensures far' == (if steps % UF == 0 then ch.far else far)
    ensures crashed <==>
              || Weight(old(agent.pbestP), old(agent.pbest), gbest, bestAvg).None?
              || PyIndex(AreaId(old(agent.x), old(agent.y), grid.height), out.Length).None?
              || (steps % UF == 0 && PyIndex(far', out.Length).None?)
              || FarDirection(old(agent.x), old(agent.y), FarCentre(far'), sqrt).None?
    ensures !crashed ==> Sum(out[..]) == Sum(old(out[..])) - (if steps % UF == 0 then 2 * K else K)
    ensures !crashed ==>
              var cell := PyIndex(AreaId(old(agent.x), old(agent.y), grid.height), out.Length);
              && cell.Some?
              && Charged(old(out[..]), cell.value, if steps % UF == 0 then PyIndex(far', out.Length) else None, out[..])
    ensures !crashed ==>
              var w := Weight(old(agent.pbestP), old(agent.pbest), gbest, bestAvg);
              var cell := PyIndex(AreaId(old(agent.x), old(agent.y), grid.height), out.Length);
              var e := FarDirection(old(agent.x), old(agent.y), FarCentre(far'), sqrt);
              && w.Some? && cell.Some? && e.Some?
              && var k := Tier(out[cell.value]);
                 Relocated(agent, grid, old(agent.x), old(agent.y), old(agent.listX), old(agent.listY), moved,
                           old(Aimed(agent, w.value, k, e.value, gx, gy, ch, vLimit, sqrt)), ch.avoid)
    ensures !crashed ==>
              && (agent.pbest, agent.pbestP, agent.px, agent.py) == (ch.update.pbest, ch.update.pbestP, ch.update.px, ch.update.py)
              && (g, nx, ny) == (ch.update.gbest, ch.update.gx, ch.update.gy)
  {
    far' := if steps % UF == 0 then ch.far else far;
    g, nx, ny, moved := gbest, gx, gy, false;
    var w := Weight(agent.pbestP, agent.pbest, gbest, bestAvg);
    if w.None? {
      return true, far', g, nx, ny, moved;
    }
    var cell := Spend(out, AreaId(agent.x, agent.y, grid.height));
    if cell.None? {
      return true, far', g, nx, ny, moved;
    }
    if steps % UF == 0 {
      var spent := Spend(out, far');
      if spent.None? {
        return true, far', g, nx, ny, moved;
      }
    }
    var k := Tier(out[cell.value]);
    var e := FarDirection(agent.x, agent.y, FarCentre(far'), sqrt);
    if e.None? {
      return true, far', g, nx, ny, moved;
    }
    crashed := false;
    g, nx, ny, moved := Advance(agent, grid, w.value, k, e.value, gx, gy, ch, vLimit, sqrt);
  }

  /** `charged` is the credit table `table` once its area cell `cell` has
      lost `K` credits and then, when a far area `far` is picked, that
      area has lost `K` more. */
  predicate Charged(table: seq<int>, cell: nat, far: Option<nat>, charged: seq<int>)
  {
    && cell < |table| && (far.Some? ==> far.value < |table|)
    && var spent := table[cell := table[cell] - K];
       charged == if far.Some? then spent[far.value := spent[far.value] - K] else spent
  }

  /** The second half of a turn: the limited velocity, the move and the
      best update. */
  method Advance(agent: Agent, grid: Grid, w: real, k: (real, real, real), e: (real, real), gx: real, gy: real,
                 ch: Choice, vLimit: real, sqrt: real -> real)
    returns (g: Ext, nx: real, ny: real, moved: bool)
    requires agent.Valid() && IsSqrt(sqrt) && 0.0 <= vLimit
    modifies agent`x, agent`y, agent`lastX, agent`lastY, agent`listX, agent`listY, agent`vx, agent`vy
    modifies agent`pbest, agent`pbestP, agent`px, agent`py
    ensures agent.Valid()
    ensures Relocated(agent, grid, old(agent.x), old(agent.y), old(agent.listX), old(agent.listY), moved,
                      old(Aimed(agent, w, k, e, gx, gy, ch, vLimit, sqrt)), ch.avoid)
    ensures (agent.pbest, agent.pbestP, agent.px, agent.py) == (ch.update.pbest, ch.update.pbestP, ch.update.px, ch.update.py)
    ensures (g, nx, ny) == (ch.update.gbest, ch.update.gx, ch.update.gy)
  {
    var r := (Uniform(0.0, 1.0, ch.r1), Uniform(0.0, 1.0, ch.r2), Uniform(0.0, 1.0, ch.r3));
    var u := UnitSpeed(agent.x, agent.y, agent.px, agent.py, gx, gy, sqrt);
    var raw := Velocity(w, agent.vx, agent.vy, u, r, k, e);
    var v := RDPSO.Limited(raw.0, raw.1, vLimit, sqrt);
    moved := Relocate(agent, grid, v, ch.avoid, sqrt);
    g, nx, ny := Record(agent, ch.update);
  }

  /** `Turn` of agent `k` as the agent loop uses it: the other agents are
      left as they were, and without a crash the agent's trajectory grows
      by one point and its bests are the ones recorded. */
  method TakeTurn(grid: Grid, k: nat, agent: Agent, out: array<int>, steps: nat, far: int, gbest: Ext, gx: real,
                  gy: real, bestAvg: Ext, ch: Choice, vLimit: real, sqrt: real -> real)
    returns (crashed: bool, far': int, g: Ext, nx: real, ny: real)
    requires grid.Valid() && k < |grid.agents| && agent == grid.agents[k] && IsSqrt(sqrt) && 0.0 <= vLimit
    modifies out, agent`x, agent`y, agent`lastX, agent`lastY, agent`listX, agent`listY, agent`vx, agent`vy
    modifies agent`pbest, agent`pbestP, agent`px, agent`py
    ensures grid.Valid() && far' == (if steps % UF == 0 then ch.far else far)
    ensures forall j :: 0 <= j < |grid.agents| && j != k ==> unchanged(grid.agents[j])
    ensures !crashed ==> |grid.agents[k].listX| == old(|grid.agents[k].listX|) + 1
    ensures !crashed ==> Recorded(grid.agents[k], ch.update) && (g, nx, ny) == (ch.update.gbest, ch.update.gx, ch.update.gy)
  {
    assert agent in grid.agents;
    var moved;
    crashed, far', g, nx, ny, moved := Turn(agent, grid, out, steps, far, gbest, gx, gy, bestAvg, ch, vLimit, sqrt);
  }

  // ----- the step loop -----

  /** The far areas after the first `k` agents' turns in step `steps`:
      on a step that is a multiple of `UF` each of them takes the far area
      of its draws, and otherwise none changes. */
  function Refreshed(fars: seq<int>, ds: seq<Choice>, steps: nat, k: nat): (r: seq<int>)
    requires |ds| == |fars| && k <= |fars|
    ensures |r| == |fars|
    ensures forall j :: 0 <= j < |fars| ==> r[j] == if j < k && steps % UF == 0 then ds[j].far else fars[j]
  {
    seq(|fars|, j requires 0 <= j < |fars| => if j < k && steps % UF == 0 then ds[j].far else fars[j])
  }

  /** One more turn refreshes one more far area. */
  lemma RefreshedStep(fars: seq<int>, ds: seq<Choice>, steps: nat, k: nat)
    requires |ds| == |fars| && k < |fars|
    ensures Refreshed(fars, ds, steps, k)[k := if steps % UF == 0 then ds[k].far else fars[k]]
            == Refreshed(fars, ds, steps, k + 1)
  {
  }


  /** The agent loop of one step, in list order, threading the global best
      through the turns (`ds[k]` holds agent `k`'s draws, `fars[k]` its far
      area). Without a crash every trajectory grows by one point. */
  method Sweep(grid: Grid, out: array<int>, steps: nat, fars: seq<int>, gbest: Ext, gx: real, gy: real,
               bestAvg: Ext, ds: seq<Choice>, vLimit: real, sqrt: real -> real)
    returns (crashed: bool, fars': seq<int>, g: Ext, nx: real, ny: real)
    requires grid.Valid() && IsSqrt(sqrt) && 0.0 <= vLimit && |fars| == |grid.agents| && |ds| == |grid.agents|
    modifies out, grid.agents`x, grid.agents`y, grid.agents`lastX, grid.agents`lastY, grid.agents`listX
    modifies grid.agents`listY, grid.agents`vx, grid.agents`vy, grid.agents`pbest, grid.agents`pbestP
    modifies grid.agents`px, grid.agents`py
    ensures grid.Valid() && |fars'| == |fars|
    ensures !crashed ==> forall j :: 0 <= j < |grid.agents| ==> |grid.agents[j].listX| == old(|grid.agents[j].listX|) + 1
    ensures !crashed ==> fars' == Refreshed(fars, ds, steps, |fars|)
    ensures !crashed ==> forall j :: 0 <= j < |grid.agents| ==> Recorded(grid.agents[j], ds[j].update)
    ensures !crashed && grid.agents != [] ==>
              (g, nx, ny) == (ds[|ds| - 1].update.gbest, ds[|ds| - 1].update.gx, ds[|ds| - 1].update.gy)
  {
    fars', g, nx, ny := fars, gbest, gx, gy;
    var k := 0;
    while k < |grid.agents|
      invariant 0 <= k <= |grid.agents| && |fars'| == |fars|
      invariant fars' == Refreshed(fars, ds, steps, k)
      invariant grid.Valid()
      invariant forall j :: 0 <= j < |grid.agents| ==>
                  |grid.agents[j].listX| == old(|grid.agents[j].listX|) + (if j < k then 1 else 0)
      invariant forall j :: 0 <= j < k ==> Recorded(grid.agents[j], ds[j].update)
      invariant 0 < k ==> (g, nx, ny) == (ds[k - 1].update.gbest, ds[k - 1].update.gx, ds[k - 1].update.gy)
    {
      var f;
      crashed, f, g, nx, ny := TakeTurn(grid, k, grid.agents[k], out, steps, fars'[k], g, nx, ny, bestAvg, ds[k], vLimit, sqrt);
      if crashed {
        return;
      }
      RefreshedStep(fars, ds, steps, k);
      fars' := fars'[k := f];
      k := k + 1;
    }
    assert k == |ds|;
    crashed := false;
  }

  /** The average personal best (dividing by zero without agents), then
      the agent loop. */
  method Iterate(grid: Grid, out: array<int>, steps: nat, fars: seq<int>, gbest: Ext, gx: real, gy: real,
                 ds: seq<Choice>, vLimit: real, sqrt: real -> real)
    returns (crashed: bool, fars': seq<int>, g: Ext, nx: real, ny: real)
    requires grid.Valid() && IsSqrt(sqrt) && 0.0 <= vLimit && |fars| == |grid.agents| && |ds| == |grid.agents|
    modifies out, grid.agents`x, grid.agents`y, grid.agents`lastX, grid.agents`lastY, grid.agents`listX
    modifies grid.agents`listY, grid.agents`vx, grid.agents`vy, grid.agents`pbest, grid.agents`pbestP
    modifies grid.agents`px, grid.agents`py
    ensures grid.Valid() && |fars'| == |fars|
    ensures grid.agents == [] ==> crashed
    ensures !crashed ==> fars' == Refreshed(fars, ds, steps, |fars|)
    ensures !crashed ==> forall j :: 0 <= j < |grid.agents| ==> Recorded(grid.agents[j], ds[j].update)
    ensures !crashed ==>
              (g, nx, ny) == (ds[|ds| - 1].update.gbest, ds[|ds| - 1].update.gx, ds[|ds| - 1].update.gy)
  {
    if grid.agents == [] {
      return true, fars, gbest, gx, gy;
    }
    var bestAvg := UpdateBestAvg(grid.agents);
    crashed, fars', g, nx, ny := Sweep(grid, out, steps, fars, gbest, gx, gy, bestAvg, ds, vLimit, sqrt);
  }

  /** One step of `E2RPSO`: the average personal best and the agent loop,
      then `pos_change` and one detection sweep with each agent's own radius, crediting at most one target;
      unless every target is then found, the found targets are dropped
      from the target and goal lists. A crash leaves the targets as they
      were. */
  method Step(grid: Grid, out: array<int>, steps: nat, fars: seq<int>, gbest: Ext, gx: real, gy: real,
              goalsX: seq<real>, goalsY: seq<real>, ds: seq<Choice>, found: nat, total: nat, vLimit: real,
              sqrt: real -> real)
    returns (crashed: bool, fars': seq<int>, g: Ext, nx: real, ny: real, newFound: nat, xs: seq<real>,
             ys: seq<real>)
    requires grid.Valid() && IsSqrt(sqrt) && 0.0 <= vLimit && GoalsMatch(grid.targets, goalsX, goalsY)
    requires |fars| == |grid.agents| && |ds| == |grid.agents| && found + |Present(grid.targets)| == total
    modifies out, grid.cells, grid`targets, grid.agents`targetsFound
    modifies grid.agents`x, grid.agents`y, grid.agents`lastX, grid.agents`lastY, grid.agents`listX
    modifies grid.agents`listY, grid.agents`vx, grid.agents`vy, grid.agents`pbest, grid.agents`pbestP
    modifies grid.agents`px, grid.agents`py
    ensures grid.Valid() && |fars'| == |fars|
    ensures found <= newFound <= found + 1 && newFound + |Present(grid.targets)| == total
    ensures crashed ==> newFound == found
    ensures grid.agents == [] ==> crashed
    ensures !crashed && newFound < total ==> (forall t :: t in grid.targets ==> t.Some?) && GoalsMatch(grid.targets, xs, ys)
    ensures !crashed ==> fars' == Refreshed(fars, ds, steps, |fars|)
    ensures !crashed ==> forall j :: 0 <= j < |grid.agents| ==> Recorded(grid.agents[j], ds[j].update)
    ensures !crashed ==>
              (g, nx, ny) == (ds[|ds| - 1].update.gbest, ds[|ds| - 1].update.gx, ds[|ds| - 1].update.gy)
  {
    newFound, xs, ys := found, goalsX, goalsY;
    crashed, fars', g, nx, ny := Iterate(grid, out, steps, fars, gbest, gx, gy, ds, vLimit, sqrt);
    if crashed {
      return;
    }
    newFound, xs, ys := Conclude(grid, false, found, total, goalsX, goalsY, sqrt);
  }

  /** The step loop of `E2RPSO` from the state `init_E2RPSO` leaves: at most
      `max_steps` steps (`draws[s]` holds the draws of step `s`), every far
      area starting at area 0, the loop stopping once every target is
      found. `steps` is the index of the last step run, and every step
      credits at most one target. Without a crash the loop stops early only
      when every target is found. */
  method Run(grid: Grid, out: array<int>, maxSteps: nat, goalsX: seq<real>, goalsY: seq<real>, gbest: Ext, gx: real,
             gy: real, draws: seq<seq<Choice>>, vLimit: real, sqrt: real -> real)
    returns (crashed: bool, steps: nat, found: nat, ghost counts: seq<nat>)
    requires grid.Valid() && IsSqrt(sqrt) && 0.0 <= vLimit
    requires (forall t :: t in grid.targets ==> t.Some?) && GoalsMatch(grid.targets, goalsX, goalsY)
    requires |draws| >= maxSteps && forall s :: 0 <= s < maxSteps ==> |draws[s]| == |grid.agents|
    modifies out, grid.cells, grid`targets, grid.agents`targetsFound
    modifies grid.agents`x, grid.agents`y, grid.agents`lastX, grid.agents`lastY, grid.agents`listX
    modifies grid.agents`listY, grid.agents`vx, grid.agents`vy, grid.agents`pbest, grid.agents`pbestP
    modifies grid.agents`px, grid.agents`py
    ensures grid.Valid()
    ensures |counts| <= maxSteps && Tally(counts, found, steps, |old(grid.targets)|)
    ensures !crashed && found < |old(grid.targets)| ==> |counts| == maxSteps
    ensures found + |Present(grid.targets)| == |old(grid.targets)|
  {
    PresentAllSome(grid.targets);
    var totalTargets := |grid.targets|;
    var fars := seq(|grid.agents|, _ => 0);
    var xs, ys, g, x, y := goalsX, goalsY, gbest, gx, gy;
    crashed, found, steps, counts := false, 0, 0, [];
    var s := 0;
    while s < maxSteps
      invariant 0 <= s <= maxSteps && |counts| == s
      invariant grid.Valid() && |fars| == |grid.agents|
      invariant (forall t :: t in grid.targets ==> t.Some?) && GoalsMatch(grid.targets, xs, ys)
      invariant Tally(counts, found, steps, totalTargets)
      invariant found + |Present(grid.targets)| == totalTargets
      invariant counts != [] ==> found < totalTargets
    {
      var next, crash;
      crash, fars, g, x, y, next, xs, ys := Step(grid, out, s, fars, g, x, y, xs, ys, draws[s], found, totalTargets,
                                                 vLimit, sqrt);
      if crash {
        return true, steps, found, counts;
      }
      TallySnoc(counts, found, steps, next, totalTargets);
      found, steps, counts := next, s, counts + [next];
      if found == totalTargets {
        break;
      }
      s := s + 1;
    }
  }

  /** `E2RPSO(grid, max_steps, step_size)` from the table `out`, the goal
      lists and the global best `init_E2RPSO` yields, with the limit
      `V_LIMIT = step_size`: the index of the last step run, the number of
      targets found and the distance every agent's trajectory covers.
      `crashed` stands for a Python exception. */
  method Search(grid: Grid, out: array<int>, maxSteps: nat, stepSize: real, goalsX: seq<real>, goalsY: seq<real>,
                gbest: Ext, gx: real, gy: real, draws: seq<seq<Choice>>, sqrt: real -> real)
    returns (crashed: bool, steps: nat, found: nat, total: real, ghost counts: seq<nat>)
    requires grid.Valid() && IsSqrt(sqrt) && 0 < maxSteps && 0.0 <= stepSize
    requires (forall t :: t in grid.targets ==> t.Some?) && GoalsMatch(grid.targets, goalsX, goalsY)
    requires |draws| >= maxSteps && forall s :: 0 <= s < maxSteps ==> |draws[s]| == |grid.agents|
    modifies out, grid.cells, grid`targets, grid.agents`targetsFound
    modifies grid.agents`x, grid.agents`y, grid.agents`lastX, grid.agents`lastY, grid.agents`listX
    modifies grid.agents`listY, grid.agents`vx, grid.agents`vy, grid.agents`pbest, grid.agents`pbestP
    modifies grid.agents`px, grid.agents`py
    ensures grid.Valid()
    ensures |counts| <= maxSteps && Tally(counts, found, steps, |old(grid.targets)|)
    ensures !crashed && found < |old(grid.targets)| ==> |counts| == maxSteps
    ensures found + |Present(grid.targets)| == |old(grid.targets)|
    ensures total == TotalDistance(grid.agents, sqrt) && 0.0 <= total
  {
    crashed, steps, found, counts := Run(grid, out, maxSteps, goalsX, goalsY, gbest, gx, gy, draws, stepSize, sqrt);
    total := grid.TotalDistanceCovered(sqrt);
    TotalDistanceNonNeg(grid.agents, sqrt);
  }
}
