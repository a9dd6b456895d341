// The earlier exploration-enhanced swarm search (Old_versions/E2RPSO.py):
// every iteration each robot counts the goals it reaches, picks the
// farthest and least explored cell of an exploration table, chooses its
// cognitive, social and exploration coefficients from the credit left in
// its own cell, steers around sensed obstacles, moves with a limited
// velocity, bounces back at the edge of a fixed 100 by 100 map and spends
// one credit of the cell it ends in.

module E2RPSOOld {
  import opened Numerics
  import opened Geometry
  import opened ContinuousGrid
  import opened SwarmUtil
  import RDPSO
  import opened E2RPSOUtilOld

  /** The side of the square map the loop assumes, whatever the grid's size. */
  const SIDE: int := 100
  /** The goal count the result is reported against. */
  const GOAL_NUM: int := 10
  /** The cognitive and social coefficients. */
  const C1: real := 0.4
  const C2: real := 0.9
  /** The exploration coefficient `C3_index * C2`. */
  const C3: real := 5.0 * C2
  /** The credit the chosen far cell loses per turn. */
  const K: int := 1
  /** The side of a cell of the credit the robot spends, and the number of
      such cells in a row of the map. */
  const CELL: int := 5
  const COLUMNS: int := SIDE / CELL
  /** `c1` and `c2` are restored on every iteration that is a multiple of this. */
  const RESTORE: nat := 10

  // ----- coefficient policy -----

  /** The two values the pair `(c1, c2)` ever holds. */
  predicate Standard(c: (real, real))
  {
    c == (C1, C2) || c == (0.0, 0.0)
  }

  /** `(c1, c2)` at the start of a robot's turn in iteration `t`. */
  function Restored(t: nat, c: (real, real)): (r: (real, real))
    ensures t % RESTORE == 0 ==> r == (C1, C2)
    ensures t % RESTORE != 0 ==> r == c
  {
    if t % RESTORE == 0 then (C1, C2) else c
  }

  /** `(c1, c2, c3)` of a turn from the pair `c` it starts with, the
      `credit` left in the robot's own cell and the avoidance flag `ob`: a
      cell spent below -800 (else below -100) zeroes the pair and pulls to
      the far cell with `10 * C3` (else `C3`); a sensed obstacle pulls to the
      avoidance point with `C3` whatever the tier. */
  function Coefficients(c: (real, real), credit: int, ob: int): (k: (real, real, real))
    ensures Standard(c) ==> Standard((k.0, k.1))
    ensures credit < -100 ==> k.0 == 0.0 && k.1 == 0.0
    ensures -100 <= credit ==> (k.0, k.1) == c
    ensures k.2 == 0.0 || k.2 == C3 || k.2 == 10.0 * C3
    ensures ob == 1 ==> k.2 == C3
    ensures ob != 1 ==> (k.2 == 0.0 <==> -100 <= credit)
    ensures ob != 1 ==> (k.2 == 10.0 * C3 <==> credit < -800)
  {
    var tier := if credit < -800 then (0.0, 0.0, 10.0 * C3)
                else if credit < -100 then (0.0, 0.0, C3)
                else (c.0, c.1, 0.0);
    if ob == 1 then (tier.0, tier.1, C3) else tier
  }

  /** The less credit a cell has left, the stronger the pull away from it:
      without a sensed obstacle `c3` never grows with the credit. */
  lemma PullGrowsAsCreditFalls(c: (real, real), credit: int, more: int, ob: int)
    requires credit <= more && ob != 1
    ensures Coefficients(c, more, ob).2 <= Coefficients(c, credit, ob).2
  {
  }

  /** Once zeroed, the pair stays zero until the next restoring iteration. */
  lemma ZeroedUntilRestored(t: nat, credit: int, ob: int)
    requires t % RESTORE != 0
    ensures var k := Coefficients(Restored(t, (0.0, 0.0)), credit, ob);
            k.0 == 0.0 && k.1 == 0.0
  {
  }

  // ----- steering -----

  /** The corner `(((far + 1) % 20) * 50, int(far / 20 + 1) * 50)` the robot
      steers to when nothing is sensed. The cell is recovered from it, so
      distinct cells give distinct points. */
  function FarCorner(far: nat): (p: (int, int))
    ensures 0 <= p.0 < 1000 && p.0 % 50 == 0 && 50 <= p.1 && p.1 % 50 == 0
    ensures far == (p.1 / 50 - 1) * 20 + (p.0 / 50 + 19) % 20
  {
    var q, r := far / 20, far % 20;
    TruncRow(far);
    var p := (((far + 1) % 20) * 50, Trunc(far as real / 20.0 + 1.0) * 50);
    assert (far + 1) % 20 == if r == 19 then 0 else r + 1;
    assert p.0 / 50 == (far + 1) % 20;
    assert p.1 / 50 == q + 1;
    p
  }

  /** `int(far / 20 + 1)` with true division is the row after `far`'s. */
  lemma TruncRow(far: nat)
    ensures Trunc(far as real / 20.0 + 1.0) == far / 20 + 1
  {
    var q, r := far / 20, far % 20;
    assert far as real / 20.0 + 1.0 == (q + 1) as real + r as real / 20.0;
  }

  /** The point the robot steers to: the avoidance point when `ob == 1`,
      otherwise the far cell's corner. */
  function SteerPoint(av: (int, real, real), far: nat): (real, real)
  {
    if av.0 == 1 then (av.1, av.2) else ((FarCorner(far).0) as real, (FarCorner(far).1) as real)
  }

  /** The velocity of the update rule before the limit: inertia, the
      cognitive and social pulls along the unit vectors `u` to the personal
      and global bests, and the exploration pull to `pa`. */
  function Pull(w: real, vx: real, vy: real, u: (real, real, real, real), r1: real, r2: real,
                k: (real, real, real), pa: (real, real), x: real, y: real): (real, real)
  {
    (w * vx + r1 * k.0 * u.0 + k.1 * r2 * u.2 + k.2 * (pa.0 - x),
     w * vy + r1 * k.0 * u.1 + k.1 * r2 * u.3 + k.2 * (pa.1 - y))
  }

  /** A robot whose cell is spent below -100 ignores both bests: its
      velocity is the same whatever the unit vectors to them. */
  lemma SpentCellIgnoresBests(w: real, vx: real, vy: real, u: (real, real, real, real), u': (real, real, real, real),
                              r1: real, r2: real, c: (real, real), credit: int, ob: int, pa: (real, real),
                              x: real, y: real)
    requires credit < -100
    ensures var k := Coefficients(c, credit, ob);
            Pull(w, vx, vy, u, r1, r2, k, pa, x, y) == Pull(w, vx, vy, u', r1, r2, k, pa, x, y)
  {
  }

  /** `spent` is the credit table `table` once its far cell `far` has lost
      `K` credits. */
  predicate Spent(table: seq<int>, far: nat, spent: seq<int>)
  {
    far < |table| && spent == table[far := table[far] - K]
  }

  /** The far-cell search of robot `agent`'s turn and the `K` credits the
      far cell loses. */
  method Spend(agent: Agent, out: array<int>, sqrt: real -> real) returns (area: int, far: nat)
    requires 0 < out.Length
    modifies out
    ensures area == AreaOf(agent.x, agent.y, SIDE)
    ensures far < out.Length && IsFarthest(old(out[..]), area, far, sqrt)
    ensures Spent(old(out[..]), far, out[..])
  {
    area, far := FindFarthest(agent, out, SIDE, sqrt);
    out[far] := out[far] - K;
  }

  /** The coefficients and the limited velocity robot `i` aims for from
      the credit left in its cell and the far cell `far`: the coefficients
      follow the credit and the avoidance flag, and the pull to the far
      cell's corner (or to the avoidance point) joins the pulls to the
      bests before the velocity limit. */
  ghost function Aimed(agent: Agent, grid: Grid, i: nat, c: (real, real), credit: int, far: nat, w: real, gx: real,
                       gy: real, r1: real, r2: real, vLimit: real, sqrt: real -> real)
    : (a: ((real, real, real), (real, real)))
    requires IsSqrt(sqrt) && 0.0 <= vLimit
    reads agent, grid, grid.agents
  {
    var av := Avoidance(grid.obstacles, AgentBoxes(grid.agents), i, agent.x, agent.y, agent.halfSize,
                        agent.radius, agent.vx, agent.vy);
    var k := Coefficients(c, credit, av.0);
    var raw := Pull(w, agent.vx, agent.vy, UnitSpeed(agent.x, agent.y, agent.px, agent.py, gx, gy, sqrt),
                    r1, r2, k, SteerPoint(av, far), agent.x, agent.y);
    (k, RDPSO.Limited(raw.0, raw.1, vLimit, sqrt))
  }

  /** The coefficients and the limited velocity of robot `i`, with the
      avoidance decision taken by `avoidObstacle`. */
  method Aim(agent: Agent, grid: Grid, i: nat, c: (real, real), credit: int, far: nat, w: real, gx: real, gy: real,
             r1: real, r2: real, vLimit: real, sqrt: real -> real)
    returns (k: (real, real, real), v: (real, real))
    requires IsSqrt(sqrt) && 0.0 <= vLimit
    ensures (k, v) == Aimed(agent, grid, i, c, credit, far, w, gx, gy, r1, r2, vLimit, sqrt)
  {
    var ob, pox, poy := E2RPSOUtilOld.AvoidObstacle(agent, grid.obstacles, grid.agents, i);
    k := Coefficients(c, credit, ob);
    var u := UnitSpeed(agent.x, agent.y, agent.px, agent.py, gx, gy, sqrt);
    var raw := Pull(w, agent.vx, agent.vy, u, r1, r2, k, SteerPoint((ob, pox, poy), far), agent.x, agent.y);
    v := RDPSO.Limited(raw.0, raw.1, vLimit, sqrt);
  }

  // ----- moving and spending -----

  /** The position and velocity after a move by `v` from `(x, y)` on the
      map: the moved point when the robot's square stays on the map,
      otherwise the point it came from with the velocity reversed. */
  function Bounce(x: real, y: real, v: (real, real), hs: real): (r: (real, real, real, real))
    ensures !OutOfArena(SIDE as real, SIDE as real, r.0, r.1, hs) || (r.0, r.1) == (x, y)
    ensures r.2 * r.2 + r.3 * r.3 == v.0 * v.0 + v.1 * v.1
    ensures (r.0, r.1) == (x + v.0, y + v.1) || (r.0, r.1, r.2, r.3) == (x, y, -v.0, -v.1)
  {
    var nx, ny := x + v.0, y + v.1;
    if OutOfArena(SIDE as real, SIDE as real, nx, ny, hs) then (nx - v.0, ny - v.1, -v.0, -v.1)
    else (nx, ny, v.0, v.1)
  }

  /** `setVelocity`, `setcoords` to the moved point and the revert at the
      edge of the map. The trajectory keeps the moved point even when the
      robot is put back. */
  method Move(agent: Agent, v: (real, real))
    requires agent.Valid()
    modifies agent`x, agent`y, agent`lastX, agent`lastY, agent`listX, agent`listY, agent`vx, agent`vy
    ensures agent.Valid()
    ensures (agent.x, agent.y, agent.vx, agent.vy) == Bounce(old(agent.x), old(agent.y), v, agent.halfSize)
    ensures agent.lastX == old(agent.x) && agent.lastY == old(agent.y)
    ensures agent.listX == old(agent.listX) + [old(agent.x) + v.0]
    ensures agent.listY == old(agent.listY) + [old(agent.y) + v.1]
  {
    agent.SetVelocity(v.0, v.1);
    agent.SetCoords(agent.x + v.0, agent.y + v.1);
    if OutOfArena(SIDE as real, SIDE as real, agent.x, agent.y, agent.halfSize) {
      agent.x := agent.x - v.0;
      agent.y := agent.y - v.1;
      agent.vx := -agent.vx;
      agent.vy := -agent.vy;
    }
  }

  /** `int(y // 5) * (SIDE // 5) + int(x // 5)`: the credit cell the robot
      ends its turn in. On the map it is the robot's 5 by 5 square: its
      column and row are recovered from it. */
  function CellIndex(x: real, y: real): (idx: int)
    ensures 0.0 <= x < SIDE as real && 0.0 <= y ==>
              0 <= idx && idx % COLUMNS == Floor(x / CELL as real) && idx / COLUMNS == Floor(y / CELL as real)
  {
    var row, col := Floor(y / CELL as real), Floor(x / CELL as real);
    if 0.0 <= x < SIDE as real && 0.0 <= y then
      RowColumn(row, col);
      row * COLUMNS + col
    else
      row * COLUMNS + col
  }

  /** A column below `COLUMNS` and a non-negative row are recovered from
      `row * COLUMNS + col`. */
  lemma RowColumn(row: int, col: int)
    requires 0 <= row && 0 <= col < COLUMNS
    ensures (row * COLUMNS + col) % COLUMNS == col && (row * COLUMNS + col) / COLUMNS == row
  {
    var n := row * COLUMNS + col;
    assert n == COLUMNS * row + col;
  }

  /** `pos_change`, then `update_GbestPbest` at the robot's point. */
  method Settle(agent: Agent, grid: Grid, t: nat, gbest: Ext, gx: real, gy: real, goalsX: seq<real>,
                goalsY: seq<real>, sqrt: real -> real)
    returns (newGbest: Ext, newGx: real, newGy: real)
    requires grid.Shaped() && 0 < t && |goalsX| <= |goalsY|
    modifies grid.cells, agent`pbest, agent`pbestP, agent`pbestAvg, agent`px, agent`py
    ensures grid.PaintedOver(old(AgentPaints(grid.agents)), old(grid.Snapshot()))
    ensures RecordOf(agent, newGbest, newGx, newGy)
            == RecordAfter(old(RecordOf(agent, gbest, gx, gy)), DistanceSum(sqrt, goalsX, goalsY, agent.x, agent.y),
                           agent.x, agent.y, t)
  {
    grid.PosChange();
    newGbest, newGx, newGy := UpdateBests(agent, gx, gy, gbest, goalsX, goalsY, agent, t, sqrt);
  }

  /** The credit of the cell the robot ends in goes down by one, then the
      second `setcoords` records the robot's point again. Spending raises
      `IndexError` (`ok` false) when the cell index is out of range, and
      the second `setcoords` is then never reached. */
  method Mark(agent: Agent, out: array<int>) returns (ok: bool)
    requires agent.Valid()
    modifies out, agent`x, agent`y, agent`lastX, agent`lastY, agent`listX, agent`listY
    ensures agent.Valid() && agent.x == old(agent.x) && agent.y == old(agent.y)
    ensures var cell := PyIndex(CellIndex(agent.x, agent.y), out.Length);
            && (ok <==> cell.Some?)
            && (ok ==> out[..] == old(out[..])[cell.value := old(out[cell.value]) - 1])
            && (!ok ==> out[..] == old(out[..]))
    ensures ok ==> agent.lastX == agent.x && agent.lastY == agent.y
    ensures ok ==> agent.listX == old(agent.listX) + [agent.x] && agent.listY == old(agent.listY) + [agent.y]
    ensures !ok ==> unchanged(agent)
  {
    var cell := PyIndex(CellIndex(agent.x, agent.y), out.Length);
    if cell.None? {
      return false;
    }
    out[cell.value] := out[cell.value] - 1;
    agent.SetCoords(agent.x, agent.y);
    ok := true;
  }

  /** Both reads of the credit table succeed for a robot anywhere in
      `[0, 200]` on both axes, so on the 100 and 200 wide arenas. */
  lemma TableReadsSucceed(x: real, y: real, n: nat)
    requires 0.0 <= x <= 200.0 && 0.0 <= y <= 200.0 && 40000 <= n
    ensures PyIndex(AreaOf(x, y, SIDE), n).Some? && PyIndex(CellIndex(x, y), n).Some?
  {
    AreaInRange(x, y);
    CellInRange(x, y);
  }

  /** The robot's area cell lies in `[0, 10]`. */
  lemma AreaInRange(x: real, y: real)
    requires 0.0 <= x <= 200.0 && 0.0 <= y <= 200.0
    ensures 0 <= AreaOf(x, y, SIDE) <= 10
  {
    var ty, tx := Trunc((y - 1.0) / 50.0), Trunc(x / 50.0);
    assert 0 <= ty <= 3 && 0 <= tx <= 4;
    var s := (ty * SIDE) as real / 50.0 + tx as real;
    assert s == (2 * ty + tx) as real;
  }

  /** The robot's credit cell lies in `[0, 840]`. */
  lemma CellInRange(x: real, y: real)
    requires 0.0 <= x <= 200.0 && 0.0 <= y <= 200.0
    ensures 0 <= CellIndex(x, y) <= 840
  {
    var fy, fx := Floor(y / CELL as real), Floor(x / CELL as real);
    assert 0 <= fy <= 40 && 0 <= fx <= 40;
  }

  /** A turn that starts in `[0, 200]` on both axes ends there. */
  lemma BounceStaysInArena(x: real, y: real, v: (real, real), hs: real)
    requires 0.0 <= x <= 200.0 && 0.0 <= y <= 200.0 && 0.0 <= hs
    ensures var b := Bounce(x, y, v, hs); 0.0 <= b.0 <= 200.0 && 0.0 <= b.1 <= 200.0
  {
  }

  // ----- one robot's turn -----

  /** How a turn ends: the loop goes on, every goal is found, or Python
      raises (`ZeroDivisionError` in the inertia weight, `IndexError` in the
      credit table). */
  datatype Status = Going | AllFound | Crashed

  /** The outcome of a turn's move, settling and spending, for a robot
      that stood at `(x, y)` with the record `before`: it stands at the
      point it bounced to with velocity `v`, its bests are updated there
      against the goals, and the credit of its cell in the table `spent`
      drops by one unless its index is out of range, which raises
      `IndexError` (`status` is then `Crashed`). */
  predicate Settled(agent: Agent, out: array<int>, spent: seq<int>, x: real, y: real, before: Record,
                    v: (real, real), status: Status, g: Ext, nx: real, ny: real, goalsX: seq<real>, goalsY: seq<real>,
                    t: nat, sqrt: real -> real)
    requires 0 < t && |goalsX| <= |goalsY|
    reads agent, out
  {
    && (agent.x, agent.y, agent.vx, agent.vy) == Bounce(x, y, v, agent.halfSize)
    && Record(agent.pbest, agent.pbestP, agent.pbestAvg, agent.px, agent.py, g, nx, ny)
       == RecordAfter(before, DistanceSum(sqrt, goalsX, goalsY, agent.x, agent.y), agent.x, agent.y, t)
    && |spent| == out.Length
    && (status == Going <==> PyIndex(CellIndex(agent.x, agent.y), out.Length).Some?)
    && out[..] == match PyIndex(CellIndex(agent.x, agent.y), out.Length)
                  case Some(idx) => spent[idx := spent[idx] - 1]
                  case None => spent
  }

  /** The outcome of a turn once the inertia weight `w` is known, for a
      robot that judged the goals `goalsX`, `goalsY` with hit counts
      `goalC`, leaving the lists `xs`, `ys`, `cs`. When no goal is left the
      search ends (`AllFound`) and the matrix only has the square of the
      goal reached cleared. Otherwise the far cell `far` is spent, leaving
      the table `spent`, and the robot's area cell is read: an index out
      of range raises `IndexError` with nothing else changed; in range, the
      robot aims with the pair `c'` and velocity `v` that `Aimed` gives for
      that cell's credit and settles as `Settled` says. */
  twostate predicate Played(agent: Agent, grid: Grid, i: nat, out: array<int>, t: nat, c: (real, real), w: real,
                            gbest: Ext, gx: real, gy: real, goalsX: seq<real>, goalsY: seq<real>, goalC: seq<nat>,
                            targetRadius: real, d: (Unit, Unit), vLimit: real, sqrt: real -> real, status: Status,
                            c': (real, real), g: Ext, nx: real, ny: real, xs: seq<real>, ys: seq<real>,
                            far: nat, new v: (real, real), spent: seq<int>)
    requires i < |grid.agents| && IsSqrt(sqrt) && 0.0 <= vLimit && 0 < t && |xs| <= |ys|
    requires |goalC| == |goalsX| == |goalsY|
    reads agent, grid, grid.agents, grid.cells, out
  {
    var counted := Counted(goalC, goalsX, goalsY, old(agent.x), old(agent.y), Reach(grid));
    var judged := Judged(goalsX, goalsY, counted, gbest);
    var area := AreaOf(old(agent.x), old(agent.y), SIDE);
    if xs == [] then
      && status == AllFound && unchanged(agent) && out[..] == old(out[..]) && g == judged.3
      && Cleared(grid, goalsX, goalsY, FirstHit(counted, 0), targetRadius)
    else
      && IsFarthest(old(out[..]), area, far, sqrt) && far < out.Length && Spent(old(out[..]), far, spent)
      && match PyIndex(area, out.Length)
         case None =>
           && status == Crashed && unchanged(agent) && out[..] == spent
           && Cleared(grid, goalsX, goalsY, FirstHit(counted, 0), targetRadius)
         case Some(cell) =>
           && (c', v) == (var a := old(Aimed(agent, grid, i, c, spent[cell], far, w, gx, gy, Uniform(0.0, 1.0, d.0),
                                             Uniform(0.0, 1.0, d.1), vLimit, sqrt));
                          ((a.0.0, a.0.1), a.1))
           && Settled(agent, out, spent, old(agent.x), old(agent.y), old(RecordOf(agent, judged.3, gx, gy)), v,
                      status, g, nx, ny, xs, ys, t, sqrt)
  }

  /** The turn of robot `i` (`agent`) in iteration `t`: the pair is
      restored, the loop stops when no goal is left, the inertia weight is
      computed, the goals the robot reaches are judged (at most one goal
      goes), then the far cell `far` is spent (leaving the table `spent`),
      the robot aims with velocity `v` from the credit left in its area
      cell, moves by it, bouncing back at the edge of the map, updates its
      bests at its new point against the remaining goals and spends the
      credit of its cell. */
  method Turn(agent: Agent, grid: Grid, i: nat, out: array<int>, t: nat, c: (real, real), gbest: Ext, gx: real,
              gy: real, bestAvg: Ext, goalsX: seq<real>, goalsY: seq<real>, goalC: seq<nat>, targetRadius: real,
              d: (Unit, Unit), vLimit: real, sqrt: real -> real)
    returns (status: Status, c': (real, real), g: Ext, nx: real, ny: real, xs: seq<real>, ys: seq<real>,
             cs: seq<nat>, ghost far: nat, ghost v: (real, real), ghost spent: seq<int>)
    requires i < |grid.agents| && agent == grid.agents[i] && agent.Valid() && grid.Shaped()
    requires IsSqrt(sqrt) && 0.0 <= vLimit && 0 < t && 0 < out.Length
    requires |goalC| == |goalsX| == |goalsY| && Standard(c)
    modifies grid.cells, out, agent`pbest, agent`pbestP, agent`pbestAvg, agent`px, agent`py
    modifies agent`x, agent`y, agent`lastX, agent`lastY, agent`listX, agent`listY, agent`vx, agent`vy
    ensures agent.Valid() && Standard(c')
    ensures |xs| == |ys| == |cs| && (xs == goalsX || |xs| == |goalsX| - 1)
    ensures status == AllFound <==> xs == []
    ensures var w := Weight(old(agent.pbestP), old(agent.pbest), gbest, bestAvg);
            && (goalsX == [] ==>
                  unchanged(agent) && unchanged(out) && unchanged(grid.cells) && g == gbest)
            && (goalsX != [] && w.None? ==>
                  status == Crashed && xs == goalsX && unchanged(agent) && unchanged(out) && unchanged(grid.cells))
            && (goalsX != [] && w.Some? ==>
                  Played(agent, grid, i, out, t, Restored(t, c), w.value, gbest, gx, gy, goalsX, goalsY, goalC,
                         targetRadius, d, vLimit, sqrt, status, c', g, nx, ny, xs, ys, far, v, spent))
    ensures status == Crashed <==>
              && goalsX != []
              && (|| Weight(old(agent.pbestP), old(agent.pbest), gbest, bestAvg).None?
                  || (&& xs != []
                      && (|| PyIndex(AreaOf(old(agent.x), old(agent.y), SIDE), out.Length).None?
                          || PyIndex(CellIndex(agent.x, agent.y), out.Length).None?)))
  {
    c', g, nx, ny, xs, ys, cs := Restored(t, c), gbest, gx, gy, goalsX, goalsY, goalC;
    far, v, spent := 0, (0.0, 0.0), [];
    if goalsX == [] {
      return AllFound, c', g, nx, ny, xs, ys, cs, far, v, spent;
    }
    var w := Weight(agent.pbestP, agent.pbest, gbest, bestAvg);
    if w.None? {
      return Crashed, c', g, nx, ny, xs, ys, cs, far, v, spent;
    }
    status, c', g, nx, ny, xs, ys, cs, far, v, spent := Play(agent, grid, i, out, t, c', w.value, gbest, gx, gy, goalsX,
                                                             goalsY, goalC, targetRadius, d, vLimit, sqrt);
  }

  /** `JudgeAllGoalReached` as a turn calls it, with the matrix it clears
      passed on its own: the goal lists and the global best it returns, and
      the matrix with the square of the first goal reached cleared. */
  method Judge(goalsX: seq<real>, goalsY: seq<real>, agent: Agent, goalC: seq<nat>, gbest: Ext, grid: Grid,
               cells: array2<int>, radius: real, sqrt: real -> real)
    returns (xs: seq<real>, ys: seq<real>, cs: seq<nat>, g: Ext)
    requires cells == grid.cells && IsSqrt(sqrt) && grid.Shaped() && |goalC| == |goalsX| == |goalsY|
    requires goalsX != [] ==> grid.agents != []
    modifies cells
    ensures var reach := if grid.agents == [] then 0.0 else Reach(grid);
            (xs, ys, cs, g) == Judged(goalsX, goalsY, Counted(goalC, goalsX, goalsY, agent.x, agent.y, reach), gbest)
    ensures var reach := if grid.agents == [] then 0.0 else Reach(grid);
            Cleared(grid, goalsX, goalsY, FirstHit(Counted(goalC, goalsX, goalsY, agent.x, agent.y, reach), 0), radius)
  {
    xs, ys, cs, g := JudgeAllGoalReached(goalsX, goalsY, agent, goalC, gbest, grid, radius, sqrt);
  }

  /** A turn once the inertia weight `w` is known: the goals the robot
      reaches are judged, and unless none is left the robot acts. */
  method Play(agent: Agent, grid: Grid, i: nat, out: array<int>, t: nat, c: (real, real), w: real, gbest: Ext,
              gx: real, gy: real, goalsX: seq<real>, goalsY: seq<real>, goalC: seq<nat>, targetRadius: real,
              d: (Unit, Unit), vLimit: real, sqrt: real -> real)
    returns (status: Status, c': (real, real), g: Ext, nx: real, ny: real, xs: seq<real>, ys: seq<real>,
             cs: seq<nat>, ghost far: nat, ghost v: (real, real), ghost spent: seq<int>)
    requires i < |grid.agents| && agent == grid.agents[i] && agent.Valid() && grid.Shaped()
    requires IsSqrt(sqrt) && 0.0 <= vLimit && 0 < t && 0 < out.Length
    requires |goalC| == |goalsX| == |goalsY| && Standard(c)
    modifies grid.cells, out, agent`pbest, agent`pbestP, agent`pbestAvg, agent`px, agent`py
    modifies agent`x, agent`y, agent`lastX, agent`lastY, agent`listX, agent`listY, agent`vx, agent`vy
    ensures agent.Valid() && Standard(c')
    ensures |xs| == |ys| == |cs| && (xs == goalsX || |xs| == |goalsX| - 1)
    ensures status == AllFound <==> xs == []
    ensures Played(agent, grid, i, out, t, c, w, gbest, gx, gy, goalsX, goalsY, goalC, targetRadius, d, vLimit, sqrt,
                   status, c', g, nx, ny, xs, ys, far, v, spent)
    ensures status == Crashed <==>
              xs != [] && (|| PyIndex(AreaOf(old(agent.x), old(agent.y), SIDE), out.Length).None?
                           || PyIndex(CellIndex(agent.x, agent.y), out.Length).None?)
  {
    c', g, nx, ny := c, gbest, gx, gy;
    far, v, spent := 0, (0.0, 0.0), [];
    ghost var reach := Reach(grid);
    ghost var x, y := agent.x, agent.y;
    var cells := grid.cells;
    xs, ys, cs, g := Judge(goalsX, goalsY, agent, goalC, gbest, grid, cells, targetRadius, sqrt);
    JudgedDropsOne(goalC, goalsX, goalsY, x, y, reach, gbest);
    assert out[..] == old(out[..]);
    if cs == [] {
      return AllFound, c', g, nx, ny, xs, ys, cs, far, v, spent;
    }
    status, c', g, nx, ny, far, v, spent := Act(agent, grid, i, out, t, c', w, g, nx, ny, xs, ys, d, vLimit, sqrt);
  }

  /** The second half of a turn, once the robot has goals left: the far
      cell is spent, the credit of the robot's own area cell is read
      (raising `IndexError` when its index is out of range), then the robot
      aims, moves and settles. */
  method Act(agent: Agent, grid: Grid, i: nat, out: array<int>, t: nat, c: (real, real), w: real, gbest: Ext,
             gx: real, gy: real, goalsX: seq<real>, goalsY: seq<real>, d: (Unit, Unit), vLimit: real,
             sqrt: real -> real)
    returns (status: Status, c': (real, real), g: Ext, nx: real, ny: real, ghost far: nat, ghost v: (real, real),
             ghost spent: seq<int>)
    requires agent.Valid() && grid.Shaped() && IsSqrt(sqrt) && 0.0 <= vLimit && 0 < t && 0 < out.Length
    requires |goalsX| <= |goalsY| && Standard(c)
    modifies grid.cells, out, agent`pbest, agent`pbestP, agent`pbestAvg, agent`px, agent`py
    modifies agent`x, agent`y, agent`lastX, agent`lastY, agent`listX, agent`listY, agent`vx, agent`vy
    ensures agent.Valid() && Standard(c') && status != AllFound
    ensures IsFarthest(old(out[..]), AreaOf(old(agent.x), old(agent.y), SIDE), far, sqrt) && far < out.Length
    ensures Spent(old(out[..]), far, spent)
    ensures PyIndex(AreaOf(old(agent.x), old(agent.y), SIDE), out.Length).None? ==>
              status == Crashed && unchanged(agent) && unchanged(grid.cells) && out[..] == spent
    ensures match PyIndex(AreaOf(old(agent.x), old(agent.y), SIDE), out.Length)
            case Some(cell) =>
              && (c', v) == (var a := old(Aimed(agent, grid, i, c, spent[cell], far, w, gx, gy, Uniform(0.0, 1.0, d.0),
                                                Uniform(0.0, 1.0, d.1), vLimit, sqrt));
                             ((a.0.0, a.0.1), a.1))
              && Settled(agent, out, spent, old(agent.x), old(agent.y), old(RecordOf(agent, gbest, gx, gy)), v,
                         status, g, nx, ny, goalsX, goalsY, t, sqrt)
            case None => true
  {
    var area, f := Spend(agent, out, sqrt);
    far, spent := f, out[..];
    var cell := PyIndex(area, out.Length);
    if cell.None? {
      return Crashed, c, gbest, gx, gy, far, (0.0, 0.0), spent;
    }
    status, c', g, nx, ny, v := Steer(agent, grid, i, out, t, c, out[cell.value], f, w, gbest, gx, gy, goalsX, goalsY,
                                      d, vLimit, sqrt);
  }

  /** The aiming and the move of a turn, once the credit of the robot's
      area cell is read: the robot aims with the coefficients and velocity
      `Aimed` gives, then moves, settles and spends its new cell. */
  method Steer(agent: Agent, grid: Grid, i: nat, out: array<int>, t: nat, c: (real, real), credit: int, far: nat,
               w: real, gbest: Ext, gx: real, gy: real, goalsX: seq<real>, goalsY: seq<real>, d: (Unit, Unit),
               vLimit: real, sqrt: real -> real)
    returns (status: Status, c': (real, real), g: Ext, nx: real, ny: real, ghost v: (real, real))
    requires agent.Valid() && grid.Shaped() && IsSqrt(sqrt) && 0.0 <= vLimit && 0 < t
    requires |goalsX| <= |goalsY| && Standard(c)
    modifies grid.cells, out, agent`pbest, agent`pbestP, agent`pbestAvg, agent`px, agent`py
    modifies agent`x, agent`y, agent`lastX, agent`lastY, agent`listX, agent`listY, agent`vx, agent`vy
    ensures agent.Valid() && Standard(c') && status != AllFound
    ensures (c', v) == (var a := old(Aimed(agent, grid, i, c, credit, far, w, gx, gy, Uniform(0.0, 1.0, d.0),
                                           Uniform(0.0, 1.0, d.1), vLimit, sqrt));
                        ((a.0.0, a.0.1), a.1))
    ensures Settled(agent, out, old(out[..]), old(agent.x), old(agent.y), old(RecordOf(agent, gbest, gx, gy)), v, status,
                    g, nx, ny, goalsX, goalsY, t, sqrt)
  {
    var k, vel := Aim(agent, grid, i, c, credit, far, w, gx, gy, Uniform(0.0, 1.0, d.0), Uniform(0.0, 1.0, d.1),
                      vLimit, sqrt);
    c', v := (k.0, k.1), vel;
    status, g, nx, ny := Advance(agent, grid, out, t, vel, gbest, gx, gy, goalsX, goalsY, sqrt);
  }

  /** The move with the limited velocity `v`, the settling and the spent
      cell of the robot's turn. */
  method Advance(agent: Agent, grid: Grid, out: array<int>, t: nat, v: (real, real), gbest: Ext, gx: real, gy: real,
                 goalsX: seq<real>, goalsY: seq<real>, sqrt: real -> real)
    returns (status: Status, g: Ext, nx: real, ny: real)
    requires agent.Valid() && grid.Shaped() && 0 < t && |goalsX| <= |goalsY|
    modifies grid.cells, out, agent`pbest, agent`pbestP, agent`pbestAvg, agent`px, agent`py
    modifies agent`x, agent`y, agent`lastX, agent`lastY, agent`listX, agent`listY, agent`vx, agent`vy
    ensures agent.Valid() && status != AllFound
    ensures Settled(agent, out, old(out[..]), old(agent.x), old(agent.y), old(RecordOf(agent, gbest, gx, gy)), v, status,
                    g, nx, ny, goalsX, goalsY, t, sqrt)
  {
    Move(agent, v);
    g, nx, ny := Settle(agent, grid, t, gbest, gx, gy, goalsX, goalsY, sqrt);
    var ok := Mark(agent, out);
    status := if ok then Going else Crashed;
  }

  /** `Turn` as the robot loop uses it: the robot stays valid, the pair
      stays in range and at most one goal goes. */
  method TakeTurn(agent: Agent, grid: Grid, i: nat, out: array<int>, t: nat, c: (real, real), gbest: Ext, gx: real,
                  gy: real, bestAvg: Ext, goalsX: seq<real>, goalsY: seq<real>, goalC: seq<nat>, targetRadius: real,
                  d: (Unit, Unit), vLimit: real, sqrt: real -> real)
    returns (status: Status, c': (real, real), g: Ext, nx: real, ny: real, xs: seq<real>, ys: seq<real>,
             cs: seq<nat>)
    requires i < |grid.agents| && agent == grid.agents[i] && agent.Valid() && grid.Shaped()
    requires IsSqrt(sqrt) && 0.0 <= vLimit && 0 < t && 0 < out.Length
    requires |goalC| == |goalsX| == |goalsY| && Standard(c)
    modifies grid.cells, out, agent`pbest, agent`pbestP, agent`pbestAvg, agent`px, agent`py
    modifies agent`x, agent`y, agent`lastX, agent`lastY, agent`listX, agent`listY, agent`vx, agent`vy
    ensures agent.Valid() && Standard(c')
    ensures |xs| == |ys| == |cs| && (xs == goalsX || |xs| == |goalsX| - 1)
    ensures status == AllFound <==> xs == []
  {
    ghost var far, v, spent;
    status, c', g, nx, ny, xs, ys, cs, far, v, spent := Turn(agent, grid, i, out, t, c, gbest, gx, gy, bestAvg, goalsX,
                                                             goalsY, goalC, targetRadius, d, vLimit, sqrt);
  }

  // ----- the iteration loop -----

  /** The robot loop of iteration `t`, in list order, threading the pair,
      the global best and the goal lists through the turns (`ds[k]` holds
      robot `k`'s two draws); it stops early once no goal is left, then
      `pos_change` repaints the robots. A crash ends the search at once. */
  method Sweep(grid: Grid, out: array<int>, t: nat, c: (real, real), gbest: Ext, gx: real, gy: real, bestAvg: Ext,
               goalsX: seq<real>, goalsY: seq<real>, goalC: seq<nat>, targetRadius: real, ds: seq<(Unit, Unit)>,
               vLimit: real, sqrt: real -> real)
    returns (crashed: bool, c': (real, real), g: Ext, nx: real, ny: real, xs: seq<real>, ys: seq<real>,
             cs: seq<nat>)
    requires grid.Valid() && IsSqrt(sqrt) && 0.0 <= vLimit && 0 < t && 0 < out.Length
    requires |goalC| == |goalsX| == |goalsY| && Standard(c) && |ds| == |grid.agents|
    modifies grid.cells, out, grid.agents`pbest, grid.agents`pbestP, grid.agents`pbestAvg, grid.agents`px
    modifies grid.agents`py, grid.agents`x, grid.agents`y, grid.agents`lastX, grid.agents`lastY
    modifies grid.agents`listX, grid.agents`listY, grid.agents`vx, grid.agents`vy
    ensures grid.Valid() && Standard(c') && |xs| == |ys| == |cs| <= |goalsX|
  {
    c', g, nx, ny, xs, ys, cs := c, gbest, gx, gy, goalsX, goalsY, goalC;
    var k := 0;
    while k < |grid.agents|
      invariant 0 <= k <= |grid.agents|
      invariant grid.Valid() && Standard(c') && |xs| == |ys| == |cs| <= |goalsX|
    {
      var status;
      status, c', g, nx, ny, xs, ys, cs := TakeTurn(grid.agents[k], grid, k, out, t, c', g, nx, ny, bestAvg, xs, ys, cs,
                                                    targetRadius, ds[k], vLimit, sqrt);
      if status == Crashed {
        return true, c', g, nx, ny, xs, ys, cs;
      }
      if status == AllFound {
        break;
      }
      k := k + 1;
    }
    grid.PosChange();
    crashed := false;
  }

  /** The iteration loop of `E2RPSO` from the initialised table and goal
      lists: while `t < T`, `t` grows by one, the average personal best is
      taken (dividing by zero without robots), the loop ends once no goal
      is left, and otherwise every robot takes its turn with the draws
      `draws[t - 1]`. `steps` is the last `t`, `left` the number of goals
      still unfound. Without a crash, the loop ends before `T` only when
      every goal is found. */
  method Run(grid: Grid, out: array<int>, T: nat, goalsX: seq<real>, goalsY: seq<real>, goalC: seq<nat>,
             targetRadius: real, draws: seq<seq<(Unit, Unit)>>, vLimit: real, sqrt: real -> real)
    returns (crashed: bool, steps: nat, left: nat)
    requires grid.Valid() && IsSqrt(sqrt) && 0.0 <= vLimit && 0 < out.Length
    requires |goalC| == |goalsX| == |goalsY|
    requires |draws| >= T && forall s :: 0 <= s < T ==> |draws[s]| == |grid.agents|
    modifies grid.cells, out, grid.agents`pbest, grid.agents`pbestP, grid.agents`pbestAvg, grid.agents`px
    modifies grid.agents`py, grid.agents`x, grid.agents`y, grid.agents`lastX, grid.agents`lastY
    modifies grid.agents`listX, grid.agents`listY, grid.agents`vx, grid.agents`vy
    ensures grid.Valid() && steps <= T && left <= |goalsX| && (0 < T ==> 0 < steps)
    ensures !crashed && steps < T ==> left == 0
  {
    var c, gbest, gx, gy := (C1, C2), Inf, 0.0, 0.0;
    var xs, ys, cs := goalsX, goalsY, goalC;
    var t := 0;
    while t < T
      invariant t <= T && grid.Valid() && Standard(c) && |xs| == |ys| == |cs| <= |goalsX|
    {
      t := t + 1;
      if grid.agents == [] {
        return true, t, |xs|;
      }
      var bestAvg := UpdateBestAvg(grid.agents);
      if xs == [] {
        break;
      }
      var crash;
      crash, c, gbest, gx, gy, xs, ys, cs := Sweep(grid, out, t, c, gbest, gx, gy, bestAvg, xs, ys, cs, targetRadius,
                                                   draws[t - 1], vLimit, sqrt);
      if crash {
        return true, t, |xs|;
      }
    }
    return false, t, |xs|;
  }

  // ----- the reported count -----

  /** The found count as the loop returns it: `Goal_num - len(goal_list_x)`
      with `Goal_num` fixed at 10, whatever the number of targets. */
  function ReportedAsWritten(left: nat): int
  {
    GOAL_NUM - left
  }

  /** The number of goals found out of `total` when `left` remain: the goals
      the loop dropped. It is 0 exactly when none was found and `total`
      exactly when all were. */
  function Found(total: nat, left: nat): (n: nat)
    requires left <= total
    ensures n + left == total
    ensures n == 0 <==> left == total
    ensures n == total <==> left == 0
  {
    total - left
  }

  /** With three targets none of which is found, the count as written
      reports seven found, and with fifteen all found it reports ten. */
  lemma ReportedAsWrittenMiscounts()
    ensures Found(3, 3) == 0 && ReportedAsWritten(3) == 7
    ensures Found(15, 0) == 15 && ReportedAsWritten(0) == 10
  {
  }

  /** `E2RPSO(grid, T, step_size)`: the table, the goal lists and the seeded
      personal bests of `init_E2RPSO` (with one goal counter per target),
      the iteration loop with `V_LIMIT = step_size`, then the number of
      iterations, the number of goals found as the loop reports it
      (`Goal_num - len(goal_list_x)`, with `left` goals still on the list)
      and the distance every robot's trajectory covers. `counted` is the
      number of goals actually found. `crashed` stands for a Python
      exception. */
  method Search(grid: Grid, T: nat, stepSize: real, draws: seq<seq<(Unit, Unit)>>, sqrt: real -> real)
    returns (crashed: bool, steps: nat, found: int, total: real, ghost left: nat, ghost counted: nat)
    requires grid.Valid() && IsSqrt(sqrt) && 0.0 <= stepSize && forall t :: t in grid.targets ==> t.Some?
    requires |draws| >= T && forall s :: 0 <= s < T ==> |draws[s]| == |grid.agents|
    modifies grid.cells, grid.agents`pbest, grid.agents`pbestP, grid.agents`pbestAvg, grid.agents`px
    modifies grid.agents`py, grid.agents`x, grid.agents`y, grid.agents`lastX, grid.agents`lastY
    modifies grid.agents`listX, grid.agents`listY, grid.agents`vx, grid.agents`vy
    ensures grid.Valid() && steps <= T && (0 < T ==> 0 < steps)
    ensures left <= |grid.targets| && found == ReportedAsWritten(left) && found == GOAL_NUM - left
    ensures counted == Found(|grid.targets|, left) && counted <= |grid.targets|
    ensures !crashed && steps < T ==> left == 0 && counted == |grid.targets|
    ensures total == TotalDistance(grid.agents, sqrt) && 0.0 <= total
  {
    var out, goalsX, goalsY, goalC, targetRadius := InitE2RPSO(grid, |grid.targets|, sqrt);
    var remaining;
    crashed, steps, remaining := Run(grid, out, T, goalsX, goalsY, goalC, targetRadius, draws, stepSize, sqrt);
    left := remaining;
    found := ReportedAsWritten(remaining);
    counted := Found(|grid.targets|, left);
    total := grid.TotalDistanceCovered(sqrt);
    TotalDistanceNonNeg(grid.agents, sqrt);
  }
}
