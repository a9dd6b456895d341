// RDPSO.py: robotic Darwinian particle swarm search. Every agent steers
// by inertia, towards its own best point and towards the swarm's best
// point; every 20 steps the third of the agents with the worst personal
// bests turns "fugitive" and only keeps a randomly rescaled inertia.

module RDPSO {
  import opened Numerics
  import opened Geometry
  import opened ContinuousGrid
  import opened Collision
  import opened SwarmUtil
  import opened SearchStep

  /** `c1` and `c2` of the velocity update. */
  const C1: real := 0.4
  const C2: real := 0.9

  /** Fugitives are re-drawn on every step that is a positive multiple of
      this. */
  const PERIOD: nat := 20

  /** Agent `i` comes before agent `j` in `sorted(range(n), key=pbest,
      reverse=True)`: a larger personal best first, ties in index order
      (the sort is stable). */
  predicate Ranks(pb: seq<Ext>, i: int, j: int)
    requires 0 <= i < |pb| && 0 <= j < |pb|
  {
    !LeExt(pb[i], pb[j]) || (pb[i] == pb[j] && i < j)
  }

  /** The number of flags set. */
  function Count(flags: seq<bool>): nat
  {
    if flags == [] then 0 else Count(flags[..|flags| - 1]) + (if flags[|flags| - 1] then 1 else 0)
  }

  /** Setting one clear flag adds one to the count. */
  lemma {:induction false} CountSet(flags: seq<bool>, m: nat)
    requires m < |flags| && !flags[m]
    ensures Count(flags[m := true]) == Count(flags) + 1
    decreases |flags|
  {
    var n := |flags| - 1;
    if m < n {
      CountSet(flags[..n], m);
      assert flags[m := true][..n] == flags[..n][m := true];
    } else {
      assert flags[m := true][..n] == flags[..n];
    }
  }

  /** Fewer flags than entries leaves some entry clear. */
  lemma {:induction false} CountClear(flags: seq<bool>) returns (i: nat)
    requires Count(flags) < |flags|
    ensures i < |flags| && !flags[i]
    decreases |flags|
  {
    var n := |flags| - 1;
    if flags[n] {
      i := CountClear(flags[..n]);
    } else {
      i := n;
    }
  }

  lemma {:induction false} CountNone(n: nat)
    ensures Count(seq(n, _ => false)) == 0
  {
    if n > 0 {
      assert seq(n, _ => false)[..n - 1] == seq(n - 1, _ => false);
      CountNone(n - 1);
    }
  }

  /** Every flagged agent comes before every agent left unflagged. */
  predicate Separated(pb: seq<Ext>, flags: seq<bool>)
    requires |flags| == |pb|
  {
    forall i, j :: 0 <= i < |pb| && 0 <= j < |pb| && flags[i] && !flags[j] ==> Ranks(pb, i, j)
  }

  /** The unflagged agent that comes first: the largest personal best among
      them, the lowest index among equals. */
  method Largest(pb: seq<Ext>, flags: seq<bool>, ghost some: nat) returns (m: nat)
    requires |flags| == |pb| && some < |pb| && !flags[some]
    ensures m < |pb| && !flags[m]
    ensures forall j :: 0 <= j < |pb| && !flags[j] && j != m ==> Ranks(pb, m, j)
  {
    var best: int := -1;
    var i := 0;
    while i < |pb|
      invariant 0 <= i <= |pb| && -1 <= best < i
      invariant best == -1 ==> forall j :: 0 <= j < i ==> flags[j]
      invariant best >= 0 ==> !flags[best] && forall j :: 0 <= j < i && !flags[j] && j != best ==> Ranks(pb, best, j)
    {
      if !flags[i] && (best == -1 || !LeExt(pb[i], pb[best])) {
        best := i;
      }
      i := i + 1;
    }
    m := best;
  }

  /** The fugitive flags: exactly `k` agents, those that come first in the
      descending order of personal best, found one at a time. */
  method Fugitives(pb: seq<Ext>, k: nat) returns (flags: seq<bool>)
    requires k <= |pb|
    ensures |flags| == |pb| && Count(flags) == k && Separated(pb, flags)
  {
    flags := seq(|pb|, _ => false);
    CountNone(|pb|);
    var c := 0;
    while c < k
      invariant 0 <= c <= k && |flags| == |pb|
      invariant Count(flags) == c && Separated(pb, flags)
    {
      var some := CountClear(flags);
      var m := Largest(pb, flags, some);
      CountSet(flags, m);
      flags := flags[m := true];
      c := c + 1;
    }
  }

  /** Two flag lists with the same count that both put their flagged
      agents first are the same: the fugitives are fully determined by the
      personal bests, as the prefix of the stable descending sort is. */
  lemma FugitivesUnique(pb: seq<Ext>, f: seq<bool>, g: seq<bool>)
    requires |f| == |pb| && |g| == |pb| && Count(f) == Count(g)
    requires Separated(pb, f) && Separated(pb, g)
    ensures f == g
  {
    RanksAsymmetric(pb);
    if f != g {
      var i :| 0 <= i < |pb| && f[i] != g[i];
      if f[i] {
        var j := Excess(g, f, i);
        assert false;
      } else {
        var j := Excess(f, g, i);
        assert false;
      }
    }
  }

  /** No two agents each come before the other. */
  lemma RanksAsymmetric(pb: seq<Ext>)
    ensures forall i, j :: 0 <= i < |pb| && 0 <= j < |pb| && Ranks(pb, i, j) ==> !Ranks(pb, j, i)
  {
    forall i, j | 0 <= i < |pb| && 0 <= j < |pb| && Ranks(pb, i, j)
      ensures !Ranks(pb, j, i)
    {
      if !LeExt(pb[i], pb[j]) {
        assert LeExt(pb[j], pb[i]);
      }
    }
  }

  /** When `a` misses a flag of `b` but has as many flags, `a` has a flag
      that `b` misses. */
  lemma Excess(a: seq<bool>, b: seq<bool>, i: nat) returns (j: nat)
    requires |a| == |b| && Count(a) == Count(b) && i < |a| && b[i] && !a[i]
    ensures j < |a| && a[j] && !b[j]
  {
    if forall k :: 0 <= k < |a| && a[k] ==> b[k] {
      CountBelow(a, b, i);
      assert false;
    }
    j :| 0 <= j < |a| && a[j] && !b[j];
  }

  /** Flags contained in others, and missing one of them, are fewer. */
  lemma {:induction false} CountBelow(a: seq<bool>, b: seq<bool>, i: nat)
    requires |a| == |b| && i < |a| && b[i] && !a[i]
    requires forall k :: 0 <= k < |a| && a[k] ==> b[k]
    ensures Count(a) < Count(b)
    decreases |a|
  {
    var n := |a| - 1;
    if i < n {
      CountBelow(a[..n], b[..n], i);
    } else {
      CountSub(a[..n], b[..n]);
    }
  }

  lemma {:induction false} CountSub(a: seq<bool>, b: seq<bool>)
    requires |a| == |b| && forall k :: 0 <= k < |a| && a[k] ==> b[k]
    ensures Count(a) <= Count(b)
    decreases |a|
  {
    if a != [] {
      CountSub(a[..|a| - 1], b[..|b| - 1]);
    }
  }

  /** The random draws of one agent in one step: `r1` and `r2`, and the
      two `random.uniform(-1, 1)` factors a fugitive draws. */
  datatype Draws = Draws(r1: Unit, r2: Unit, fx: Unit, fy: Unit)

  /** The velocity before it is scaled and limited: inertia plus the pulls
      towards the personal and the global best (`u` holds their unit
      directions) for a regular agent; the inertia rescaled by a random
      factor in [0, 2] for a fugitive. */
  function Velocity(fugitive: bool, w: real, vx: real, vy: real, u: (real, real, real, real), d: Draws): (real, real)
  {
    if fugitive then
      (Scatter(w * vx, d.fx), Scatter(w * vy, d.fy))
    else
      var r1, r2 := Uniform(0.0, 1.0, d.r1), Uniform(0.0, 1.0, d.r2);
      (w * vx + r1 * C1 * u.0 + C2 * r2 * u.2, w * vy + r1 * C1 * u.1 + C2 * r2 * u.3)
  }

  /** A fugitive keeps, on each axis, the sign of its damped inertia
      `w * v` and at most twice its size; a regular agent standing at both
      of its bests keeps only its damped inertia. */
  lemma VelocityForms(fugitive: bool, w: real, vx: real, vy: real, u: (real, real, real, real), d: Draws)
    ensures fugitive ==> var v := Velocity(fugitive, w, vx, vy, u, d);
              0.0 <= v.0 * (w * vx) && Abs(v.0) <= 2.0 * Abs(w * vx)
              && 0.0 <= v.1 * (w * vy) && Abs(v.1) <= 2.0 * Abs(w * vy)
    ensures !fugitive && u == (0.0, 0.0, 0.0, 0.0) ==> Velocity(fugitive, w, vx, vy, u, d) == (w * vx, w * vy)
  {
    if fugitive {
      ScatterBounds(w * vx, d.fx);
      ScatterBounds(w * vy, d.fy);
    }
  }

  /** One axis of a fugitive's velocity: `(1 + random.uniform(-1, 1)) * c`. */
  function Scatter(c: real, d: Unit): real
  {
    (1.0 + Uniform(-1.0, 1.0, d)) * c
  }

  /** Scattering keeps the sign and at most doubles. */
  lemma ScatterBounds(c: real, d: Unit)
    ensures 0.0 <= Scatter(c, d) * c && Abs(Scatter(c, d)) <= 2.0 * Abs(c)
  {
    var s := 1.0 + Uniform(-1.0, 1.0, d);
    MulNonNeg(s, c * c);
    assert (s * c) * c == s * (c * c);
    MulNonNeg(2.0 - s, Abs(c));
    assert Abs(s * c) == s * Abs(c);
  }

  /** Where `avoidObstacle` sends `agent` with the blocked velocity
      `(vx, vy)`, and the velocity it hands back. */
  ghost function Avoided(grid: Grid, agent: Agent, vx: real, vy: real, vLimit: real, trig: Trig)
    : (real, real, real, real)
    reads grid, grid.agents, agent
  {
    var p := Probe(agent.x, agent.y, agent.radius, vx, vy, vLimit);
    match FirstFree(Frees(SceneOf(grid, agent), p, trig), 0, 0)
    case Some(k) => Candidate(p, trig, k.0, k.1)
    case None => (agent.x, agent.y, 0.0, 0.0)
  }

  /** The velocity `(vx, vy)` is free for `agent`: its destination meets
      neither an obstacle nor another agent. */
  ghost predicate Clear(grid: Grid, agent: Agent, vx: real, vy: real)
    reads grid, grid.agents, agent
  {
    !HitsObstacle(grid.width as real, grid.height as real, grid.obstacles, agent.x + vx, agent.y + vy, agent.radius)
    && !HitsAgent(grid.width as real, grid.height as real, grid.agents, agent, agent.x + vx, agent.y + vy, agent.radius)
  }

  /** Every candidate `avoidObstacle` can return moves no faster than the
      limit, and the fallback does not move at all. */
  lemma AvoidedSpeed(grid: Grid, agent: Agent, vx: real, vy: real, vLimit: real, trig: Trig)
    requires Pythagorean(trig) && 0.0 <= vLimit
    ensures var c := Avoided(grid, agent, vx, vy, vLimit, trig);
            c.2 * c.2 + c.3 * c.3 <= vLimit * vLimit
  {
    var p := Probe(agent.x, agent.y, agent.radius, vx, vy, vLimit);
    match FirstFree(Frees(SceneOf(grid, agent), p, trig), 0, 0)
    case Some(k) =>
      CandidateSpeed(p, trig, k.0, k.1);
    case None =>
      SquareNonNeg(vLimit);
  }

  /** The outcome of the position update of `agent` with the limited
      velocity `v`, given whether that velocity was `clear` and the
      candidate `c` that `avoidObstacle` would pick: the guarded move when
      it is clear, the candidate's point and velocity otherwise (recorded
      through `setcoords` even when it is the same point); the velocity it
      ends with is stored. */
  twostate predicate Relocated(agent: Agent, clear: bool, v: (real, real), c: (real, real, real, real))
    reads agent
  {
    if clear then
      Shifted(agent, v.0, v.1, true) && agent.vx == v.0 && agent.vy == v.1
    else
      Shifted(agent, c.0 - old(agent.x), c.1 - old(agent.y), true) && agent.vx == c.2 && agent.vy == c.3
  }

  /** The position update of an agent with its limited velocity: `move`,
      then `avoidObstacle` and `setcoords` when the move is blocked, then
      `setVelocity`. */
  method Relocate(agent: Agent, grid: Grid, vx: real, vy: real, vLimit: real, trig: Trig, sqrt: real -> real,
                  ghost clear: bool, ghost c: (real, real, real, real))
    requires agent.Valid() && IsSqrt(sqrt)
    requires clear == Clear(grid, agent, vx, vy) && c == Avoided(grid, agent, vx, vy, vLimit, trig)
    modifies agent`x, agent`y, agent`lastX, agent`lastY, agent`listX, agent`listY, agent`vx, agent`vy
    ensures agent.Valid() && Relocated(agent, clear, (vx, vy), c)
  {
    var moved := MoveAmongAgents(agent, vx, vy, grid, sqrt);
    var nvx, nvy := vx, vy;
    if !moved {
      var r := AvoidObstacle(agent, Probe(agent.x, agent.y, agent.radius, vx, vy, vLimit), grid, trig, sqrt);
      agent.SetCoords(r.0, r.1);
      nvx, nvy := r.2, r.3;
    }
    agent.SetVelocity(nvx, nvy);
  }

  /** `Limit_maxVelocity` under the non-negative limit: it cannot fail, and
      the result is never faster than the limit. */
  function Limited(vx: real, vy: real, vLimit: real, sqrt: real -> real): (r: (real, real))
    requires IsSqrt(sqrt) && 0.0 <= vLimit
    ensures r.0 * r.0 + r.1 * r.1 <= vLimit * vLimit
    ensures Some(r) == LimitMaxVelocity(vx, vy, vLimit, sqrt)
  {
    LimitBounded(vx, vy, vLimit, sqrt);
    LimitMaxVelocity(vx, vy, vLimit, sqrt).value
  }

  /** The velocity agent `agent` aims for in this step, from its state at
      the start of its turn. */
  ghost function Aim(agent: Agent, fugitive: bool, w: real, gx: real, gy: real, d: Draws, vLimit: real,
                     sqrt: real -> real): (real, real)
    requires IsSqrt(sqrt) && 0.0 <= vLimit
    reads agent
  {
    var v := Velocity(fugitive, w, agent.vx, agent.vy, UnitSpeed(agent.x, agent.y, agent.px, agent.py, gx, gy, sqrt), d);
    Limited(100.0 * v.0, 100.0 * v.1, vLimit, sqrt)
  }

  /** One agent's turn in a step of `RDPSO`, given the velocity `v` it aims
      for (its velocity from inertia and the pulls to its bests, or the
      fugitive's rescaled inertia, then the limit), whether `v` is `clear`
      and the candidate `c` `avoidObstacle` would pick: the position
      update, then `update_GbestPbest` at the new position. */
  method AgentStep(agent: Agent, grid: Grid, fugitive: bool, w: real, gbest: Ext, gx: real, gy: real,
                   goalsX: seq<real>, goalsY: seq<real>, d: Draws, vLimit: real, trig: Trig, sqrt: real -> real,
                   v: (real, real), ghost clear: bool, ghost c: (real, real, real, real))
    returns (newGbest: Ext, newGx: real, newGy: real)
    requires agent.Valid() && IsSqrt(sqrt) && 0.0 <= vLimit && |goalsX| <= |goalsY|
    requires v == Aim(agent, fugitive, w, gx, gy, d, vLimit, sqrt)
    requires clear == Clear(grid, agent, v.0, v.1) && c == Avoided(grid, agent, v.0, v.1, vLimit, trig)
    modifies agent`x, agent`y, agent`lastX, agent`lastY, agent`listX, agent`listY, agent`vx, agent`vy
    modifies agent`pbest, agent`px, agent`py
    ensures agent.Valid() && |agent.listX| == old(|agent.listX|) + 1
    ensures Relocated(agent, clear, v, c)
    ensures Bests(agent.pbest, agent.px, agent.py, newGbest, newGx, newGy)
            == BestsAfter(Bests(old(agent.pbest), old(agent.px), old(agent.py), gbest, gx, gy),
                          FitnessSum(sqrt, goalsX, goalsY, agent.x, agent.y), agent.x, agent.y)
  {
    Relocate(agent, grid, v.0, v.1, vLimit, trig, sqrt, clear, c);
    newGbest, newGx, newGy := UpdateGbestPbest(agent, gx, gy, gbest, goalsX, goalsY, sqrt);
  }

  /** One agent's turn: its aimed velocity, then `AgentStep`. The global
      best never grows. */
  method PassAgent(agent: Agent, grid: Grid, fugitive: bool, w: real, gbest: Ext, gx: real, gy: real,
                   goalsX: seq<real>, goalsY: seq<real>, d: Draws, vLimit: real, trig: Trig, sqrt: real -> real)
    returns (newGbest: Ext, newGx: real, newGy: real)
    requires agent.Valid() && IsSqrt(sqrt) && 0.0 <= vLimit && |goalsX| <= |goalsY|
    modifies agent`x, agent`y, agent`lastX, agent`lastY, agent`listX, agent`listY, agent`vx, agent`vy
    modifies agent`pbest, agent`px, agent`py
    ensures agent.Valid() && |agent.listX| == old(|agent.listX|) + 1 && LeExt(newGbest, gbest)
  {
    var u := UnitSpeed(agent.x, agent.y, agent.px, agent.py, gx, gy, sqrt);
    var raw := Velocity(fugitive, w, agent.vx, agent.vy, u, d);
    var v := Limited(100.0 * raw.0, 100.0 * raw.1, vLimit, sqrt);
    ghost var clear := Clear(grid, agent, v.0, v.1);
    ghost var c := Avoided(grid, agent, v.0, v.1, vLimit, trig);
    newGbest, newGx, newGy := AgentStep(agent, grid, fugitive, w, gbest, gx, gy, goalsX, goalsY, d, vLimit, trig, sqrt,
                                        v, clear, c);
  }

  /** The agent loop of one step, in list order, threading the global best
      through the agents: every trajectory grows by exactly one point, and
      the global best never grows. */
  method MoveSwarm(grid: Grid, flags: seq<bool>, w: real, gbest: Ext, gx: real, gy: real,
                   goalsX: seq<real>, goalsY: seq<real>, ds: seq<Draws>, vLimit: real, trig: Trig, sqrt: real -> real)
    returns (newGbest: Ext, newGx: real, newGy: real)
    requires grid.Valid() && IsSqrt(sqrt) && 0.0 <= vLimit && |goalsX| <= |goalsY|
    requires |flags| == |grid.agents| && |ds| == |grid.agents|
    modifies grid.agents`x, grid.agents`y, grid.agents`lastX, grid.agents`lastY, grid.agents`listX, grid.agents`listY
    modifies grid.agents`vx, grid.agents`vy, grid.agents`pbest, grid.agents`px, grid.agents`py
    ensures grid.Valid() && LeExt(newGbest, gbest)
    ensures forall j :: 0 <= j < |grid.agents| ==> |grid.agents[j].listX| == old(|grid.agents[j].listX|) + 1
  {
    newGbest, newGx, newGy := gbest, gx, gy;
    var k := 0;
    while k < |grid.agents|
      invariant 0 <= k <= |grid.agents|
      invariant grid.Valid() && LeExt(newGbest, gbest)
      invariant forall j :: 0 <= j < k ==> |grid.agents[j].listX| == old(|grid.agents[j].listX|) + 1
      invariant forall j :: k <= j < |grid.agents| ==> unchanged(grid.agents[j])
    {
      var g;
      g, newGx, newGy := PassAgent(grid.agents[k], grid, flags[k], w, newGbest, newGx, newGy, goalsX, goalsY, ds[k],
                                   vLimit, trig, sqrt);
      newGbest := g;
      k := k + 1;
    }
  }

  /** One step of `RDPSO`: the agent loop, then `pos_change` and one
      detection sweep with the agent's own radius, crediting at most one
      target; unless every target is then found, the found targets are
      dropped from the target and goal lists. */
  method Step(grid: Grid, flags: seq<bool>, w: real, gbest: Ext, gx: real, gy: real,
              goalsX: seq<real>, goalsY: seq<real>, ds: seq<Draws>, found: nat, total: nat, vLimit: real, trig: Trig,
              sqrt: real -> real)
    returns (newGbest: Ext, newGx: real, newGy: real, newFound: nat, xs: seq<real>, ys: seq<real>)
    requires grid.Valid() && IsSqrt(sqrt) && 0.0 <= vLimit && GoalsMatch(grid.targets, goalsX, goalsY)
    requires |flags| == |grid.agents| && |ds| == |grid.agents| && found + |Present(grid.targets)| == total
    modifies grid.cells, grid`targets, grid.agents`targetsFound
    modifies grid.agents`x, grid.agents`y, grid.agents`lastX, grid.agents`lastY, grid.agents`listX, grid.agents`listY
    modifies grid.agents`vx, grid.agents`vy, grid.agents`pbest, grid.agents`px, grid.agents`py
    ensures grid.Valid() && LeExt(newGbest, gbest)
    ensures found <= newFound <= found + 1 && newFound + |Present(grid.targets)| == total
    ensures newFound < total ==> (forall t :: t in grid.targets ==> t.Some?) && GoalsMatch(grid.targets, xs, ys)
  {
    newGbest, newGx, newGy := MoveSwarm(grid, flags, w, gbest, gx, gy, goalsX, goalsY, ds, vLimit, trig, sqrt);
    newFound, xs, ys := Conclude(grid, false, found, total, goalsX, goalsY, sqrt);
  }

  /** The fugitives of a re-draw: the first `int(n / 3)` agents of the
      stable descending sort by personal best. */
  method ChooseFugitives(agents: seq<Agent>) returns (flags: seq<bool>)
    ensures |flags| == |agents| && Count(flags) == |agents| / 3 && Separated(PbestsOf(agents), flags)
  {
    var pb := seq(|agents|, i reads agents requires 0 <= i < |agents| => agents[i].pbest);
    assert pb == PbestsOf(agents);
    flags := Fugitives(pb, |agents| / 3);
  }

  /** `init_RDPSO` as the search loop needs it: the goal lists match the
      targets and the global best is a number. */
  method Initialise(grid: Grid, stepSize: real, init: seq<(Unit, Unit)>, sqrt: real -> real)
    returns (goalsX: seq<real>, goalsY: seq<real>, gbest: Ext, gx: real, gy: real)
    requires grid.Valid() && (forall t :: t in grid.targets ==> t.Some?) && |init| == |grid.agents|
    modifies grid.agents`vx, grid.agents`vy, grid.agents`px, grid.agents`py, grid.agents`pbest
    ensures grid.Valid() && goalsX == TargetXs(grid.targets) && goalsY == TargetYs(grid.targets) && gbest.Fin?
  {
    var g;
    goalsX, goalsY, gx, gy, g := InitSwarm(grid.agents, grid.targets, stepSize, init, sqrt);
    gbest := Fin(g);
  }

  /** The step loop of `RDPSO` from the initialised swarm: at most
      `max_steps` steps, re-drawing the fugitives on every positive
      multiple of 20, each running the agent loop with the annealed inertia
      (`draws[s][k]` holds agent `k`'s draws in step `s`), repainting the
      agents and crediting at most one detected target; the loop stops once
      every target is found. `steps` is the index of the last step run. */
  method Run(grid: Grid, maxSteps: nat, vLimit: real, goalsX: seq<real>, goalsY: seq<real>, gbest: Ext, gx: real,
             gy: real, draws: seq<seq<Draws>>, trig: Trig, sqrt: real -> real)
    returns (steps: nat, found: nat, ghost counts: seq<nat>)
    requires grid.Valid() && IsSqrt(sqrt) && 0.0 <= vLimit
    requires (forall t :: t in grid.targets ==> t.Some?) && GoalsMatch(grid.targets, goalsX, goalsY)
    requires |Present(grid.targets)| == |grid.targets|
    requires |draws| >= maxSteps && forall s :: 0 <= s < maxSteps ==> |draws[s]| == |grid.agents|
    modifies grid.cells, grid`targets, grid.agents`targetsFound
    modifies grid.agents`x, grid.agents`y, grid.agents`lastX, grid.agents`lastY, grid.agents`listX, grid.agents`listY
    modifies grid.agents`vx, grid.agents`vy, grid.agents`pbest, grid.agents`px, grid.agents`py
    ensures grid.Valid()
    ensures |counts| <= maxSteps && Tally(counts, found, steps, |old(grid.targets)|)
    ensures found < |old(grid.targets)| ==> |counts| == maxSteps
    ensures found + |Present(grid.targets)| == |old(grid.targets)|
  {
    var totalTargets := |grid.targets|;
    var flags := seq(|grid.agents|, _ => false);
    var xs, ys, g, x, y := goalsX, goalsY, gbest, gx, gy;
    found, steps, counts := 0, 0, [];
    var s := 0;
    while s < maxSteps
      invariant 0 <= s <= maxSteps && |counts| == s
      invariant grid.Valid() && |flags| == |grid.agents|
      invariant (forall t :: t in grid.targets ==> t.Some?) && GoalsMatch(grid.targets, xs, ys)
      invariant Tally(counts, found, steps, totalTargets)
      invariant found + |Present(grid.targets)| == totalTargets
      invariant counts != [] ==> found < totalTargets
    {
      if s % PERIOD == 0 && s > 0 {
        flags := ChooseFugitives(grid.agents);
      }
      var next;
      g, x, y, next, xs, ys := Step(grid, flags, Inertia(s, maxSteps), g, x, y, xs, ys, draws[s], found, totalTargets,
                                    vLimit, trig, sqrt);
      TallySnoc(counts, found, steps, next, totalTargets);
      found, steps, counts := next, s, counts + [next];
      if found == totalTargets {
        break;
      }
      s := s + 1;
    }
  }

  /** `RDPSO`: the swarm is initialised, then the step loop runs with the
      limit `V_LIMIT = step_size`; the result is the index of the last step
      run, the number of targets found and the distance every agent's
      trajectory covers. */
  method Search(grid: Grid, maxSteps: nat, stepSize: real, init: seq<(Unit, Unit)>, draws: seq<seq<Draws>>,
                trig: Trig, sqrt: real -> real)
    returns (steps: nat, found: nat, total: real, ghost counts: seq<nat>)
    requires grid.Valid() && IsSqrt(sqrt) && 0 < maxSteps && 0.0 <= stepSize
    requires forall t :: t in grid.targets ==> t.Some?
    requires |init| == |grid.agents|
    requires |draws| >= maxSteps && forall s :: 0 <= s < maxSteps ==> |draws[s]| == |grid.agents|
    modifies grid.cells, grid`targets, grid.agents`targetsFound
    modifies grid.agents`x, grid.agents`y, grid.agents`lastX, grid.agents`lastY, grid.agents`listX, grid.agents`listY
    modifies grid.agents`vx, grid.agents`vy, grid.agents`pbest, grid.agents`px, grid.agents`py
    ensures grid.Valid()
    ensures |counts| <= maxSteps && Tally(counts, found, steps, |old(grid.targets)|)
    ensures found < |old(grid.targets)| ==> |counts| == maxSteps
    ensures found + |Present(grid.targets)| == |old(grid.targets)|
    ensures total == TotalDistance(grid.agents, sqrt) && 0.0 <= total
  {
    PresentAllSome(grid.targets);
    var goalsX, goalsY, gbest, gx, gy := Initialise(grid, stepSize, init, sqrt);
    GoalsOfTargets(grid.targets);
    steps, found, counts := Run(grid, maxSteps, stepSize, goalsX, goalsY, gbest, gx, gy, draws, trig, sqrt);
    total := grid.TotalDistanceCovered(sqrt);
    TotalDistanceNonNeg(grid.agents, sqrt);
  }
}
