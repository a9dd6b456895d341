// The distributed swarm search of dPSO.py: every agent leads a swarm of
// particles scattered around it. An agent moves like an RDPSO agent with
// the annealed inertia, but its destination must also keep clear of its
// own particles; its personal best then takes the point its swarm reports
// and the point it stands on. The particles of a swarm fly with their own
// bests and are pulled back to their agent once they stray too far.
//
// The driver's call of `update_particles` (dPSO.py:229) hands its
// arguments to the wrong parameters; the loop takes the point that call
// returns from its draws, and `update_particles` itself is modelled with
// its declared parameters.

module DPSO {
  import opened Numerics
  import opened Geometry
  import opened ContinuousGrid
  import opened Collision
  import opened SwarmUtil
  import opened SearchStep
  import opened DPSOParticle
  import RDPSO

  /** The cognitive and social coefficients of the agents. */
  const C1: real := 0.4
  const C2: real := 0.9
  /** `Swarm(agent, grid)`: ten particles, spread with standard deviation 3. */
  const NUM_PARTICLES: nat := 10
  const SIGMA: real := 3.0

  // ----- the dispersion pull -----

  /** The pull `c * (1 + dis - max_dis) * ((ax - x) / dis, (ay - y) / dis)`
      back to the agent at `(ax, ay)` of a particle at `(x, y)` at the
      distance `dis` from it, added only when `dis > max_dis` (`c` is
      `c3 * r3`); `None` where that division raises `ZeroDivisionError`.
      A pull is only ever added beyond `max_dis`, and with a non-negative
      `c` it points at the agent. */
  function Dispersion(ax: real, ay: real, x: real, y: real, c: real, maxDis: real, sqrt: real -> real)
    : (d: Option<(real, real)>)
    requires IsSqrt(sqrt)
    ensures d.None? <==> maxDis < 0.0 && ax == x && ay == y
    ensures d.Some? && sqrt(SqDist(ax, ay, x, y)) <= maxDis ==> d.value == (0.0, 0.0)
    ensures d.Some? && 0.0 <= c ==> Toward(d.value, ax - x, ay - y)
  {
    var dx, dy := ax - x, ay - y;
    var dis := sqrt(SqDist(ax, ay, x, y));
    LengthZeroIff(dx, dy, sqrt);
    assert SqDist(ax, ay, x, y) == dx * dx + dy * dy;
    if dis <= maxDis then Some((0.0, 0.0))
    else if dis == 0.0 then None
    else
      var s := c * (1.0 + dis - maxDis);
      PullToward(dx, dy, dis, s, sqrt);
      Some((s * (dx / dis), s * (dy / dis)))
  }

  /** Scaling the unit offset by a non-negative factor keeps its way. */
  lemma PullToward(dx: real, dy: real, dis: real, s: real, sqrt: real -> real)
    requires IsSqrt(sqrt) && dis == sqrt(dx * dx + dy * dy) && 0.0 < dis
    ensures 0.0 <= s ==> Toward((s * (dx / dis), s * (dy / dis)), dx, dy)
  {
    NormalizeUnit(dx, dy, sqrt);
    assert Normalize(dx, dy, sqrt) == (dx / dis, dy / dis);
    var e := (dx / dis, dy / dis);
    assert e.0 * dy == e.1 * dx && 0.0 <= e.0 * dx && 0.0 <= e.1 * dy;
    if 0.0 <= s {
      ScaleToward(s, e, dx, dy);
    }
  }

  // ----- the swarm -----

  /** Every particle of `ps` from `from` on is clear of the arena's edge and
      the obstacles and of every particle before it, for bodies of radius
      `r`: what `initialize_particles` checks of each point it accepts. */
  ghost predicate Scattered(w: real, h: real, obstacles: seq<Box>, ps: seq<Particle>, from: nat, r: real)
    reads ps
  {
    |ps| <= from
    || (var last := ps[|ps| - 1];
        Scattered(w, h, obstacles, ps[..|ps| - 1], from, r)
        && !HitsObstacle(w, h, obstacles, last.x, last.y, r)
        && !HitsParticle(w, h, ps[..|ps| - 1], null, last.x, last.y, r))
  }

  /** Each particle of a scattered list from `from` on is clear of the
      obstacles and of every particle before it. */
  lemma {:induction false} ScatteredAt(w: real, h: real, obstacles: seq<Box>, ps: seq<Particle>, from: nat,
                                       r: real, k: nat)
    requires Scattered(w, h, obstacles, ps, from, r) && from <= k < |ps|
    ensures !HitsObstacle(w, h, obstacles, ps[k].x, ps[k].y, r) && !HitsParticle(w, h, ps[..k], null, ps[k].x, ps[k].y, r)
    decreases |ps|
  {
    if k < |ps| - 1 {
      var init := ps[..|ps| - 1];
      ScatteredAt(w, h, obstacles, init, from, r, k);
      assert init[k] == ps[k] && init[..k] == ps[..k];
    }
  }

  /** `Swarm` of dPSO.py: an agent, its particles, and the swarm's best. */
  class Swarm {
    const agent: Agent
    var particles: seq<Particle>
    var gx: real
    var gy: real
    var gbest: Ext
    const sigma: real

    /** No particle is listed twice. */
    ghost predicate Valid()
      reads this`particles
    {
      forall i, j :: 0 <= i < j < |particles| ==> particles[i] != particles[j]
    }

    /** `Swarm.__init__`: the swarm's best starts at the agent, with an
        infinite value, then `initialize_particles` scatters at most
        `num_particles` particles with the standard normal draws `zs`. */
    constructor(agent: Agent, grid: Grid, numParticles: nat, sigma: real, zs: seq<(real, real)>, sqrt: real -> real)
      requires IsSqrt(sqrt) && |zs| >= numParticles * 10
      ensures this.agent == agent && this.sigma == sigma
      ensures gx == agent.x && gy == agent.y && gbest == Inf
      ensures Valid() && |particles| <= numParticles
      ensures forall k :: 0 <= k < |particles| ==> particles[k].radius == agent.radius
      ensures Scattered(grid.width as real, grid.height as real, grid.obstacles, particles, 0, agent.radius)
    {
      this.agent := agent;
      this.sigma := sigma;
      particles := [];
      gx, gy, gbest := agent.x, agent.y, Inf;
      new;
      var attempts := InitializeParticles(grid, numParticles, zs, sqrt);
    }

    /** `initialize_particles`: while fewer than `num_particles` particles
        exist and fewer than `num_particles * 10` attempts are made, a point
        is drawn around the agent (`zs[i]` is the `i`-th pair of standard
        normal draws) and becomes a new particle when it is clear of the
        obstacles and of every particle so far. The particles already there
        stay; fewer than `num_particles` particles are left only when every
        attempt is used. */
    method InitializeParticles(grid: Grid, numParticles: nat, zs: seq<(real, real)>, sqrt: real -> real)
      returns (attempts: nat)
      requires Valid() && IsSqrt(sqrt) && |zs| >= numParticles * 10
      modifies this`particles
      ensures Valid() && attempts <= numParticles * 10
      ensures |old(particles)| <= |particles| <= |old(particles)| + attempts
      ensures particles[..|old(particles)|] == old(particles)
      ensures |particles| <= numParticles || particles == old(particles)
      ensures |particles| < numParticles ==> attempts == numParticles * 10
      ensures forall k :: |old(particles)| <= k < |particles| ==> particles[k].radius == agent.radius
      ensures Scattered(grid.width as real, grid.height as real, grid.obstacles, particles,
                        |old(particles)|, agent.radius)
    {
      var start := |particles|;
      attempts := 0;
      while |particles| < numParticles && attempts < numParticles * 10
        invariant Valid() && attempts <= numParticles * 10
        invariant start <= |particles| <= start + attempts
        invariant particles[..start] == old(particles)
        invariant |particles| <= numParticles || particles == old(particles)
        invariant forall k :: start <= k < |particles| ==> particles[k].radius == agent.radius
        invariant Scattered(grid.width as real, grid.height as real, grid.obstacles, particles, start,
                            agent.radius)
      {
        var added := Admit(grid, agent.x + sigma * zs[attempts].0, agent.y + sigma * zs[attempts].1, start,
                           old(particles), sqrt);
        attempts := attempts + 1;
      }
    }

    /** One attempt of `initialize_particles`: a particle at `(x, y)` joins
        the swarm exactly when that point is clear of the obstacles and of
        every particle so far. */
    method Admit(grid: Grid, x: real, y: real, ghost start: nat, ghost orig: seq<Particle>, sqrt: real -> real)
      returns (added: bool)
      requires Valid() && IsSqrt(sqrt) && start <= |particles| && particles[..start] == orig
      requires forall k :: start <= k < |particles| ==> particles[k].radius == agent.radius
      requires Scattered(grid.width as real, grid.height as real, grid.obstacles, particles, start, agent.radius)
      modifies this`particles
      ensures Valid() && start <= |particles| && particles[..start] == orig
      ensures forall k :: start <= k < |particles| ==> particles[k].radius == agent.radius
      ensures Scattered(grid.width as real, grid.height as real, grid.obstacles, particles, start, agent.radius)
      ensures added <==>
                !HitsObstacle(grid.width as real, grid.height as real, grid.obstacles, x, y, agent.radius)
                && !HitsParticle(grid.width as real, grid.height as real, old(particles), null, x, y, agent.radius)
      ensures |particles| == |old(particles)| + (if added then 1 else 0)
      ensures !added ==> particles == old(particles)
    {
      var hit := IsCollision(grid, x, y, agent.radius, sqrt);
      if !hit {
        hit := IsCollisionParticles(particles, null, grid, x, y, agent.radius, sqrt);
      }
      added := !hit;
      if added {
        ghost var ps := particles;
        var p := Push(x, y);
        assert particles[..|ps|] == ps && particles[..start] == ps[..start];
        forall k | start <= k < |particles|
          ensures particles[k].radius == agent.radius
        {
          if k < |ps| {
            assert particles[k] == ps[k];
          }
        }
      }
    }

    /** A new particle at `(x, y)` joins the end of the list. */
    method Push(x: real, y: real) returns (p: Particle)
      requires Valid()
      modifies this`particles
      ensures Valid() && fresh(p) && particles == old(particles) + [p]
      ensures p.x == x && p.y == y && p.radius == agent.radius
    {
      p := new Particle(x, y, agent.radius);
      particles := particles + [p];
    }

    /** One particle's turn of `update_particles`, given the velocity `v` it
        aims for, whether `v` is `clear` and the candidate `c` of
        `avoidObstacle`: the guarded `move`, the avoidance point when it is
        blocked, `setVelocity`, then `update_GbestPbest` at its new point
        into the swarm's best. */
    method FlyStep(p: Particle, grid: Grid, vLimit: real, goalsX: seq<real>, goalsY: seq<real>, trig: Trig,
                   sqrt: real -> real, v: (real, real), ghost clear: bool, ghost c: (real, real, real, real))
      requires IsSqrt(sqrt) && |goalsX| <= |goalsY|
      requires clear == ParticleClear(this, grid, p, v)
      requires c == Avoided(grid, p, p.x, p.y, p.radius, v.0, v.1, 2.0 * vLimit, trig)
      modifies p`x, p`y, p`vx, p`vy, p`pbest, p`px, p`py, this`gbest, this`gx, this`gy
      ensures clear ==> p.x == old(p.x) + v.0 && p.y == old(p.y) + v.1 && (p.vx, p.vy) == v
      ensures !clear ==> (p.x, p.y, p.vx, p.vy) == c
      ensures Bests(p.pbest, p.px, p.py, gbest, gx, gy)
              == BestsAfter(Bests(old(p.pbest), old(p.px), old(p.py), old(gbest), old(gx), old(gy)),
                            FitnessSum(sqrt, goalsX, goalsY, p.x, p.y), p.x, p.y)
    {
      Drift(p, grid, vLimit, trig, sqrt, v, clear, c);
      gbest, gx, gy := ParticleBests(p, gx, gy, gbest, goalsX, goalsY, sqrt);
    }

    /** The position update of particle `p` with the limited velocity `v`:
        the guarded `move`, then `avoidObstacle` with twice `V_LIMIT` and
        `setcoords` when it is blocked, then `setVelocity`. */
    method Drift(p: Particle, grid: Grid, vLimit: real, trig: Trig, sqrt: real -> real, v: (real, real),
                 ghost clear: bool, ghost c: (real, real, real, real))
      requires IsSqrt(sqrt)
      requires clear == ParticleClear(this, grid, p, v)
      requires c == Avoided(grid, p, p.x, p.y, p.radius, v.0, v.1, 2.0 * vLimit, trig)
      modifies p`x, p`y, p`vx, p`vy
      ensures clear ==> p.x == old(p.x) + v.0 && p.y == old(p.y) + v.1 && (p.vx, p.vy) == v
      ensures !clear ==> (p.x, p.y, p.vx, p.vy) == c
    {
      var moved := MoveParticle(this, p, v.0, v.1, grid, sqrt);
      var nvx, nvy := v.0, v.1;
      if !moved {
        var r := AvoidObstacle(p, Probe(p.x, p.y, p.radius, v.0, v.1, 2.0 * vLimit), grid, trig, sqrt);
        p.SetCoords(r.0, r.1);
        nvx, nvy := r.2, r.3;
      }
      p.SetVelocity(nvx, nvy);
    }

    /** One particle's turn: its aimed velocity, then `FlyStep`; `false`
        where the dispersion pull raises. Neither its personal best nor the
        swarm's best ever grows. */
    method Fly(p: Particle, grid: Grid, vLimit: real, goalsX: seq<real>, goalsY: seq<real>, c1: real, c2: real,
               c3: real, w: real, maxDis: real, d: Fling, trig: Trig, sqrt: real -> real)
      returns (ok: bool)
      requires IsSqrt(sqrt) && 0.0 <= vLimit && |goalsX| <= |goalsY|
      modifies p`x, p`y, p`vx, p`vy, p`pbest, p`px, p`py, this`gbest, this`gx, this`gy
      ensures ok <==> old(Dispersion(agent.x, agent.y, p.x, p.y, c3 * Uniform(0.0, 1.0, d.r3), maxDis, sqrt)).Some?
      ensures !ok ==> unchanged(p) && gbest == old(gbest) && gx == old(gx) && gy == old(gy)
      ensures ok ==> Bests(p.pbest, p.px, p.py, gbest, gx, gy)
                     == BestsAfter(Bests(old(p.pbest), old(p.px), old(p.py), old(gbest), old(gx), old(gy)),
                                   FitnessSum(sqrt, goalsX, goalsY, p.x, p.y), p.x, p.y)
      ensures LeExt(p.pbest, old(p.pbest)) && LeExt(gbest, old(gbest))
    {
      var u := UnitSpeed(p.x, p.y, p.px, p.py, gx, gy, sqrt);
      var r1, r2, r3 := Uniform(0.0, 1.0, d.r1), Uniform(0.0, 1.0, d.r2), Uniform(0.0, 1.0, d.r3);
      var e := Dispersion(agent.x, agent.y, p.x, p.y, c3 * r3, maxDis, sqrt);
      if e.None? {
        return false;
      }
      var vx := w * p.vx + c1 * r1 * u.0 + c2 * r2 * u.2 + e.value.0;
      var vy := w * p.vy + c1 * r1 * u.1 + c2 * r2 * u.3 + e.value.1;
      var v := RDPSO.Limited(100.0 * vx, 100.0 * vy, 2.0 * vLimit, sqrt);
      ghost var clear := ParticleClear(this, grid, p, v);
      ghost var c := Avoided(grid, p, p.x, p.y, p.radius, v.0, v.1, 2.0 * vLimit, trig);
      FlyStep(p, grid, vLimit, goalsX, goalsY, trig, sqrt, v, clear, c);
      ok := true;
    }

    /** `update_particles` with its declared parameters: every particle takes
        its turn in list order (`ds[k]` holds particle `k`'s draws; `c4` is
        never used); the result is the swarm's best point. It stops with
        `false` where the dispersion pull raises. No personal best and not
        the swarm's best ever grows. */
    method UpdateParticles(grid: Grid, vLimit: real, goalsX: seq<real>, goalsY: seq<real>, c1: real, c2: real,
                           c3: real, c4: real, w: real, maxDis: real, ds: seq<Fling>, trig: Trig, sqrt: real -> real)
      returns (ok: bool, nx: real, ny: real)
      requires Valid() && IsSqrt(sqrt) && 0.0 <= vLimit && |goalsX| <= |goalsY| && |ds| == |particles|
      modifies particles`x, particles`y, particles`vx, particles`vy, particles`pbest, particles`px, particles`py
      modifies this`gbest, this`gx, this`gy
      ensures LeExt(gbest, old(gbest))
      ensures forall k :: 0 <= k < |particles| ==> LeExt(particles[k].pbest, old(particles[k].pbest))
      ensures ok ==> nx == gx && ny == gy
      ensures 0.0 <= maxDis ==> ok
    {
      ok := true;
      var k := 0;
      while k < |particles|
        invariant 0 <= k <= |particles| && LeExt(gbest, old(gbest))
        invariant forall j :: 0 <= j < k ==> LeExt(particles[j].pbest, old(particles[j].pbest))
        invariant forall j :: k <= j < |particles| ==> unchanged(particles[j])
        invariant 0.0 <= maxDis ==> ok
      {
        ok := Fly(particles[k], grid, vLimit, goalsX, goalsY, c1, c2, c3, w, maxDis, ds[k], trig, sqrt);
        if !ok {
          return false, gx, gy;
        }
        k := k + 1;
      }
      return true, gx, gy;
    }
  }

  /** The four `random.uniform(0, 1)` draws of a particle's turn (`r4` is
      drawn but never used). */
  datatype Fling = Fling(r1: Unit, r2: Unit, r3: Unit, r4: Unit)

  /** The destination of `p` with velocity `v` is clear for `move`. */
  ghost predicate ParticleClear(swarm: Swarm, grid: Grid, p: Particle, v: (real, real))
    reads swarm, swarm.particles, grid, grid.agents, p
  {
    var w, h := grid.width as real, grid.height as real;
    !HitsObstacle(w, h, grid.obstacles, p.x + v.0, p.y + v.1, p.radius)
    && !HitsAgent(w, h, grid.agents, p, p.x + v.0, p.y + v.1, p.radius)
    && !HitsParticle(w, h, swarm.particles, p, p.x + v.0, p.y + v.1, p.radius)
  }

  /** Where `avoidObstacle` sends the body `self` of radius `r` at `(x, y)`
      with the blocked velocity `(vx, vy)`, and the velocity it hands back. */
  ghost function Avoided(grid: Grid, self: object?, x: real, y: real, r: real, vx: real, vy: real, vLimit: real,
                         trig: Trig): (real, real, real, real)
    reads grid, grid.agents
  {
    var p := Probe(x, y, r, vx, vy, vLimit);
    match FirstFree(Frees(SceneOf(grid, self), p, trig), 0, 0)
    case Some(k) => Candidate(p, trig, k.0, k.1)
    case None => (x, y, 0.0, 0.0)
  }

  /** The three tests of `move`: the body `self` of radius `r` placed at
      `(x, y)` meets no obstacle, no agent but itself and no particle of the
      swarm but itself. */
  method Clear(swarm: Swarm, self: object?, grid: Grid, x: real, y: real, r: real, sqrt: real -> real)
    returns (clear: bool)
    requires IsSqrt(sqrt)
    ensures clear <==>
              !HitsObstacle(grid.width as real, grid.height as real, grid.obstacles, x, y, r)
              && !HitsAgent(grid.width as real, grid.height as real, grid.agents, self, x, y, r)
              && !HitsParticle(grid.width as real, grid.height as real, swarm.particles, self, x, y, r)
  {
    var hit := IsCollision(grid, x, y, r, sqrt);
    if !hit {
      hit := IsCollisionAgents(self, grid, x, y, r, sqrt);
    }
    if !hit {
      hit := IsCollisionParticles(swarm.particles, self, grid, x, y, r, sqrt);
    }
    clear := !hit;
  }

  /** `move(swarm, p, dx, dy, grid)` for a particle: the step is committed
      exactly when the destination is clear. */
  method MoveParticle(swarm: Swarm, p: Particle, dx: real, dy: real, grid: Grid, sqrt: real -> real)
    returns (moved: bool)
    requires IsSqrt(sqrt)
    modifies p`x, p`y
    ensures moved <==> old(ParticleClear(swarm, grid, p, (dx, dy)))
    ensures moved ==> p.x == old(p.x) + dx && p.y == old(p.y) + dy
    ensures !moved ==> p.x == old(p.x) && p.y == old(p.y)
  {
    moved := Clear(swarm, p, grid, p.x + dx, p.y + dy, p.radius, sqrt);
    if moved {
      p.SetCoords(p.x + dx, p.y + dy);
    }
  }

  /** `update_GbestPbest` for a particle. */
  method ParticleBests(p: Particle, gx: real, gy: real, gbest: Ext, goalsX: seq<real>, goalsY: seq<real>,
                       sqrt: real -> real)
    returns (newGbest: Ext, newGx: real, newGy: real)
    requires |goalsX| <= |goalsY|
    modifies p`pbest, p`px, p`py
    ensures Bests(p.pbest, p.px, p.py, newGbest, newGx, newGy)
            == BestsAfter(Bests(old(p.pbest), old(p.px), old(p.py), gbest, gx, gy),
                          FitnessSum(sqrt, goalsX, goalsY, p.x, p.y), p.x, p.y)
  {
    newGx, newGy, newGbest := gx, gy, gbest;
    var f := SumFitness(goalsX, goalsY, p.x, p.y, sqrt);
    if p.pbest.AtLeast(f) {
      p.pbest := Fin(f);
      p.px := p.x;
      p.py := p.y;
    }
    if newGbest.AtLeast(f) {
      newGbest := Fin(f);
      newGx := p.px;
      newGy := p.py;
    }
  }

  // ----- the agents -----

  /** The pulls of a swarm member's velocity: inertia `w * v` plus `c1 * r1`
      along the unit direction to its personal best and `c2 * r2` along the
      one to the swarm's best (`u` holds both directions). */
  function Pull(w: real, vx: real, vy: real, c1: real, c2: real, r1: real, r2: real, u: (real, real, real, real))
    : (v: (real, real))
  {
    (w * vx + c1 * r1 * u.0 + c2 * r2 * u.2, w * vy + c1 * r1 * u.1 + c2 * r2 * u.3)
  }

  /** An agent of `dPSO` aims like a regular agent of `RDPSO`, whatever the
      fugitive draws. */
  lemma PullLikeRDPSO(w: real, vx: real, vy: real, u: (real, real, real, real), d: RDPSO.Draws)
    ensures Pull(w, vx, vy, C1, C2, Uniform(0.0, 1.0, d.r1), Uniform(0.0, 1.0, d.r2), u)
            == RDPSO.Velocity(false, w, vx, vy, u, d)
  {
    var r1, r2 := Uniform(0.0, 1.0, d.r1), Uniform(0.0, 1.0, d.r2);
    var p := Pull(w, vx, vy, C1, C2, r1, r2, u);
    var v := RDPSO.Velocity(false, w, vx, vy, u, d);
    assert v.0 == w * vx + r1 * RDPSO.C1 * u.0 + RDPSO.C2 * r2 * u.2;
    assert v.1 == w * vy + r1 * RDPSO.C1 * u.1 + RDPSO.C2 * r2 * u.3;
    assert p.0 == v.0 && p.1 == v.1;
  }

  /** The draws of one agent's turn: `r1` and `r2` for its velocity, and
      the point `(spx, spy)` its swarm reports (the driver's call of
      `update_particles` is an input of the model). */
  datatype Draws = Draws(r1: Unit, r2: Unit, spot: (real, real))

  /** The velocity the agent of `swarm` aims for: the pulls times 100,
      limited to `V_LIMIT`. */
  ghost function Aim(agent: Agent, w: real, gx: real, gy: real, d: Draws, vLimit: real, sqrt: real -> real)
    : (real, real)
    requires IsSqrt(sqrt) && 0.0 <= vLimit
    reads agent
  {
    var v := Pull(w, agent.vx, agent.vy, C1, C2, Uniform(0.0, 1.0, d.r1), Uniform(0.0, 1.0, d.r2),
                  UnitSpeed(agent.x, agent.y, agent.px, agent.py, gx, gy, sqrt));
    RDPSO.Limited(100.0 * v.0, 100.0 * v.1, vLimit, sqrt)
  }

  /** The destination of `agent` with velocity `v` passes the three tests
      of `move`. */
  ghost predicate AgentClear(swarm: Swarm, grid: Grid, agent: Agent, v: (real, real))
    reads swarm, swarm.particles, grid, grid.agents, agent
  {
    RDPSO.Clear(grid, agent, v.0, v.1)
    && !HitsParticle(grid.width as real, grid.height as real, swarm.particles, agent,
                     agent.x + v.0, agent.y + v.1, agent.radius)
  }

  /** `move(swarm, agent, dx, dy, grid)` for the swarm's agent: the step is
      committed through `setcoords` exactly when it passes the three tests,
      and the agent is unchanged otherwise. */
  method MoveAgent(swarm: Swarm, agent: Agent, dx: real, dy: real, grid: Grid, sqrt: real -> real)
    returns (moved: bool)
    requires agent.Valid() && IsSqrt(sqrt)
    modifies agent`x, agent`y, agent`lastX, agent`lastY, agent`listX, agent`listY
    ensures agent.Valid()
    ensures moved <==> old(AgentClear(swarm, grid, agent, (dx, dy)))
    ensures Shifted(agent, dx, dy, moved)
  {
    moved := Clear(swarm, agent, grid, agent.x + dx, agent.y + dy, agent.radius, sqrt);
    if moved {
      agent.SetCoords(agent.x + dx, agent.y + dy);
    }
  }

  /** The position update of the swarm's agent with the limited velocity
      `v`: the three-way `move`, then `avoidObstacle` and `setcoords` when
      it is blocked, then `setVelocity`. */
  method Reposition(swarm: Swarm, grid: Grid, v: (real, real), vLimit: real, trig: Trig, sqrt: real -> real,
                    ghost clear: bool, ghost c: (real, real, real, real))
    requires swarm.agent.Valid() && IsSqrt(sqrt)
    requires clear == AgentClear(swarm, grid, swarm.agent, v)
    requires c == RDPSO.Avoided(grid, swarm.agent, v.0, v.1, vLimit, trig)
    modifies swarm.agent`x, swarm.agent`y, swarm.agent`lastX, swarm.agent`lastY, swarm.agent`listX
    modifies swarm.agent`listY, swarm.agent`vx, swarm.agent`vy
    ensures swarm.agent.Valid() && RDPSO.Relocated(swarm.agent, clear, v, c)
  {
    var agent := swarm.agent;
    var moved := MoveAgent(swarm, agent, v.0, v.1, grid, sqrt);
    var nvx, nvy := v.0, v.1;
    if !moved {
      var r := AvoidObstacle(agent, Probe(agent.x, agent.y, agent.radius, v.0, v.1, vLimit), grid, trig, sqrt);
      agent.SetCoords(r.0, r.1);
      nvx, nvy := r.2, r.3;
    }
    agent.SetVelocity(nvx, nvy);
  }

  /** The block after `update_particles`: the fitness at the reported point
      `(spx, spy)` updates the agent's personal best and then the global
      best with `<=`, the global position taking the agent's personal one. */
  method Adopt(agent: Agent, spot: (real, real), gbest: Ext, gx: real, gy: real, goalsX: seq<real>,
               goalsY: seq<real>, sqrt: real -> real)
    returns (newGbest: Ext, newGx: real, newGy: real)
    requires |goalsX| <= |goalsY|
    modifies agent`pbest, agent`px, agent`py
    ensures Bests(agent.pbest, agent.px, agent.py, newGbest, newGx, newGy)
            == BestsAfter(Bests(old(agent.pbest), old(agent.px), old(agent.py), gbest, gx, gy),
                          FitnessSum(sqrt, goalsX, goalsY, spot.0, spot.1), spot.0, spot.1)
  {
    newGbest, newGx, newGy := gbest, gx, gy;
    var f := SumFitness(goalsX, goalsY, spot.0, spot.1, sqrt);
    if agent.pbest.AtLeast(f) {
      agent.pbest := Fin(f);
      agent.px := spot.0;
      agent.py := spot.1;
    }
    if newGbest.AtLeast(f) {
      newGbest := Fin(f);
      newGx := agent.px;
      newGy := agent.py;
    }
  }

  /** While the global best is at most the agent's personal best, a value
      that reaches the global best reaches the personal one too, so the
      global position `swarm.agent.px, swarm.agent.py` takes is the
      reported point itself; and the ordering still holds afterwards. */
  lemma SpotLeads(b: Bests, f: real, x: real, y: real)
    requires LeExt(b.gbest, b.pbest)
    ensures LeExt(BestsAfter(b, f, x, y).gbest, BestsAfter(b, f, x, y).pbest)
    ensures b.gbest.AtLeast(f) ==> BestsAfter(b, f, x, y).gx == x && BestsAfter(b, f, x, y).gy == y
  {
  }

  /** One swarm's turn in a step of `dPSO`, given the velocity `v` its agent
      aims for, whether `v` is `clear` and the candidate `c` of
      `avoidObstacle`: the position update, the reported point, then
      `update_GbestPbest` at the agent's new position. */
  method Guide(swarm: Swarm, grid: Grid, w: real, gbest: Ext, gx: real, gy: real, goalsX: seq<real>,
               goalsY: seq<real>, d: Draws, vLimit: real, trig: Trig, sqrt: real -> real,
               v: (real, real), ghost clear: bool, ghost c: (real, real, real, real))
    returns (newGbest: Ext, newGx: real, newGy: real)
    requires swarm.agent.Valid() && IsSqrt(sqrt) && 0.0 <= vLimit && |goalsX| <= |goalsY|
    requires v == Aim(swarm.agent, w, gx, gy, d, vLimit, sqrt)
    requires clear == AgentClear(swarm, grid, swarm.agent, v)
    requires c == RDPSO.Avoided(grid, swarm.agent, v.0, v.1, vLimit, trig)
    modifies swarm.agent`x, swarm.agent`y, swarm.agent`lastX, swarm.agent`lastY, swarm.agent`listX
    modifies swarm.agent`listY, swarm.agent`vx, swarm.agent`vy
    modifies swarm.agent`pbest, swarm.agent`px, swarm.agent`py
    ensures swarm.agent.Valid() && |swarm.agent.listX| == old(|swarm.agent.listX|) + 1
    ensures RDPSO.Relocated(swarm.agent, clear, v, c)
    ensures var a := swarm.agent;
            var b := BestsAfter(Bests(old(a.pbest), old(a.px), old(a.py), gbest, gx, gy),
                                FitnessSum(sqrt, goalsX, goalsY, d.spot.0, d.spot.1), d.spot.0, d.spot.1);
            Bests(a.pbest, a.px, a.py, newGbest, newGx, newGy)
            == BestsAfter(b, FitnessSum(sqrt, goalsX, goalsY, a.x, a.y), a.x, a.y)
  {
    Reposition(swarm, grid, v, vLimit, trig, sqrt, clear, c);
    newGbest, newGx, newGy := Rebest(swarm.agent, d.spot, gbest, gx, gy, goalsX, goalsY, sqrt);
  }

  /** The two best updates of an agent's turn: first at the point its swarm
      reports, then at the agent's own position. */
  method Rebest(agent: Agent, spot: (real, real), gbest: Ext, gx: real, gy: real, goalsX: seq<real>,
                goalsY: seq<real>, sqrt: real -> real)
    returns (newGbest: Ext, newGx: real, newGy: real)
    requires |goalsX| <= |goalsY|
    modifies agent`pbest, agent`px, agent`py
    ensures var b := BestsAfter(Bests(old(agent.pbest), old(agent.px), old(agent.py), gbest, gx, gy),
                                FitnessSum(sqrt, goalsX, goalsY, spot.0, spot.1), spot.0, spot.1);
            Bests(agent.pbest, agent.px, agent.py, newGbest, newGx, newGy)
            == BestsAfter(b, FitnessSum(sqrt, goalsX, goalsY, agent.x, agent.y), agent.x, agent.y)
  {
    var g, x, y := Adopt(agent, spot, gbest, gx, gy, goalsX, goalsY, sqrt);
    newGbest, newGx, newGy := UpdateGbestPbest(agent, x, y, g, goalsX, goalsY, sqrt);
  }

  /** One swarm's turn: its agent's aimed velocity, then `Guide`. The
      agent moves by the aimed velocity when the way is clear and takes the
      avoidance candidate otherwise; its bests are updated at the reported
      point and then at its new position, so neither the agent's personal
      best nor the global best ever grows. */
  method Lead(swarm: Swarm, grid: Grid, w: real, gbest: Ext, gx: real, gy: real, goalsX: seq<real>,
              goalsY: seq<real>, d: Draws, vLimit: real, trig: Trig, sqrt: real -> real)
    returns (newGbest: Ext, newGx: real, newGy: real)
    requires swarm.agent.Valid() && IsSqrt(sqrt) && 0.0 <= vLimit && |goalsX| <= |goalsY|
    modifies swarm.agent`x, swarm.agent`y, swarm.agent`lastX, swarm.agent`lastY, swarm.agent`listX
    modifies swarm.agent`listY, swarm.agent`vx, swarm.agent`vy
    modifies swarm.agent`pbest, swarm.agent`px, swarm.agent`py
    ensures swarm.agent.Valid() && |swarm.agent.listX| == old(|swarm.agent.listX|) + 1
    ensures LeExt(newGbest, gbest) && LeExt(swarm.agent.pbest, old(swarm.agent.pbest))
    ensures var a := swarm.agent;
            var v := old(Aim(a, w, gx, gy, d, vLimit, sqrt));
            RDPSO.Relocated(a, old(AgentClear(swarm, grid, a, v)), v, old(RDPSO.Avoided(grid, a, v.0, v.1, vLimit, trig)))
    ensures var a := swarm.agent;
            var b := BestsAfter(Bests(old(a.pbest), old(a.px), old(a.py), gbest, gx, gy),
                                FitnessSum(sqrt, goalsX, goalsY, d.spot.0, d.spot.1), d.spot.0, d.spot.1);
            Bests(a.pbest, a.px, a.py, newGbest, newGx, newGy)
            == BestsAfter(b, FitnessSum(sqrt, goalsX, goalsY, a.x, a.y), a.x, a.y)
  {
    var agent := swarm.agent;
    var u := UnitSpeed(agent.x, agent.y, agent.px, agent.py, gx, gy, sqrt);
    var raw := Pull(w, agent.vx, agent.vy, C1, C2, Uniform(0.0, 1.0, d.r1), Uniform(0.0, 1.0, d.r2), u);
    var v := RDPSO.Limited(100.0 * raw.0, 100.0 * raw.1, vLimit, sqrt);
    ghost var clear := AgentClear(swarm, grid, agent, v);
    ghost var c := RDPSO.Avoided(grid, agent, v.0, v.1, vLimit, trig);
    newGbest, newGx, newGy := Guide(swarm, grid, w, gbest, gx, gy, goalsX, goalsY, d, vLimit, trig, sqrt, v, clear, c);
  }

  /** `Lead` of swarm `k` as the swarm loop uses it: the other agents are
      left as they were, agent `k`'s trajectory grows by one point and the
      global best never grows. */
  method TakeTurn(grid: Grid, swarms: seq<Swarm>, k: nat, agent: Agent, w: real, gbest: Ext, gx: real, gy: real,
                  goalsX: seq<real>, goalsY: seq<real>, d: Draws, vLimit: real, trig: Trig, sqrt: real -> real)
    returns (newGbest: Ext, newGx: real, newGy: real)
    requires grid.Valid() && Led(swarms, grid) && k < |swarms| && agent == grid.agents[k]
    requires IsSqrt(sqrt) && 0.0 <= vLimit && |goalsX| <= |goalsY|
    modifies agent`x, agent`y, agent`lastX, agent`lastY, agent`listX, agent`listY
    modifies agent`vx, agent`vy, agent`pbest, agent`px, agent`py
    ensures grid.Valid() && LeExt(newGbest, gbest)
    ensures |agent.listX| == old(|agent.listX|) + 1
    ensures forall j :: 0 <= j < |grid.agents| && j != k ==> unchanged(grid.agents[j])
  {
    assert agent in grid.agents && swarms[k].agent == agent;
    newGbest, newGx, newGy := Lead(swarms[k], grid, w, gbest, gx, gy, goalsX, goalsY, d, vLimit, trig, sqrt);
  }

  /** Swarm `k` is led by agent `k` of the grid. */
  ghost predicate Led(swarms: seq<Swarm>, grid: Grid)
    reads swarms, grid
  {
    |swarms| == |grid.agents| && forall k :: 0 <= k < |swarms| ==> swarms[k].agent == grid.agents[k]
  }

  /** The swarm loop of one step, in list order, threading the global best
      through the swarms: every agent's trajectory grows by exactly one
      point, and the global best never grows. */
  method MoveSwarms(grid: Grid, swarms: seq<Swarm>, w: real, gbest: Ext, gx: real, gy: real, goalsX: seq<real>,
                    goalsY: seq<real>, ds: seq<Draws>, vLimit: real, trig: Trig, sqrt: real -> real)
    returns (newGbest: Ext, newGx: real, newGy: real)
    requires grid.Valid() && Led(swarms, grid) && IsSqrt(sqrt) && 0.0 <= vLimit && |goalsX| <= |goalsY|
    requires |ds| == |grid.agents|
    modifies grid.agents`x, grid.agents`y, grid.agents`lastX, grid.agents`lastY, grid.agents`listX, grid.agents`listY
    modifies grid.agents`vx, grid.agents`vy, grid.agents`pbest, grid.agents`px, grid.agents`py
    ensures grid.Valid() && LeExt(newGbest, gbest)
    ensures forall j :: 0 <= j < |grid.agents| ==> |grid.agents[j].listX| == old(|grid.agents[j].listX|) + 1
  {
    newGbest, newGx, newGy := gbest, gx, gy;
    var k := 0;
    while k < |swarms|
      invariant 0 <= k <= |swarms|
      invariant grid.Valid() && LeExt(newGbest, gbest)
      invariant forall j :: 0 <= j < k ==> |grid.agents[j].listX| == old(|grid.agents[j].listX|) + 1
      invariant forall j :: k <= j < |grid.agents| ==> unchanged(grid.agents[j])
    {
      var g;
      g, newGx, newGy := TakeTurn(grid, swarms, k, grid.agents[k], w, newGbest, newGx, newGy, goalsX, goalsY, ds[k],
                                  vLimit, trig, sqrt);
      newGbest := g;
      k := k + 1;
    }
  }

  /** One step of `dPSO`: the swarm loop, then `pos_change` and one
      detection sweep with the agent's own radius, crediting at most one
      target; unless every target is then found, the found targets are
      dropped from the target and goal lists. */
  method Step(grid: Grid, swarms: seq<Swarm>, w: real, gbest: Ext, gx: real, gy: real, goalsX: seq<real>,
              goalsY: seq<real>, ds: seq<Draws>, found: nat, total: nat, vLimit: real, trig: Trig, sqrt: real -> real)
    returns (newGbest: Ext, newGx: real, newGy: real, newFound: nat, xs: seq<real>, ys: seq<real>)
    requires grid.Valid() && Led(swarms, grid) && IsSqrt(sqrt) && 0.0 <= vLimit
    requires GoalsMatch(grid.targets, goalsX, goalsY)
    requires |ds| == |grid.agents| && found + |Present(grid.targets)| == total
    modifies grid.cells, grid`targets, grid.agents`targetsFound
    modifies grid.agents`x, grid.agents`y, grid.agents`lastX, grid.agents`lastY, grid.agents`listX, grid.agents`listY
    modifies grid.agents`vx, grid.agents`vy, grid.agents`pbest, grid.agents`px, grid.agents`py
    ensures grid.Valid() && LeExt(newGbest, gbest)
    ensures found <= newFound <= found + 1 && newFound + |Present(grid.targets)| == total
    ensures newFound < total ==> (forall t :: t in grid.targets ==> t.Some?) && GoalsMatch(grid.targets, xs, ys)
  {
    newGbest, newGx, newGy := MoveSwarms(grid, swarms, w, gbest, gx, gy, goalsX, goalsY, ds, vLimit, trig, sqrt);
    newFound, xs, ys := Conclude(grid, false, found, total, goalsX, goalsY, sqrt);
  }

  /** The step loop of `dPSO` from the initialised swarms: at most
      `max_steps` steps with the annealed inertia (`draws[s][k]` holds swarm
      `k`'s draws in step `s`), each repainting the agents and crediting at
      most one detected target; the loop stops once every target is found.
      `steps` is the index of the last step run. */
  method Run(grid: Grid, swarms: seq<Swarm>, maxSteps: nat, vLimit: real, goalsX: seq<real>, goalsY: seq<real>,
             gbest: Ext, gx: real, gy: real, draws: seq<seq<Draws>>, trig: Trig, sqrt: real -> real)
    returns (steps: nat, found: nat, ghost counts: seq<nat>)
    requires grid.Valid() && Led(swarms, grid) && IsSqrt(sqrt) && 0.0 <= vLimit
    requires (forall t :: t in grid.targets ==> t.Some?) && GoalsMatch(grid.targets, goalsX, goalsY)
    requires |Present(grid.targets)| == |grid.targets|
    requires |draws| >= maxSteps && forall s :: 0 <= s < maxSteps ==> |draws[s]| == |grid.agents|
    modifies grid.cells, grid`targets, grid.agents`targetsFound
    modifies grid.agents`x, grid.agents`y, grid.agents`lastX, grid.agents`lastY, grid.agents`listX, grid.agents`listY
    modifies grid.agents`vx, grid.agents`vy, grid.agents`pbest, grid.agents`px, grid.agents`py
    ensures grid.Valid()
    ensures |counts| <= maxSteps && Tally(counts, found, steps, |old(grid.targets)|)
    ensures found < |old(grid.targets)| ==> |counts| == maxSteps
    ensures found + |Present(grid.targets)| == |old(grid.targets)|
  {
    var totalTargets := |grid.targets|;
    var xs, ys, g, x, y := goalsX, goalsY, gbest, gx, gy;
    found, steps, counts := 0, 0, [];
    var s := 0;
    while s < maxSteps
      invariant 0 <= s <= maxSteps && |counts| == s
      invariant grid.Valid() && Led(swarms, grid)
      invariant (forall t :: t in grid.targets ==> t.Some?) && GoalsMatch(grid.targets, xs, ys)
      invariant Tally(counts, found, steps, totalTargets)
      invariant found + |Present(grid.targets)| == totalTargets
      invariant counts != [] ==> found < totalTargets
    {
      var next;
      g, x, y, next, xs, ys := Step(grid, swarms, Inertia(s, maxSteps), g, x, y, xs, ys, draws[s], found, totalTargets,
                                    vLimit, trig, sqrt);
      TallySnoc(counts, found, steps, next, totalTargets);
      found, steps, counts := next, s, counts + [next];
      if found == totalTargets {
        break;
      }
      s := s + 1;
    }
  }

  /** `Swarm(agent, grid)` for every agent in list order; `zs[k]` holds the
      normal draws of swarm `k`. */
  method MakeSwarms(grid: Grid, zs: seq<seq<(real, real)>>, sqrt: real -> real) returns (swarms: seq<Swarm>)
    requires IsSqrt(sqrt) && |zs| == |grid.agents|
    requires forall k :: 0 <= k < |zs| ==> |zs[k]| >= NUM_PARTICLES * 10
    ensures Led(swarms, grid)
    ensures forall k :: 0 <= k < |swarms| ==> swarms[k].Valid() && |swarms[k].particles| <= NUM_PARTICLES
  {
    swarms := [];
    var k := 0;
    while k < |grid.agents|
      invariant 0 <= k <= |grid.agents| && |swarms| == k
      invariant forall j :: 0 <= j < k ==> swarms[j].agent == grid.agents[j]
      invariant forall j :: 0 <= j < k ==> swarms[j].Valid() && |swarms[j].particles| <= NUM_PARTICLES
    {
      var s := new Swarm(grid.agents[k], grid, NUM_PARTICLES, SIGMA, zs[k], sqrt);
      swarms := swarms + [s];
      k := k + 1;
    }
  }

  /** `dPSO`: the agents are initialised as for `RDPSO` (`init_dPSO` is the
      same procedure), a swarm is built around every agent, then the step
      loop runs with the limit `V_LIMIT = step_size`; the result is the
      index of the last step run, the number of targets found and the
      distance every agent's trajectory covers. */
  method Search(grid: Grid, maxSteps: nat, stepSize: real, init: seq<(Unit, Unit)>, zs: seq<seq<(real, real)>>,
                draws: seq<seq<Draws>>, trig: Trig, sqrt: real -> real)
    returns (steps: nat, found: nat, total: real, ghost counts: seq<nat>)
    requires grid.Valid() && IsSqrt(sqrt) && 0 < maxSteps && 0.0 <= stepSize
    requires forall t :: t in grid.targets ==> t.Some?
    requires |init| == |grid.agents| && |zs| == |grid.agents|
    requires forall k :: 0 <= k < |zs| ==> |zs[k]| >= NUM_PARTICLES * 10
    requires |draws| >= maxSteps && forall s :: 0 <= s < maxSteps ==> |draws[s]| == |grid.agents|
    modifies grid.cells, grid`targets, grid.agents`targetsFound
    modifies grid.agents`x, grid.agents`y, grid.agents`lastX, grid.agents`lastY, grid.agents`listX, grid.agents`listY
    modifies grid.agents`vx, grid.agents`vy, grid.agents`pbest, grid.agents`px, grid.agents`py
    ensures grid.Valid()
    ensures |counts| <= maxSteps && Tally(counts, found, steps, |old(grid.targets)|)
    ensures found < |old(grid.targets)| ==> |counts| == maxSteps
    ensures found + |Present(grid.targets)| == |old(grid.targets)|
    ensures total == TotalDistance(grid.agents, sqrt) && 0.0 <= total
  {
    PresentAllSome(grid.targets);
    var goalsX, goalsY, gbest, gx, gy := RDPSO.Initialise(grid, stepSize, init, sqrt);
    GoalsOfTargets(grid.targets);
    var swarms := MakeSwarms(grid, zs, sqrt);
    steps, found, counts := Run(grid, swarms, maxSteps, stepSize, goalsX, goalsY, gbest, gx, gy, draws, trig, sqrt);
    total := grid.TotalDistanceCovered(sqrt);
    TotalDistanceNonNeg(grid.agents, sqrt);
  }
}
