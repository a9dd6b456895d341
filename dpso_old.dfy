// The earlier distributed swarm search of Old_versions/dPSO.py: every agent
// owns a swarm of thirty particles. In each iteration a swarm first scores
// its particles by their distance to the nearest target still present,
// then flies them with pulls to their bests, repulsion from their
// neighbours and from the other swarms' agents, and finally moves its agent
// to the mean position of its particles.

module DPSOOld {
  import opened Numerics
  import opened Geometry
  import opened ContinuousGrid
  import opened Collision
  import opened SearchStep

  /** `Swarm(agent, grid)`: thirty particles, spread with standard deviation 3. */
  const NUM_PARTICLES: nat := 30
  const SIGMA: real := 3.0
  /** The defaults of `update_particles`. */
  const C1: real := 2.0
  const C2: real := 2.0
  const C3: real := 1.0
  const C4: real := 1.0
  const W: real := 0.5
  /** The length of the escape step of a blocked particle. */
  const ESCAPE: real := 0.5
  /** The distance scales of the repulsion from a particle and from an agent. */
  const PARTICLE_SCALE: real := 1.5
  const AGENT_SCALE: real := 2.0

  /** `Particle` of the earlier version: no radius, and its best value is
      called its fitness. */
  class Particle {
    var x: real
    var y: real
    var vx: real
    var vy: real
    var pbestX: real
    var pbestY: real
    var fitness: Ext

    /** `Particle.__init__`: at rest, its best point is where it starts and
        its fitness is infinite. */
    constructor(x: real, y: real)
      ensures this.x == x && this.y == y && vx == 0.0 && vy == 0.0
      ensures pbestX == x && pbestY == y && fitness == Inf
    {
      this.x := x;
      this.y := y;
      vx := 0.0;
      vy := 0.0;
      pbestX := x;
      pbestY := y;
      fitness := Inf;
    }
  }

  // ----- fitness -----

  /** The distance from `(x, y)` to the nearest target still present in
      `ts`, and `inf` when every target has been found. */
  function Nearest(ts: seq<Option<Box>>, x: real, y: real, sqrt: real -> real): Ext
  {
    if ts == [] then Inf
    else
      var rest := Nearest(ts[..|ts| - 1], x, y, sqrt);
      match ts[|ts| - 1]
      case None => rest
      case Some(t) => MinExt(rest, sqrt(SqDist(x, y, t.cx, t.cy)))
  }

  /** `Nearest` is infinite exactly when no target is present, at most the
      distance to every present target, and attained by one of them. */
  lemma {:induction false} NearestIsMin(ts: seq<Option<Box>>, x: real, y: real, sqrt: real -> real)
    ensures Nearest(ts, x, y, sqrt).Inf? <==> forall j :: 0 <= j < |ts| ==> ts[j].None?
    ensures forall j :: 0 <= j < |ts| && ts[j].Some? ==>
              LeExt(Nearest(ts, x, y, sqrt), Fin(sqrt(SqDist(x, y, ts[j].value.cx, ts[j].value.cy))))
    ensures Nearest(ts, x, y, sqrt).Fin? ==>
              exists j :: 0 <= j < |ts| && ts[j].Some?
                          && Nearest(ts, x, y, sqrt).v == sqrt(SqDist(x, y, ts[j].value.cx, ts[j].value.cy))
    decreases |ts|
  {
    if ts != [] {
      var n := |ts| - 1;
      NearestIsMin(ts[..n], x, y, sqrt);
      assert forall j :: 0 <= j < n ==> ts[..n][j] == ts[j];
    }
  }

  /** `a` if `b` is not strictly below it, else `b`: the best value after the
      strict update `if b < a: a = b`. */
  function Lower(a: Ext, b: Ext): (m: Ext)
    ensures LeExt(m, a) && LeExt(m, b)
    ensures m == a || m == b
    ensures m != a <==> b.Fin? && a.Above(b.v)
  {
    if b.Fin? && a.Above(b.v) then b else a
  }

  /** A particle's fitness after scoring at `(x, y)` never grows and is at
      most its distance to every target still present. */
  lemma ScoreBound(f: Ext, ts: seq<Option<Box>>, x: real, y: real, sqrt: real -> real)
    ensures LeExt(Lower(f, Nearest(ts, x, y, sqrt)), f)
    ensures forall j :: 0 <= j < |ts| && ts[j].Some? ==>
              LeExt(Lower(f, Nearest(ts, x, y, sqrt)), Fin(sqrt(SqDist(x, y, ts[j].value.cx, ts[j].value.cy))))
  {
    NearestIsMin(ts, x, y, sqrt);
  }

  // ----- collisions -----

  /** The test of `is_collision` for a particle: the body of the grid's agent
      radius at `(x, y)` leaves the arena or meets an obstacle. */
  ghost predicate Blocked(grid: Grid, x: real, y: real)
    reads grid
  {
    HitsObstacle(grid.width as real, grid.height as real, grid.obstacles, x, y, grid.agentRadius)
  }

  /** Every particle of `ps` from `from` on starts clear of the obstacles
      for the radius `r` and with an infinite fitness. */
  ghost predicate Placed(w: real, h: real, obstacles: seq<Box>, ps: seq<Particle>, from: nat, r: real)
    reads ps
  {
    |ps| <= from
    || (var last := ps[|ps| - 1];
        Placed(w, h, obstacles, ps[..|ps| - 1], from, r)
        && !HitsObstacle(w, h, obstacles, last.x, last.y, r) && last.fitness == Inf)
  }

  /** Each particle of a placed list from `from` on is clear and unscored. */
  lemma {:induction false} PlacedAt(w: real, h: real, obstacles: seq<Box>, ps: seq<Particle>, from: nat, r: real,
                                    k: nat)
    requires Placed(w, h, obstacles, ps, from, r) && from <= k < |ps|
    ensures !HitsObstacle(w, h, obstacles, ps[k].x, ps[k].y, r) && ps[k].fitness == Inf
    decreases |ps|
  {
    if k < |ps| - 1 {
      var init := ps[..|ps| - 1];
      PlacedAt(w, h, obstacles, init, from, r, k);
      assert init[k] == ps[k];
    }
  }

  // ----- repulsion -----

  /** The weight `c * rep` of the repulsion of a body at `(x, y)` from one
      at `(ox, oy)`, with `rep = 1 / (1 + (d / s)^2)` for their distance
      `d`. */
  function RepelWeight(x: real, y: real, ox: real, oy: real, c: real, s: real, sqrt: real -> real): real
    requires IsSqrt(sqrt) && 0.0 < s
  {
    var q := sqrt(SqDist(x, y, ox, oy)) / s;
    SquareNonNeg(q);
    c * (1.0 / (1.0 + q * q))
  }

  /** The repulsion `c * (x - ox, y - oy) * rep`. */
  function Repel(x: real, y: real, ox: real, oy: real, c: real, s: real, sqrt: real -> real): (real, real)
    requires IsSqrt(sqrt) && 0.0 < s
  {
    var k := RepelWeight(x, y, ox, oy, c, s, sqrt);
    (k * (x - ox), k * (y - oy))
  }

  /** The weight is non-negative, and the weight times the distance is at
      most `c * s / 2`, since `2 * d * s <= s^2 + d^2`. */
  lemma WeightBounds(x: real, y: real, ox: real, oy: real, c: real, s: real, sqrt: real -> real)
    requires IsSqrt(sqrt) && 0.0 < s && 0.0 <= c
    ensures var k := RepelWeight(x, y, ox, oy, c, s, sqrt);
            0.0 <= k && k * sqrt(SqDist(x, y, ox, oy)) <= c * s / 2.0
  {
    SqDistNonNeg(x, y, ox, oy);
    var d := sqrt(SqDist(x, y, ox, oy));
    var q := d / s;
    SquareNonNeg(q);
    var rep := 1.0 / (1.0 + q * q);
    assert 0.0 < rep;
    SquareNonNeg(q - 1.0);
    assert (q - 1.0) * (q - 1.0) == q * q - 2.0 * q + 1.0;
    assert rep * (1.0 + q * q) == 1.0;
    MulNonNeg(rep, 1.0 + q * q - 2.0 * q);
    assert rep * q <= 0.5;
    assert d == q * s;
    MulNonNeg(0.5 - rep * q, s);
    assert rep * d <= s / 2.0;
    MulNonNeg(c, s / 2.0 - rep * d);
    MulNonNeg(c, rep);
    assert RepelWeight(x, y, ox, oy, c, s, sqrt) == c * rep;
  }

  /** With a non-negative coefficient the repulsion points away from the
      other body. */
  lemma RepelAway(x: real, y: real, ox: real, oy: real, c: real, s: real, sqrt: real -> real)
    requires IsSqrt(sqrt) && 0.0 < s && 0.0 <= c
    ensures Toward(Repel(x, y, ox, oy, c, s, sqrt), x - ox, y - oy)
  {
    WeightBounds(x, y, ox, oy, c, s, sqrt);
    TowardItself(x - ox, y - oy);
    ScaleToward(RepelWeight(x, y, ox, oy, c, s, sqrt), (x - ox, y - oy), x - ox, y - oy);
  }

  /** With a non-negative coefficient the repulsion is at most `c * s / 2`
      long, whatever the distance. */
  lemma RepelShort(x: real, y: real, ox: real, oy: real, c: real, s: real, sqrt: real -> real)
    requires IsSqrt(sqrt) && 0.0 < s && 0.0 <= c
    ensures var r := Repel(x, y, ox, oy, c, s, sqrt);
            r.0 * r.0 + r.1 * r.1 <= (c * s / 2.0) * (c * s / 2.0)
  {
    var dx, dy := x - ox, y - oy;
    var k := RepelWeight(x, y, ox, oy, c, s, sqrt);
    WeightBounds(x, y, ox, oy, c, s, sqrt);
    var r := Repel(x, y, ox, oy, c, s, sqrt);
    assert r.0 == k * dx && r.1 == k * dy;
    var d := sqrt(SqDist(x, y, ox, oy));
    SqDistNonNeg(x, y, ox, oy);
    assert d * d == dx * dx + dy * dy;
    var m := k * d;
    MulNonNeg(k, d);
    MulNonNeg(c * s / 2.0 - m, c * s / 2.0 + m);
    assert (k * dx) * (k * dx) + (k * dy) * (k * dy) == k * k * (dx * dx + dy * dy);
  }

  /** The summed repulsion of `p` at `(x, y)` from the particles of `ps`,
      skipping `p` itself and every particle at the very same point. */
  ghost function ParticlePush(p: Particle, x: real, y: real, ps: seq<Particle>, c: real, sqrt: real -> real)
    : (real, real)
    requires IsSqrt(sqrt)
    reads ps
  {
    if ps == [] then (0.0, 0.0)
    else
      var rest := ParticlePush(p, x, y, ps[..|ps| - 1], c, sqrt);
      var o := ps[|ps| - 1];
      if o == p || SqDist(x, y, o.x, o.y) == 0.0 then rest
      else
        var r := Repel(x, y, o.x, o.y, c, PARTICLE_SCALE, sqrt);
        (rest.0 + r.0, rest.1 + r.1)
  }

  /** The summed repulsion of a particle at `(x, y)` from the agents of the
      swarms of `ss` other than `self`. */
  ghost function AgentPush(self: Swarm, x: real, y: real, ss: seq<Swarm>, c: real, sqrt: real -> real)
    : (real, real)
    requires IsSqrt(sqrt)
    reads ss, set k | 0 <= k < |ss| :: ss[k].agent
  {
    if ss == [] then (0.0, 0.0)
    else
      var rest := AgentPush(self, x, y, ss[..|ss| - 1], c, sqrt);
      var o := ss[|ss| - 1];
      if o == self then rest
      else
        var r := Repel(x, y, o.agent.x, o.agent.y, c, AGENT_SCALE, sqrt);
        (rest.0 + r.0, rest.1 + r.1)
  }

  /** A particle alone in its swarm is pushed by no particle. */
  lemma {:induction false} AloneUnpushed(p: Particle, x: real, y: real, ps: seq<Particle>, c: real, sqrt: real -> real)
    requires IsSqrt(sqrt) && forall k :: 0 <= k < |ps| ==> ps[k] == p
    ensures ParticlePush(p, x, y, ps, c, sqrt) == (0.0, 0.0)
    decreases |ps|
  {
    if ps != [] {
      AloneUnpushed(p, x, y, ps[..|ps| - 1], c, sqrt);
    }
  }

  /** The velocity of a particle at `at` moving with `v`: inertia `w * v`,
      the pulls with weights `c1 * r1` and `c2 * r2` to its own best `pb`
      and the swarm's best `g`, and the repulsions `fp` and `fa`. */
  function Steering(w: real, c1: real, c2: real, d: Jolt, v: (real, real), pb: (real, real), g: (real, real),
                    at: (real, real), fp: (real, real), fa: (real, real)): (real, real)
  {
    var r1, r2 := Uniform(0.0, 1.0, d.r1), Uniform(0.0, 1.0, d.r2);
    (w * v.0 + c1 * r1 * (pb.0 - at.0) + c2 * r2 * (g.0 - at.0) + fp.0 + fa.0,
     w * v.1 + c1 * r1 * (pb.1 - at.1) + c2 * r2 * (g.1 - at.1) + fp.1 + fa.1)
  }

  /** The draws of one particle's flight: `np.random.rand(4)` and the angle
      `random.uniform(0, 2 * pi)` of the escape step. */
  datatype Jolt = Jolt(r1: Unit, r2: Unit, r3: Unit, r4: Unit, angle: real)

  /** The outcome of a particle's flight with velocity `v` and escape step
      `a`: it takes `v` when that destination is clear, else the escape step
      when that one is clear, else it stays where it was at rest. */
  twostate predicate Flown(grid: Grid, p: Particle, v: (real, real), a: (real, real))
    reads grid, p
  {
    if !Blocked(grid, old(p.x) + v.0, old(p.y) + v.1) then
      p.x == old(p.x) + v.0 && p.y == old(p.y) + v.1 && p.vx == v.0 && p.vy == v.1
    else if !Blocked(grid, old(p.x) + a.0, old(p.y) + a.1) then
      p.x == old(p.x) + a.0 && p.y == old(p.y) + a.1 && p.vx == a.0 && p.vy == a.1
    else
      p.x == old(p.x) && p.y == old(p.y) && p.vx == 0.0 && p.vy == 0.0
  }

  /** The escape step of length 0.5 in the direction `angle`. */
  function Escape(angle: real, trig: Trig): (a: (real, real))
  {
    (trig.cos(angle) * ESCAPE, trig.sin(angle) * ESCAPE)
  }

  /** The escape step is exactly 0.5 long. */
  lemma EscapeLength(angle: real, trig: Trig)
    requires Pythagorean(trig)
    ensures var a := Escape(angle, trig); a.0 * a.0 + a.1 * a.1 == ESCAPE * ESCAPE
  {
    ScaledUnit(trig.cos(angle), trig.sin(angle), ESCAPE);
  }

  /** `Swarm` of the earlier version: an agent, its particles, and the
      swarm's best point and value. */
  class Swarm {
    const agent: Agent
    var particles: seq<Particle>
    var gbestX: real
    var gbestY: real
    var gbestValue: Ext
    const sigma: real
    /** The particles this swarm has created. */
    ghost var Repr: set<Particle>

    /** No particle is listed twice, and each is one of the swarm's own. */
    ghost predicate Valid()
      reads this`particles, this`Repr
    {
      && (forall i, j :: 0 <= i < j < |particles| ==> particles[i] != particles[j])
      && (forall k :: 0 <= k < |particles| ==> particles[k] in Repr)
    }

    /** The swarm's best value is at most every particle's fitness. */
    ghost predicate Leading()
      reads this`particles, this`gbestValue, particles`fitness
    {
      forall k :: 0 <= k < |particles| ==> LeExt(gbestValue, particles[k].fitness)
    }

    /** `Swarm.__init__`: the swarm's best starts at the agent with an
        infinite value, then `initialize_particles` scatters at most
        `num_particles` particles with the standard normal draws `zs`
        (the grid it checks against is the one the swarm is built with). */
    constructor(agent: Agent, grid: Grid, numParticles: nat, sigma: real, zs: seq<(real, real)>, sqrt: real -> real)
      requires IsSqrt(sqrt) && |zs| >= numParticles * 10
      ensures this.agent == agent && this.sigma == sigma
      ensures gbestX == agent.x && gbestY == agent.y && gbestValue == Inf
      ensures Valid() && Leading() && |particles| <= numParticles
      ensures fresh(Repr)
      ensures forall k :: 0 <= k < |particles| ==>
                !HitsObstacle(grid.width as real, grid.height as real, grid.obstacles, particles[k].x, particles[k].y,
                              agent.radius)
    {
      this.agent := agent;
      this.sigma := sigma;
      particles := [];
      Repr := {};
      gbestX, gbestY, gbestValue := agent.x, agent.y, Inf;
      new;
      var attempts := InitializeParticles(grid, numParticles, zs, sqrt);
      forall k | 0 <= k < |particles|
        ensures !HitsObstacle(grid.width as real, grid.height as real, grid.obstacles, particles[k].x, particles[k].y,
                              agent.radius)
        ensures LeExt(gbestValue, particles[k].fitness)
      {
        PlacedAt(grid.width as real, grid.height as real, grid.obstacles, particles, 0, agent.radius, k);
      }
    }

    /** `initialize_particles`: while fewer than `num_particles` particles
        exist and fewer than `num_particles * 10` attempts are made, a point
        is drawn around the agent (`zs[i]` is the `i`-th pair of standard
        normal draws) and becomes a new particle when it is clear of the
        obstacles; the other particles are not checked. Fewer than
        `num_particles` particles are left only when every attempt is used. */
    method InitializeParticles(grid: Grid, numParticles: nat, zs: seq<(real, real)>, sqrt: real -> real)
      returns (attempts: nat)
      requires Valid() && IsSqrt(sqrt) && |zs| >= numParticles * 10
      modifies this`particles, this`Repr
      ensures Valid() && attempts <= numParticles * 10
      ensures |old(particles)| <= |particles| <= |old(particles)| + attempts
      ensures particles[..|old(particles)|] == old(particles)
      ensures |particles| <= numParticles || particles == old(particles)
      ensures |particles| < numParticles ==> attempts == numParticles * 10
      ensures Placed(grid.width as real, grid.height as real, grid.obstacles, particles, |old(particles)|, agent.radius)
      ensures fresh(Repr - old(Repr))
    {
      var start := |particles|;
      attempts := 0;
      while |particles| < numParticles && attempts < numParticles * 10
        invariant Valid() && attempts <= numParticles * 10
        invariant start <= |particles| <= start + attempts
        invariant particles[..start] == old(particles)
        invariant |particles| <= numParticles || particles == old(particles)
        invariant Placed(grid.width as real, grid.height as real, grid.obstacles, particles, start, agent.radius)
        invariant fresh(Repr - old(Repr))
      {
        var added := Admit(grid, agent.x + sigma * zs[attempts].0, agent.y + sigma * zs[attempts].1, start,
                           old(particles), sqrt);
        attempts := attempts + 1;
      }
    }

    /** One attempt of `initialize_particles`: a particle at `(x, y)` joins
        the swarm exactly when that point is clear of the obstacles. */
    method Admit(grid: Grid, x: real, y: real, ghost start: nat, ghost orig: seq<Particle>, sqrt: real -> real)
      returns (added: bool)
      requires Valid() && IsSqrt(sqrt) && start <= |particles| && particles[..start] == orig
      requires Placed(grid.width as real, grid.height as real, grid.obstacles, particles, start, agent.radius)
      modifies this`particles, this`Repr
      ensures Valid() && start <= |particles| && particles[..start] == orig
      ensures Placed(grid.width as real, grid.height as real, grid.obstacles, particles, start, agent.radius)
      ensures added <==> !HitsObstacle(grid.width as real, grid.height as real, grid.obstacles, x, y, agent.radius)
      ensures |particles| == |old(particles)| + (if added then 1 else 0)
      ensures !added ==> particles == old(particles)
      ensures fresh(Repr - old(Repr))
    {
      var hit := IsCollision(grid, x, y, agent.radius, sqrt);
      added := !hit;
      if added {
        ghost var ps := particles;
        var p := new Particle(x, y);
        particles := particles + [p];
        Repr := Repr + {p};
        assert particles[..|ps|] == ps && particles[..start] == ps[..start];
      }
    }

    /** The first loop of `update_particles` for particle `p`: its fitness
        is the distance to the nearest target still present; a strictly
        lower value becomes its best, at its point, and then, when strictly
        lower still, the swarm's best. */
    method Assess(p: Particle, grid: Grid, sqrt: real -> real)
      requires IsSqrt(sqrt)
      modifies p`pbestX, p`pbestY, p`fitness, this`gbestX, this`gbestY, this`gbestValue
      ensures p.fitness == Lower(old(p.fitness), Nearest(grid.targets, p.x, p.y, sqrt))
      ensures p.fitness != old(p.fitness) ==> p.pbestX == p.x && p.pbestY == p.y
      ensures p.fitness == old(p.fitness) ==> p.pbestX == old(p.pbestX) && p.pbestY == old(p.pbestY)
      ensures gbestValue == (if p.fitness == old(p.fitness) then old(gbestValue) else Lower(old(gbestValue), p.fitness))
      ensures gbestValue != old(gbestValue) ==> gbestX == p.x && gbestY == p.y
      ensures gbestValue == old(gbestValue) ==> gbestX == old(gbestX) && gbestY == old(gbestY)
      ensures LeExt(old(gbestValue), old(p.fitness)) ==> LeExt(gbestValue, p.fitness)
    {
      var fitness := Fitness(grid, p.x, p.y, sqrt);
      if fitness.Fin? && p.fitness.Above(fitness.v) {
        p.pbestX, p.pbestY := p.x, p.y;
        p.fitness := fitness;
        if gbestValue.Above(fitness.v) {
          gbestX, gbestY := p.x, p.y;
          gbestValue := fitness;
        }
      }
    }

    /** The first loop of `update_particles`: every particle is assessed in
        list order. No fitness and not the swarm's best ever grows, each
        particle's fitness is at most its distance to the nearest target
        still present, and the swarm's best stays at most every fitness. */
    method Evaluate(grid: Grid, sqrt: real -> real)
      requires Valid() && IsSqrt(sqrt)
      modifies particles`pbestX, particles`pbestY, particles`fitness, this`gbestX, this`gbestY, this`gbestValue
      ensures LeExt(gbestValue, old(gbestValue))
      ensures forall k :: 0 <= k < |particles| ==>
                particles[k].fitness == Lower(old(particles[k].fitness),
                                              Nearest(grid.targets, particles[k].x, particles[k].y, sqrt))
      ensures old(Leading()) ==> Leading()
    {
      ghost var leading := Leading();
      var k := 0;
      while k < |particles|
        invariant 0 <= k <= |particles| && LeExt(gbestValue, old(gbestValue))
        invariant forall j :: 0 <= j < k ==>
                    particles[j].fitness == Lower(old(particles[j].fitness),
                                                  Nearest(grid.targets, particles[j].x, particles[j].y, sqrt))
        invariant forall j :: k <= j < |particles| ==> particles[j].fitness == old(particles[j].fitness)
        invariant leading ==> Leading()
      {
        Assess(particles[k], grid, sqrt);
        k := k + 1;
      }
    }

    /** The repulsion loop over the swarm's particles. */
    method Crowd(p: Particle, c: real, sqrt: real -> real) returns (push: (real, real))
      requires IsSqrt(sqrt)
      ensures push == ParticlePush(p, p.x, p.y, particles, c, sqrt)
    {
      push := (0.0, 0.0);
      var k := 0;
      while k < |particles|
        invariant 0 <= k <= |particles|
        invariant push == ParticlePush(p, p.x, p.y, particles[..k], c, sqrt)
      {
        var o := particles[k];
        assert particles[..k + 1][..k] == particles[..k];
        if o != p && SqDist(p.x, p.y, o.x, o.y) != 0.0 {
          var r := Repel(p.x, p.y, o.x, o.y, c, PARTICLE_SCALE, sqrt);
          push := (push.0 + r.0, push.1 + r.1);
        }
        k := k + 1;
      }
      assert particles[..k] == particles;
    }

    /** The repulsion loop over the other swarms' agents. */
    method Shun(p: Particle, swarms: seq<Swarm>, c: real, sqrt: real -> real) returns (push: (real, real))
      requires IsSqrt(sqrt)
      ensures push == AgentPush(this, p.x, p.y, swarms, c, sqrt)
    {
      push := (0.0, 0.0);
      var k := 0;
      while k < |swarms|
        invariant 0 <= k <= |swarms|
        invariant push == AgentPush(this, p.x, p.y, swarms[..k], c, sqrt)
      {
        var o := swarms[k];
        assert swarms[..k + 1][..k] == swarms[..k];
        if o != this {
          var r := Repel(p.x, p.y, o.agent.x, o.agent.y, c, AGENT_SCALE, sqrt);
          push := (push.0 + r.0, push.1 + r.1);
        }
        k := k + 1;
      }
      assert swarms[..k] == swarms;
    }

    /** The flight of particle `p` in the second loop of `update_particles`:
        its velocity, then the move to the new point when it is clear, else
        the escape step when that point is clear, else a stop. The particle
        ends at a clear point or where it was. */
    method Fly(p: Particle, grid: Grid, swarms: seq<Swarm>, w: real, c1: real, c2: real, c3: real, c4: real,
               d: Jolt, trig: Trig, sqrt: real -> real)
      returns (v: (real, real))
      requires IsSqrt(sqrt)
      modifies p`x, p`y, p`vx, p`vy
      ensures v == Steering(w, c1, c2, d, (old(p.vx), old(p.vy)), (p.pbestX, p.pbestY), (gbestX, gbestY),
                            (old(p.x), old(p.y)),
                            old(ParticlePush(p, p.x, p.y, particles, c3 * Uniform(0.0, 1.0, d.r3), sqrt)),
                            old(AgentPush(this, p.x, p.y, swarms, c4 * Uniform(0.0, 1.0, d.r4), sqrt)))
      ensures Flown(grid, p, v, Escape(d.angle, trig))
      ensures !Blocked(grid, p.x, p.y) || (p.x == old(p.x) && p.y == old(p.y))
    {
      v := Steer(p, swarms, w, c1, c2, c3, c4, d, sqrt);
      Move(p, grid, v, Escape(d.angle, trig), sqrt);
    }

    /** The velocity loops of `update_particles` for particle `p`. */
    method Steer(p: Particle, swarms: seq<Swarm>, w: real, c1: real, c2: real, c3: real, c4: real, d: Jolt,
                 sqrt: real -> real)
      returns (v: (real, real))
      requires IsSqrt(sqrt)
      ensures v == Steering(w, c1, c2, d, (p.vx, p.vy), (p.pbestX, p.pbestY), (gbestX, gbestY), (p.x, p.y),
                       ParticlePush(p, p.x, p.y, particles, c3 * Uniform(0.0, 1.0, d.r3), sqrt),
                       AgentPush(this, p.x, p.y, swarms, c4 * Uniform(0.0, 1.0, d.r4), sqrt))
    {
      var fromParticles := Crowd(p, c3 * Uniform(0.0, 1.0, d.r3), sqrt);
      var fromAgents := Shun(p, swarms, c4 * Uniform(0.0, 1.0, d.r4), sqrt);
      v := Steering(w, c1, c2, d, (p.vx, p.vy), (p.pbestX, p.pbestY), (gbestX, gbestY), (p.x, p.y), fromParticles,
                    fromAgents);
    }

    /** `update_particles` of the earlier version with its declared
        parameters: the first loop scores the particles, the second flies
        them in list order (`ds[k]` holds particle `k`'s draws). No fitness
        grows, the swarm's best stays at most every fitness, and every
        particle ends at a clear point or where it was. */
    method UpdateParticles(grid: Grid, swarms: seq<Swarm>, w: real, c1: real, c2: real, c3: real, c4: real,
                           ds: seq<Jolt>, trig: Trig, sqrt: real -> real)
      requires Valid() && IsSqrt(sqrt) && |ds| >= |particles|
      modifies particles`pbestX, particles`pbestY, particles`fitness, this`gbestX, this`gbestY, this`gbestValue
      modifies particles`x, particles`y, particles`vx, particles`vy
      ensures LeExt(gbestValue, old(gbestValue))
      ensures forall k :: 0 <= k < |particles| ==> LeExt(particles[k].fitness, old(particles[k].fitness))
      ensures old(Leading()) ==> Leading()
      ensures forall k :: 0 <= k < |particles| ==>
                !Blocked(grid, particles[k].x, particles[k].y)
                || (particles[k].x == old(particles[k].x) && particles[k].y == old(particles[k].y))
    {
      Evaluate(grid, sqrt);
      var k := 0;
      while k < |particles|
        invariant 0 <= k <= |particles|
        invariant forall j :: 0 <= j < |particles| ==> particles[j].fitness == old(Lower(particles[j].fitness,
                    Nearest(grid.targets, particles[j].x, particles[j].y, sqrt)))
        invariant LeExt(gbestValue, old(gbestValue)) && (old(Leading()) ==> Leading())
        invariant forall j :: 0 <= j < k ==>
                    !Blocked(grid, particles[j].x, particles[j].y)
                    || (particles[j].x == old(particles[j].x) && particles[j].y == old(particles[j].y))
        invariant forall j :: k <= j < |particles| ==> particles[j].x == old(particles[j].x) && particles[j].y == old(particles[j].y)
      {
        var _ := Fly(particles[k], grid, swarms, w, c1, c2, c3, c4, ds[k], trig, sqrt);
        k := k + 1;
      }
    }

    /** `update_agent_position`: the agent moves, through `setcoords`, to
        the mean position of the particles; `false` where there is no
        particle, whose mean is NaN. */
    method UpdateAgentPosition() returns (ok: bool)
      requires agent.Valid()
      modifies agent`x, agent`y, agent`lastX, agent`lastY, agent`listX, agent`listY
      ensures agent.Valid()
      ensures ok <==> particles != []
      ensures ok ==> Shifted(agent, Average(Xs(particles)) - old(agent.x), Average(Ys(particles)) - old(agent.y), true)
      ensures !ok ==> Shifted(agent, 0.0, 0.0, false)
    {
      if particles == [] {
        return false;
      }
      var mx, my := Centroid(particles);
      agent.SetCoords(mx, my);
      ok := true;
    }

    /** One pass of the swarm loop of `run_dpso` for this swarm. */
    method Advance(grid: Grid, swarms: seq<Swarm>, ds: seq<Jolt>, trig: Trig, sqrt: real -> real) returns (ok: bool)
      requires Valid() && agent.Valid() && IsSqrt(sqrt) && |ds| >= |particles|
      modifies Repr`pbestX, Repr`pbestY, Repr`fitness, this`gbestX, this`gbestY, this`gbestValue
      modifies Repr`x, Repr`y, Repr`vx, Repr`vy
      modifies agent`x, agent`y, agent`lastX, agent`lastY, agent`listX, agent`listY
      ensures agent.Valid()
      ensures ok <==> particles != []
      ensures ok ==> |agent.listX| == old(|agent.listX|) + 1
      ensures ok ==> (agent.x, agent.y) == (Average(Xs(particles)), Average(Ys(particles)))
      ensures ok ==> (agent.lastX, agent.lastY) == (old(agent.x), old(agent.y))
      ensures !ok ==> unchanged(agent)
    {
      UpdateParticles(grid, swarms, W, C1, C2, C3, C4, ds, trig, sqrt);
      ok := UpdateAgentPosition();
    }
  }

  /** The fitness of a particle at `(x, y)`: the distance to the nearest
      target still present, `inf` when there is none. */
  method Fitness(grid: Grid, x: real, y: real, sqrt: real -> real) returns (f: Ext)
    ensures f == Nearest(grid.targets, x, y, sqrt)
  {
    f := Inf;
    var k := 0;
    while k < |grid.targets|
      invariant 0 <= k <= |grid.targets|
      invariant f == Nearest(grid.targets[..k], x, y, sqrt)
    {
      assert grid.targets[..k + 1][..k] == grid.targets[..k];
      if grid.targets[k].Some? {
        var t := grid.targets[k].value;
        f := MinExt(f, sqrt(SqDist(x, y, t.cx, t.cy)));
      }
      k := k + 1;
    }
    assert grid.targets[..k] == grid.targets;
  }

  /** The guarded flight of `p` with velocity `v` and escape step `a`. */
  method Move(p: Particle, grid: Grid, v: (real, real), a: (real, real), sqrt: real -> real)
    requires IsSqrt(sqrt)
    modifies p`x, p`y, p`vx, p`vy
    ensures Flown(grid, p, v, a)
    ensures !Blocked(grid, p.x, p.y) || (p.x == old(p.x) && p.y == old(p.y))
  {
    var hit := IsCollision(grid, p.x + v.0, p.y + v.1, grid.agentRadius, sqrt);
    if !hit {
      p.vx, p.vy := v.0, v.1;
      p.x, p.y := p.x + v.0, p.y + v.1;
    } else {
      p.vx, p.vy := a.0, a.1;
      hit := IsCollision(grid, p.x + a.0, p.y + a.1, grid.agentRadius, sqrt);
      if !hit {
        p.x, p.y := p.x + a.0, p.y + a.1;
      } else {
        p.vx, p.vy := 0.0, 0.0;
      }
    }
  }

  // ----- the agent's position -----

  /** The mean position of `ps`, summed in list order. */
  method Centroid(ps: seq<Particle>) returns (mx: real, my: real)
    requires ps != []
    ensures mx == Average(Xs(ps)) && my == Average(Ys(ps))
  {
    var sumX, sumY := 0.0, 0.0;
    var k := 0;
    while k < |ps|
      invariant 0 <= k <= |ps|
      invariant sumX == Sum(Xs(ps[..k])) && sumY == Sum(Ys(ps[..k]))
    {
      assert ps[..k + 1][..k] == ps[..k];
      sumX, sumY := sumX + ps[k].x, sumY + ps[k].y;
      k := k + 1;
    }
    assert ps[..k] == ps;
    mx, my := sumX / |ps| as real, sumY / |ps| as real;
  }

  /** The x coordinates of `ps`, in order. */
  ghost function Xs(ps: seq<Particle>): (xs: seq<real>)
    reads ps
    ensures |xs| == |ps| && forall k :: 0 <= k < |ps| ==> xs[k] == ps[k].x
  {
    if ps == [] then [] else Xs(ps[..|ps| - 1]) + [ps[|ps| - 1].x]
  }

  /** The y coordinates of `ps`, in order. */
  ghost function Ys(ps: seq<Particle>): (ys: seq<real>)
    reads ps
    ensures |ys| == |ps| && forall k :: 0 <= k < |ps| ==> ys[k] == ps[k].y
  {
    if ps == [] then [] else Ys(ps[..|ps| - 1]) + [ps[|ps| - 1].y]
  }

  /** The sum of `xs`. */
  function Sum(xs: seq<real>): real
  {
    if xs == [] then 0.0 else Sum(xs[..|xs| - 1]) + xs[|xs| - 1]
  }

  /** `np.mean` of a non-empty list. */
  function Average(xs: seq<real>): real
    requires xs != []
  {
    Sum(xs) / |xs| as real
  }

  /** A sum of values in `[lo, hi]` lies in `[n * lo, n * hi]`. */
  lemma {:induction false} SumBounds(xs: seq<real>, lo: real, hi: real)
    requires forall k :: 0 <= k < |xs| ==> lo <= xs[k] <= hi
    ensures |xs| as real * lo <= Sum(xs) <= |xs| as real * hi
    decreases |xs|
  {
    if xs != [] {
      var n := |xs| - 1;
      assert forall k :: 0 <= k < n ==> xs[..n][k] == xs[k];
      SumBounds(xs[..n], lo, hi);
      assert (n + 1) as real * lo == n as real * lo + lo;
      assert (n + 1) as real * hi == n as real * hi + hi;
    }
  }

  /** The mean of values in `[lo, hi]` lies in `[lo, hi]`: an agent moved to
      the mean of its particles stays inside any band that holds them all. */
  lemma AverageWithin(xs: seq<real>, lo: real, hi: real)
    requires xs != [] && forall k :: 0 <= k < |xs| ==> lo <= xs[k] <= hi
    ensures lo <= Average(xs) <= hi
  {
    SumBounds(xs, lo, hi);
    var n := |xs| as real;
    var q := Sum(xs) / n;
    assert q * n == Sum(xs);
  }

  // ----- the driver -----

  /** Swarm `k` is owned by agent `k` of the grid. */
  ghost predicate Owned(swarms: seq<Swarm>, grid: Grid)
    reads swarms, grid
  {
    |swarms| == |grid.agents| && forall k :: 0 <= k < |swarms| ==> swarms[k].agent == grid.agents[k]
  }

  /** Every particle of every swarm. */
  ghost function Flock(swarms: seq<Swarm>): set<Particle>
    reads swarms
  {
    set k, p | 0 <= k < |swarms| && p in swarms[k].Repr :: p
  }

  /** The swarm loop of one iteration: each swarm updates its particles and
      then moves its agent to their mean. It stops with `false` at the first
      swarm without particles, whose agent would be sent to NaN; otherwise
      every agent's trajectory grows by exactly one point. */
  method MoveSwarms(grid: Grid, swarms: seq<Swarm>, ds: seq<seq<Jolt>>, trig: Trig, sqrt: real -> real)
    returns (ok: bool)
    requires grid.Valid() && Owned(swarms, grid) && IsSqrt(sqrt) && |ds| == |swarms|
    requires forall k :: 0 <= k < |swarms| ==> swarms[k].Valid() && |ds[k]| >= |swarms[k].particles|
    modifies grid.agents`x, grid.agents`y, grid.agents`lastX, grid.agents`lastY, grid.agents`listX, grid.agents`listY
    modifies Flock(swarms)`pbestX, Flock(swarms)`pbestY, Flock(swarms)`fitness
    modifies Flock(swarms)`x, Flock(swarms)`y, Flock(swarms)`vx, Flock(swarms)`vy
    modifies swarms`gbestX, swarms`gbestY, swarms`gbestValue
    ensures grid.Valid()
    ensures ok <==> forall k :: 0 <= k < |swarms| ==> swarms[k].particles != []
    ensures ok ==> forall j :: 0 <= j < |grid.agents| ==> |grid.agents[j].listX| == old(|grid.agents[j].listX|) + 1
  {
    var k := 0;
    while k < |swarms|
      invariant 0 <= k <= |swarms|
      invariant grid.Valid()
      invariant forall j :: 0 <= j < k ==> swarms[j].particles != []
      invariant forall j :: 0 <= j < k ==> |grid.agents[j].listX| == old(|grid.agents[j].listX|) + 1
      invariant forall j :: k <= j < |grid.agents| ==> unchanged(grid.agents[j])
    {
      assert swarms[k].Repr <= Flock(swarms);
      ok := Pass(grid, swarms, k, swarms[k], ds[k], trig, sqrt);
      if !ok {
        return;
      }
      k := k + 1;
    }
    ok := true;
  }

  /** Swarm `k`'s turn in the swarm loop; only its agent moves. */
  method Pass(grid: Grid, swarms: seq<Swarm>, k: nat, s: Swarm, ds: seq<Jolt>, trig: Trig, sqrt: real -> real)
    returns (ok: bool)
    requires grid.Valid() && Owned(swarms, grid) && IsSqrt(sqrt) && k < |swarms| && s == swarms[k]
    requires s.Valid() && |ds| >= |s.particles|
    modifies s.agent`x, s.agent`y, s.agent`lastX, s.agent`lastY, s.agent`listX, s.agent`listY
    modifies s.Repr`pbestX, s.Repr`pbestY, s.Repr`fitness, s.Repr`x, s.Repr`y, s.Repr`vx, s.Repr`vy
    modifies s`gbestX, s`gbestY, s`gbestValue
    ensures grid.Valid()
    ensures ok <==> s.particles != []
    ensures ok ==> |s.agent.listX| == old(|s.agent.listX|) + 1
    ensures forall j :: 0 <= j < |grid.agents| && j != k ==> unchanged(grid.agents[j])
  {
    assert s.agent == grid.agents[k] && s.agent in grid.agents;
    ok := s.Advance(grid, swarms, ds, trig, sqrt);
  }

  /** `Swarm(agent, grid)` for every agent in list order; `zs[k]` holds the
      normal draws of swarm `k`. */
  method MakeSwarms(grid: Grid, zs: seq<seq<(real, real)>>, sqrt: real -> real) returns (swarms: seq<Swarm>)
    requires IsSqrt(sqrt) && |zs| == |grid.agents|
    requires forall k :: 0 <= k < |zs| ==> |zs[k]| >= NUM_PARTICLES * 10
    ensures Owned(swarms, grid)
    ensures forall k :: 0 <= k < |swarms| ==>
              swarms[k].Valid() && swarms[k].Leading() && |swarms[k].particles| <= NUM_PARTICLES
    ensures forall k :: 0 <= k < |swarms| ==> fresh(swarms[k]) && fresh(swarms[k].Repr)
  {
    swarms := [];
    var k := 0;
    while k < |grid.agents|
      invariant 0 <= k <= |grid.agents| && |swarms| == k
      invariant forall j :: 0 <= j < k ==> swarms[j].agent == grid.agents[j]
      invariant forall j :: 0 <= j < k ==>
                  swarms[j].Valid() && swarms[j].Leading() && |swarms[j].particles| <= NUM_PARTICLES
      invariant forall j :: 0 <= j < k ==> fresh(swarms[j]) && fresh(swarms[j].Repr)
    {
      var s := new Swarm(grid.agents[k], grid, NUM_PARTICLES, SIGMA, zs[k], sqrt);
      swarms := swarms + [s];
      k := k + 1;
    }
  }

  /** One iteration of `run_dpso`: the swarm loop, then `pos_change` and one
      detection sweep with the agents' own radii, crediting at most one
      target. An iteration stopped by a swarm without particles (`ok` false)
      leaves the targets as they were. */
  method Step(grid: Grid, swarms: seq<Swarm>, ds: seq<seq<Jolt>>, found: nat, trig: Trig, sqrt: real -> real)
    returns (ok: bool, newFound: nat)
    requires grid.Valid() && Owned(swarms, grid) && IsSqrt(sqrt) && |ds| == |swarms|
    requires forall k :: 0 <= k < |swarms| ==> swarms[k].Valid() && |ds[k]| >= |swarms[k].particles|
    modifies grid.cells, grid`targets, grid.agents`targetsFound
    modifies grid.agents`x, grid.agents`y, grid.agents`lastX, grid.agents`lastY, grid.agents`listX, grid.agents`listY
    modifies Flock(swarms)`pbestX, Flock(swarms)`pbestY, Flock(swarms)`fitness
    modifies Flock(swarms)`x, Flock(swarms)`y, Flock(swarms)`vx, Flock(swarms)`vy
    modifies swarms`gbestX, swarms`gbestY, swarms`gbestValue
    ensures grid.Valid()
    ensures ok ==> found <= newFound <= found + 1
    ensures ok ==> newFound + |Present(grid.targets)| == found + |Present(old(grid.targets))|
    ensures !ok ==> grid.targets == old(grid.targets)
  {
    newFound := found;
    ok := MoveSwarms(grid, swarms, ds, trig, sqrt);
    if ok {
      newFound := FinishStep(grid, false, found, sqrt);
    }
  }

  /** The iteration loop of `run_dpso` over the built swarms: at most
      `iterations` iterations (`draws[t][k]` holds the draws of swarm `k`'s
      particles in iteration `t`), each moving the swarms, repainting the
      agents and crediting at most one detected target; found targets stay
      in the list as `None`. The loop stops once every target is found, and
      fails at the first swarm without particles. */
  method Iterate(grid: Grid, swarms: seq<Swarm>, iterations: nat, draws: seq<seq<seq<Jolt>>>, trig: Trig,
                 sqrt: real -> real)
    returns (crashed: bool, t: nat, targets: nat, ghost counts: seq<nat>)
    requires grid.Valid() && Owned(swarms, grid) && IsSqrt(sqrt)
    requires forall k :: 0 <= k < |swarms| ==> swarms[k].Valid() && |swarms[k].particles| <= NUM_PARTICLES
    requires |draws| >= iterations
    requires forall s :: 0 <= s < iterations ==>
               |draws[s]| == |grid.agents| && forall k :: 0 <= k < |draws[s]| ==> |draws[s][k]| >= NUM_PARTICLES
    modifies grid.cells, grid`targets, grid.agents`targetsFound
    modifies grid.agents`x, grid.agents`y, grid.agents`lastX, grid.agents`lastY, grid.agents`listX, grid.agents`listY
    modifies Flock(swarms)`pbestX, Flock(swarms)`pbestY, Flock(swarms)`fitness
    modifies Flock(swarms)`x, Flock(swarms)`y, Flock(swarms)`vx, Flock(swarms)`vy
    modifies swarms`gbestX, swarms`gbestY, swarms`gbestValue
    ensures grid.Valid()
    ensures |counts| <= iterations && Tally(counts, targets, t, |old(grid.targets)|)
    ensures !crashed && targets < |old(grid.targets)| ==> |counts| == iterations
    ensures targets + |Present(grid.targets)| == |Present(old(grid.targets))|
  {
    var totalTargets := |grid.targets|;
    ghost var present := |Present(grid.targets)|;
    crashed, targets, t, counts := false, 0, 0, [];
    var s := 0;
    while s < iterations
      invariant 0 <= s <= iterations && |counts| == s
      invariant grid.Valid()
      invariant Tally(counts, targets, t, totalTargets)
      invariant targets + |Present(grid.targets)| == present
      invariant counts != [] ==> targets < totalTargets
    {
      var ok, next := Step(grid, swarms, draws[s], targets, trig, sqrt);
      if !ok {
        return true, t, targets, counts;
      }
      TallySnoc(counts, targets, t, next, totalTargets);
      targets, t, counts := next, s, counts + [next];
      if targets == totalTargets {
        break;
      }
      s := s + 1;
    }
  }

  /** `run_dpso`: a swarm is built around every agent, then the iteration
      loop runs; the result is the index of the last iteration, the number
      of targets found and the distance every agent's trajectory covers. The
      run fails when no iteration runs (the last index is then unbound) or
      when a swarm has no particle (its agent's NaN position cannot be
      painted). */
  method RunDpso(grid: Grid, iterations: nat, zs: seq<seq<(real, real)>>, draws: seq<seq<seq<Jolt>>>, trig: Trig,
                 sqrt: real -> real)
    returns (crashed: bool, t: nat, targets: nat, total: real, ghost counts: seq<nat>)
    requires grid.Valid() && IsSqrt(sqrt)
    requires |zs| == |grid.agents| && forall k :: 0 <= k < |zs| ==> |zs[k]| >= NUM_PARTICLES * 10
    requires |draws| >= iterations
    requires forall s :: 0 <= s < iterations ==>
               |draws[s]| == |grid.agents| && forall k :: 0 <= k < |draws[s]| ==> |draws[s][k]| >= NUM_PARTICLES
    modifies grid.cells, grid`targets, grid.agents`targetsFound
    modifies grid.agents`x, grid.agents`y, grid.agents`lastX, grid.agents`lastY, grid.agents`listX, grid.agents`listY
    ensures grid.Valid()
    ensures iterations == 0 ==> crashed
    ensures |counts| <= iterations && Tally(counts, targets, t, |old(grid.targets)|)
    ensures !crashed && targets < |old(grid.targets)| ==> |counts| == iterations
    ensures targets + |Present(grid.targets)| == |Present(old(grid.targets))|
    ensures !crashed ==> total == TotalDistance(grid.agents, sqrt)
  {
    var swarms := MakeSwarms(grid, zs, sqrt);
    crashed, t, targets, counts := Iterate(grid, swarms, iterations, draws, trig, sqrt);
    total := 0.0;
    if iterations == 0 {
      crashed := true;
    } else if !crashed {
      total := grid.TotalDistanceCovered(sqrt);
    }
  }
}
