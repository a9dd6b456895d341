// The collision tests every strategy carries a copy of: a circle against the
// arena edges, the rectangular obstacles, the agents' squares and the
// particles of a swarm.

module Collision {
  import opened Numerics
  import opened Geometry
  import opened ContinuousGrid
  import opened DPSOParticle

  /** The verdict of `is_collision`: the circle of radius `r` around `(x, y)`
      leaves the arena or reaches an obstacle. */
  predicate HitsObstacle(w: real, h: real, obstacles: seq<Box>, x: real, y: real, r: real)
  {
    OutOfArena(w, h, x, y, r) || exists k :: 0 <= k < |obstacles| && CircleHitsBox(x, y, r, obstacles[k])
  }

  /** The verdict of `is_collision_agents`: the circle leaves the arena or
      reaches the square of an agent other than `self`. */
  ghost predicate HitsAgent(w: real, h: real, agents: seq<Agent>, self: object?, x: real, y: real, r: real)
    reads agents
  {
    OutOfArena(w, h, x, y, r)
    || exists k :: 0 <= k < |agents| && agents[k] != self && CircleHitsBox(x, y, r, AgentBox(agents[k]))
  }

  /** The verdict of `is_collision_particles`: the circle leaves the arena or
      contains a particle other than `self`. */
  ghost predicate HitsParticle(w: real, h: real, particles: seq<Particle>, self: object?, x: real, y: real, r: real)
    reads particles
  {
    OutOfArena(w, h, x, y, r)
    || exists k :: 0 <= k < |particles| && particles[k] != self
                   && CircleHitsBox(x, y, r, Square(particles[k].x, particles[k].y, 0.0))
  }

  /** The distance test the three loops make, with `math.sqrt` supplied. */
  method Near(x: real, y: real, r: real, b: Box, sqrt: real -> real) returns (near: bool)
    requires IsSqrt(sqrt)
    ensures near <==> CircleHitsBox(x, y, r, b)
  {
    var closestX := Max(b.cx - b.hw, Min(x, b.cx + b.hw));
    var closestY := Max(b.cy - b.hh, Min(y, b.cy + b.hh));
    SqDistNonNeg(x, y, closestX, closestY);
    SqrtBelow(sqrt, SqDist(x, y, closestX, closestY), r);
    var distance := sqrt((x - closestX) * (x - closestX) + (y - closestY) * (y - closestY));
    near := distance < r;
  }

  /** `is_collision` (RDPSO_util.py, dPSO_util.py, Random_search.py,
      Exhaustive_search.py, the old dPSO.py). */
  method IsCollision(grid: Grid, x: real, y: real, radius: real, sqrt: real -> real) returns (hit: bool)
    requires IsSqrt(sqrt)
    ensures hit <==> HitsObstacle(grid.width as real, grid.height as real, grid.obstacles, x, y, radius)
  {
    if x - radius < 0.0 || x + radius > grid.width as real || y - radius < 0.0 || y + radius > grid.height as real {
      return true;
    }
    var k := 0;
    while k < |grid.obstacles|
      invariant 0 <= k <= |grid.obstacles|
      invariant forall j :: 0 <= j < k ==> !CircleHitsBox(x, y, radius, grid.obstacles[j])
    {
      hit := Near(x, y, radius, grid.obstacles[k], sqrt);
      if hit {
        return;
      }
      k := k + 1;
    }
    return false;
  }

  /** `is_collision_agents`: every agent except `self` counts, as a square
      of its half size. */
  method IsCollisionAgents(self: object?, grid: Grid, x: real, y: real, radius: real, sqrt: real -> real)
    returns (hit: bool)
    requires IsSqrt(sqrt)
    ensures hit <==> HitsAgent(grid.width as real, grid.height as real, grid.agents, self, x, y, radius)
  {
    if x - radius < 0.0 || x + radius > grid.width as real || y - radius < 0.0 || y + radius > grid.height as real {
      return true;
    }
    var k := 0;
    while k < |grid.agents|
      invariant 0 <= k <= |grid.agents|
      invariant forall j :: 0 <= j < k ==> grid.agents[j] == self || !CircleHitsBox(x, y, radius, AgentBox(grid.agents[j]))
    {
      var a := grid.agents[k];
      if a != self {
        hit := Near(x, y, radius, Square(a.x, a.y, a.halfSize), sqrt);
        if hit {
          return;
        }
      }
      k := k + 1;
    }
    return false;
  }

  /** `is_collision_particles`: the clamp onto a particle's own point leaves
      that point, so this is a distance test against every particle except
      `self`. */
  method IsCollisionParticles(particles: seq<Particle>, self: object?, grid: Grid,
                              x: real, y: real, radius: real, sqrt: real -> real) returns (hit: bool)
    requires IsSqrt(sqrt)
    ensures hit <==> HitsParticle(grid.width as real, grid.height as real, particles, self, x, y, radius)
  {
    if x - radius < 0.0 || x + radius > grid.width as real || y - radius < 0.0 || y + radius > grid.height as real {
      return true;
    }
    var k := 0;
    while k < |particles|
      invariant 0 <= k <= |particles|
      invariant forall j :: 0 <= j < k ==>
                  particles[j] == self || !CircleHitsBox(x, y, radius, Square(particles[j].x, particles[j].y, 0.0))
    {
      var p := particles[k];
      if p != self {
        hit := Near(x, y, radius, Square(p.x, p.y, 0.0), sqrt);
        if hit {
          return;
        }
      }
      k := k + 1;
    }
    return false;
  }

  /** Against a particle the clamped test is a plain distance test. */
  lemma ParticleHitIsDistance(x: real, y: real, r: real, qx: real, qy: real)
    ensures CircleHitsBox(x, y, r, Square(qx, qy, 0.0)) <==> WithinRadius(SqDist(x, y, qx, qy), r)
  {
    assert Clamp(qx - 0.0, x, qx + 0.0) == qx;
    assert Clamp(qy - 0.0, y, qy + 0.0) == qy;
  }
}
