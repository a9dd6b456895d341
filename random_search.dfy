// The random search baseline (Random_search.py, and its earlier copy in
// Old_versions/Random_search.py): every step each agent tries one step of
// fixed length in a uniformly drawn direction.

module RandomSearch {
  import opened Numerics
  import opened Geometry
  import opened ContinuousGrid
  import opened Collision
  import opened SearchStep

  /** `math.pi`. */
  const PI: real := 3.141592653589793

  /** The step `(step_size * cos(angle), step_size * sin(angle))` for the
      angle `random.uniform(0, 2 * pi)` drawn from `u`. */
  function Heading(stepSize: real, u: Unit, trig: Trig): (real, real)
  {
    var angle := Uniform(0.0, 2.0 * PI, u);
    (stepSize * trig.cos(angle), stepSize * trig.sin(angle))
  }

  /** Whether the agent standing at `(x, y)` may take the step drawn from `u`. */
  predicate Free(grid: Grid, x: real, y: real, r: real, stepSize: real, u: Unit, trig: Trig)
    reads grid`obstacles
  {
    var d := Heading(stepSize, u, trig);
    !HitsObstacle(grid.width as real, grid.height as real, grid.obstacles, x + d.0, y + d.1, r)
  }

  /** `move`: the `while True` body returns on its first pass, so there is
      exactly one attempt; the agent takes the drawn step when it is
      collision-free and is left as it was otherwise. */
  method Move(agent: Agent, grid: Grid, stepSize: real, u: Unit, trig: Trig, sqrt: real -> real)
    returns (moved: bool)
    requires agent.Valid() && IsSqrt(sqrt)
    modifies agent`x, agent`y, agent`lastX, agent`lastY, agent`listX, agent`listY
    ensures agent.Valid()
    ensures moved == old(Free(grid, agent.x, agent.y, agent.radius, stepSize, u, trig))
    ensures Shifted(agent, Heading(stepSize, u, trig).0, Heading(stepSize, u, trig).1, moved)
  {
    var d := Heading(stepSize, u, trig);
    moved := MoveClear(agent, d.0, d.1, grid, sqrt);
  }

  /** The inner loop of `random_search`: every agent, in list order, makes
      its one attempt with its own draw. */
  method MoveAll(grid: Grid, stepSize: real, us: seq<Unit>, trig: Trig, sqrt: real -> real)
    requires grid.Valid() && IsSqrt(sqrt) && |us| == |grid.agents|
    modifies grid.agents`x, grid.agents`y, grid.agents`lastX, grid.agents`lastY, grid.agents`listX, grid.agents`listY
    ensures grid.Valid()
    ensures forall k :: 0 <= k < |grid.agents| ==>
              Shifted(grid.agents[k], Heading(stepSize, us[k], trig).0, Heading(stepSize, us[k], trig).1,
                      old(Free(grid, grid.agents[k].x, grid.agents[k].y, grid.agents[k].radius, stepSize, us[k], trig)))
  {
    var k := 0;
    while k < |grid.agents|
      invariant 0 <= k <= |grid.agents|
      invariant grid.Valid()
      invariant forall j :: 0 <= j < k ==>
                  Shifted(grid.agents[j], Heading(stepSize, us[j], trig).0, Heading(stepSize, us[j], trig).1,
                          old(Free(grid, grid.agents[j].x, grid.agents[j].y, grid.agents[j].radius, stepSize, us[j], trig)))
      invariant forall j :: k <= j < |grid.agents| ==> unchanged(grid.agents[j])
    {
      var a := grid.agents[k];
      var _ := Move(a, grid, stepSize, us[k], trig, sqrt);
      k := k + 1;
    }
  }

  /** One step of `random_search`: every agent makes its one attempt, then
      the agents are repainted and at most one target is credited. */
  method Step(grid: Grid, stepSize: real, us: seq<Unit>, found: nat, trig: Trig, sqrt: real -> real)
    returns (newFound: nat)
    requires grid.Valid() && IsSqrt(sqrt) && |us| == |grid.agents|
    modifies grid.cells, grid`targets, grid.agents`targetsFound
    modifies grid.agents`x, grid.agents`y, grid.agents`lastX, grid.agents`lastY, grid.agents`listX, grid.agents`listY
    ensures grid.Valid()
    ensures found <= newFound <= found + 1
    ensures newFound + |Present(grid.targets)| == found + |Present(old(grid.targets))|
    ensures forall k :: 0 <= k < |grid.agents| ==>
              Shifted(grid.agents[k], Heading(stepSize, us[k], trig).0, Heading(stepSize, us[k], trig).1,
                      old(Free(grid, grid.agents[k].x, grid.agents[k].y, grid.agents[k].radius, stepSize, us[k], trig)))
  {
    MoveAll(grid, stepSize, us, trig, sqrt);
    newFound := FinishStep(grid, true, found, sqrt);
  }

  /** `random_search`: at most `max_steps` steps, each moving every agent
      once (`draws[s][k]` is agent `k`'s angle draw in step `s`), then
      repainting the agents and crediting at most one detected target; the
      loop stops once every target is found. `steps` is the index of the
      last step run (0 when none ran), and the distance is that of every
      agent's trajectory. */
  method Search(grid: Grid, maxSteps: nat, stepSize: real, draws: seq<seq<Unit>>, trig: Trig, sqrt: real -> real)
    returns (steps: nat, found: nat, total: real, ghost counts: seq<nat>)
    requires grid.Valid() && IsSqrt(sqrt)
    requires |draws| >= maxSteps && forall s :: 0 <= s < maxSteps ==> |draws[s]| == |grid.agents|
    modifies grid.cells, grid`targets, grid.agents`targetsFound
    modifies grid.agents`x, grid.agents`y, grid.agents`lastX, grid.agents`lastY, grid.agents`listX, grid.agents`listY
    ensures grid.Valid()
    ensures |counts| <= maxSteps && Tally(counts, found, steps, |old(grid.targets)|)
    ensures found < |old(grid.targets)| ==> |counts| == maxSteps
    ensures found + |Present(grid.targets)| == |Present(old(grid.targets))|
    ensures found <= |old(grid.targets)|
    ensures total == TotalDistance(grid.agents, sqrt) && 0.0 <= total
  {
    var totalTargets := |grid.targets|;
    found, steps, counts := 0, 0, [];
    var s := 0;
    while s < maxSteps
      invariant 0 <= s <= maxSteps && |counts| == s
      invariant grid.Valid()
      invariant Tally(counts, found, steps, totalTargets)
      invariant found + |Present(grid.targets)| == |Present(old(grid.targets))|
      invariant counts != [] ==> found < totalTargets
    {
      var next := Step(grid, stepSize, draws[s], found, trig, sqrt);
      TallySnoc(counts, found, steps, next, totalTargets);
      found, steps, counts := next, s, counts + [next];
      if found == totalTargets {
        break;
      }
      s := s + 1;
    }
    total := grid.TotalDistanceCovered(sqrt);
    TotalDistanceNonNeg(grid.agents, sqrt);
  }
}
