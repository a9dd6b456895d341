// The exhaustive (zig-zag coverage) search of Exhaustive_search.py: every
// agent follows the waypoint pattern of its own region, skipping waypoints
// that lie in an obstacle, turning aside when the straight step is blocked
// and taking a short detour when it stops making progress.

module ExhaustiveSearch {
  import opened Numerics
  import opened Geometry
  import opened ContinuousGrid
  import opened Collision
  import opened SearchStep
  import opened ExhaustivePlan
  import RandomSearch

  /** What `exhaustive_search` keeps per agent in its parallel lists:
      `search_positions`, `stuck_counter`, `detour_steps`, `step_dir` (unset
      until the first detour), `previous_distances` and
      `reached_pattern_start`. */
  datatype Track = Track(pos: nat, stuck: nat, detour: nat, dir: Option<(real, real)>, previous: Ext, reached: bool)

  /** The lists as they are set up before the main loop. */
  const START: Track := Track(0, 0, 0, None, Inf, false)

  /** The bookkeeping of one agent stays in range: its waypoint index never
      passes the end of its pattern, the stuck counter is reset before it
      reaches 3, a detour lasts at most 10 steps and only runs once a
      direction has been chosen. */
  predicate TrackOk(t: Track, len: nat)
  {
    t.pos <= len && t.stuck < 3 && t.detour <= 10 && (t.detour > 0 ==> t.dir.Some?)
  }

  /** The offsets in degrees tried, in order, around the direct heading. */
  const OFFSETS: seq<real> := [0.0, 15.0, -15.0, 30.0, -30.0, 45.0, -45.0, 60.0, -60.0, 75.0, -75.0, 90.0, -90.0]

  /** The five `random.uniform(0, 2 * pi)` draws of the random retries. */
  type Retries = us: seq<Unit> | |us| == 5 witness [0.0, 0.0, 0.0, 0.0, 0.0]

  /** The random draws one agent may consume in one step: the heading once
      its pattern is done, the retries when every turn is blocked, and the
      two `random.choice` picks of a new detour (10 rather than 5 steps;
      `-step_size` rather than `step_size`). */
  datatype Draws = Draws(wander: Unit, retries: Retries, longDetour: bool, leftward: bool)

  /** `not is_collision(grid, p[0], p[1], r)`. */
  predicate Open(grid: Grid, p: (real, real), r: real)
    reads grid`obstacles
  {
    !HitsObstacle(grid.width as real, grid.height as real, grid.obstacles, p.0, p.1, r)
  }

  /** The waypoint the agent heads for: the first at or after `pos` that is
      open, or the end of the pattern. */
  function NextOpen(grid: Grid, pattern: seq<(real, real)>, pos: nat, r: real): (next: nat)
    requires pos <= |pattern|
    reads grid`obstacles
    decreases |pattern| - pos
  {
    if pos == |pattern| || Open(grid, pattern[pos], r) then pos else NextOpen(grid, pattern, pos + 1, r)
  }

  /** `NextOpen` skips exactly the blocked waypoints: everything it passes
      over is blocked and where it stops, short of the end, is open. */
  lemma {:induction false} NextOpenIsFirst(grid: Grid, pattern: seq<(real, real)>, pos: nat, r: real)
    requires pos <= |pattern|
    ensures pos <= NextOpen(grid, pattern, pos, r) <= |pattern|
    ensures forall k :: pos <= k < NextOpen(grid, pattern, pos, r) ==> !Open(grid, pattern[k], r)
    ensures NextOpen(grid, pattern, pos, r) < |pattern| ==> Open(grid, pattern[NextOpen(grid, pattern, pos, r)], r)
    decreases |pattern| - pos
  {
    if pos < |pattern| && !Open(grid, pattern[pos], r) {
      NextOpenIsFirst(grid, pattern, pos + 1, r);
    }
  }

  /** The "skip unreachable waypoints" loop. */
  method SkipBlocked(grid: Grid, pattern: seq<(real, real)>, pos: nat, r: real, sqrt: real -> real)
    returns (next: nat)
    requires pos <= |pattern| && IsSqrt(sqrt)
    ensures next == NextOpen(grid, pattern, pos, r)
  {
    next := pos;
    while next < |pattern|
      invariant pos <= next <= |pattern|
      invariant NextOpen(grid, pattern, next, r) == NextOpen(grid, pattern, pos, r)
      decreases |pattern| - next
    {
      var hit := IsCollision(grid, pattern[next].0, pattern[next].1, r, sqrt);
      if !hit {
        break;
      }
      next := next + 1;
    }
  }

  /** The first index from `i` on where `bs` holds. */
  function FirstTrue(bs: seq<bool>, i: nat): (r: Option<nat>)
    requires i <= |bs|
    decreases |bs| - i
    ensures r.Some? ==> i <= r.value < |bs| && bs[r.value]
  {
    if i == |bs| then None else if bs[i] then Some(i) else FirstTrue(bs, i + 1)
  }

  lemma {:induction false} FirstTrueIsFirst(bs: seq<bool>, i: nat)
    requires i <= |bs|
    ensures FirstTrue(bs, i).Some? ==> forall m :: i <= m < FirstTrue(bs, i).value ==> !bs[m]
    ensures FirstTrue(bs, i).None? ==> forall m :: i <= m < |bs| ==> !bs[m]
    decreases |bs| - i
  {
    if i < |bs| && !bs[i] {
      FirstTrueIsFirst(bs, i + 1);
    }
  }

  /** For each displacement in `ds`, whether the agent of radius `r` at
      `(x, y)` may take it. */
  function Opens(grid: Grid, x: real, y: real, r: real, ds: seq<(real, real)>): seq<bool>
    reads grid`obstacles
  {
    var w, h, obstacles := grid.width as real, grid.height as real, grid.obstacles;
    seq(|ds|, k requires 0 <= k < |ds| => !HitsObstacle(w, h, obstacles, x + ds[k].0, y + ds[k].1, r))
  }

  /** The displacement picked by `FirstTrue`, or none. */
  function Pick(ds: seq<(real, real)>, k: Option<nat>): (real, real)
  {
    if k.Some? && k.value < |ds| then ds[k.value] else (0.0, 0.0)
  }

  /** Tries the displacements in order and takes the first one that is
      collision-free; the agent stays put when none is. */
  method FirstMove(agent: Agent, grid: Grid, ds: seq<(real, real)>, sqrt: real -> real, ghost ok: seq<bool>)
    returns (moved: bool)
    requires agent.Valid() && IsSqrt(sqrt)
    requires ok == Opens(grid, agent.x, agent.y, agent.radius, ds)
    modifies agent`x, agent`y, agent`lastX, agent`lastY, agent`listX, agent`listY
    ensures agent.Valid()
    ensures moved == FirstTrue(ok, 0).Some?
    ensures Shifted(agent, Pick(ds, FirstTrue(ok, 0)).0, Pick(ds, FirstTrue(ok, 0)).1, moved)
  {
    assert |ok| == |ds|;
    var k := 0;
    while k < |ds|
      invariant 0 <= k <= |ds|
      invariant FirstTrue(ok, k) == FirstTrue(ok, 0)
      invariant unchanged(agent)
    {
      moved := MoveClear(agent, ds[k].0, ds[k].1, grid, sqrt);
      if moved {
        assert ok[k];
        return;
      }
      assert !ok[k] && FirstTrue(ok, k) == FirstTrue(ok, k + 1);
      k := k + 1;
    }
    moved := false;
  }

  /** The heading `(dx / distance * step_size, dy / distance * step_size)`
      towards the waypoint, turned by `offset` degrees and scaled to
      `step_size` again. */
  function Turn(aim: (real, real), step: real, offset: real, trig: Trig): (real, real)
  {
    var angle := trig.atan2(aim.1, aim.0) + trig.radians(offset);
    (trig.cos(angle) * step, trig.sin(angle) * step)
  }

  /** Every attempt of an approach step, in the order the source makes
      them: the thirteen turns, then (only reached when all of them are
      blocked) the five random headings. The first collision-free one is
      taken, which is what the two loops with their `break`s do. */
  function Attempts(aim: (real, real), step: real, us: Retries, trig: Trig): (ds: seq<(real, real)>)
  {
    Turns(aim, step, trig) + Rescues(step, us, trig)
  }

  /** The thirteen turns, one per entry of `OFFSETS`. */
  function Turns(aim: (real, real), step: real, trig: Trig): seq<(real, real)>
  {
    seq(|OFFSETS|, k requires 0 <= k < |OFFSETS| => Turn(aim, step, OFFSETS[k], trig))
  }

  /** The five random headings tried when every turn is blocked. */
  function Rescues(step: real, us: Retries, trig: Trig): seq<(real, real)>
  {
    seq(|us|, k requires 0 <= k < |us| => RandomSearch.Heading(step, us[k], trig))
  }

  /** Every attempt of an approach step, turn or random retry, is exactly
      `step_size` long. */
  lemma AttemptLength(aim: (real, real), step: real, us: Retries, trig: Trig, k: nat)
    requires Pythagorean(trig) && k < |Attempts(aim, step, us, trig)|
    ensures SqDist(0.0, 0.0, Attempts(aim, step, us, trig)[k].0, Attempts(aim, step, us, trig)[k].1) == step * step
  {
    var ts, rs := Turns(aim, step, trig), Rescues(step, us, trig);
    if k < |OFFSETS| {
      var angle := trig.atan2(aim.1, aim.0) + trig.radians(OFFSETS[k]);
      assert (ts + rs)[k] == ts[k] == Turn(aim, step, OFFSETS[k], trig);
      ScaledUnit(trig.cos(angle), trig.sin(angle), step);
    } else {
      var angle := Uniform(0.0, 2.0 * RandomSearch.PI, us[k - |OFFSETS|]);
      assert (ts + rs)[k] == rs[k - |OFFSETS|] == RandomSearch.Heading(step, us[k - |OFFSETS|], trig);
      ScaledUnit(trig.cos(angle), trig.sin(angle), step);
    }
  }

  /** Whether the agent made no progress: its distance to the waypoint did
      not drop by half a step since the last approach step. */
  predicate Stalled(t: Track, distance: real, step: real)
  {
    t.previous.Fin? && distance >= t.previous.v - step * 0.5
  }

  /** The bookkeeping at the end of an approach step (where `detour_steps`
      is always 0): count a stalled step or reset the count, remember the
      distance, and on the third stalled step in a row start a detour of
      5 or 10 steps in direction `(step_size, 0)` or `(-step_size, 0)`. */
  function Settle(t: Track, distance: real, step: real, d: Draws): Track
  {
    var stuck := if Stalled(t, distance, step) then t.stuck + 1 else 0;
    if stuck >= 3 then
      t.(stuck := 0, previous := Fin(distance), detour := if d.longDetour then 10 else 5,
         dir := Some(if d.leftward then (-step, 0.0) else (step, 0.0)))
    else
      t.(stuck := stuck, previous := Fin(distance))
  }

  /** `Settle` keeps the bookkeeping in range and starts a detour exactly
      on the third stalled approach step in a row. */
  lemma SettleOk(t: Track, len: nat, distance: real, step: real, d: Draws)
    requires TrackOk(t, len) && t.detour == 0
    ensures TrackOk(Settle(t, distance, step, d), len)
    ensures Settle(t, distance, step, d).pos == t.pos
    ensures Settle(t, distance, step, d).previous == Fin(distance)
    ensures Settle(t, distance, step, d).detour > 0 <==> Stalled(t, distance, step) && t.stuck == 2
    ensures Settle(t, distance, step, d).detour in {0, 5, 10}
    ensures Settle(t, distance, step, d).stuck ==
              if Stalled(t, distance, step) && t.stuck < 2 then t.stuck + 1 else 0
  {
  }

  /** The detour move reads `ndy` from the first and `ndx` from the second
      component of `step_dir`, so a detour picked from the horizontal
      directions runs vertically. */
  lemma DetourVertical(step: real, leftward: bool)
    ensures var dir := if leftward then (-step, 0.0) else (step, 0.0);
            (dir.1, dir.0).0 == 0.0 && Abs((dir.1, dir.0).1) == Abs(step)
  {
  }

  /** Which branch of the agent loop runs. */
  datatype Phase = Wander | Arrive(p: nat) | Detour(p: nat) | Approach(p: nat)

  /** The branch for an agent at `(x, y)` whose next open waypoint is `p`. */
  ghost function PhaseOf(pattern: seq<(real, real)>, p: nat, t: Track, x: real, y: real, step: real, sqrt: real -> real): Phase
  {
    if p >= |pattern| then Wander
    else if sqrt(SqDist(pattern[p].0, pattern[p].1, x, y)) < step then Arrive(p)
    else if t.detour > 0 then Detour(p)
    else Approach(p)
  }

  /** An agent arrives exactly when it is closer than one step to its
      waypoint. */
  lemma ArriveIff(pattern: seq<(real, real)>, p: nat, t: Track, x: real, y: real, step: real, sqrt: real -> real)
    requires IsSqrt(sqrt) && p < |pattern|
    ensures PhaseOf(pattern, p, t, x, y, step, sqrt).Arrive? <==>
              0.0 < step && SqDist(pattern[p].0, pattern[p].1, x, y) < step * step
  {
    SquareNonNeg(pattern[p].0 - x);
    SquareNonNeg(pattern[p].1 - y);
    SqrtBelow(sqrt, SqDist(pattern[p].0, pattern[p].1, x, y), step);
  }

  /** The agent wanders: it makes the random-heading step when that is
      free; its pattern is done (`p` is its end). */
  twostate predicate Wandered(agent: Agent, grid: Grid, t: Track, u: Track, p: nat, step: real, d: Draws, trig: Trig)
    reads agent, grid`obstacles
  {
    var h := RandomSearch.Heading(step, d.wander, trig);
    u == t.(pos := p)
    && Shifted(agent, h.0, h.1, Open(grid, (old(agent.x) + h.0, old(agent.y) + h.1), agent.radius))
  }

  /** The agent lands exactly on waypoint `p` and moves on to the next one,
      with its stuck count and remembered distance reset. */
  twostate predicate Arrived(agent: Agent, pattern: seq<(real, real)>, t: Track, u: Track, p: nat)
    requires p < |pattern|
    reads agent
  {
    u == t.(pos := p + 1, reached := true, stuck := 0, previous := Inf)
    && Shifted(agent, pattern[p].0 - old(agent.x), pattern[p].1 - old(agent.y), true)
  }

  /** The agent takes one detour step, with the components of `step_dir`
      swapped, when it is free. */
  twostate predicate Detoured(agent: Agent, grid: Grid, t: Track, u: Track, p: nat)
    requires t.dir.Some? && t.detour > 0
    reads agent, grid`obstacles
  {
    var m := (t.dir.value.1, t.dir.value.0);
    u == t.(pos := p, detour := t.detour - 1)
    && Shifted(agent, m.0, m.1, Open(grid, (old(agent.x) + m.0, old(agent.y) + m.1), agent.radius))
  }

  /** The heading towards `wp` from `(x, y)` at `distance`, scaled to `step`. */
  function Aim(wp: (real, real), x: real, y: real, distance: real, step: real): (real, real)
    requires distance != 0.0
  {
    ((wp.0 - x) / distance * step, (wp.1 - y) / distance * step)
  }

  /** The agent takes the first free attempt towards `wp`, or stays put,
      and settles its counters with the distance it had. */
  twostate predicate Approached(agent: Agent, grid: Grid, wp: (real, real), t: Track, u: Track, p: nat,
                                distance: real, step: real, d: Draws, trig: Trig)
    requires distance != 0.0
    reads agent, grid`obstacles
  {
    var ds := Attempts(Aim(wp, old(agent.x), old(agent.y), distance, step), step, d.retries, trig);
    var k := FirstTrue(Opens(grid, old(agent.x), old(agent.y), agent.radius, ds), 0);
    u == Settle(t.(pos := p), distance, step, d) && Shifted(agent, Pick(ds, k).0, Pick(ds, k).1, k.Some?)
  }

  /** What one pass of the agent loop does to an agent that has a pattern:
      its index moves past the blocked waypoints to `p`; then it wanders
      once the pattern is done, lands on the waypoint when it is less than
      a step away, takes one detour step while a detour runs, and otherwise
      takes the first free attempt towards the waypoint and settles its
      counters. */
  twostate predicate Stepped(agent: Agent, grid: Grid, pattern: seq<(real, real)>, p: nat, t: Track, u: Track,
                             step: real, d: Draws, trig: Trig, sqrt: real -> real)
    requires TrackOk(t, |pattern|) && 0.0 < step && p <= |pattern|
    reads agent, grid`obstacles
  {
    var x, y := old(agent.x), old(agent.y);
    match PhaseOf(pattern, p, t, x, y, step, sqrt)
    case Wander => Wandered(agent, grid, t, u, p, step, d, trig)
    case Arrive(p) => Arrived(agent, pattern, t, u, p)
    case Detour(p) => Detoured(agent, grid, t, u, p)
    case Approach(p) =>
      var distance := sqrt(SqDist(pattern[p].0, pattern[p].1, x, y));
      distance != 0.0 && Approached(agent, grid, pattern[p], t, u, p, distance, step, d, trig)
  }

  method WanderStep(agent: Agent, grid: Grid, t: Track, p: nat, step: real, d: Draws, trig: Trig, sqrt: real -> real)
    returns (u: Track)
    requires agent.Valid() && IsSqrt(sqrt)
    modifies agent`x, agent`y, agent`lastX, agent`lastY, agent`listX, agent`listY
    ensures agent.Valid() && Wandered(agent, grid, t, u, p, step, d, trig)
  {
    var h := RandomSearch.Heading(step, d.wander, trig);
    var _ := MoveClear(agent, h.0, h.1, grid, sqrt);
    u := t.(pos := p);
  }

  /** The move onto an open waypoint always succeeds. */
  method ArriveStep(agent: Agent, grid: Grid, pattern: seq<(real, real)>, t: Track, p: nat, sqrt: real -> real)
    returns (u: Track)
    requires agent.Valid() && IsSqrt(sqrt) && p < |pattern| && Open(grid, pattern[p], agent.radius)
    modifies agent`x, agent`y, agent`lastX, agent`lastY, agent`listX, agent`listY
    ensures agent.Valid() && Arrived(agent, pattern, t, u, p)
  {
    var dx, dy := pattern[p].0 - agent.x, pattern[p].1 - agent.y;
    assert agent.x + dx == pattern[p].0 && agent.y + dy == pattern[p].1;
    var _ := MoveClear(agent, dx, dy, grid, sqrt);
    u := t.(pos := p + 1, reached := true, stuck := 0, previous := Inf);
  }

  method DetourStep(agent: Agent, grid: Grid, t: Track, p: nat, sqrt: real -> real) returns (u: Track)
    requires agent.Valid() && IsSqrt(sqrt) && t.dir.Some? && t.detour > 0
    modifies agent`x, agent`y, agent`lastX, agent`lastY, agent`listX, agent`listY
    ensures agent.Valid() && Detoured(agent, grid, t, u, p)
  {
    var _ := MoveClear(agent, t.dir.value.1, t.dir.value.0, grid, sqrt);
    u := t.(pos := p, detour := t.detour - 1);
  }

  method ApproachStep(agent: Agent, grid: Grid, wp: (real, real), t: Track, p: nat, distance: real, step: real,
                  d: Draws, trig: Trig, sqrt: real -> real) returns (u: Track)
    requires agent.Valid() && IsSqrt(sqrt) && distance != 0.0
    modifies agent`x, agent`y, agent`lastX, agent`lastY, agent`listX, agent`listY
    ensures agent.Valid() && Approached(agent, grid, wp, t, u, p, distance, step, d, trig)
  {
    var ds := Attempts(Aim(wp, agent.x, agent.y, distance, step), step, d.retries, trig);
    var _ := FirstMove(agent, grid, ds, sqrt, Opens(grid, agent.x, agent.y, agent.radius, ds));
    u := Settle(t.(pos := p), distance, step, d);
  }

  /** One pass of the agent loop for an agent with a pattern, once the
      blocked waypoints have been skipped up to `p`. The agent makes at most
      one move, and its bookkeeping stays in range. */
  method StepAgent(agent: Agent, grid: Grid, pattern: seq<(real, real)>, p: nat, t: Track, step: real, d: Draws,
                   trig: Trig, sqrt: real -> real) returns (u: Track)
    requires agent.Valid() && IsSqrt(sqrt) && 0.0 < step && TrackOk(t, |pattern|)
    requires p == NextOpen(grid, pattern, t.pos, agent.radius)
    modifies agent`x, agent`y, agent`lastX, agent`lastY, agent`listX, agent`listY
    ensures agent.Valid() && TrackOk(u, |pattern|) && t.pos <= u.pos && AtMostOneMove(agent)
    ensures p <= |pattern| && Stepped(agent, grid, pattern, p, t, u, step, d, trig, sqrt)
  {
    ghost var x, y := agent.x, agent.y;
    NextOpenIsFirst(grid, pattern, t.pos, agent.radius);
    if p < |pattern| {
      var distance := sqrt(SqDist(pattern[p].0, pattern[p].1, agent.x, agent.y));
      if distance < step {
        assert PhaseOf(pattern, p, t, x, y, step, sqrt) == Arrive(p);
        u := ArriveStep(agent, grid, pattern, t, p, sqrt);
      } else if t.detour > 0 {
        assert PhaseOf(pattern, p, t, x, y, step, sqrt) == Detour(p);
        u := DetourStep(agent, grid, t, p, sqrt);
      } else {
        assert PhaseOf(pattern, p, t, x, y, step, sqrt) == Approach(p);
        u := ApproachStep(agent, grid, pattern[p], t, p, distance, step, d, trig, sqrt);
        SettleOk(t.(pos := p), |pattern|, distance, step, d);
      }
    } else {
      assert PhaseOf(pattern, p, t, x, y, step, sqrt) == Wander;
      u := WanderStep(agent, grid, t, p, step, d, trig, sqrt);
    }
  }

  /** The agent's trajectory grew by at most its current position. */
  twostate predicate AtMostOneMove(a: Agent)
    reads a
  {
    || (a.listX == old(a.listX) && a.listY == old(a.listY))
    || (a.listX == old(a.listX) + [a.x] && a.listY == old(a.listY) + [a.y])
  }

  /** The whole pass of one agent with a pattern: skip the blocked
      waypoints, then step. */
  method PassAgent(agent: Agent, grid: Grid, pattern: seq<(real, real)>, t: Track, step: real, d: Draws,
                   trig: Trig, sqrt: real -> real) returns (u: Track)
    requires agent.Valid() && IsSqrt(sqrt) && 0.0 < step && TrackOk(t, |pattern|)
    modifies agent`x, agent`y, agent`lastX, agent`lastY, agent`listX, agent`listY
    ensures agent.Valid() && TrackOk(u, |pattern|) && t.pos <= u.pos && AtMostOneMove(agent)
    ensures NextOpen(grid, pattern, t.pos, agent.radius) <= u.pos <= NextOpen(grid, pattern, t.pos, agent.radius) + 1
  {
    var p := SkipBlocked(grid, pattern, t.pos, agent.radius, sqrt);
    u := StepAgent(agent, grid, pattern, p, t, step, d, trig, sqrt);
  }

  /** Every agent's bookkeeping is in range for its pattern. */
  predicate InRange(patterns: seq<seq<(real, real)>>, tracks: seq<Track>)
  {
    |tracks| == |patterns| && forall k :: 0 <= k < |tracks| ==> TrackOk(tracks[k], |patterns[k]|)
  }

  /** Every track stays in range and no waypoint index goes back. */
  predicate Advanced(patterns: seq<seq<(real, real)>>, tracks: seq<Track>, next: seq<Track>)
  {
    && |next| == |tracks| == |patterns|
    && forall k :: 0 <= k < |tracks| ==> TrackOk(next[k], |patterns[k]|) && tracks[k].pos <= next[k].pos
  }

  /** The agent loop of one step: every agent, in list order, skips its
      blocked waypoints and makes its pass with its own draws. Waypoint
      indices never go back, and every agent moves at most once. */
  method MoveAgents(grid: Grid, patterns: seq<seq<(real, real)>>, tracks: seq<Track>, step: real, ds: seq<Draws>,
                    trig: Trig, sqrt: real -> real) returns (next: seq<Track>)
    requires grid.Valid() && IsSqrt(sqrt) && 0.0 < step
    requires InRange(patterns, tracks) && |tracks| == |ds| == |grid.agents|
    modifies grid.agents`x, grid.agents`y, grid.agents`lastX, grid.agents`lastY, grid.agents`listX, grid.agents`listY
    ensures grid.Valid() && Advanced(patterns, tracks, next)
    ensures forall k :: 0 <= k < |tracks| ==> AtMostOneMove(grid.agents[k])
  {
    next := tracks;
    var k := 0;
    while k < |grid.agents|
      invariant 0 <= k <= |grid.agents|
      invariant grid.Valid() && Advanced(patterns, tracks, next)
      invariant forall j :: 0 <= j < k ==> AtMostOneMove(grid.agents[j])
      invariant forall j :: k <= j < |grid.agents| ==> unchanged(grid.agents[j])
    {
      var u := PassAgent(grid.agents[k], grid, patterns[k], next[k], step, ds[k], trig, sqrt);
      next := next[k := u];
      k := k + 1;
    }
  }

  /** The regions of the agents and the zig-zag pattern of each, with
      `hor_step = vert_step = step`. */
  method Plans(n: nat, w: real, h: real, step: real) returns (regions: seq<Region>, patterns: seq<seq<(real, real)>>)
    requires 1 <= n && 0.0 < step
    ensures |regions| == n && |patterns| == n
    ensures n == 1 ==> regions == [Region(0.0, w, 0.0, h)]
    ensures n > 1 ==> forall k :: 0 <= k < n ==>
              regions[k] == Cell(Split(n).0, Split(n).1, w, h, k / Split(n).1, k % Split(n).1)
    ensures forall k :: 0 <= k < n ==> ZigZag(patterns[k], regions[k], step)
  {
    regions := Regions(n, w, h);
    patterns := [];
    var i := 0;
    while i < n
      invariant 0 <= i <= n && |patterns| == i
      invariant forall k :: 0 <= k < i ==> ZigZag(patterns[k], regions[k], step)
    {
      var pattern := Pattern(regions[i], step);
      patterns := patterns + [pattern];
      i := i + 1;
    }
  }

  /** One step of `exhaustive_search`: the agent loop, then the agents are
      repainted and at most one target is credited. */
  method Step(grid: Grid, patterns: seq<seq<(real, real)>>, tracks: seq<Track>, step: real, ds: seq<Draws>,
              found: nat, trig: Trig, sqrt: real -> real) returns (next: seq<Track>, newFound: nat)
    requires grid.Valid() && IsSqrt(sqrt) && 0.0 < step
    requires InRange(patterns, tracks) && |tracks| == |ds| == |grid.agents|
    modifies grid.cells, grid`targets, grid.agents`targetsFound
    modifies grid.agents`x, grid.agents`y, grid.agents`lastX, grid.agents`lastY, grid.agents`listX, grid.agents`listY
    ensures grid.Valid() && Advanced(patterns, tracks, next) && InRange(patterns, next)
    ensures found <= newFound <= found + 1
    ensures newFound + |Present(grid.targets)| == found + |Present(old(grid.targets))|
    ensures forall k :: 0 <= k < |tracks| ==> AtMostOneMove(grid.agents[k])
  {
    next := MoveAgents(grid, patterns, tracks, step, ds, trig, sqrt);
    newFound := FinishStep(grid, true, found, sqrt);
  }

  /** `exhaustive_search`: the agents' patterns are laid out with step
      `0.9 * agent_radius`; then at most `max_steps` steps, each running the
      agent loop (`draws[s][k]` holds agent `k`'s draws in step `s`),
      repainting the agents and crediting at most one detected target,
      until every target is found. `steps` is the index of the last step
      run (0 when none ran). */
  method Search(grid: Grid, maxSteps: nat, stepSize: real, draws: seq<seq<Draws>>, trig: Trig, sqrt: real -> real)
    returns (steps: nat, found: nat, total: real, ghost counts: seq<nat>)
    requires grid.Valid() && IsSqrt(sqrt) && 1 <= |grid.agents| && 0.0 < grid.agentRadius && 0.0 < stepSize
    requires |draws| >= maxSteps && forall s :: 0 <= s < maxSteps ==> |draws[s]| == |grid.agents|
    modifies grid.cells, grid`targets, grid.agents`targetsFound
    modifies grid.agents`x, grid.agents`y, grid.agents`lastX, grid.agents`lastY, grid.agents`listX, grid.agents`listY
    ensures grid.Valid()
    ensures |counts| <= maxSteps && Tally(counts, found, steps, |old(grid.targets)|)
    ensures found < |old(grid.targets)| ==> |counts| == maxSteps
    ensures found + |Present(grid.targets)| == |Present(old(grid.targets))|
    ensures found <= |old(grid.targets)|
    ensures total == TotalDistance(grid.agents, sqrt) && 0.0 <= total
  {
    var totalTargets := |grid.targets|;
    var _, patterns := Plans(|grid.agents|, grid.width as real, grid.height as real, grid.agentRadius * 0.9);
    var tracks := seq(|grid.agents|, _ => START);
    found, steps, counts := 0, 0, [];
    var s := 0;
    while s < maxSteps
      invariant 0 <= s <= maxSteps && |counts| == s
      invariant grid.Valid()
      invariant InRange(patterns, tracks) && |tracks| == |grid.agents|
      invariant Tally(counts, found, steps, totalTargets)
      invariant found + |Present(grid.targets)| == |Present(old(grid.targets))|
      invariant counts != [] ==> found < totalTargets
    {
      var next;
      tracks, next := Step(grid, patterns, tracks, stepSize, draws[s], found, trig, sqrt);
      TallySnoc(counts, found, steps, next, totalTargets);
      found, steps, counts := next, s, counts + [next];
      if found == totalTargets {
        break;
      }
      s := s + 1;
    }
    total := grid.TotalDistanceCovered(sqrt);
    TotalDistanceNonNeg(grid.agents, sqrt);
  }
}
