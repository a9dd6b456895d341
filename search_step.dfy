// The pieces of a search step that every strategy repeats: the target
// detection sweep, the guarded `move`, the compaction of the target lists
// and the annealed inertia weight.

module SearchStep {
  import opened Numerics
  import opened Geometry
  import opened ContinuousGrid
  import opened Collision
  import opened SwarmUtil

  /** Where an agent stands, and its sensing radius, when targets are checked. */
  datatype Seeker = Seeker(x: real, y: real, radius: real)

  ghost function Seekers(agents: seq<Agent>): (ss: seq<Seeker>)
    reads agents`x, agents`y
    ensures |ss| == |agents|
    ensures forall k :: 0 <= k < |agents| ==> ss[k] == Seeker(agents[k].x, agents[k].y, agents[k].radius)
    decreases |agents|
  {
    if agents == [] then []
    else
      var a := agents[|agents| - 1];
      Seekers(agents[..|agents| - 1]) + [Seeker(a.x, a.y, a.radius)]
  }

  /** The two detection distances of `check_target_detection`: the random and
      exhaustive searches use the first agent's radius plus the grid's target
      half size plus 3, the PSO strategies each agent's own radius plus the
      target's half size. */
  datatype Rule = Padded(lead: real, halfSize: real) | Own

  function Reach(rule: Rule, s: Seeker, t: Box): real
  {
    match rule
    case Padded(lead, halfSize) => lead + halfSize + 3.0
    case Own => s.radius + t.hw
  }

  /** The rule a sweep over `grid` applies. */
  function RuleOf(grid: Grid, padded: bool): Rule
    reads grid`agents
  {
    if padded && |grid.agents| > 0 then Padded(grid.agents[0].radius, grid.targetHalfSize) else Own
  }

  /** The distance from the seeker to the target's centre is below the reach. */
  predicate Detects(rule: Rule, s: Seeker, t: Box)
  {
    WithinRadius(SqDist(s.x, s.y, t.cx, t.cy), Reach(rule, s, t))
  }

  /** Seeker `i` detects target slot `j`, which still holds a target. */
  predicate Hit(rule: Rule, ss: seq<Seeker>, ts: seq<Option<Box>>, i: int, j: int)
  {
    0 <= i < |ss| && 0 <= j < |ts| && ts[j].Some? && Detects(rule, ss[i], ts[j].value)
  }

  /** The first slot from `j` on that seeker `s` detects. */
  function FirstTarget(rule: Rule, s: Seeker, ts: seq<Option<Box>>, j: nat): (r: Option<nat>)
    requires j <= |ts|
    ensures r.Some? ==> j <= r.value < |ts| && ts[r.value].Some?
    decreases |ts| - j
  {
    if j == |ts| then None
    else if ts[j].Some? && Detects(rule, s, ts[j].value) then Some(j)
    else FirstTarget(rule, s, ts, j + 1)
  }

  /** The first (agent, slot) pair, agents in list order and the slots of one
      agent in list order, from agent `i` on. */
  function FirstDetection(rule: Rule, ss: seq<Seeker>, ts: seq<Option<Box>>, i: nat): (r: Option<(nat, nat)>)
    requires i <= |ss|
    ensures r.Some? ==> i <= r.value.0 < |ss| && r.value.1 < |ts| && ts[r.value.1].Some?
    decreases |ss| - i
  {
    if i == |ss| then None
    else match FirstTarget(rule, ss[i], ts, 0)
      case Some(j) => Some((i, j))
      case None => FirstDetection(rule, ss, ts, i + 1)
  }

  /** `FirstTarget` finds a detected slot, and no slot between `j` and it is
      detected; it finds none exactly when no slot from `j` on is detected. */
  lemma {:induction false} FirstTargetIsFirst(rule: Rule, s: Seeker, ts: seq<Option<Box>>, j: nat)
    requires j <= |ts|
    ensures match FirstTarget(rule, s, ts, j)
      case Some(k) =>
        j <= k < |ts| && ts[k].Some? && Detects(rule, s, ts[k].value)
        && forall l :: j <= l < k ==> !(ts[l].Some? && Detects(rule, s, ts[l].value))
      case None => forall l :: j <= l < |ts| ==> !(ts[l].Some? && Detects(rule, s, ts[l].value))
    decreases |ts| - j
  {
    if j < |ts| && !(ts[j].Some? && Detects(rule, s, ts[j].value)) {
      FirstTargetIsFirst(rule, s, ts, j + 1);
    }
  }

  /** `check_target_detection`'s choice is the first hit in agent-major
      order: the pair is a hit and every pair before it is not; there is no
      choice exactly when no agent from `i` on detects any target. */
  lemma {:induction false} FirstDetectionIsFirst(rule: Rule, ss: seq<Seeker>, ts: seq<Option<Box>>, i: nat)
    requires i <= |ss|
    ensures match FirstDetection(rule, ss, ts, i)
      case Some(h) =>
        i <= h.0 && Hit(rule, ss, ts, h.0, h.1)
        && (forall a, b :: i <= a < h.0 && 0 <= b < |ts| ==> !Hit(rule, ss, ts, a, b))
        && (forall b :: 0 <= b < h.1 ==> !Hit(rule, ss, ts, h.0, b))
      case None => forall a, b :: i <= a < |ss| && 0 <= b < |ts| ==> !Hit(rule, ss, ts, a, b)
    decreases |ss| - i
  {
    if i < |ss| {
      FirstTargetIsFirst(rule, ss[i], ts, 0);
      if FirstTarget(rule, ss[i], ts, 0).None? {
        FirstDetectionIsFirst(rule, ss, ts, i + 1);
      }
    }
  }

  /** The pair `check_target_detection` picks on the grid as it stands. */
  ghost function Detection(grid: Grid, padded: bool): (r: Option<(nat, nat)>)
    reads grid`agents, grid`targets, grid.agents`x, grid.agents`y
    ensures r.Some? ==> r.value.0 < |grid.agents| && r.value.1 < |grid.targets| && grid.targets[r.value.1].Some?
  {
    FirstDetection(RuleOf(grid, padded), Seekers(grid.agents), grid.targets, 0)
  }

  /** The inner sweep of `check_target_detection` for one agent. */
  method ScanTargets(rule: Rule, s: Seeker, ts: seq<Option<Box>>, sqrt: real -> real) returns (r: Option<nat>)
    requires IsSqrt(sqrt)
    ensures r == FirstTarget(rule, s, ts, 0)
  {
    var j := 0;
    while j < |ts|
      invariant 0 <= j <= |ts|
      invariant FirstTarget(rule, s, ts, 0) == FirstTarget(rule, s, ts, j)
    {
      if ts[j].Some? {
        var t := ts[j].value;
        var reach := Reach(rule, s, t);
        var d2 := SqDist(s.x, s.y, t.cx, t.cy);
        SqDistNonNeg(s.x, s.y, t.cx, t.cy);
        SqrtBelow(sqrt, d2, reach);
        var distance := sqrt(d2);
        if distance < reach {
          return Some(j);
        }
      }
      j := j + 1;
    }
    return None;
  }

  /** `check_target_detection`: the first agent, in list order, that is
      within reach of a target still present claims it: the slot becomes
      `None`, the target's square is cleared and that agent's count goes up
      by one. At most one target goes per call; with no detection nothing
      changes and the answer is false. */
  method CheckTargetDetection(grid: Grid, padded: bool, sqrt: real -> real) returns (detected: bool)
    requires grid.Valid() && IsSqrt(sqrt)
    modifies grid.cells, grid`targets, grid.agents`targetsFound
    ensures grid.Valid()
    ensures detected <==> old(Detection(grid, padded)).Some?
    ensures old(Detection(grid, padded)).None? ==>
              grid.targets == old(grid.targets) && unchanged(grid.cells)
              && forall k :: 0 <= k < |grid.agents| ==> grid.agents[k].targetsFound == old(grid.agents[k].targetsFound)
    ensures old(Detection(grid, padded)).Some? ==>
              var (i, j) := old(Detection(grid, padded)).value;
              var t := old(grid.targets)[j].value;
              && grid.targets == old(grid.targets)[j := None]
              && grid.agents[i].targetsFound == old(grid.agents[i].targetsFound) + 1
              && (forall k :: 0 <= k < |grid.agents| && k != i ==>
                    grid.agents[k].targetsFound == old(grid.agents[k].targetsFound))
              && forall r, c :: 0 <= r < grid.height && 0 <= c < grid.width ==>
                   grid.cells[r, c] == if grid.Covers(Paint(t.cx, t.cy, t.hw, t.hw, FREE), r, c) then FREE
                                       else old(grid.cells[r, c])
  {
    var rule := RuleOf(grid, padded);
    ghost var ss := Seekers(grid.agents);
    var i := 0;
    while i < |grid.agents|
      invariant 0 <= i <= |grid.agents|
      invariant FirstDetection(rule, ss, grid.targets, 0) == FirstDetection(rule, ss, grid.targets, i)
      invariant unchanged(grid) && unchanged(grid.cells) && unchanged(grid.agents)
    {
      var a := grid.agents[i];
      var j := ScanTargets(rule, Seeker(a.x, a.y, a.radius), grid.targets, sqrt);
      if j.Some? {
        Claim(grid, a, j.value);
        return true;
      }
      i := i + 1;
    }
    return false;
  }

  /** The claim of target slot `j` by agent `a`: the slot becomes `None`,
      the target's square is cleared and agent `a`'s count goes up by one. */
  method Claim(grid: Grid, a: Agent, j: nat)
    requires grid.Shaped() && j < |grid.targets| && grid.targets[j].Some?
    modifies grid.cells, grid`targets, a`targetsFound
    ensures grid.targets == old(grid.targets)[j := None]
    ensures a.targetsFound == old(a.targetsFound) + 1
    ensures var t := old(grid.targets)[j].value;
            forall r, c :: 0 <= r < grid.height && 0 <= c < grid.width ==>
              grid.cells[r, c] == if grid.Covers(Paint(t.cx, t.cy, t.hw, t.hw, FREE), r, c) then FREE
                                  else old(grid.cells[r, c])
  {
    var t := grid.targets[j].value;
    a.targetsFound := a.targetsFound + 1;
    grid.RemoveTarget(t.cx, t.cy, t.hw);
    grid.targets := grid.targets[j := None];
  }

  /** Marking a present target found removes exactly one target from those
      still present. */
  lemma {:induction false} PresentRemove(ts: seq<Option<Box>>, j: nat)
    requires j < |ts| && ts[j].Some?
    ensures |Present(ts[j := None])| == |Present(ts)| - 1
    decreases |ts|
  {
    var n := |ts| - 1;
    if j < n {
      assert ts[j := None][..n] == ts[..n][j := None];
      PresentRemove(ts[..n], j);
    } else {
      assert ts[j := None][..n] == ts[..n];
    }
  }

  /** Agent `a` took the step `(dx, dy)` through `setcoords` when `moved`,
      and is exactly as it was otherwise. */
  twostate predicate Shifted(a: Agent, dx: real, dy: real, moved: bool)
    reads a`x, a`y, a`lastX, a`lastY, a`listX, a`listY
  {
    if moved then
      && a.x == old(a.x) + dx && a.y == old(a.y) + dy
      && a.lastX == old(a.x) && a.lastY == old(a.y)
      && a.listX == old(a.listX) + [a.x] && a.listY == old(a.listY) + [a.y]
    else
      && a.x == old(a.x) && a.y == old(a.y) && a.lastX == old(a.lastX) && a.lastY == old(a.lastY)
      && a.listX == old(a.listX) && a.listY == old(a.listY)
  }

  /** The `move` of the random and exhaustive searches: the displacement is
      committed, through `setcoords`, exactly when the destination circle
      stays in the arena and clear of every obstacle. */
  method MoveClear(agent: Agent, dx: real, dy: real, grid: Grid, sqrt: real -> real) returns (moved: bool)
    requires agent.Valid() && IsSqrt(sqrt)
    modifies agent`x, agent`y, agent`lastX, agent`lastY, agent`listX, agent`listY
    ensures agent.Valid()
    ensures moved <==> !HitsObstacle(grid.width as real, grid.height as real, grid.obstacles,
                                     old(agent.x) + dx, old(agent.y) + dy, agent.radius)
    ensures Shifted(agent, dx, dy, moved)
  {
    var nx := agent.x + dx;
    var ny := agent.y + dy;
    var hit := IsCollision(grid, nx, ny, agent.radius, sqrt);
    if !hit {
      agent.SetCoords(nx, ny);
      return true;
    }
    return false;
  }

  /** The `move` of RDPSO and E2RPSO: the destination must also keep clear of
      every other agent's square. */
  method MoveAmongAgents(agent: Agent, dx: real, dy: real, grid: Grid, sqrt: real -> real) returns (moved: bool)
    requires agent.Valid() && IsSqrt(sqrt)
    modifies agent`x, agent`y, agent`lastX, agent`lastY, agent`listX, agent`listY
    ensures agent.Valid()
    ensures moved <==>
              !HitsObstacle(grid.width as real, grid.height as real, grid.obstacles,
                            old(agent.x) + dx, old(agent.y) + dy, agent.radius)
              && !old(HitsAgent(grid.width as real, grid.height as real, grid.agents, agent,
                                agent.x + dx, agent.y + dy, agent.radius))
    ensures Shifted(agent, dx, dy, moved)
  {
    var nx := agent.x + dx;
    var ny := agent.y + dy;
    var hit := IsCollision(grid, nx, ny, agent.radius, sqrt);
    if !hit {
      hit := IsCollisionAgents(agent, grid, nx, ny, agent.radius, sqrt);
    }
    if !hit {
      agent.SetCoords(nx, ny);
      return true;
    }
    return false;
  }

  /** The found count after each step of an episode: it grows by at most one
      per step, from 0 before the first, and only the last step may reach
      `total`, because the loop stops there. */
  predicate Credited(counts: seq<nat>, total: nat)
  {
    && (forall k :: 0 <= k < |counts| ==> counts[k] <= (if k == 0 then 0 else counts[k - 1]) + 1)
    && (forall k :: 0 < k < |counts| ==> counts[k - 1] <= counts[k])
    && (forall k :: 0 <= k < |counts| - 1 ==> counts[k] < total)
  }

  /** One more step, credited with at most one target, keeps a trace
      `Credited` as long as the trace so far had not reached the total. */
  lemma CreditedSnoc(counts: seq<nat>, c: nat, total: nat)
    requires Credited(counts, total)
    requires counts != [] ==> counts[|counts| - 1] < total
    requires var last := if counts == [] then 0 else counts[|counts| - 1]; last <= c <= last + 1
    ensures Credited(counts + [c], total)
  {
  }

  /** The bookkeeping of a search loop after `|counts|` steps: the trace is
      credited, `found` is its last entry (0 before any step) and `steps` the
      index of the last step run (0 before any step). */
  predicate Tally(counts: seq<nat>, found: nat, steps: nat, total: nat)
  {
    && Credited(counts, total)
    && found == (if counts == [] then 0 else counts[|counts| - 1])
    && steps == (if counts == [] then 0 else |counts| - 1)
  }

  /** Running one more step while targets remain keeps the bookkeeping. */
  lemma TallySnoc(counts: seq<nat>, found: nat, steps: nat, c: nat, total: nat)
    requires Tally(counts, found, steps, total)
    requires counts != [] ==> found < total
    requires found <= c <= found + 1
    ensures Tally(counts + [c], c, |counts|, total)
  {
    CreditedSnoc(counts, c, total);
  }

  /** The end of every step: `pos_change`, then one detection sweep that
      credits at most one target. The count of targets still present drops
      by exactly the credit. */
  method FinishStep(grid: Grid, padded: bool, found: nat, sqrt: real -> real) returns (newFound: nat)
    requires grid.Valid() && IsSqrt(sqrt)
    modifies grid.cells, grid`targets, grid.agents`targetsFound
    ensures grid.Valid()
    ensures newFound == found + (if old(Detection(grid, padded)).Some? then 1 else 0)
    ensures grid.targets == match old(Detection(grid, padded))
                            case Some(h) => old(grid.targets)[h.1 := None]
                            case None => old(grid.targets)
    ensures newFound + |Present(grid.targets)| == found + |Present(old(grid.targets))|
  {
    grid.PosChange();
    var detected := CheckTargetDetection(grid, padded, sqrt);
    newFound := found;
    if detected {
      newFound := found + 1;
      PresentRemove(old(grid.targets), old(Detection(grid, padded)).value.1);
    }
  }

  /** The end of a step of the swarm searches: `FinishStep`, then, unless
      every one of the `total` targets is found, the compaction of the
      target and goal lists. */
  method Conclude(grid: Grid, padded: bool, found: nat, total: nat, goalsX: seq<real>, goalsY: seq<real>,
                  sqrt: real -> real)
    returns (newFound: nat, xs: seq<real>, ys: seq<real>)
    requires grid.Valid() && IsSqrt(sqrt) && GoalsMatch(grid.targets, goalsX, goalsY)
    requires found + |Present(grid.targets)| == total
    modifies grid.cells, grid`targets, grid.agents`targetsFound
    ensures grid.Valid()
    ensures found <= newFound <= found + 1 && newFound + |Present(grid.targets)| == total
    ensures newFound < total ==> (forall t :: t in grid.targets ==> t.Some?) && GoalsMatch(grid.targets, xs, ys)
  {
    newFound := FinishStep(grid, padded, found, sqrt);
    xs, ys := goalsX, goalsY;
    if newFound < total {
      xs, ys := DropFound(grid, goalsX, goalsY);
    }
  }

  /** The rows the comprehension of the compaction step keeps: `zip` of the
      three lists, cut at the shortest, without the slots already found. */
  function Kept(ts: seq<Option<Box>>, xs: seq<real>, ys: seq<real>): seq<(Box, real, real)>
    decreases |ts|
  {
    if ts == [] || xs == [] || ys == [] then []
    else (if ts[0].Some? then [(ts[0].value, xs[0], ys[0])] else []) + Kept(ts[1..], xs[1..], ys[1..])
  }

  /** The compaction after a step in which not every target is found:
      `zip(*rows)` unpacked into three lists, which raises `ValueError` (here
      `None`) when no row is left. */
  function Compact(ts: seq<Option<Box>>, xs: seq<real>, ys: seq<real>)
    : Option<(seq<Option<Box>>, seq<real>, seq<real>)>
  {
    var rows := Kept(ts, xs, ys);
    if rows == [] then None
    else Some((seq(|rows|, k requires 0 <= k < |rows| => Some(rows[k].0)),
               seq(|rows|, k requires 0 <= k < |rows| => rows[k].1),
               seq(|rows|, k requires 0 <= k < |rows| => rows[k].2)))
  }

  /** A target list with no found slot has every target present. */
  lemma {:induction false} PresentAllSome(ts: seq<Option<Box>>)
    requires forall t :: t in ts ==> t.Some?
    ensures |Present(ts)| == |ts|
    decreases |ts|
  {
    if ts != [] {
      var q := ts[..|ts| - 1];
      assert forall t :: t in q ==> t in ts;
      assert ts[|ts| - 1] in ts;
      PresentAllSome(q);
    }
  }

  /** The goal lists hold, slot by slot, the centre of every target still
      present. */
  predicate GoalsMatch(ts: seq<Option<Box>>, xs: seq<real>, ys: seq<real>)
  {
    |xs| == |ts| && |ys| == |ts|
    && forall k :: 0 <= k < |ts| && ts[k].Some? ==> xs[k] == ts[k].value.cx && ys[k] == ts[k].value.cy
  }

  /** On matching lists the kept rows are the present targets, in order,
      each with its own centre. */
  lemma {:induction false} KeptPresent(ts: seq<Option<Box>>, xs: seq<real>, ys: seq<real>)
    requires GoalsMatch(ts, xs, ys)
    ensures |Kept(ts, xs, ys)| == |Present(ts)|
    ensures forall k :: 0 <= k < |Present(ts)| ==>
              Kept(ts, xs, ys)[k] == (Present(ts)[k], Present(ts)[k].cx, Present(ts)[k].cy)
    decreases |ts|
  {
    if ts != [] {
      KeptPresent(ts[1..], xs[1..], ys[1..]);
      PresentCons(ts);
    }
  }

  /** `Present` splits off the head of the list. */
  lemma {:induction false} PresentCons(ts: seq<Option<Box>>)
    requires ts != []
    ensures Present(ts) == (if ts[0].Some? then [ts[0].value] else []) + Present(ts[1..])
    decreases |ts|
  {
    var n := |ts| - 1;
    if n > 0 {
      PresentCons(ts[..n]);
      assert ts[..n][1..] == ts[1..][..n - 1];
      assert ts[1..][n - 1] == ts[n];
    }
  }

  /** After compaction the target list holds exactly the targets still
      present, in their order and none of them found, and the goal lists are
      their centres; compaction fails exactly when no target is left. */
  lemma CompactAligned(ts: seq<Option<Box>>, xs: seq<real>, ys: seq<real>)
    requires GoalsMatch(ts, xs, ys)
    ensures Compact(ts, xs, ys).None? <==> Present(ts) == []
    ensures match Compact(ts, xs, ys)
      case Some(r) =>
        && r.0 == SomeAll(Present(r.0)) && Present(r.0) == Present(ts)
        && GoalsMatch(r.0, r.1, r.2)
        && r.1 == TargetXs(r.0) && r.2 == TargetYs(r.0)
      case None => true
  {
    KeptPresent(ts, xs, ys);
    match Compact(ts, xs, ys)
    case Some(r) =>
      assert r.0 == SomeAll(Present(ts));
      PresentSomeAll(Present(ts));
    case None =>
  }

  /** The goal lists read off a list of present targets match it. */
  lemma GoalsOfTargets(ts: seq<Option<Box>>)
    requires forall t :: t in ts ==> t.Some?
    ensures GoalsMatch(ts, TargetXs(ts), TargetYs(ts))
  {
  }

  /** The compaction after a step that left targets: the `zip(*...)` over
      the targets and goal lists, keeping the rows whose target is not
      found. Every target left is present, in the same order, and the goal
      lists still match them. */
  method DropFound(grid: Grid, goalsX: seq<real>, goalsY: seq<real>) returns (xs: seq<real>, ys: seq<real>)
    requires GoalsMatch(grid.targets, goalsX, goalsY) && Present(grid.targets) != []
    modifies grid`targets
    ensures (forall t :: t in grid.targets ==> t.Some?) && GoalsMatch(grid.targets, xs, ys)
    ensures Present(grid.targets) == old(Present(grid.targets))
  {
    CompactAligned(grid.targets, goalsX, goalsY);
    var kept := Compact(grid.targets, goalsX, goalsY).value;
    grid.targets, xs, ys := kept.0, kept.1, kept.2;
  }

  /** The annealed inertia weight `w_upper - (steps / max_steps) * (w_upper -
      w_lower)` of RDPSO and dPSO, with `w_upper = 0.9` and `w_lower = 0.4`. */
  function Inertia(steps: nat, maxSteps: nat): real
    requires steps < maxSteps
  {
    0.9 - (steps as real / maxSteps as real) * (0.9 - 0.4)
  }

  /** Within the step budget the weight lies in (0.4, 0.9], starting at 0.9,
      and it never grows from one step to a later one. */
  lemma InertiaAnnealed(s1: nat, s2: nat, maxSteps: nat)
    requires s1 <= s2 < maxSteps
    ensures 0.4 < Inertia(s2, maxSteps) <= Inertia(s1, maxSteps) <= 0.9
    ensures Inertia(0, maxSteps) == 0.9
  {
    var m := maxSteps as real;
    var a, b := s1 as real / m, s2 as real / m;
    assert a * m == s1 as real;
    assert b * m == s2 as real;
    assert (b - a) * m == (s2 - s1) as real;
    assert (1.0 - b) * m == (maxSteps - s2) as real;
    NonNegFactor(a, m);
    NonNegFactor(b - a, m);
    PosFactor(1.0 - b, m);
  }
}
