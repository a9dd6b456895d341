# NaCo PSO Search, modelled in Dafny

A model of a 2-D multi-agent search simulator. Square agents move in a
square arena that holds rectangular obstacles and square targets. The
arena is also kept as an integer occupancy matrix: 0 is free, 1 an
obstacle, 2 an agent, 3 a target and 4 the safe space. The agents look
for the targets. When an agent's detection circle reaches a target, the
target is removed and credited to that agent.

The model covers the arena (`Continuous_grid.py`) and the search
strategies that drive the agents:

- random search;
- exhaustive zig-zag search over a grid of regions;
- RDPSO, particle swarm optimisation with fugitive agents;
- E2RPSO, the same with an energy and exploration term, current and old
  versions;
- dPSO, where every agent flies a swarm of virtual particles and follows
  the best of them, current and old versions.

The shared helpers are modelled once:

- fitness and the personal and global best;
- the velocity clamp and the unit direction vectors;
- the circle-against-rectangle collision tests and the obstacle-avoidance
  search over headings and speeds;
- target detection, the compaction of the target and goal lists, and the
  inertia schedule.

The model is organised as follows:

- `Grid` and `Agent` are classes, because the source updates them in
  place. The occupancy matrix is an `array2<int>`, and the agent, obstacle
  and target lists are `seq` fields.
- The strategies are methods with loops that mirror the source's loops.
  Each is proved against specification functions: first-hit searches,
  the best after an update, the paints applied to the matrix, and the
  per-step count of targets found.
- Randomness comes in as sequences of draws in `[0, 1)`, called `Unit`,
  with `random.uniform(a, b) = a + (b - a) * u`.
- `math.sqrt` is a parameter constrained to be the square root on
  non-negative reals. `cos`, `sin`, `atan2` and `radians` are an
  unconstrained parameter, constrained to `cos^2 + sin^2 = 1` where a
  speed bound needs it.
- `float('inf')` is the `Ext` datatype.
- `Old_versions/Random_search.py` differs from `Random_search.py` only in
  its docstrings and comments, so the `RandomSearch` module models both.
- Python run-time errors that are reachable with the driver's parameters
  (`Old_versions/main.py`: 1000 steps, step size 2, detection radius 3)
  are explicit outcomes: a `ZeroDivisionError`, an out-of-range index,
  and `zip(*[])` on an empty list. The errors that only other parameters
  reach are listed under "Left out".

## Model

| member | source | states |
|---|---|---|
| Numerics.MinExt | Old_versions/dPSO.py:44 | Python's `min` of an extended and a finite value is below both and is one of them |
| Numerics.Floor | Old_versions/E2RPSO.py:198-199 | floor division of a float, `int(x // 5)`: the largest integer not above the quotient |
| Numerics.Ceil | Continuous_grid.py:87-90 | `math.ceil`: the least integer not below the argument |
| Numerics.Trunc | Continuous_grid.py:102-103 | `int(x)` on a float truncates toward zero: below x by less than one for x >= 0, above it by less than one for x < 0 |
| Numerics.PyIndex | Old_versions/E2RPSO.py:196-201 | a Python list index succeeds exactly for -n <= i < n, and a negative index counts from the end; otherwise it is an IndexError |
| Numerics.SqrtBelow | RDPSO_util.py:132-135 | the source's test `sqrt(d2) < r` holds exactly when r > 0 and d2 < r*r |
| Numerics.Uniform | RDPSO_util.py:224-225 | `random.uniform(a, b)` lies between its two bounds, in whichever order they are given |
| Geometry.Clamp | RDPSO_util.py:128-129 | `max(lo, min(v, hi))` lies in [lo, hi], and it equals v exactly when v is already inside |
| Geometry.ClampClosest | RDPSO_util.py:127-129 | the clamped point is at least as close to v as any point of [lo, hi] |
| Geometry.CircleHitsBoxIff | RDPSO_util.py:125-136 | the closest-point test reports a hit exactly when some point of the closed rectangle lies strictly within the radius |
| Geometry.OverlapIff | Continuous_grid.py:249-259 | the centre-distance test of `check_overlap` holds exactly when the two open rectangles share a point |
| Collision.Near | RDPSO_util.py:127-136 | the closest-point distance test, with `sqrt` supplied, is the circle-hits-rectangle relation |
| Collision.IsCollision | RDPSO_util.py:109-138 | `is_collision` is true exactly when the circle leaves the arena or touches some obstacle |
| Collision.IsCollisionAgents | RDPSO_util.py:140-175 | `is_collision_agents` is true exactly when the circle leaves the arena or touches the square of an agent other than `self` |
| Collision.IsCollisionParticles | dPSO_util.py:104-127 | `is_collision_particles` is true exactly when the circle leaves the arena or comes within the radius of a particle other than `self` |
| Collision.ParticleHitIsDistance | dPSO_util.py:114-121 | against a particle, which is a point, the clamped test is a plain distance test |
| ContinuousGrid.Agent.constructor | Continuous_grid.py:290-312 | a new agent stands at its position with velocity components drawn in [-5, 5], a one-point trajectory, infinite bests and no target found |
| ContinuousGrid.Agent.SetCoords | Continuous_grid.py:314-326 | the old position becomes the last one, and the new position is appended to both trajectory lists |
| ContinuousGrid.Agent.SetVelocity | Continuous_grid.py:328-337 | only the velocity changes |
| ContinuousGrid.SliceIndex | Continuous_grid.py:92 | a numpy slice bound is clipped to the axis, and a negative bound counts from the end |
| ContinuousGrid.StartPositionsDistinct | Continuous_grid.py:206-208 | agents of positive size get pairwise different start positions |
| ContinuousGrid.TotalDistanceNonNeg | Continuous_grid.py:273-283 | the total distance covered is never negative |
| ContinuousGrid.PathLengthExtend | Continuous_grid.py:279-283 | a one-point trajectory has length 0, and appending a point adds exactly the length of the new segment |
| ContinuousGrid.PresentSomeAll | Continuous_grid.py:175-179 | a list of predefined targets, all present, reads back as the same list |
| ContinuousGrid.AdjacentBox | Continuous_grid.py:143-157 | a neighbour touches its parent's side along the chosen axis; when the second sign draw is below 0.5 its vertical offset equals the horizontal one, because line 154 copies `offset_x` |
| ContinuousGrid.Grid.CoversRectangle | Continuous_grid.py:87-92 | without negative upper bounds, the slice `set_grid` writes is exactly the clipped rectangle of cells between the ceilings of the edges |
| ContinuousGrid.Grid.CellAfterIdempotent | Continuous_grid.py:215-220 | painting the same sequence of rectangles twice gives what painting it once gives |
| ContinuousGrid.Grid.CellAfterUncovered | Continuous_grid.py:77-92 | a cell that no paint covers keeps its prior value |
| ContinuousGrid.Grid.CellAfterLastCover | Continuous_grid.py:77-92 | once some paint covers a cell, its final value no longer depends on its prior value |
| ContinuousGrid.Grid.SetGrid | Continuous_grid.py:77-92 | the cells of the slice take the value, and every other cell keeps its value |
| ContinuousGrid.Grid.PaintAll | Continuous_grid.py:122-126 | the rectangles are painted one after another, in list order |
| ContinuousGrid.Grid.PosChange | Continuous_grid.py:215-220 | for each agent in turn, the last square is cleared to 0 and then the current square is painted 2 |
| ContinuousGrid.Grid.PosChangeIdempotent | Continuous_grid.py:215-220 | a second `pos_change` with no move in between leaves the matrix unchanged |
| ContinuousGrid.Grid.RemoveTarget | Continuous_grid.py:263-271 | the target's square is cleared to 0, and every other cell is unchanged |
| ContinuousGrid.Grid.CheckOverlap | Continuous_grid.py:223-261 | true exactly when some object in the list overlaps the rectangle, and false for an empty list |
| ContinuousGrid.Grid.TotalDistanceCovered | Continuous_grid.py:273-283 | the sum over all agents of the lengths of the segments of their trajectories |
| ContinuousGrid.Grid.constructor | Continuous_grid.py:10-66 | the arena is a side-by-side zero matrix. The safe space, the agents at their start positions, the obstacles and the targets are painted on it in that order. Given obstacles and targets are stored as given; random ones satisfy the placement checks |
| ContinuousGrid.Grid.Populate | Continuous_grid.py:42-66 | obstacles, then targets, each either given or drawn, painted on top of what is already there |
| ContinuousGrid.Grid.InitializeAgents | Continuous_grid.py:203-213 | agent i is a new agent at start position i, with its square painted 2 |
| ContinuousGrid.Grid.SetObstacles | Continuous_grid.py:122-126 | predefined obstacles are stored and painted 1 |
| ContinuousGrid.Grid.SetTargets | Continuous_grid.py:175-179 | predefined targets are stored, all present, and painted 3 |
| ContinuousGrid.Grid.ObstacleCheck | Continuous_grid.py:109-111 | an obstacle is accepted exactly when it overlaps no earlier obstacle, no agent and not the safe space |
| ContinuousGrid.Grid.TryPlaceObstacle | Continuous_grid.py:109-117 | an accepted obstacle is appended and painted 1; a rejected one changes nothing |
| ContinuousGrid.Grid.InitializeObstacles | Continuous_grid.py:96-120 | every obstacle placed clears the earlier obstacles, the agents and the safe space, and all of them are painted 1; it stops short of the count only when the draws run out |
| ContinuousGrid.Grid.DrawObstacle | Continuous_grid.py:101-120 | integer half sizes and a centre are drawn; an obstacle is placed exactly when the list grows, and earlier obstacles are kept |
| ContinuousGrid.Grid.PlaceAdjacentObstacles | Continuous_grid.py:128-173 | at most 10 attempts; every neighbour added lies inside the arena and passes the checks; earlier obstacles are kept |
| ContinuousGrid.Grid.TryAdjacent | Continuous_grid.py:141-173 | one attempt: a neighbour inside the arena that passes the checks is placed and grows neighbours of its own |
| ContinuousGrid.Grid.TargetCheck | Continuous_grid.py:191-194 | a target is accepted exactly when it overlaps no obstacle, no agent, no earlier target and not the safe space |
| ContinuousGrid.Grid.TryPlaceTarget | Continuous_grid.py:187-201 | an accepted target is appended as a square of the target half size and painted 3; a rejected one changes nothing |
| ContinuousGrid.Grid.InitializeTargets | Continuous_grid.py:181-201 | every target placed passes the checks against everything placed before it, and all of them are painted 3; it stops short of the count only when the draws run out |
| SwarmUtil.FitnessZeroIff | RDPSO_util.py:8-23 | the fitness, the fourth root of the distance, is never negative, and it is zero exactly at the goal |
| SwarmUtil.FitnessFourthRoot | RDPSO_util.py:20-23 | the fitness raised to the fourth power is the distance to the goal |
| SwarmUtil.FitnessSumZeroIff | RDPSO_util.py:47-49 | the summed fitness is never negative, and it is zero exactly when every goal lies at the position |
| SwarmUtil.SumFitness | RDPSO_util.py:46-49 | the loop computes the summed fitness over all goals |
| SwarmUtil.BestsAfter | RDPSO_util.py:51-58 | neither best grows; each becomes the minimum of itself and the fitness; on a tie or an improvement the personal position moves to the agent, and the global position follows it |
| SwarmUtil.BestsAfterImproving | RDPSO_util.py:51-58 | a fitness at or below both bests makes both of them that fitness at the agent's position |
| SwarmUtil.UpdateGbestPbest | RDPSO_util.py:26-60 | the agent's personal best and the returned global best are those `BestsAfter` gives for the summed fitness at the agent's position |
| SwarmUtil.LimitMaxVelocity | RDPSO_util.py:63-80 | a velocity within half the limit in both components is returned as it is; the rescale fails (ZeroDivisionError) exactly for a zero velocity that exceeds half of a negative limit |
| SwarmUtil.LimitRescales | RDPSO_util.py:75-79 | a rescaled velocity has length exactly the limit, lies on the line of the original and, for a non-negative limit, points the same way |
| SwarmUtil.LimitBounded | RDPSO_util.py:63-80 | under a non-negative limit the clamp never fails, and its result is never longer than the limit |
| SwarmUtil.UnitSpeed | RDPSO_util.py:82-107 | the two returned vectors point toward the personal and the global best; each is of unit length, or zero at the best itself |
| SwarmUtil.NormalizeUnit | RDPSO_util.py:99-102 | normalising an offset yields its direction |
| SwarmUtil.Angle | RDPSO_util.py:192-193 | the heading offsets are tried in the order 10, -10, 20, ..., 180, -180 degrees |
| SwarmUtil.Fraction | RDPSO_util.py:195 | the speed fractions are tried from 1.0 down to 0.2 |
| SwarmUtil.CandidateSpeed | RDPSO_util.py:195-199 | every candidate velocity has its fraction of the limit as its speed, so none is faster than the limit |
| SwarmUtil.SceneFree | RDPSO_util.py:204 | a candidate is free exactly when neither `is_collision` nor `is_collision_agents` reports a hit |
| SwarmUtil.FirstFreeIsFirst | RDPSO_util.py:195-206 | the search returns a free candidate before which every candidate, speed by speed and heading by heading, is blocked; it returns none exactly when all are blocked |
| SwarmUtil.TryHeadings | RDPSO_util.py:196-205 | the inner loop finds the first free heading at one speed, or reports that the search goes on at the next speed |
| SwarmUtil.AvoidObstacle | RDPSO_util.py:178-206 | the result is the first free candidate, or the agent's own position with zero velocity when every candidate is blocked |
| SwarmUtil.TargetXs | RDPSO_util.py:227-231 | the goal x list holds the targets' x coordinates, in target order |
| SwarmUtil.GoalLists | RDPSO_util.py:227-231 | the goal lists are the targets' coordinates, in target order |
| SwarmUtil.GlobalFromIsLeast | RDPSO_util.py:233-250 | the initial global best is at most 200000 and at most every improving agent's fitness; it is either the initial value at (0, 0) or the fitness and position of an improving agent |
| SwarmUtil.InitialVelocities | RDPSO_util.py:224-225 | agent i gets `Vx` drawn in [0, step] and `Vy` drawn in [-step, step] |
| SwarmUtil.TakeInitialPbest | RDPSO_util.py:243-246 | the personal best is taken only when the fitness is strictly below it |
| SwarmUtil.InitialBests | RDPSO_util.py:237-250 | every agent's personal best follows the strict-improvement rule, and the global best is the least improving fitness, the first one among equals |
| SwarmUtil.InitSwarm | RDPSO_util.py:208-253 | `init_RDPSO` and `init_dPSO`: the initial velocities, the goal lists in target order, each agent's initial personal best and the resulting global best |
| SearchStep.FirstTargetIsFirst | RDPSO.py:25-39 | the target found for one agent is present and detected, and no earlier slot is; none is found exactly when the agent detects no target |
| SearchStep.FirstDetectionIsFirst | RDPSO.py:24-41 | the pair chosen is the first detecting pair, agents in list order and each agent's targets in list order; none is chosen exactly when no agent detects any target |
| SearchStep.ScanTargets | RDPSO.py:25-39 | the inner loop returns the first target the agent detects |
| SearchStep.CheckTargetDetection | RDPSO.py:22-41 | true exactly when some agent detects a present target. The first such pair is then credited: the slot becomes `None`, the target's square is cleared, and only that agent's count goes up by one. On false nothing changes |
| SearchStep.Claim | RDPSO.py:36-38 | the claimed slot becomes `None`, the square is cleared and the finder's count goes up by one |
| SearchStep.PresentRemove | RDPSO.py:38 | marking a present target found removes exactly one target from those still present |
| SearchStep.MoveClear | Random_search.py:65-87 | the agent moves exactly when the destination keeps clear of the arena's edges and every obstacle; otherwise it stays where it was |
| SearchStep.MoveAmongAgents | RDPSO.py:43-54 | the agent moves exactly when the destination also keeps clear of every other agent's square |
| SearchStep.FinishStep | RDPSO.py:128-130 | after repainting, the found count goes up by one exactly when a target was detected, and that target leaves the present ones |
| SearchStep.Conclude | RDPSO.py:128-142 | the found count grows by at most one, the found and present targets always add up to the total, and while targets remain the lists are compacted with the goal lists kept aligned |
| SearchStep.PresentAllSome | RDPSO.py:57 | with no slot found, every target is present |
| SearchStep.KeptPresent | RDPSO.py:139 | the rows the comprehension keeps are the present targets, in order, each with its own coordinates |
| SearchStep.CompactAligned | RDPSO.py:139-142 | `zip(*...)` fails exactly when no target is left; otherwise the compacted lists hold the present targets in order, and the goal lists are their coordinates |
| SearchStep.DropFound | RDPSO.py:139-142 | after compaction every slot holds a target, the present targets are unchanged, and the goal lists match them |
| SearchStep.InertiaAnnealed | RDPSO.py:71-77 | within the step budget the inertia weight starts at 0.9, stays in (0.4, 0.9] and never grows from one step to a later one |
| RandomSearch.Move | Random_search.py:65-87 | one attempt in a heading drawn from [0, 2 pi): the agent takes the step exactly when it is collision-free, and otherwise stays |
| RandomSearch.MoveAll | Random_search.py:110-114 | every agent makes its one attempt, in list order, with its own draw |
| RandomSearch.Step | Random_search.py:108-120 | at most one target is found per step, and found plus present targets are conserved; every agent takes its heading's step through `setcoords` exactly when the destination is free, and otherwise keeps its position and trajectory |
| RandomSearch.Search | Random_search.py:89-134 | the per-step found counts never drop and grow by at most one; the loop runs all steps unless every target is found; the returned distance is the agents' total path length and is not negative |
| RDPSO.Largest | RDPSO.py:81 | the next fugitive has the largest personal best among the unflagged agents, and the lowest index among equals |
| RDPSO.Fugitives | RDPSO.py:80-86 | exactly k agents are flagged, and every flagged agent comes before every unflagged one in the descending order of personal best |
| RDPSO.FugitivesUnique | RDPSO.py:81 | two flag lists with the same count that both respect that order are equal, so the flags are the prefix of the stable descending sort |
| RDPSO.VelocityForms | RDPSO.py:98-104 | a fugitive keeps the sign of its damped inertia and at most doubles it; a non-fugitive with zero pulls keeps exactly its damped inertia |
| RDPSO.ScatterBounds | RDPSO.py:103-104 | `(1 + uniform(-1, 1)) * c` keeps the sign of c and at most doubles it |
| RDPSO.AvoidedSpeed | RDPSO.py:113 | the velocity `avoidObstacle` returns is never faster than the limit |
| RDPSO.Limited | RDPSO.py:107-109 | under a non-negative limit the clamp cannot fail, and the result is never faster than the limit |
| RDPSO.Relocate | RDPSO.py:112-116 | a clear move is taken with the aimed velocity; otherwise the agent jumps to the avoidance candidate and takes its velocity |
| RDPSO.AgentStep | RDPSO.py:91-126 | one agent's turn: it moves or avoids, one point is added to its trajectory, and the bests are updated by `BestsAfter` at the new position |
| RDPSO.PassAgent | RDPSO.py:89-126 | after an agent's turn the global best has not grown |
| RDPSO.MoveSwarm | RDPSO.py:89-126 | every agent adds exactly one point to its trajectory, and the global best never grows |
| RDPSO.Step | RDPSO.py:75-142 | the global best never grows; the found count grows by at most one; found and present targets add up to the total; while targets remain, the lists stay aligned |
| RDPSO.ChooseFugitives | RDPSO.py:80-86 | `int(n / 3)` agents are flagged, in the order of the stable descending sort by personal best |
| RDPSO.Initialise | RDPSO.py:63 | after `init_RDPSO` the goal lists match the targets and the global best is a finite number |
| RDPSO.Run | RDPSO.py:75-142 | the per-step found counts never drop and grow by at most one; the loop runs all steps unless every target is found; found and present targets add up to the total |
| RDPSO.Search | RDPSO.py:56-148 | the same for the whole search, and the returned distance is the agents' total path length and is not negative |
| E2RPSOUtilOld.DetectOb | Old_versions/E2RPSO_util.py:19-33 | 1 exactly when one of the robot's two probe corners lies in the obstacle's rectangle, with its edges rounded up by `ceil` and grown by the radius; 0 otherwise |
| E2RPSOUtilOld.DetectObSelf | Old_versions/E2RPSO_util.py:50-64 | 1 exactly when the point lies in the other robot's square, rounded up and grown by the radius; 0 otherwise |
| E2RPSOUtilOld.SensingCovers | Old_versions/E2RPSO_util.py:19-64 | a probe point inside the rectangle is always sensed, and a larger margin senses at least as much |
| E2RPSOUtilOld.DistanceZeroIff | Old_versions/E2RPSO_util.py:81-84 | the old fitness, a plain distance, is never negative and is zero exactly at the goal |
| E2RPSOUtilOld.DistanceSumZeroIff | Old_versions/E2RPSO_util.py:91-94 | the summed distance is never negative, and it is zero exactly when every goal lies at the position |
| E2RPSOUtilOld.SumDistances | Old_versions/E2RPSO_util.py:91-94 | the loop computes the summed distance over all goals |
| E2RPSOUtilOld.RunningAvgBetween | Old_versions/E2RPSO_util.py:99 | the running average lies between the old average and the new value |
| E2RPSOUtilOld.RecordAfterMin | Old_versions/E2RPSO_util.py:96-105 | neither best grows. On a tie or an improvement the previous personal best is kept as `pbest_p`, the average moves toward the new value and the personal position moves to the robot. Otherwise the personal part is untouched. The global position follows the personal one when the global best is matched or beaten |
| E2RPSOUtilOld.UpdateBests | Old_versions/E2RPSO_util.py:87-114 | the robot's record and the returned global best are those `RecordAfter` gives for the summed distance at `agent`'s position |
| E2RPSOUtilOld.Heading | Old_versions/E2RPSO_util.py:157-162 | `v / abs(v)` is the sign of a non-zero component, and a zero component gives 1 |
| E2RPSOUtilOld.ProbeOffsets | Old_versions/E2RPSO_util.py:164-175 | every one of the eight probe points lies 0 or 3 away from the robot along each axis |
| E2RPSOUtilOld.FirstOpenIsFirst | Old_versions/E2RPSO_util.py:170-192 | the probe chosen is open and every earlier probe is blocked; none is chosen exactly when all are blocked |
| E2RPSOUtilOld.AvoidanceSteps | Old_versions/E2RPSO_util.py:141-197 | `ob` is 1 exactly when an obstacle or another robot is sensed. Without that the point is the robot's own position; with it the point is the first probe that senses nothing, or the robot's own position when every probe senses something |
| E2RPSOUtilOld.Sense | Old_versions/E2RPSO_util.py:145-154 | the sensing pass reports a hit exactly when some obstacle, or some robot other than number i, is sensed |
| E2RPSOUtilOld.AvoidObstacle | Old_versions/E2RPSO_util.py:141-197 | the result is the avoidance decision for the robot's position, size, radius and velocity |
| E2RPSOUtilOld.FarthestUnique | Old_versions/E2RPSO_util.py:208-215 | the strict `>` scan determines one cell: two cells that meet its characterisation coincide |
| E2RPSOUtilOld.FindFarthest | Old_versions/E2RPSO_util.py:201-216 | the robot's area number, and the cell with the largest credit-times-distance product, the first one among equals |
| E2RPSOUtilOld.FirstHitIsFirst | Old_versions/E2RPSO_util.py:224-233 | the goal removed is the first one with a hit |
| E2RPSOUtilOld.Drop | Old_versions/E2RPSO_util.py:227-229 | `del s[k]` removes exactly the element at k and shifts the rest down |
| E2RPSOUtilOld.JudgedDropsOne | Old_versions/E2RPSO_util.py:219-234 | the three lists stay the same length; one goal is dropped exactly when some goal has a hit, and none otherwise; the global best is reset to 100000 only when a goal is dropped; each hit count grows by at most one |
| E2RPSOUtilOld.CountHits | Old_versions/E2RPSO_util.py:221-223 | every goal within reach of the robot gains exactly one hit |
| E2RPSOUtilOld.JudgeAllGoalReached | Old_versions/E2RPSO_util.py:219-234 | the hits are counted, and then the first goal with a hit is dropped from all three lists; its square is cleared to 0 in the matrix, and every other cell keeps its value |
| E2RPSOUtilOld.MeanBetween | Old_versions/E2RPSO_util.py:237-243 | the mean of finite personal bests lies between their bounds, and one infinite personal best makes it infinite |
| E2RPSOUtilOld.UpdateBestAvg | Old_versions/E2RPSO_util.py:237-243 | the mean of the agents' personal bests; the source divides by zero for an empty agent list |
| E2RPSOUtilOld.WeightRange | Old_versions/E2RPSO.py:117-118 | between non-negative bests both ratios lie in [0, 1], so a defined inertia weight lies in [0.4, 1.9] |
| E2RPSOUtilOld.SeedAgent | Old_versions/E2RPSO_util.py:280-285 | an agent strictly improved by the summed distance takes it as all three bests and its position as the personal position; otherwise it is unchanged |
| E2RPSOUtilOld.CreditTable | Old_versions/E2RPSO_util.py:246-251 | the exploration table has 200 * 200 cells followed by `int(width / 20) * int(height / 20)` more, each holding credit 100 |
| E2RPSOUtilOld.InitE2RPSO | Old_versions/E2RPSO_util.py:245-292 | the credit table, zero hit counts for each target, the goal lists in target order, the last target's half size, and every agent seeded by the strict-improvement rule |
| E2RPSOOld.Restored | Old_versions/E2RPSO.py:102-104 | every tenth iteration restores `(c1, c2)` to `(C1, C2)`; otherwise they carry over |
| E2RPSOOld.Coefficients | Old_versions/E2RPSO.py:141-156 | credit below -100 zeroes `c1` and `c2`. Without a sensed obstacle `c3` is 0 from credit -100 up, `C3` below it and `10 * C3` below -800. A sensed obstacle sets `c3` to `C3` |
| E2RPSOOld.PullGrowsAsCreditFalls | Old_versions/E2RPSO.py:141-149 | without a sensed obstacle, less credit left never weakens the pull `c3` |
| E2RPSOOld.ZeroedUntilRestored | Old_versions/E2RPSO.py:102-149 | once zeroed, `c1` and `c2` stay zero until the next restoring iteration |
| E2RPSOOld.FarCorner | Old_versions/E2RPSO.py:151-152 | the point the robot is drawn to lies on the 50-unit lattice, and distinct far cells give distinct points |
| E2RPSOOld.TruncRow | Old_versions/E2RPSO.py:152 | `int(far / 20 + 1)` with true division is the row after far's |
| E2RPSOOld.SpentCellIgnoresBests | Old_versions/E2RPSO.py:141-169 | a robot whose cell credit is below -100 ignores both bests: its velocity does not depend on the unit vectors toward them |
| E2RPSOOld.Spend | Old_versions/E2RPSO.py:135-139 | the robot's area and the farthest, least explored cell are found, and the table is as before except that this cell has lost `K` credits |
| E2RPSOOld.Aim | Old_versions/E2RPSO.py:141-171 | the coefficients come from the credit and the avoidance decision; the velocity is the E2RPSO pull toward both bests and the avoidance or far point, clamped to the limit |
| E2RPSOOld.Bounce | Old_versions/E2RPSO.py:179-190 | a robot that would leave the 100-wide arena is put back where it was with its velocity reversed; otherwise it takes the step; the speed is unchanged either way |
| E2RPSOOld.Move | Old_versions/E2RPSO.py:178-190 | the robot's position and velocity are those `Bounce` gives, while the trajectory records the point before the bounce |
| E2RPSOOld.CellIndex | Old_versions/E2RPSO.py:196-200 | inside the arena the column and the row of the 5-unit cell are recovered from the index |
| E2RPSOOld.Settle | Old_versions/E2RPSO.py:192-195 | `pos_change` repaints the robots, and the bests follow `RecordAfter` for the summed distance at the robot's point |
| E2RPSOOld.Mark | Old_versions/E2RPSO.py:196-203 | a valid cell index loses one credit and the robot's position is recorded again; an index out of range is the IndexError, and then nothing changes |
| E2RPSOOld.TableReadsSucceed | Old_versions/E2RPSO.py:142-201 | for a robot anywhere in [0, 200] on both axes, both reads of the credit table are in range |
| E2RPSOOld.BounceStaysInArena | Old_versions/E2RPSO.py:179-190 | a turn that starts in [0, 200] on both axes ends there |
| E2RPSOOld.Turn | Old_versions/E2RPSO.py:100-203 | a robot's turn: the goal check drops at most one goal, and the search ends exactly when no goal is left. With no goal left the search ends with the robot, the credit table, the matrix and the global best unchanged. A weight with no value crashes the turn before the goal check, with nothing changed. Otherwise the outcome is `Played` for the restored pair: when no goal is left after the check, the robot and the credit table are unchanged, the global best is the judged one and the matrix only has the reached goal's square cleared; else the farthest, least explored cell has lost `K` credits; an area cell out of range crashes the turn with the robot unchanged; in range, the pair and the velocity are those the cell's remaining credit, the avoidance decision and the restored pair give, the robot is where `Bounce` puts it, its bests follow `RecordAfter` after the judged global best, and its new cell has lost one credit. The turn crashes exactly in these three cases: no weight, an area cell out of range, or a new cell out of range |
| E2RPSOOld.Play | Old_versions/E2RPSO.py:121-203 | a turn once the weight is known: the judged goal lists are returned, the search ends exactly when none is left (the robot and the credit table unchanged, the global best the judged one, the reached goal's square cleared), and the outcome is `Played`, as `Turn` states it; the turn crashes exactly when goals are left and the area cell or the new cell is out of range |
| E2RPSOOld.Judge | Old_versions/E2RPSO.py:122 | the goal lists and the global best `judge_allGoalReached` returns: the goal first reached is dropped and the best is reset when one was reached; the matrix has that goal's square cleared to 0 and every other cell kept |
| E2RPSOOld.Act | Old_versions/E2RPSO.py:134-203 | the far cell loses `K` credits; a robot whose area cell is out of range crashes with the robot and the matrix unchanged; otherwise it aims from the credit left in that cell and moves and settles as `Settled` says |
| E2RPSOOld.Steer | Old_versions/E2RPSO.py:141-203 | the pair and the velocity are those `Aimed` gives for the cell's credit; the robot then moves by that velocity and settles as `Settled` says |
| E2RPSOOld.Advance | Old_versions/E2RPSO.py:178-203 | the robot moves by the velocity and bounces at the edge of the map, its bests follow `RecordAfter` at the new point, and the credit of its new cell drops by one unless the index is out of range, which crashes the turn |
| E2RPSOOld.TakeTurn | Old_versions/E2RPSO.py:100-203 | the sweep's view of a turn: the pair stays standard, at most one goal is dropped, and the search ends exactly when none is left |
| E2RPSOOld.Sweep | Old_versions/E2RPSO.py:99-205 | one iteration over all robots: the goal lists never grow and stay aligned, and the coefficient pair stays one of the standard ones |
| E2RPSOOld.Run | Old_versions/E2RPSO.py:83-207 | at most `T` iterations, at least one when `T` is positive; unless something crashed, stopping early means every goal was found |
| E2RPSOOld.Found | Old_versions/E2RPSO.py:211 | the corrected count: found and left goals add up to the total; none found exactly when all are left; all found exactly when none is left |
| E2RPSOOld.ReportedAsWrittenMiscounts | Old_versions/E2RPSO.py:211 | the count as written, `10 - left`, reports 7 found for three unfound targets and 10 for fifteen found ones |
| E2RPSOOld.Search | Old_versions/E2RPSO.py:45-211 | at most `T` iterations, at least one when `T` is positive; the count returned is the as-written `10 - left`, while the corrected count `Found` never exceeds the targets; unless something crashed, stopping early means every target was found; the returned distance is the total path length and is not negative |
| E2RPSO.Spend | E2RPSO.py:125-130 | a table index in range loses `K` credits and the table's total drops by `K`; a negative index counts from the end; an index out of range is the IndexError and changes nothing |
| E2RPSO.AreaId | E2RPSO.py:125 | inside the arena, the area number encodes the 10-unit column and row of the position, with `side / 10` areas per row |
| E2RPSO.AreaOfCell | E2RPSO.py:125 | the float expression `int(row * SIDE / 10 + col)` is exactly `row * (side / 10) + col`, from which the row and column are recovered |
| E2RPSO.Columns | E2RPSO.py:125 | a row holds `side / 10` areas |
| E2RPSO.FarCentreRoundTrip | E2RPSO.py:125-142 | the corrected decoding of a far area number, with `side / 10` columns, is a point that encodes back to the same area |
| E2RPSO.FarCentreOn100 | E2RPSO.py:141-142 | on the 100-wide arena the decoding as written is the centre of the area |
| E2RPSO.FarCentreMisplaced | E2RPSO.py:141-142 | on the 200-wide arena the decoding as written sends area 25 to (55, 25), which lies in area 45, while the corrected decoding gives (55, 15) in area 25 |
| E2RPSO.Tier | E2RPSO.py:133-138 | credit at or below 0 gives `(0, 0, 2 * C3)`, credit below 25 gives `(0, 0, C3)`, and otherwise `(C1, C2, 0)` |
| E2RPSO.TierExclusive | E2RPSO.py:133-138 | the pulls toward the bests are zero exactly when the credit is below 25, and the pull toward the far area is zero exactly when it is not |
| E2RPSO.TierMonotone | E2RPSO.py:133-138 | less credit never weakens the pull toward the far area and never strengthens the pull toward the bests |
| E2RPSO.VelocityFollowsTier | E2RPSO.py:133-151 | an agent with 25 credits or more ignores the far area, and one with fewer ignores its bests |
| E2RPSO.FarDirection | E2RPSO.py:148-151 | the pull toward the far point is its unit direction; it fails with a ZeroDivisionError exactly when the agent stands on that point |
| E2RPSO.Relocate | E2RPSO.py:159-163 | the agent moves exactly when the step is clear of obstacles and other agents; otherwise it jumps to the avoidance candidate and takes its velocity |
| E2RPSO.Turn | E2RPSO.py:114-166 | an agent's turn: the far area is re-chosen every 50 steps; the turn crashes exactly when the inertia weight has no value (NaN, or a division by zero), an area index is out of range or the agent stands on the far point decoded as written. Otherwise the table is as before except that the agent's area cell has lost `K` credits and, on a re-choosing step, the far area `K` more, so the total drops by `K` or `2 * K`; the agent moves by the limited E2RPSO velocity of the tier its area cell's remaining credit gives and the far point exactly when that step is clear of the arena's edge, the obstacles and the other agents, and otherwise jumps to the avoidance candidate; its trajectory grows by that point, and its bests and the global best are those `update_GbestPbest` returns |
| E2RPSO.Advance | E2RPSO.py:145-166 | the agent moves by the limited E2RPSO velocity built from the weight, the tier coefficients and the far direction exactly when that step is clear of the arena's edge, the obstacles and the other agents, and otherwise jumps to the avoidance candidate; the trajectory grows by the new point; the bests are those update_GbestPbest returns |
| E2RPSO.TakeTurn | E2RPSO.py:114-166 | the sweep's view of a turn: the other agents are untouched, and without a crash the agent's trajectory grows by one point and it holds the bests `update_GbestPbest` returns |
| E2RPSO.Refreshed | E2RPSO.py:127-128 | after the first `k` agents, exactly those agents hold a re-chosen far area, and only on a step that is a multiple of 50 |
| E2RPSO.RefreshedStep | E2RPSO.py:127-128 | re-choosing agent `k`'s far area extends the refreshed prefix by one agent |
| E2RPSO.Sweep | E2RPSO.py:113-166 | without a crash every agent's trajectory grows by exactly one point, every agent holds the personal bests of its own update, the far areas are refreshed on every 50th step, and the global best is the one the last agent's update returns |
| E2RPSO.Iterate | E2RPSO.py:110-166 | the average personal best is taken first, and without agents it divides by zero; otherwise as `Sweep` |
| E2RPSO.Step | E2RPSO.py:108-182 | the found count grows by at most one and not at all after a crash; found and present targets add up to the total; while targets remain the lists stay aligned; without a crash the personal bests, far areas and global best are as `Sweep` gives them |
| E2RPSO.Run | E2RPSO.py:108-183 | the per-step found counts never drop and grow by at most one; without a crash the loop runs all steps unless every target is found; found and present targets add up to the total |
| E2RPSO.Search | E2RPSO.py:76-188 | the same for the whole search, and the returned distance is the total path length and is not negative |
| ExhaustivePlan.DivisorsExact | Exhaustive_search.py:49-50 | `divisors(n)` holds exactly the divisors of n in 1..n, in increasing order |
| ExhaustivePlan.Split | Exhaustive_search.py:84-86 | the middle divisor and its co-divisor give `rows * cols == n`, both at least 1 |
| ExhaustivePlan.RowMajor | Exhaustive_search.py:92-100 | region number `i * cols + j` is row i, column j |
| ExhaustivePlan.Regions | Exhaustive_search.py:80-100 | a single agent gets the whole arena; otherwise region k is the cell in row `k / cols` and column `k % cols` of the split, one region per agent |
| ExhaustivePlan.CellsCover | Exhaustive_search.py:88-100 | the regions of a split cover the arena: every point of it lies in some region |
| ExhaustivePlan.Pattern | Exhaustive_search.py:108-127 | a region's pattern has `x_points * y_points` waypoints, and waypoint i is the i-th point of the zig-zag |
| ExhaustivePlan.ZigZagAdjacent | Exhaustive_search.py:116-126 | consecutive waypoints are one step apart, either along the row or straight up to the next row |
| ExhaustivePlan.WaypointInRegion | Exhaustive_search.py:112-126 | in a region at least 2 wide and 2 high, every waypoint lies inside the region |
| ExhaustiveSearch.NextOpenIsFirst | Exhaustive_search.py:147-153 | the skip loop passes over only blocked waypoints, and where it stops short of the end the waypoint is open |
| ExhaustiveSearch.SkipBlocked | Exhaustive_search.py:147-153 | the loop stops at the first open waypoint from the agent's position on |
| ExhaustiveSearch.FirstTrueIsFirst | Exhaustive_search.py:193-208 | the attempt taken is the first collision-free one, and none is taken exactly when all collide |
| ExhaustiveSearch.FirstMove | Exhaustive_search.py:193-208 | the agent takes the first collision-free displacement and stays put when none is free |
| ExhaustiveSearch.AttemptLength | Exhaustive_search.py:190-207 | every approach attempt, the 13 turns and the 5 random retries, is exactly `step_size` long |
| ExhaustiveSearch.SettleOk | Exhaustive_search.py:210-221 | a step that is not at least half a step closer counts as stalled; the third stall in a row starts a detour of 5 or 10 steps and resets the counter; otherwise the counter resets |
| ExhaustiveSearch.DetourVertical | Exhaustive_search.py:178-179 | because the detour's components are read swapped, a detour that was meant to run horizontally runs vertically |
| ExhaustiveSearch.ArriveIff | Exhaustive_search.py:162-164 | an agent arrives exactly when it is closer than one step to its waypoint |
| ExhaustiveSearch.ArriveStep | Exhaustive_search.py:164-171 | the move onto an open waypoint always succeeds, and the waypoint index advances |
| ExhaustiveSearch.DetourStep | Exhaustive_search.py:173-181 | a detour step spends one unit of the detour and moves by `step_dir` with its components swapped, exactly when that destination is free |
| ExhaustiveSearch.ApproachStep | Exhaustive_search.py:187-221 | the agent takes the first free attempt towards its waypoint, or stays put when all 18 attempts collide, and settles its stuck bookkeeping as in `SettleOk` |
| ExhaustiveSearch.WanderStep | Exhaustive_search.py:223-228 | once its pattern is done, the agent makes one random-heading step exactly when that destination is free |
| ExhaustiveSearch.StepAgent | Exhaustive_search.py:155-228 | one agent's step follows its phase: wander after the pattern ends, arrive, detour or approach. The agent moves at most once and its bookkeeping stays in range |
| ExhaustiveSearch.PassAgent | Exhaustive_search.py:141-228 | after skipping the blocked waypoints, the index advances by at most one past the first open waypoint |
| ExhaustiveSearch.MoveAgents | Exhaustive_search.py:141-234 | the pattern indices never go back, and every agent moves at most once per step |
| ExhaustiveSearch.Plans | Exhaustive_search.py:73-128 | one region and one zig-zag pattern per agent |
| ExhaustiveSearch.Step | Exhaustive_search.py:138-238 | the indices never go back; at most one target is found per step, and found plus present targets are conserved |
| ExhaustiveSearch.Search | Exhaustive_search.py:66-251 | the per-step found counts never drop and grow by at most one; the loop runs all steps unless every target is found; the returned distance is the total path length and is not negative |
| DPSOParticle.Particle.constructor | dPSO.py:8-23 | a new particle is at rest, at the given point, with its best position there and an infinite best value |
| DPSOParticle.Particle.SetCoords | dPSO.py:25-33 | only the position changes |
| DPSOParticle.Particle.SetVelocity | dPSO.py:35-43 | only the velocity changes |
| DPSO.Dispersion | dPSO.py:110-113 | the pull back to the agent is added only beyond `max_dis`, points at the agent for a non-negative coefficient, and is an error exactly when the division by a zero distance is reached |
| DPSO.PullToward | dPSO.py:110-113 | a non-negative multiple of the unit offset towards the agent still points at the agent |
| DPSO.ScatteredAt | dPSO.py:70-78 | every particle placed by the scatter loop is clear of the obstacles and of every particle placed before it |
| DPSO.Swarm.constructor | dPSO.py:46-61 | a new swarm starts at its agent with an infinite best, and holds at most `num_particles` particles of the agent's radius, each clear of the obstacles and of the particles before it |
| DPSO.Swarm.InitializeParticles | dPSO.py:63-78 | at most `num_particles * 10` attempts; a candidate joins exactly when it is clear; the swarm ends short of `num_particles` only when every attempt is used |
| DPSO.Swarm.Admit | dPSO.py:75-77 | a candidate joins exactly when it misses the obstacles and every particle so far |
| DPSO.Swarm.Push | dPSO.py:77 | the new particle, at the candidate point with the agent's radius, is appended and nothing else changes |
| DPSO.Swarm.Drift | dPSO.py:120-124 | a clear step is taken as it is; a blocked one is replaced by the obstacle-avoiding move |
| DPSO.Swarm.FlyStep | dPSO.py:120-126 | the particle moves as in `Drift` and its position feeds the personal and swarm bests by the `<=` rule |
| DPSO.Swarm.Fly | dPSO.py:98-126 | a particle's turn fails exactly when the dispersion division by zero is reached; otherwise its bests follow the `<=` rule; neither best ever grows |
| DPSO.Swarm.UpdateParticles | dPSO.py:80-128 | neither the swarm's best nor any particle's best grows; the point returned is the swarm's best point; with a non-negative `max_dis` no error is possible |
| DPSO.Clear | dPSO.py:170-172 | a destination is clear exactly when it misses the obstacles, every other agent and every particle of the swarm except the mover |
| DPSO.MoveParticle | dPSO.py:158-181 | a particle's step is taken exactly when the destination is clear, and it stays put otherwise |
| DPSO.MoveAgent | dPSO.py:158-181 | an agent's step is taken, and recorded in its trajectory, exactly when the destination is clear |
| DPSO.ParticleBests | dPSO.py:126 | `update_GbestPbest` on a particle follows the `<=` rule for the personal and the swarm best |
| DPSO.PullLikeRDPSO | dPSO.py:206-219 | an agent's velocity is the RDPSO velocity of a regular agent |
| DPSO.Reposition | dPSO.py:222-226 | the agent takes a clear step, or the obstacle-avoiding move when blocked, and keeps the velocity it used |
| DPSO.Adopt | dPSO.py:231-243 | the point the swarm reports is scored; the agent's best and the global best take it by `<=`, the global position taking the agent's personal one |
| DPSO.SpotLeads | dPSO.py:236-243 | after a report the global best stays no larger than the agent's best, and a report at least as good as the global best becomes the global position |
| DPSO.Rebest | dPSO.py:231-245 | an agent's turn updates the bests twice: first at the reported point, then at the agent's own position |
| DPSO.Guide | dPSO.py:222-245 | the agent moves once, its trajectory grows by one point, and its bests follow the two updates of `Rebest` |
| DPSO.Lead | dPSO.py:204-245 | one swarm's turn: the agent takes the RDPSO velocity and moves by it when the destination is clear, or takes the avoidance move otherwise; its trajectory grows by one point; its best and the global best follow the two `<=` updates, first at the swarm's point and then at the agent's new position, and neither grows |
| DPSO.TakeTurn | dPSO.py:204-245 | the loop's view of a swarm's turn: only agent `k` changes, its trajectory grows by one point, and the global best never grows |
| DPSO.MoveSwarms | dPSO.py:204-245 | every agent's trajectory grows by exactly one point per step, and the global best never grows |
| DPSO.Step | dPSO.py:201-262 | the global best never grows; at most one target is found; found plus present targets are conserved; and while targets remain the lists are compacted and stay aligned |
| DPSO.Run | dPSO.py:199-262 | the per-step counts never drop and grow by at most one; the loop runs all steps unless every target is found; found plus present targets are conserved |
| DPSO.MakeSwarms | dPSO.py:197 | one valid swarm per agent, in list order, each with at most ten particles |
| DPSO.Search | dPSO.py:184-268 | as `Run`, after the set-up; the distance returned is the total path length of the agents and is not negative |
| DPSOOld.Particle.constructor | Old_versions/dPSO.py:6-14 | a new particle is at rest, its best point is where it starts and its fitness is infinite |
| DPSOOld.NearestIsMin | Old_versions/dPSO.py:39-44 | the fitness of a point is infinite exactly when no target is present, is at most the distance to every present target, and is the distance to one of them |
| DPSOOld.Lower | Old_versions/dPSO.py:46-51 | the strict update `if b < a` keeps the lower of the two values, and changes it only when the new one is strictly lower |
| DPSOOld.ScoreBound | Old_versions/dPSO.py:38-51 | a particle's fitness after scoring never grows and is at most its distance to every present target |
| DPSOOld.PlacedAt | Old_versions/dPSO.py:29-35 | every particle placed by the scatter loop is clear of the obstacles and unscored |
| DPSOOld.WeightBounds | Old_versions/dPSO.py:60-71 | the repulsion weight `1 / (1 + (d / s)^2)` is non-negative, and times the distance it is at most `c * s / 2` |
| DPSOOld.RepelAway | Old_versions/dPSO.py:60-71 | with a non-negative coefficient the repulsion points away from the other body |
| DPSOOld.RepelShort | Old_versions/dPSO.py:60-71 | with a non-negative coefficient the repulsion is at most `c * s / 2` long, however close the bodies are |
| DPSOOld.AloneUnpushed | Old_versions/dPSO.py:58-59 | a particle alone in its swarm is pushed by no other particle |
| DPSOOld.EscapeLength | Old_versions/dPSO.py:81-83 | the random escape step is exactly 0.5 long |
| DPSOOld.Swarm.constructor | Old_versions/dPSO.py:17-25 | a new swarm starts at its agent with an infinite best, and holds at most `num_particles` particles, each clear of the obstacles |
| DPSOOld.Swarm.InitializeParticles | Old_versions/dPSO.py:27-35 | at most `num_particles * 10` attempts; a candidate joins exactly when it is clear of the obstacles; the swarm ends short only when every attempt is used |
| DPSOOld.Swarm.Admit | Old_versions/dPSO.py:31-34 | a candidate joins exactly when it is clear of the obstacles |
| DPSOOld.Swarm.Assess | Old_versions/dPSO.py:39-51 | the particle's fitness becomes the lower of its old value and the distance to the nearest present target; its best point and the swarm's best move to it only on a strict improvement |
| DPSOOld.Swarm.Evaluate | Old_versions/dPSO.py:38-51 | every particle's fitness is scored as in `Assess`, the swarm's best never grows and stays at most every particle's fitness |
| DPSOOld.Swarm.Crowd | Old_versions/dPSO.py:58-64 | the loop over the swarm adds up the repulsion of every other particle at a non-zero distance |
| DPSOOld.Swarm.Shun | Old_versions/dPSO.py:66-71 | the loop over the swarms adds up the repulsion of every other swarm's agent |
| DPSOOld.Swarm.Steer | Old_versions/dPSO.py:54-71 | the particle's velocity is the pull to its bests plus both repulsions |
| DPSOOld.Swarm.Fly | Old_versions/dPSO.py:53-89 | the particle takes its velocity when the destination is clear, else the escape step when that is clear, else stops; it ends at a clear point or where it was |
| DPSOOld.Swarm.UpdateParticles | Old_versions/dPSO.py:37-89 | no fitness and not the swarm's best grows, the swarm's best stays at most every fitness, and every particle ends at a clear point or where it was |
| DPSOOld.Swarm.UpdateAgentPosition | Old_versions/dPSO.py:91-94 | the agent moves to the mean of its particles' positions; a swarm without particles is an error (the mean is NaN) and the agent stays |
| DPSOOld.Swarm.Advance | Old_versions/dPSO.py:134-136 | a swarm's turn succeeds exactly when it has particles; the agent then moves to the mean of its particles' positions, its old position becomes the last one and its trajectory grows by one point; a failed turn leaves the agent unchanged |
| DPSOOld.Fitness | Old_versions/dPSO.py:39-44 | the fitness of a point is the distance to the nearest present target |
| DPSOOld.Move | Old_versions/dPSO.py:73-89 | the guarded flight ends at a clear point or where it started |
| DPSOOld.Centroid | Old_versions/dPSO.py:92-93 | the mean position of a non-empty list of particles |
| DPSOOld.Xs | Old_versions/dPSO.py:92 | the x coordinates of the particles, in order |
| DPSOOld.Ys | Old_versions/dPSO.py:93 | the y coordinates of the particles, in order |
| DPSOOld.SumBounds | Old_versions/dPSO.py:92-93 | a sum of n values in `[lo, hi]` lies in `[n * lo, n * hi]` |
| DPSOOld.AverageWithin | Old_versions/dPSO.py:91-94 | the mean of values in a band lies in that band, so an agent moved to the mean of its particles stays in any band that holds them |
| DPSOOld.Pass | Old_versions/dPSO.py:134-136 | swarm k's turn moves only its own agent, and succeeds exactly when it has particles |
| DPSOOld.MoveSwarms | Old_versions/dPSO.py:134-136 | the loop succeeds exactly when every swarm has particles, and every agent's trajectory then grows by one point |
| DPSOOld.MakeSwarms | Old_versions/dPSO.py:128 | one valid swarm per agent, in list order, with at most thirty particles each |
| DPSOOld.Step | Old_versions/dPSO.py:134-141 | at most one target is found per iteration and found plus present targets are conserved; a failed iteration leaves the targets as they were |
| DPSOOld.Iterate | Old_versions/dPSO.py:133-144 | the per-iteration counts never drop and grow by at most one; the loop runs all iterations unless every target is found or a swarm fails |
| DPSOOld.RunDpso | Old_versions/dPSO.py:125-157 | as `Iterate`, after building the swarms; zero iterations is an error (the returned `t` is unbound); the distance returned is the total path length |

## Left out

- Plotting: `visualize_grid`, the module-level figure of `Continuous_grid.py` and every call to them in the search loops. They only render and write image files.
- Post-analysis and parameter sweeps (`analyse.py`, `Old_versions/main.py`): they read and write CSV files.
- Random number generators and seeding (`random.seed`, `np.random.seed`): every draw is an input, so no claim is about probabilities or about how well a strategy searches.
- Floating point: all arithmetic is on `real`, with no rounding. `math.sqrt` is characterised only on non-negative arguments. `cos`, `sin`, `atan2` and `radians` are unconstrained, except for `cos^2 + sin^2 = 1` where a speed bound needs it.
- NaN: the model turns NaN into an error outcome in two places. For two infinite bests in the old inertia weight, Python goes on computing with NaN where the model stops; that run can still end normally if the same turn's goal check drops the last goal. For the mean of a swarm with no particles, Python ends the run too: the same iteration's `grid.pos_change()` (Old_versions/dPSO.py:138) paints the NaN agent, and `math.ceil` of NaN in `set_grid` raises ValueError (Continuous_grid.py:87).
- DPSOOld.Swarm.UpdateAgentPosition: for a swarm with no particles, numpy moves the agent to NaN, and the same iteration ends with a ValueError in `set_grid` during `grid.pos_change()` (Old_versions/dPSO.py:138, Continuous_grid.py:87). The model reports that failure as a crash of `DPSOOld.Iterate`. The one difference is where it stops: the model stops at the empty swarm, while Python first updates the remaining swarms of that iteration and then fails in `pos_change`.
- The placement retry loops of `initialize_obstacles` and `initialize_targets` have no bound in the source. Here they end when the supplied draws run out, so fewer obstacles or targets than asked for may be placed. The recursive growth of `place_adjacent_obstacles` is bounded the same way.
- The numpy wrap-around of negative slice bounds in `set_grid`: it is modelled by `SliceIndex`, but `ContinuousGrid.Grid.CoversRectangle` states the rectangle only for non-negative upper bounds.
- `E2RPSO_util`, the helper module that `E2RPSO.py` imports, is not part of this model. Its calls at `E2RPSO.py:96`, `128`, `160` and `166` do not match the signatures in `Old_versions/E2RPSO_util.py`. Their results enter the model as inputs, except that `update_best_avg`, `Unit_speed`, `Limit_maxVelocity` and the inertia weight reuse the old helpers, whose signatures do match. The collision tests `E2RPSO_util.is_collision` and `is_collision_agents` that `move` calls at `E2RPSO.py:68` are given the semantics of the `RDPSO_util` tests of the same name (`E2RPSO.MoveAmongAgents`).
- The call of `update_particles` at `dPSO.py:229` passes its arguments into the wrong parameters: `c1` receives `goal_list_y`, so `c1 * r1` at `dPSO.py:107` raises a TypeError in the first step for every swarm that has a particle. The point it returns is an input of each agent's turn, and `DPSO.Swarm.UpdateParticles` models the method with its declared parameters.
- The dead distance sum at `Old_versions/dPSO.py:146-151`: its result is overwritten at line 156 before use. Also left out is the `agent.grid` attribute set at line 19, which the model passes as a parameter instead.
- The `r.lastx` and `r.lasty` attributes written by `Old_versions/E2RPSO.py`: nothing reads them.
- The extra-agents branch of `Exhaustive_search.py:229-234`: it is dead, because every agent gets a pattern.
- `init_E2RPSO` computes a global best but does not return it. The model leaves that value out.
- RDPSO.PassAgent: states only that the global best does not grow. The full effect of an agent's turn is the contract of `RDPSO.AgentStep`, which it calls.
- RDPSO.Initialise: states only the goal lists and a finite global best. The velocities and personal bests that `init_RDPSO` sets are the contract of `SwarmUtil.InitSwarm`, which it calls.
- ExhaustiveSearch.PassAgent: states only how the waypoint index moves. The full step is the contract of `ExhaustiveSearch.StepAgent`, which it calls.
- ExhaustiveSearch.MoveAgents: states the index monotonicity and the single move per agent, not every agent's whole step.
- DPSO.Swarm.UpdateParticles: states monotone bests and the returned point, not each particle's new position. That is stated per particle by `DPSO.Swarm.Fly`.
- DPSOOld.MoveSwarms and DPSOOld.Iterate: state the trajectory growth and the counts, not the agents' new positions. Those are stated per swarm by `DPSOOld.Swarm.UpdateAgentPosition`.
- A run of zero steps: `RDPSO`, `E2RPSO` and `dPSO` then return the unbound `steps` (`RDPSO.py:148`, `E2RPSO.py:188`, `dPSO.py:266`), an UnboundLocalError. `RDPSO.Search`, `E2RPSO.Search` and `DPSO.Search` require at least one step.
- ExhaustiveSearch.Search: requires at least one agent, a positive agent radius and a positive step size. Without agents `Exhaustive_search.py:85` raises an IndexError, and a zero radius divides by zero at `Exhaustive_search.py:112`. The source accepts any step size and never divides by it; the driver passes 2.
- Predefined targets: with a target list given, `Continuous_grid.py:57-63` never sets `target_half_size` or `nr_of_targets`, so `Random_search.py:25`, `Exhaustive_search.py:19` and `Old_versions/E2RPSO_util.py:254` raise an AttributeError. The model always stores `targetHalfSize` and counts `|grid.targets|` instead.
- RandomSearch.Step: states each agent's move and the counts, not which target is removed or the repainted matrix. Those are the contract of `SearchStep.FinishStep`, which it calls after the moves.
- RDPSO.MoveSwarm: states the trajectory growth and that the global best never grows, not each agent's new position, velocity and bests. Those are the contract of `RDPSO.AgentStep`, once per agent; each turn reads the global best and the positions left by the turns before it, so the loop's contract would have to carry that whole chain.
- RDPSO.Step: states the counts, the global best and the list alignment, not the agents' new states, for the reason given for `RDPSO.MoveSwarm`.
- E2RPSO.Sweep: states every agent's personal bests, the far areas and the final global best, not each agent's new position and velocity. Those are the contract of `E2RPSO.Turn`; each turn's velocity depends on the credits the turns before it spent.
- E2RPSO.Iterate: as `E2RPSO.Sweep`; the average personal best it takes first is not stated.
- E2RPSO.Step: as `E2RPSO.Sweep`.
- E2RPSO.TakeTurn: the loop's view of `E2RPSO.Turn`; it keeps only the facts the loop carries.
- E2RPSOOld.Turn: for a robot that moves, the matrix is not stated. It is the matrix of `E2RPSOOld.Judge`, with the reached goal's square cleared, repainted by `pos_change` as `E2RPSOOld.Settle` states it; carrying both stages through the turn is too costly for the verifier.
- E2RPSOOld.Play: as `E2RPSOOld.Turn`, the matrix after a move is not stated.
- E2RPSOOld.TakeTurn: the loop's view of `E2RPSOOld.Turn`; it keeps only the facts the loop carries.
- E2RPSOOld.Sweep: states the goal lists and the coefficient pair, not any robot's new state. A robot's turn is the contract of `E2RPSOOld.Turn`; each turn reads the credits and the goals left by the turns before it. A crash is reported but not tied to the robot that caused it.
- ExhaustiveSearch.Step: states how the waypoint indices move, the counts, and that each trajectory grows by at most the agent's new position, not where each agent goes. That is the contract of `ExhaustiveSearch.StepAgent`, once per agent.
- DPSO.TakeTurn: the loop's view of `DPSO.Lead`; it keeps only the facts the loop carries.
- DPSO.MoveSwarms: states the trajectory growth and that the global best never grows, not each agent's new state. That is the contract of `DPSO.Lead`, once per swarm, for the reason given for `RDPSO.MoveSwarm`.
- DPSO.Step: states the counts, the global best and the list alignment, not the agents' and swarms' new states (see `DPSO.MoveSwarms`).
- DPSOOld.Swarm.UpdateParticles: states that no fitness and not the swarm's best grows and that every particle ends at a clear point or where it was, not each particle's new position and velocity. Those are the contracts of `DPSOOld.Swarm.Steer` and `DPSOOld.Swarm.Fly`, once per particle.
- DPSOOld.Swarm.Advance: states the agent's move to the mean of its particles, not the particles' new state, which is as `DPSOOld.Swarm.UpdateParticles` states it.
- DPSOOld.Pass: states which agent moves and when the turn succeeds, not where the agent goes. The move to the mean of the particles is the contract of `DPSOOld.Swarm.Advance`, which it calls; carrying it through the swarm loop's frames is too costly for the verifier.
- DPSOOld.Step: states the counts and that a failed iteration leaves the targets alone, not the swarms' and agents' new states (see `DPSOOld.Pass`).

## Findings

| source | as written | input that shows it | evidently intended | confidence | as-written member | corrected member |
|---|---|---|---|---|---|---|
| Old_versions/E2RPSO.py:49, 211 | the number of targets found is reported as `Goal_num - len(goal_list_x)`, with `Goal_num` fixed at 10 | a grid with 3 targets, none found: 7 found are reported; a grid with 15 targets, all found: 10 are reported | the number of targets minus the number left | not executed | E2RPSOOld.ReportedAsWrittenMiscounts | E2RPSOOld.Found |
| E2RPSO.py:125, 141-142 | area numbers are encoded with `SIDE / 10` areas per row, but the far area is decoded with 10 per row | a 200-wide arena, far area 25: the steering point (55, 25) lies in area 45 | decode with `SIDE / 10` areas per row, giving (55, 15) in area 25 | not executed | E2RPSO.FarCentreMisplaced | E2RPSO.FarCentreRoundTrip |
