// The environment of the simulator: a square arena with an integer occupancy
// matrix (0 free, 1 obstacle, 2 agent, 3 target, 4 safe space), the agents,
// the rectangular obstacles and the square targets.

module ContinuousGrid {
  import opened Numerics
  import opened Geometry

  /** Cell codes written into the occupancy matrix. */
  const FREE := 0
  const OBSTACLE := 1
  const AGENT := 2
  const TARGET := 3
  const SAFE := 4

  /** One searching robot: its position, velocity, personal best and the
      trajectory it has travelled. */
  class Agent {
    const radius: real
    const halfSize: real
    var x: real
    var y: real
    var vx: real
    var vy: real
    var lastX: real
    var lastY: real
    var px: real
    var py: real
    var pbest: Ext
    var pbestP: Ext
    var pbestAvg: Ext
    var listX: seq<real>
    var listY: seq<real>
    var targetsFound: nat

    /** The two trajectory lists stay aligned and never empty. */
    ghost predicate Valid()
      reads this`listX, this`listY
    {
      |listX| == |listY| && 1 <= |listX|
    }

    /** `Agent.__init__`; `ux` and `uy` are the draws behind
        `np.random.uniform(-5, 5)` for the two velocity components. */
    constructor(radius: real, x: real, y: real, halfSize: real, ux: Unit, uy: Unit)
      ensures Valid()
      ensures this.radius == radius && this.halfSize == halfSize
      ensures this.x == x && this.y == y
      ensures vx == Uniform(-5.0, 5.0, ux) && vy == Uniform(-5.0, 5.0, uy)
      ensures -5.0 <= vx <= 5.0 && -5.0 <= vy <= 5.0
      ensures lastX == x && lastY == y && px == x && py == y
      ensures pbest == Inf && pbestP == Inf && pbestAvg == Inf
      ensures listX == [x] && listY == [y] && targetsFound == 0
    {
      this.radius := radius;
      this.x := x;
      this.y := y;
      vx := Uniform(-5.0, 5.0, ux);
      vy := Uniform(-5.0, 5.0, uy);
      lastX := x;
      lastY := y;
      px := x;
      py := y;
      pbest := Inf;
      pbestP := Inf;
      pbestAvg := Inf;
      listY := [y];
      listX := [x];
      this.halfSize := halfSize;
      targetsFound := 0;
    }

    /** `setcoords`: the old position becomes the last one and the new one
        is appended to the trajectory. */
    method SetCoords(nx: real, ny: real)
      requires Valid()
      modifies this`x, this`y, this`lastX, this`lastY, this`listX, this`listY
      ensures Valid()
      ensures lastX == old(x) && lastY == old(y) && x == nx && y == ny
      ensures listX == old(listX) + [nx] && listY == old(listY) + [ny]
    {
      lastX := x;
      lastY := y;
      x := nx;
      y := ny;
      listX := listX + [nx];
      listY := listY + [ny];
    }

    /** `setVelocity`. */
    method SetVelocity(nvx: real, nvy: real)
      modifies this`vx, this`vy
      ensures vx == nvx && vy == nvy
    {
      vx := nvx;
      vy := nvy;
    }
  }

  /** The square an agent occupies, as `check_overlap` and the agent
      collision tests see it. */
  function AgentBox(a: Agent): Box
    reads a
  {
    Square(a.x, a.y, a.halfSize)
  }

  function AgentBoxes(agents: seq<Agent>): (bs: seq<Box>)
    reads agents
    ensures |bs| == |agents|
    ensures forall k :: 0 <= k < |agents| ==> bs[k] == AgentBox(agents[k])
  {
    if agents == [] then [] else AgentBoxes(agents[..|agents| - 1]) + [AgentBox(agents[|agents| - 1])]
  }

  /** Some box of `objects` overlaps the rectangle centred at `(x, y)`. */
  predicate AnyOverlap(x: real, y: real, hw: real, hh: real, objects: seq<Box>)
  {
    exists k :: 0 <= k < |objects| && Overlap(x, y, hw, hh, objects[k])
  }

  /** A rectangle painted into the occupancy matrix by `set_grid`. */
  datatype Paint = Paint(x: real, y: real, hw: real, hh: real, value: int)

  /** The index numpy uses for a slice bound `k` on an axis of length `n`:
      negative bounds count from the end, and bounds are clipped to the axis. */
  function SliceIndex(k: int, n: nat): (r: nat)
    ensures r <= n
    ensures 0 <= k ==> r == MinInt(k, n)
    ensures k < 0 ==> r == MaxInt(0, k + n)
  {
    if k < 0 then MaxInt(0, k + n) else MinInt(k, n)
  }

  /** `i` lies in the numpy slice `lo:hi` of an axis of length `n`. */
  predicate InSlice(lo: int, hi: int, n: nat, i: int)
  {
    SliceIndex(lo, n) <= i < SliceIndex(hi, n)
  }

  /** The paints of the agents' last squares (value 0) and current squares
      (value 2), agent by agent, as `pos_change` writes them. */
  function AgentPaints(agents: seq<Agent>): (ps: seq<Paint>)
    reads agents
    ensures |ps| == 2 * |agents|
  {
    if agents == [] then []
    else
      var a := agents[|agents| - 1];
      AgentPaints(agents[..|agents| - 1])
        + [Paint(a.lastX, a.lastY, a.halfSize, a.halfSize, FREE),
           Paint(a.x, a.y, a.halfSize, a.halfSize, AGENT)]
  }

  function BoxPaint(b: Box, value: int): Paint
  {
    Paint(b.cx, b.cy, b.hw, b.hh, value)
  }

  function BoxPaints(bs: seq<Box>, value: int): (ps: seq<Paint>)
    ensures |ps| == |bs|
    ensures forall k :: 0 <= k < |bs| ==> ps[k] == BoxPaint(bs[k], value)
  {
    if bs == [] then [] else BoxPaints(bs[..|bs| - 1], value) + [BoxPaint(bs[|bs| - 1], value)]
  }

  /** The position of agent `i` at start: columns of three, `3 * half_size`
      apart, the middle one on the horizontal centre line. */
  function StartPosition(i: nat, radius: real, halfSize: real, height: nat): (real, real)
  {
    (radius + (i / 3) as real * halfSize * 3.0,
     height as real / 2.0 + (i % 3 - 1) as real * halfSize * 3.0)
  }

  lemma ScaleInjective(m: real, n: real, s: real)
    requires 0.0 < s && m * s == n * s
    ensures m == n
  {
    if m < n { MulPos(n - m, s); }
    else if n < m { MulPos(m - n, s); }
  }

  /** Agents of positive size start at pairwise different positions. */
  lemma StartPositionsDistinct(i: nat, j: nat, radius: real, halfSize: real, height: nat)
    requires 0.0 < halfSize
    requires StartPosition(i, radius, halfSize, height) == StartPosition(j, radius, halfSize, height)
    ensures i == j
  {
    var s := halfSize * 3.0;
    assert (i / 3) as real * halfSize * 3.0 == (i / 3) as real * s;
    assert (j / 3) as real * halfSize * 3.0 == (j / 3) as real * s;
    assert (i % 3 - 1) as real * halfSize * 3.0 == (i % 3 - 1) as real * s;
    assert (j % 3 - 1) as real * halfSize * 3.0 == (j % 3 - 1) as real * s;
    ScaleInjective((i / 3) as real, (j / 3) as real, s);
    ScaleInjective((i % 3 - 1) as real, (j % 3 - 1) as real, s);
  }

  /** `math.dist` between consecutive points of a trajectory, summed. */
  function PathLength(xs: seq<real>, ys: seq<real>, sqrt: real -> real): real
    requires |xs| == |ys|
  {
    if |xs| <= 1 then 0.0
    else
      var n := |xs|;
      PathLength(xs[..n - 1], ys[..n - 1], sqrt)
        + sqrt(SqDist(xs[n - 2], ys[n - 2], xs[n - 1], ys[n - 1]))
  }

  /** The distance travelled by all the agents together. */
  function TotalDistance(agents: seq<Agent>, sqrt: real -> real): real
    reads agents
    requires forall a :: a in agents ==> |a.listX| == |a.listY|
  {
    if agents == [] then 0.0
    else
      var a := agents[|agents| - 1];
      assert a in agents;
      TotalDistance(agents[..|agents| - 1], sqrt) + PathLength(a.listX, a.listY, sqrt)
  }

  lemma {:induction false} PathLengthNonNeg(xs: seq<real>, ys: seq<real>, sqrt: real -> real)
    requires IsSqrt(sqrt) && |xs| == |ys|
    ensures 0.0 <= PathLength(xs, ys, sqrt)
    decreases |xs|
  {
    if |xs| > 1 {
      var n := |xs|;
      PathLengthNonNeg(xs[..n - 1], ys[..n - 1], sqrt);
      SqDistNonNeg(xs[n - 2], ys[n - 2], xs[n - 1], ys[n - 1]);
    }
  }

  /** `total_distance_covered` is never negative. */
  lemma {:induction false} TotalDistanceNonNeg(agents: seq<Agent>, sqrt: real -> real)
    requires IsSqrt(sqrt) && forall a :: a in agents ==> |a.listX| == |a.listY|
    ensures 0.0 <= TotalDistance(agents, sqrt)
    decreases |agents|
  {
    if agents != [] {
      var a := agents[|agents| - 1];
      assert a in agents;
      TotalDistanceNonNeg(agents[..|agents| - 1], sqrt);
      PathLengthNonNeg(a.listX, a.listY, sqrt);
    }
  }

  /** An agent that has not moved contributes nothing; a move adds exactly
      the length of the new segment. */
  lemma {:induction false} PathLengthExtend(xs: seq<real>, ys: seq<real>, nx: real, ny: real, sqrt: real -> real)
    requires |xs| == |ys| && 1 <= |xs|
    ensures PathLength([nx], [ny], sqrt) == 0.0
    ensures PathLength(xs + [nx], ys + [ny], sqrt)
            == PathLength(xs, ys, sqrt) + sqrt(SqDist(xs[|xs| - 1], ys[|ys| - 1], nx, ny))
  {
    var xs', ys' := xs + [nx], ys + [ny];
    var n := |xs'|;
    assert xs'[..n - 1] == xs && ys'[..n - 1] == ys;
    assert xs'[n - 2] == xs[|xs| - 1] && ys'[n - 2] == ys[|ys| - 1];
    assert xs'[n - 1] == nx && ys'[n - 1] == ny;
  }

  /** The squares `initialize_agents` paints, one per start position. */
  function StartPaints(n: nat, radius: real, halfSize: real, height: nat): (ps: seq<Paint>)
    ensures |ps| == n
    ensures forall i :: 0 <= i < n ==>
              ps[i] == Paint(StartPosition(i, radius, halfSize, height).0,
                             StartPosition(i, radius, halfSize, height).1, halfSize, halfSize, AGENT)
  {
    if n == 0 then []
    else
      var pos := StartPosition(n - 1, radius, halfSize, height);
      StartPaints(n - 1, radius, halfSize, height) + [Paint(pos.0, pos.1, halfSize, halfSize, AGENT)]
  }

  function SomeAll(bs: seq<Box>): (ts: seq<Option<Box>>)
    ensures |ts| == |bs| && forall k :: 0 <= k < |bs| ==> ts[k] == Some(bs[k])
  {
    if bs == [] then [] else SomeAll(bs[..|bs| - 1]) + [Some(bs[|bs| - 1])]
  }

  lemma BoxPaintsAppend(a: seq<Box>, b: seq<Box>, value: int)
    ensures BoxPaints(a + b, value) == BoxPaints(a, value) + BoxPaints(b, value)
  {
  }

  /** How `Grid.__init__` receives obstacles or targets: a number to place
      at random, or a predefined list. */
  datatype Layout = Random(count: nat) | Given(items: seq<Box>)

  /** The all-zero matrix `make_grid` creates. */
  function Zeros(h: nat, w: nat): (m: seq<seq<int>>)
    ensures |m| == h && forall r :: 0 <= r < h ==> |m[r]| == w && forall c :: 0 <= c < w ==> m[r][c] == FREE
  {
    seq(h, r => seq(w, c => FREE))
  }

  /** The targets not yet found, in list order. */
  function Present(ts: seq<Option<Box>>): (bs: seq<Box>)
    ensures |bs| <= |ts|
  {
    if ts == [] then []
    else if ts[|ts| - 1].Some? then Present(ts[..|ts| - 1]) + [ts[|ts| - 1].value]
    else Present(ts[..|ts| - 1])
  }

  lemma {:induction false} PresentSomeAll(bs: seq<Box>)
    ensures Present(SomeAll(bs)) == bs
    decreases |bs|
  {
    if bs != [] {
      var q := bs[..|bs| - 1];
      assert SomeAll(bs)[..|bs| - 1] == SomeAll(q);
      PresentSomeAll(q);
      assert bs == q + [bs[|bs| - 1]];
    }
  }

  /** The candidate neighbour of `place_adjacent_obstacles` from six draws:
      half sizes, the side it grows on, its slide along that side and the two
      sign choices. The vertical offset takes the horizontal one when the
      last draw is below 0.5, as the source writes it. */
  function AdjacentBox(x: real, y: real, hwPrev: real, hhPrev: real, u: seq<Unit>, obstacleMin: real, obstacleMax: real): (b: Box)
    requires |u| == 6
    ensures u[2] < 0.5 ==> Abs(b.cx - x) == Abs(b.hw + hwPrev)
    ensures u[5] >= 0.5 && u[2] >= 0.5 ==> Abs(b.cy - y) == Abs(b.hh + hhPrev)
    ensures u[5] < 0.5 ==> b.cy - y == b.cx - x
  {
    var hw := Uniform(obstacleMin, obstacleMax, u[0]);
    var hh := Uniform(obstacleMin, obstacleMax, u[1]);
    var ox := if u[2] < 0.5 then hw + hwPrev else Uniform(-(hwPrev + hw), hwPrev + hw, u[3]);
    var oy := if u[2] < 0.5 then Uniform(-(hhPrev + hh), hhPrev + hh, u[3]) else hh + hhPrev;
    var sx := if u[4] < 0.5 then ox else -ox;
    var sy := if u[5] < 0.5 then sx else -oy;
    Box(x + sx, y + sy, hw, hh)
  }

  class Grid {
    const width: nat
    const height: nat
    /** The occupancy matrix, `height` rows by `width` columns. */
    const cells: array2<int>
    /** `[[5, int(side/2), 5]]`: the square around the start positions. */
    const safeSpace: Box
    const agentHalfSize: real
    const agentRadius: real
    const obstacleMin: real
    const obstacleMax: real
    const targetHalfSize: real
    var agents: seq<Agent>
    var obstacles: seq<Box>
    /** `None` marks a target that has been found. */
    var targets: seq<Option<Box>>

    predicate Shaped()
    {
      cells.Length0 == height && cells.Length1 == width
    }

    ghost predicate Valid()
      reads this`agents, agents`listX, agents`listY
    {
      Shaped()
      && (forall a :: a in agents ==> a.Valid())
      && (forall p, q :: 0 <= p < q < |agents| ==> agents[p] != agents[q])
    }

    /** The cell in row `r`, column `c` lies in the slice `set_grid` writes for `p`. */
    predicate Covers(p: Paint, r: int, c: int)
    {
      InSlice(MaxInt(0, Ceil(p.y - p.hh)), MinInt(height, Ceil(p.y + p.hh)), height, r)
      && InSlice(MaxInt(0, Ceil(p.x - p.hw)), MinInt(width, Ceil(p.x + p.hw)), width, c)
    }

    /** When both upper bounds are non-negative (no numpy wrap-around), the
        slice is exactly the clipped rectangle of cells. */
    lemma CoversRectangle(p: Paint, r: int, c: int)
      requires 0 <= Ceil(p.y + p.hh) && 0 <= Ceil(p.x + p.hw)
      ensures Covers(p, r, c) <==>
                0 <= r < height && 0 <= c < width
                && MaxInt(0, Ceil(p.y - p.hh)) <= r < MinInt(height, Ceil(p.y + p.hh))
                && MaxInt(0, Ceil(p.x - p.hw)) <= c < MinInt(width, Ceil(p.x + p.hw))
    {
    }

    /** The value of cell `(r, c)` after the paints `ps`, in order, starting
        from `prior`: the last paint covering the cell wins. */
    function CellAfter(ps: seq<Paint>, r: int, c: int, prior: int): int
    {
      if ps == [] then prior
      else if Covers(ps[|ps| - 1], r, c) then ps[|ps| - 1].value
      else CellAfter(ps[..|ps| - 1], r, c, prior)
    }

    lemma CellAfterSnoc(ps: seq<Paint>, p: Paint, r: int, c: int, prior: int)
      ensures CellAfter(ps + [p], r, c, prior)
              == if Covers(p, r, c) then p.value else CellAfter(ps, r, c, prior)
    {
      assert (ps + [p])[..|ps|] == ps;
    }

    /** Repainting with the same paints gives the same matrix. */
    lemma {:induction false} CellAfterIdempotent(ps: seq<Paint>, r: int, c: int, prior: int)
      ensures CellAfter(ps, r, c, CellAfter(ps, r, c, prior)) == CellAfter(ps, r, c, prior)
      decreases |ps|
    {
      if ps != [] && !Covers(ps[|ps| - 1], r, c) {
        CellAfterIdempotent(ps[..|ps| - 1], r, c, prior);
        CellAfterUncovered(ps[..|ps| - 1], r, c, prior);
      }
    }

    /** A cell either keeps its prior value, when no paint covers it, or
        takes the value of a paint that does. */
    lemma {:induction false} CellAfterUncovered(ps: seq<Paint>, r: int, c: int, prior: int)
      ensures (forall k :: 0 <= k < |ps| ==> !Covers(ps[k], r, c)) ==> CellAfter(ps, r, c, prior) == prior
      ensures (exists k :: 0 <= k < |ps| && Covers(ps[k], r, c)) ==>
                CellAfter(ps, r, c, prior) == CellAfter(ps, r, c, CellAfter(ps, r, c, prior))
      decreases |ps|
    {
      if ps != [] {
        var q := ps[..|ps| - 1];
        CellAfterUncovered(q, r, c, prior);
        if !Covers(ps[|ps| - 1], r, c) && (exists k :: 0 <= k < |ps| && Covers(ps[k], r, c)) {
          var k :| 0 <= k < |ps| && Covers(ps[k], r, c);
          assert q[k] == ps[k];
          CellAfterUncovered(q, r, c, CellAfter(q, r, c, prior));
          CellAfterLastCover(q, r, c, prior, CellAfter(q, r, c, prior));
        }
      }
    }

    /** Once some paint covers a cell, its final value does not depend on the
        prior one. */
    lemma {:induction false} CellAfterLastCover(ps: seq<Paint>, r: int, c: int, p1: int, p2: int)
      requires exists k :: 0 <= k < |ps| && Covers(ps[k], r, c)
      ensures CellAfter(ps, r, c, p1) == CellAfter(ps, r, c, p2)
      decreases |ps|
    {
      if !Covers(ps[|ps| - 1], r, c) {
        var k :| 0 <= k < |ps| && Covers(ps[k], r, c);
        assert k < |ps| - 1;
        assert ps[..|ps| - 1][k] == ps[k];
        CellAfterLastCover(ps[..|ps| - 1], r, c, p1, p2);
      }
    }

    predicate IsMatrix(m: seq<seq<int>>)
    {
      |m| == height && forall r :: 0 <= r < height ==> |m[r]| == width
    }

    /** The contents of the occupancy matrix, row by row. */
    ghost function Snapshot(): (m: seq<seq<int>>)
      reads cells
      requires Shaped()
      ensures IsMatrix(m)
      ensures forall r, c :: 0 <= r < height && 0 <= c < width ==> m[r][c] == cells[r, c]
    {
      seq(height, r reads cells =>
        seq(width, c reads cells => if 0 <= r < height && 0 <= c < width then cells[r, c] else FREE))
    }

    /** The matrix holds `base` with the paints `ps` applied in order. */
    ghost predicate PaintedOver(ps: seq<Paint>, base: seq<seq<int>>)
      reads cells
    {
      Shaped() && IsMatrix(base)
      && forall r, c :: 0 <= r < height && 0 <= c < width ==> cells[r, c] == CellAfter(ps, r, c, base[r][c])
    }

    /** `set_grid`: the cells of the numpy slice of the rectangle take
        `value`; every other cell is unchanged. */
    method SetGrid(x: real, y: real, hw: real, hh: real, value: int)
      requires Shaped()
      modifies cells
      ensures forall r, c :: 0 <= r < height && 0 <= c < width ==>
                cells[r, c] == if Covers(Paint(x, y, hw, hh, value), r, c) then value else old(cells[r, c])
    {
      var rlo := SliceIndex(MaxInt(0, Ceil(y - hh)), height);
      var rhi := MaxInt(rlo, SliceIndex(MinInt(height, Ceil(y + hh)), height));
      var clo := SliceIndex(MaxInt(0, Ceil(x - hw)), width);
      var chi := MaxInt(clo, SliceIndex(MinInt(width, Ceil(x + hw)), width));
      var r := rlo;
      while r < rhi
        invariant rlo <= r <= rhi
        invariant forall i, j :: 0 <= i < height && 0 <= j < width ==>
                    cells[i, j] == if rlo <= i < r && clo <= j < chi then value else old(cells[i, j])
      {
        var c := clo;
        while c < chi
          invariant clo <= c <= chi
          invariant forall i, j :: 0 <= i < height && 0 <= j < width ==>
                      cells[i, j] == if (rlo <= i < r && clo <= j < chi) || (i == r && clo <= j < c)
                                     then value else old(cells[i, j])
        {
          cells[r, c] := value;
          c := c + 1;
        }
        r := r + 1;
      }
    }

    /** `set_grid` for the paint `p`, tracked as one more paint over `base`. */
    method Apply(p: Paint, ghost ps: seq<Paint>, ghost base: seq<seq<int>>)
      requires PaintedOver(ps, base)
      modifies cells
      ensures PaintedOver(ps + [p], base)
    {
      SetGrid(p.x, p.y, p.hw, p.hh, p.value);
      forall r, c | 0 <= r < height && 0 <= c < width
        ensures cells[r, c] == CellAfter(ps + [p], r, c, base[r][c])
      {
        CellAfterSnoc(ps, p, r, c, base[r][c]);
      }
    }

    /** Paints `ps` in order, one `set_grid` each (`set_obstacles`,
        `set_targets`). */
    method PaintAll(ps: seq<Paint>, ghost done: seq<Paint>, ghost base: seq<seq<int>>)
      requires PaintedOver(done, base)
      modifies cells
      ensures PaintedOver(done + ps, base)
    {
      var k := 0;
      assert done + ps[..0] == done;
      while k < |ps|
        invariant 0 <= k <= |ps|
        invariant PaintedOver(done + ps[..k], base)
      {
        assert done + ps[..k + 1] == done + ps[..k] + [ps[k]];
        Apply(ps[k], done + ps[..k], base);
        k := k + 1;
      }
      assert ps[..k] == ps;
    }

    /** `pos_change`: each agent's last square is cleared and its current
        square marked, agent after agent. */
    method PosChange()
      requires Shaped()
      modifies cells
      ensures PaintedOver(AgentPaints(agents), old(Snapshot()))
    {
      ghost var base := Snapshot();
      var k := 0;
      while k < |agents|
        invariant 0 <= k <= |agents|
        invariant PaintedOver(AgentPaints(agents[..k]), base)
      {
        var a := agents[k];
        assert agents[..k + 1][..k] == agents[..k];
        var p0 := Paint(a.lastX, a.lastY, a.halfSize, a.halfSize, FREE);
        var p1 := Paint(a.x, a.y, a.halfSize, a.halfSize, AGENT);
        Apply(p0, AgentPaints(agents[..k]), base);
        Apply(p1, AgentPaints(agents[..k]) + [p0], base);
        assert AgentPaints(agents[..k + 1]) == AgentPaints(agents[..k]) + [p0] + [p1];
        k := k + 1;
      }
      assert agents[..k] == agents;
    }

    /** Running `pos_change` a second time, with no move in between, leaves
        the matrix as the first run left it. */
    lemma PosChangeIdempotent(base: seq<seq<int>>)
      requires PaintedOver(AgentPaints(agents), base)
      ensures PaintedOver(AgentPaints(agents), Snapshot())
    {
      forall r, c | 0 <= r < height && 0 <= c < width
        ensures cells[r, c] == CellAfter(AgentPaints(agents), r, c, Snapshot()[r][c])
      {
        CellAfterIdempotent(AgentPaints(agents), r, c, base[r][c]);
      }
    }

    /** `remove_target`: the target's square is cleared. */
    method RemoveTarget(x: real, y: real, halfSize: real)
      requires Shaped()
      modifies cells
      ensures forall r, c :: 0 <= r < height && 0 <= c < width ==>
                cells[r, c] == if Covers(Paint(x, y, halfSize, halfSize, FREE), r, c) then FREE else old(cells[r, c])
    {
      SetGrid(x, y, halfSize, halfSize, FREE);
    }

    /** `check_overlap`: true exactly when some object overlaps the
        rectangle; false for an empty list. */
    method CheckOverlap(x: real, y: real, hw: real, hh: real, objects: seq<Box>) returns (hit: bool)
      ensures hit <==> AnyOverlap(x, y, hw, hh, objects)
    {
      var k := 0;
      while k < |objects|
        invariant 0 <= k <= |objects|
        invariant forall j :: 0 <= j < k ==> !Overlap(x, y, hw, hh, objects[j])
      {
        var o := objects[k];
        var dx := Abs(x - o.cx);
        var dy := Abs(y - o.cy);
        if dx < hw + o.hw && dy < hh + o.hh {
          return true;
        }
        k := k + 1;
      }
      return false;
    }

    /** `total_distance_covered`, with `math.dist` built on `sqrt`. */
    method TotalDistanceCovered(sqrt: real -> real) returns (total: real)
      requires Valid()
      ensures total == TotalDistance(agents, sqrt)
    {
      total := 0.0;
      var k := 0;
      while k < |agents|
        invariant 0 <= k <= |agents|
        invariant forall a :: a in agents[..k] ==> a in agents
        invariant total == TotalDistance(agents[..k], sqrt)
      {
        var a := agents[k];
        assert a in agents;
        assert agents[..k + 1][..k] == agents[..k];
        var i := 0;
        var part := 0.0;
        while i < |a.listX| - 1
          invariant 0 <= i <= |a.listX| - 1
          invariant part == PathLength(a.listX[..i + 1], a.listY[..i + 1], sqrt)
        {
          assert a.listX[..i + 2][..i + 1] == a.listX[..i + 1];
          assert a.listY[..i + 2][..i + 1] == a.listY[..i + 1];
          part := part + sqrt(SqDist(a.listX[i], a.listY[i], a.listX[i + 1], a.listY[i + 1]));
          i := i + 1;
        }
        assert a.listX[..i + 1] == a.listX && a.listY[..i + 1] == a.listY;
        total := total + part;
        k := k + 1;
      }
      assert agents[..k] == agents;
    }

    /** `Grid.__init__`: an all-zero matrix, the safe space painted 4, the
        agents at their start positions, then the obstacles and the targets,
        each either drawn at random or given. One stream of `random.random()`
        values feeds obstacles first, then targets. */
    constructor(side: nat, numberAgents: nat, agentHalfSize: real, agentRadius: real,
                obstacleLayout: Layout, obstacleMin: real, obstacleMax: real,
                targetLayout: Layout, targetHalfSize: real,
                velocityDraws: seq<(Unit, Unit)>, draws: seq<Unit>)
      requires |velocityDraws| == numberAgents
      ensures Valid() && width == side && height == side
      ensures this.agentHalfSize == agentHalfSize && this.agentRadius == agentRadius
      ensures this.obstacleMin == obstacleMin && this.obstacleMax == obstacleMax
      ensures this.targetHalfSize == targetHalfSize
      ensures safeSpace == Square(5.0, (side / 2) as real, 5.0)
      ensures |agents| == numberAgents
      ensures forall a :: a in agents ==> fresh(a)
      ensures forall i :: 0 <= i < numberAgents ==> StartsAt(agents[i], i)
      ensures obstacleLayout.Given? ==> obstacles == obstacleLayout.items
      ensures obstacleLayout.Random? ==> ObstaclesFit(obstacles)
      ensures forall t :: t in targets ==> t.Some?
      ensures targetLayout.Given? ==> targets == SomeAll(targetLayout.items)
      ensures targetLayout.Random? ==> |targets| <= targetLayout.count && TargetsFit(Present(targets))
      ensures PaintedOver([Paint(5.0, (side / 2) as real, 5.0, 5.0, SAFE)]
                          + StartPaints(numberAgents, agentRadius, agentHalfSize, side)
                          + BoxPaints(obstacles, OBSTACLE) + BoxPaints(Present(targets), TARGET),
                          Zeros(side, side))
    {
      width := side;
      height := side;
      this.agentHalfSize := agentHalfSize;
      this.agentRadius := agentRadius;
      this.obstacleMin := obstacleMin;
      this.obstacleMax := obstacleMax;
      this.targetHalfSize := targetHalfSize;
      agents := [];
      obstacles := [];
      targets := [];
      cells := new int[side, side]((r, c) => FREE);
      safeSpace := Square(5.0, (side / 2) as real, 5.0);
      new;
      ghost var zeros := Zeros(side, side);
      assert PaintedOver([], zeros);
      var safe := Paint(5.0, (side / 2) as real, 5.0, 5.0, SAFE);
      Apply(safe, [], zeros);
      assert [] + [safe] == [safe];
      InitializeAgents(numberAgents, velocityDraws, [safe], zeros);
      assert agents[0..] == agents;
      Populate(obstacleLayout, targetLayout, draws, [safe] + StartPaints(numberAgents, agentRadius, agentHalfSize, side), zeros);
    }

    /** The second half of `Grid.__init__`: obstacles, then targets, each
        drawn at random or given, painted over `ps`. */
    method Populate(obstacleLayout: Layout, targetLayout: Layout, draws: seq<Unit>,
                    ghost ps: seq<Paint>, ghost base: seq<seq<int>>)
      requires PaintedOver(ps, base)
      modifies this`obstacles, this`targets, cells
      ensures obstacleLayout.Given? ==> obstacles == obstacleLayout.items
      ensures obstacleLayout.Random? ==> ObstaclesFit(obstacles)
      ensures forall t :: t in targets ==> t.Some?
      ensures targetLayout.Given? ==> targets == SomeAll(targetLayout.items)
      ensures targetLayout.Random? ==> |targets| <= targetLayout.count && TargetsFit(Present(targets))
      ensures PaintedOver(ps + BoxPaints(obstacles, OBSTACLE) + BoxPaints(Present(targets), TARGET), base)
    {
      var rest := PopulateObstacles(obstacleLayout, draws, ps, base);
      PopulateTargets(targetLayout, rest, ps + BoxPaints(obstacles, OBSTACLE), base);
    }

    /** The obstacle half of `Populate`; returns the draws left over. */
    method PopulateObstacles(layout: Layout, draws: seq<Unit>, ghost ps: seq<Paint>, ghost base: seq<seq<int>>)
      returns (rest: seq<Unit>)
      requires PaintedOver(ps, base)
      modifies this`obstacles, cells
      ensures layout.Given? ==> obstacles == layout.items
      ensures layout.Random? ==> ObstaclesFit(obstacles)
      ensures PaintedOver(ps + BoxPaints(obstacles, OBSTACLE), base)
    {
      rest := draws;
      if layout.Given? {
        SetObstacles(layout.items, ps, base);
      } else {
        var primaries;
        rest, primaries := InitializeObstacles(layout.count, draws, ps, base);
      }
    }

    /** The target half of `Populate`. */
    method PopulateTargets(layout: Layout, draws: seq<Unit>, ghost ps: seq<Paint>, ghost base: seq<seq<int>>)
      requires PaintedOver(ps, base)
      modifies this`targets, cells
      ensures forall t :: t in targets ==> t.Some?
      ensures layout.Given? ==> targets == SomeAll(layout.items)
      ensures layout.Random? ==> |targets| <= layout.count && TargetsFit(Present(targets))
      ensures PaintedOver(ps + BoxPaints(Present(targets), TARGET), base)
    {
      if layout.Given? {
        SetTargets(layout.items, ps, base);
        PresentSomeAll(layout.items);
      } else {
        var rest, placed := InitializeTargets(layout.count, draws, ps, base);
        PresentSomeAll(placed);
      }
    }

    /** Agent `a` is the one `initialize_agents` creates as number `i`. */
    ghost predicate StartsAt(a: Agent, i: nat)
      reads a
    {
      (a.x, a.y) == StartPosition(i, agentRadius, agentHalfSize, height)
      && a.radius == agentRadius && a.halfSize == agentHalfSize
      && a.Valid() && a.listX == [a.x] && a.listY == [a.y]
      && a.pbest == Inf && a.targetsFound == 0
    }

    lemma {:induction false} CellAfterAppend(ps: seq<Paint>, qs: seq<Paint>, r: int, c: int, prior: int)
      ensures CellAfter(ps + qs, r, c, prior) == CellAfter(qs, r, c, CellAfter(ps, r, c, prior))
      decreases |qs|
    {
      if qs == [] {
        assert ps + qs == ps;
      } else {
        var q := qs[..|qs| - 1];
        assert ps + qs == (ps + q) + [qs[|qs| - 1]];
        CellAfterSnoc(ps + q, qs[|qs| - 1], r, c, prior);
        CellAfterAppend(ps, q, r, c, prior);
      }
    }

    /** Creates agent number `i` at its start position and paints its square 2. */
    method AddAgent(i: nat, draw: (Unit, Unit), ghost ps: seq<Paint>, ghost base: seq<seq<int>>)
      requires Valid() && PaintedOver(ps, base)
      modifies this`agents, cells
      ensures Valid()
      ensures |agents| == |old(agents)| + 1 && agents[..|old(agents)|] == old(agents)
      ensures fresh(agents[|old(agents)|]) && StartsAt(agents[|old(agents)|], i)
      ensures PaintedOver(ps + [StartPaints(i + 1, agentRadius, agentHalfSize, height)[i]], base)
    {
      var pos := StartPosition(i, agentRadius, agentHalfSize, height);
      var a := new Agent(agentRadius, pos.0, pos.1, agentHalfSize, draw.0, draw.1);
      agents := agents + [a];
      Apply(Paint(pos.0, pos.1, a.halfSize, a.halfSize, AGENT), ps, base);
    }

    /** `initialize_agents`: agent `i` is created at `StartPosition(i)` and
        its square painted 2. */
    method InitializeAgents(numberAgents: nat, velocityDraws: seq<(Unit, Unit)>,
                            ghost ps: seq<Paint>, ghost base: seq<seq<int>>)
      requires Valid() && |velocityDraws| == numberAgents && PaintedOver(ps, base)
      modifies this`agents, cells
      ensures Valid()
      ensures |agents| == |old(agents)| + numberAgents && agents[..|old(agents)|] == old(agents)
      ensures forall a :: a in agents[|old(agents)|..] ==> fresh(a)
      ensures forall i :: 0 <= i < numberAgents ==> StartsAt(agents[|old(agents)|..][i], i)
      ensures PaintedOver(ps + StartPaints(numberAgents, agentRadius, agentHalfSize, height), base)
    {
      var n0 := |agents|;
      var i := 0;
      assert ps + StartPaints(0, agentRadius, agentHalfSize, height) == ps;
      while i < numberAgents
        invariant 0 <= i <= numberAgents
        invariant Valid()
        invariant |agents| == n0 + i && agents[..n0] == old(agents)
        invariant forall a :: a in agents[n0..] ==> fresh(a)
        invariant forall j :: 0 <= j < i ==> StartsAt(agents[n0..][j], j)
        invariant PaintedOver(ps + StartPaints(i, agentRadius, agentHalfSize, height), base)
      {
        ghost var prev := agents;
        AddAgent(i, velocityDraws[i], ps + StartPaints(i, agentRadius, agentHalfSize, height), base);
        assert agents[n0..] == prev[n0..] + [agents[n0 + i]];
        assert ps + StartPaints(i + 1, agentRadius, agentHalfSize, height)
               == ps + StartPaints(i, agentRadius, agentHalfSize, height)
                  + [StartPaints(i + 1, agentRadius, agentHalfSize, height)[i]];
        i := i + 1;
      }
    }

    /** `set_obstacles`: predefined obstacles are stored and painted 1. */
    method SetObstacles(obs: seq<Box>, ghost ps: seq<Paint>, ghost base: seq<seq<int>>)
      requires PaintedOver(ps, base)
      modifies this`obstacles, cells
      ensures obstacles == obs
      ensures PaintedOver(ps + BoxPaints(obs, OBSTACLE), base)
    {
      obstacles := obs;
      PaintAll(BoxPaints(obs, OBSTACLE), ps, base);
    }

    /** `set_targets`: predefined targets are stored and painted 3. */
    method SetTargets(ts: seq<Box>, ghost ps: seq<Paint>, ghost base: seq<seq<int>>)
      requires PaintedOver(ps, base)
      modifies this`targets, cells
      ensures targets == SomeAll(ts)
      ensures PaintedOver(ps + BoxPaints(ts, TARGET), base)
    {
      targets := SomeAll(ts);
      PaintAll(BoxPaints(ts, TARGET), ps, base);
    }

    /** The rectangle lies in the arena, edges included. */
    predicate InArena(b: Box)
    {
      b.hw <= b.cx <= width as real - b.hw && b.hh <= b.cy <= height as real - b.hh
    }

    /** The checks `initialize_obstacles` and `place_adjacent_obstacles`
        make before appending `b` after `prev`: no overlap with an earlier
        obstacle, an agent or the safe space. */
    ghost predicate ObstacleClear(prev: seq<Box>, b: Box)
      reads this`agents, agents
    {
      !AnyOverlap(b.cx, b.cy, b.hw, b.hh, prev)
      && !AnyOverlap(b.cx, b.cy, b.hw, b.hh, AgentBoxes(agents))
      && !AnyOverlap(b.cx, b.cy, b.hw, b.hh, [safeSpace])
    }

    /** The centre lies inside the arena, away from its edges by the half
        sizes, whenever the arena is wide and tall enough for that. */
    predicate Centred(b: Box)
    {
      (b.hw <= width as real - b.hw ==> b.hw <= b.cx <= width as real - b.hw)
      && (b.hh <= height as real - b.hh ==> b.hh <= b.cy <= height as real - b.hh)
    }

    /** What every obstacle satisfies once it is appended after `prev`. */
    ghost predicate ObstacleFits(prev: seq<Box>, b: Box)
      reads this`agents, agents
    {
      ObstacleClear(prev, b) && Centred(b)
    }

    ghost predicate ObstaclesFit(obs: seq<Box>)
      reads this`agents, agents
    {
      forall k :: 0 <= k < |obs| ==> ObstacleFits(obs[..k], obs[k])
    }

    lemma ObstaclesFitSnoc(obs: seq<Box>, b: Box)
      requires ObstaclesFit(obs) && ObstacleFits(obs, b)
      ensures ObstaclesFit(obs + [b])
    {
      forall k | 0 <= k < |obs| + 1
        ensures ObstacleFits((obs + [b])[..k], (obs + [b])[k])
      {
        if k < |obs| {
          assert (obs + [b])[..k] == obs[..k];
        } else {
          assert (obs + [b])[..k] == obs;
        }
      }
    }

    /** The matrix holds `base` with the paints `ps` and then every obstacle
        so far, painted 1, applied in order. */
    ghost predicate ObstaclesPainted(ps: seq<Paint>, base: seq<seq<int>>)
      reads this`obstacles, cells
    {
      PaintedOver(ps + BoxPaints(obstacles, OBSTACLE), base)
    }

    /** The three `check_overlap` calls an obstacle attempt makes: against
        the obstacles so far, the agents' squares and the safe space. */
    method ObstacleCheck(b: Box) returns (ok: bool)
      ensures ok <==> ObstacleClear(obstacles, b)
    {
      var onObstacle := CheckOverlap(b.cx, b.cy, b.hw, b.hh, obstacles);
      var onAgent := CheckOverlap(b.cx, b.cy, b.hw, b.hh, AgentBoxes(agents));
      var onSafe := CheckOverlap(b.cx, b.cy, b.hw, b.hh, [safeSpace]);
      ok := !onObstacle && !onAgent && !onSafe;
    }

    /** Appends an obstacle that fits and paints it 1. */
    method AppendObstacle(b: Box, ghost ps: seq<Paint>, ghost base: seq<seq<int>>)
      requires ObstaclesPainted(ps, base) && ObstaclesFit(obstacles) && ObstacleFits(obstacles, b)
      modifies this`obstacles, cells
      ensures obstacles == old(obstacles) + [b]
      ensures ObstaclesFit(obstacles) && ObstaclesPainted(ps, base)
    {
      var grown := obstacles + [b];
      ObstaclesFitSnoc(obstacles, b);
      ghost var done := ps + BoxPaints(obstacles, OBSTACLE);
      BoxPaintsAppend(obstacles, [b], OBSTACLE);
      assert BoxPaints([b], OBSTACLE) == [BoxPaint(b, OBSTACLE)];
      assert ps + BoxPaints(grown, OBSTACLE) == done + [BoxPaint(b, OBSTACLE)];
      Apply(BoxPaint(b, OBSTACLE), done, base);
      obstacles := grown;
    }

    /** One obstacle attempt: if the checks pass, the obstacle is
        appended and painted 1; otherwise nothing changes. */
    method TryPlaceObstacle(b: Box, ghost ps: seq<Paint>, ghost base: seq<seq<int>>) returns (ok: bool)
      requires ObstaclesPainted(ps, base) && ObstaclesFit(obstacles) && Centred(b)
      modifies this`obstacles, cells
      ensures ok <==> ObstacleClear(old(obstacles), b)
      ensures obstacles == if ok then old(obstacles) + [b] else old(obstacles)
      ensures ObstaclesFit(obstacles) && ObstaclesPainted(ps, base)
    {
      ok := ObstacleCheck(b);
      if ok {
        AppendObstacle(b, ps, base);
      }
    }

    /** `initialize_obstacles`: `count` obstacles with integer half sizes
        drawn from `[obstacleMin, obstacleMax]`, each retried until it fits,
        each followed by a chance of adjacent growth. `draws` is the stream of
        `random.random()` values; the retry loop ends when it runs dry. */
    method InitializeObstacles(count: nat, draws: seq<Unit>, ghost ps: seq<Paint>, ghost base: seq<seq<int>>)
      returns (rest: seq<Unit>, primaries: nat)
      requires PaintedOver(ps, base)
      modifies this`obstacles, cells
      ensures ObstaclesFit(obstacles) && ObstaclesPainted(ps, base)
      ensures primaries <= count && (primaries < count ==> |rest| < 4)
      ensures |rest| <= |draws|
    {
      obstacles := [];
      rest := draws;
      primaries := 0;
      assert ps + BoxPaints([], OBSTACLE) == ps;
      while primaries < count
        invariant primaries <= count && |rest| <= |draws|
        invariant ObstaclesFit(obstacles) && ObstaclesPainted(ps, base)
      {
        var placed := false;
        while !placed
          invariant |rest| <= |draws|
          invariant ObstaclesFit(obstacles) && ObstaclesPainted(ps, base)
          decreases |rest|, if placed then 0 else 1
        {
          if |rest| < 4 {
            return;
          }
          rest, placed := DrawObstacle(rest, ps, base);
        }
        primaries := primaries + 1;
      }
    }

    /** One attempt of `initialize_obstacles`: four draws give the half sizes
        and the centre; a placed obstacle may then grow neighbours. */
    method DrawObstacle(draws: seq<Unit>, ghost ps: seq<Paint>, ghost base: seq<seq<int>>)
      returns (rest: seq<Unit>, placed: bool)
      requires |draws| >= 4 && ObstaclesFit(obstacles) && ObstaclesPainted(ps, base)
      modifies this`obstacles, cells
      ensures |rest| < |draws|
      ensures |old(obstacles)| <= |obstacles| && obstacles[..|old(obstacles)|] == old(obstacles)
      ensures placed <==> |old(obstacles)| < |obstacles|
      ensures ObstaclesFit(obstacles) && ObstaclesPainted(ps, base)
    {
      var hw := Trunc(Uniform(obstacleMin, obstacleMax, draws[0])) as real;
      var hh := Trunc(Uniform(obstacleMin, obstacleMax, draws[1])) as real;
      var x := Uniform(hw, width as real - hw, draws[2]);
      var y := Uniform(hh, height as real - hh, draws[3]);
      rest := draws[4..];
      placed := TryPlaceObstacle(Box(x, y, hw, hh), ps, base);
      if placed {
        var attempts;
        rest, attempts := PlaceAdjacentObstacles(x, y, hw, hh, rest, ps, base);
      }
    }

    /** `place_adjacent_obstacles`: with one draw below 0.5 the obstacle may
        grow a neighbour, tried at most 10 times, each neighbour growing in
        turn. The neighbour's vertical offset takes the horizontal one when its
        draw is below 0.5, as the source writes it. */
    method PlaceAdjacentObstacles(x: real, y: real, hwPrev: real, hhPrev: real, draws: seq<Unit>,
                                  ghost ps: seq<Paint>, ghost base: seq<seq<int>>)
      returns (rest: seq<Unit>, attempts: nat)
      requires ObstaclesFit(obstacles) && ObstaclesPainted(ps, base)
      modifies this`obstacles, cells
      ensures attempts <= 10 && |rest| <= |draws|
      ensures |old(obstacles)| <= |obstacles| && obstacles[..|old(obstacles)|] == old(obstacles)
      ensures ObstaclesFit(obstacles) && ObstaclesPainted(ps, base)
      ensures InArenaFrom(obstacles, |old(obstacles)|)
      decreases |draws|
    {
      rest := draws;
      attempts := 0;
      if |draws| == 0 || draws[0] >= 0.5 {
        if |draws| > 0 { rest := draws[1..]; }
        return;
      }
      rest := draws[1..];
      var n0 := |obstacles|;
      var placed := false;
      while !placed && attempts < 10
        invariant attempts <= 10 && |rest| < |draws|
        invariant n0 <= |obstacles| && obstacles[..n0] == old(obstacles)
        invariant ObstaclesFit(obstacles) && ObstaclesPainted(ps, base)
        invariant InArenaFrom(obstacles, n0)
        decreases 10 - attempts
      {
        attempts := attempts + 1;
        if |rest| < 6 {
          return;
        }
        ghost var prev := obstacles;
        rest, placed := TryAdjacent(x, y, hwPrev, hhPrev, rest, ps, base);
        InArenaFromJoin(prev, obstacles, n0);
        assert obstacles[..n0] == prev[..n0];
      }
    }

    /** Every obstacle from index `n0` on lies in the arena. */
    predicate InArenaFrom(obs: seq<Box>, n0: nat)
    {
      forall k :: n0 <= k < |obs| ==> InArena(obs[k])
    }

    lemma InArenaFromJoin(mid: seq<Box>, obs: seq<Box>, n0: nat)
      requires n0 <= |mid| <= |obs| && obs[..|mid|] == mid
      requires InArenaFrom(mid, n0) && InArenaFrom(obs, |mid|)
      ensures InArenaFrom(obs, n0)
    {
      forall k | n0 <= k < |obs|
        ensures InArena(obs[k])
      {
        if k < |mid| {
          assert obs[k] == mid[k];
        }
      }
    }

    /** One attempt of `place_adjacent_obstacles`: six draws give the
        candidate neighbour; if it lies in the arena and passes the checks it
        is placed and grows neighbours in turn. */
    method TryAdjacent(x: real, y: real, hwPrev: real, hhPrev: real, draws: seq<Unit>,
                       ghost ps: seq<Paint>, ghost base: seq<seq<int>>)
      returns (rest: seq<Unit>, placed: bool)
      requires |draws| >= 6 && ObstaclesFit(obstacles) && ObstaclesPainted(ps, base)
      modifies this`obstacles, cells
      ensures |rest| < |draws|
      ensures |old(obstacles)| <= |obstacles| && obstacles[..|old(obstacles)|] == old(obstacles)
      ensures placed <==> |old(obstacles)| < |obstacles|
      ensures ObstaclesFit(obstacles) && ObstaclesPainted(ps, base)
      ensures InArenaFrom(obstacles, |old(obstacles)|)
      decreases |draws|
    {
      ghost var before := obstacles;
      assert before[..|before|] == before;
      var b := AdjacentBox(x, y, hwPrev, hhPrev, draws[..6], obstacleMin, obstacleMax);
      rest := draws[6..];
      placed := false;
      if InArena(b) {
        placed := TryPlaceObstacle(b, ps, base);
        if placed {
          ghost var grown := obstacles;
          assert grown[..|before|] == before;
          assert InArenaFrom(grown, |before|);
          var inner;
          rest, inner := PlaceAdjacentObstacles(b.cx, b.cy, b.hw, b.hh, rest, ps, base);
          InArenaFromJoin(grown, obstacles, |before|);
          assert obstacles[..|before|] == grown[..|before|];
        }
      }
    }

    /** What a target satisfies when it is appended after `prev`. */
    ghost predicate TargetFits(prev: seq<Box>, b: Box)
      reads this`agents, agents, this`obstacles
    {
      !AnyOverlap(b.cx, b.cy, b.hw, b.hh, obstacles)
      && !AnyOverlap(b.cx, b.cy, b.hw, b.hh, AgentBoxes(agents))
      && !AnyOverlap(b.cx, b.cy, b.hw, b.hh, prev)
      && !AnyOverlap(b.cx, b.cy, b.hw, b.hh, [safeSpace])
      && b.hw == b.hh == targetHalfSize
    }

    ghost predicate TargetsFit(ts: seq<Box>)
      reads this`agents, agents, this`obstacles
    {
      forall k :: 0 <= k < |ts| ==> TargetFits(ts[..k], ts[k])
    }

    /** The four `check_overlap` calls a target attempt makes: against the
        obstacles, the agents' squares, the targets placed so far and the
        safe space. */
    method TargetCheck(placed: seq<Box>, b: Box) returns (ok: bool)
      requires b.hw == b.hh == targetHalfSize
      ensures ok <==> TargetFits(placed, b)
    {
      var onObstacle := CheckOverlap(b.cx, b.cy, b.hw, b.hh, obstacles);
      var onAgent := CheckOverlap(b.cx, b.cy, b.hw, b.hh, AgentBoxes(agents));
      var onTarget := CheckOverlap(b.cx, b.cy, b.hw, b.hh, placed);
      var onSafe := CheckOverlap(b.cx, b.cy, b.hw, b.hh, [safeSpace]);
      ok := !onObstacle && !onAgent && !onTarget && !onSafe;
    }

    /** The checks every target attempt makes; if they pass, the target is
        appended as `[x, y, target_half_size]` and painted 3. */
    method TryPlaceTarget(placed: seq<Box>, x: real, y: real, ghost ps: seq<Paint>, ghost base: seq<seq<int>>)
      returns (ok: bool, now: seq<Box>)
      requires PaintedOver(ps, base) && TargetsFit(placed) && targets == SomeAll(placed)
      modifies this`targets, cells
      ensures ok <==> TargetFits(placed, Square(x, y, targetHalfSize))
      ensures now == if ok then placed + [Square(x, y, targetHalfSize)] else placed
      ensures targets == SomeAll(now) && TargetsFit(now)
      ensures PaintedOver(if ok then ps + [BoxPaint(Square(x, y, targetHalfSize), TARGET)] else ps, base)
    {
      var b := Square(x, y, targetHalfSize);
      ok := TargetCheck(placed, b);
      now := placed;
      if ok {
        now := AppendTarget(placed, b, ps, base);
      }
    }

    lemma TargetsFitSnoc(ts: seq<Box>, b: Box)
      requires TargetsFit(ts) && TargetFits(ts, b)
      ensures TargetsFit(ts + [b])
    {
      forall k | 0 <= k < |ts| + 1
        ensures TargetFits((ts + [b])[..k], (ts + [b])[k])
      {
        if k < |ts| {
          assert (ts + [b])[..k] == ts[..k];
        } else {
          assert (ts + [b])[..k] == ts;
        }
      }
    }

    /** Appends a target that fits and paints it 3. */
    method AppendTarget(placed: seq<Box>, b: Box, ghost ps: seq<Paint>, ghost base: seq<seq<int>>)
      returns (now: seq<Box>)
      requires PaintedOver(ps, base) && TargetsFit(placed) && targets == SomeAll(placed)
      requires TargetFits(placed, b)
      modifies this`targets, cells
      ensures now == placed + [b]
      ensures targets == SomeAll(now) && TargetsFit(now)
      ensures PaintedOver(ps + [BoxPaint(b, TARGET)], base)
    {
      TargetsFitSnoc(placed, b);
      now := placed + [b];
      assert SomeAll(now) == SomeAll(placed) + [Some(b)];
      Apply(BoxPaint(b, TARGET), ps, base);
      targets := targets + [Some(b)];
    }

    /** `initialize_targets`: `count` targets of `target_half_size`, each
        retried until it clears obstacles, agents, earlier targets and the
        safe space. `draws` is the stream of `random.random()` values; the
        retry loop ends when it runs dry. */
    method InitializeTargets(count: nat, draws: seq<Unit>, ghost ps: seq<Paint>, ghost base: seq<seq<int>>)
      returns (rest: seq<Unit>, placed: seq<Box>)
      requires PaintedOver(ps, base)
      modifies this`targets, cells
      ensures targets == SomeAll(placed) && TargetsFit(placed)
      ensures |placed| <= count && (|placed| < count ==> |rest| < 2)
      ensures PaintedOver(ps + BoxPaints(placed, TARGET), base)
    {
      targets := [];
      placed := [];
      rest := draws;
      assert ps + BoxPaints([], TARGET) == ps;
      while |placed| < count
        invariant |placed| <= count
        invariant targets == SomeAll(placed) && TargetsFit(placed)
        invariant PaintedOver(ps + BoxPaints(placed, TARGET), base)
        decreases count - |placed|
      {
        var done := false;
        ghost var n := |placed|;
        while !done
          invariant targets == SomeAll(placed) && TargetsFit(placed)
          invariant PaintedOver(ps + BoxPaints(placed, TARGET), base)
          invariant |placed| == if done then n + 1 else n
          decreases |rest|, if done then 0 else 1
        {
          if |rest| < 2 {
            return;
          }
          var x := Uniform(targetHalfSize, width as real - targetHalfSize, rest[0]);
          var y := Uniform(targetHalfSize, height as real - targetHalfSize, rest[1]);
          rest := rest[2..];
          ghost var before := placed;
          done, placed := TryPlaceTarget(placed, x, y, ps + BoxPaints(placed, TARGET), base);
          if done {
            BoxPaintsAppend(before, [Square(x, y, targetHalfSize)], TARGET);
            assert ps + BoxPaints(placed, TARGET) == ps + BoxPaints(before, TARGET) + [BoxPaint(Square(x, y, targetHalfSize), TARGET)];
          }
        }
      }
    }
  }
}
