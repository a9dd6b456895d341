// The planning half of the exhaustive search (Exhaustive_search.py): the
// arena is cut into one region per agent along a divisor pair, and every
// region gets a zig-zag (boustrophedon) list of waypoints.

module ExhaustivePlan {
  import opened Numerics

  /** `[i for i in range(lo, n + 1) if n % i == 0]`. */
  function DivisorsFrom(n: nat, lo: nat): seq<nat>
    requires 1 <= lo
    decreases n + 1 - lo
  {
    if lo > n then []
    else if n % lo == 0 then [lo] + DivisorsFrom(n, lo + 1)
    else DivisorsFrom(n, lo + 1)
  }

  /** `divisors(n)`. */
  function Divisors(n: nat): seq<nat>
  {
    DivisorsFrom(n, 1)
  }

  /** The candidates from `lo` on that divide `n`, exactly, in strictly
      increasing order, all at least `lo`. */
  lemma {:induction false} DivisorsFromExact(n: nat, lo: nat)
    requires 1 <= lo
    ensures forall i :: i in DivisorsFrom(n, lo) <==> lo <= i <= n && n % i == 0
    ensures forall p, q :: 0 <= p < q < |DivisorsFrom(n, lo)| ==> DivisorsFrom(n, lo)[p] < DivisorsFrom(n, lo)[q]
    decreases n + 1 - lo
  {
    if lo <= n {
      DivisorsFromExact(n, lo + 1);
      var rest := DivisorsFrom(n, lo + 1);
      if n % lo == 0 {
        var ds := [lo] + rest;
        assert DivisorsFrom(n, lo) == ds;
        forall p, q | 0 <= p < q < |ds| ensures ds[p] < ds[q] {
          if p == 0 {
            assert ds[q] == rest[q - 1] && ds[q] in rest;
          } else {
            assert ds[p] == rest[p - 1] && ds[q] == rest[q - 1];
          }
        }
      }
    }
  }

  /** `divisors(n)` is exactly the divisors of `n` in `1..n`, ascending. */
  lemma DivisorsExact(n: nat)
    ensures forall i :: i in Divisors(n) <==> 1 <= i <= n && n % i == 0
    ensures forall p, q :: 0 <= p < q < |Divisors(n)| ==> Divisors(n)[p] < Divisors(n)[q]
  {
    DivisorsFromExact(n, 1);
  }

  /** `rows = divisors_list[len(divisors_list)//2]` and `cols = num_agents // rows`. */
  function Split(n: nat): (rc: (nat, nat))
    requires 1 <= n
    ensures 1 <= rc.0 && 1 <= rc.1 && rc.0 * rc.1 == n
  {
    DivisorsExact(n);
    assert n in Divisors(n);
    var ds := Divisors(n);
    var rows := ds[|ds| / 2];
    assert rows in ds;
    var cols := n / rows;
    assert rows * cols == n;
    (rows, cols)
  }

  /** A search region `(x_min, x_max, y_min, y_max)`. */
  datatype Region = Region(xMin: real, xMax: real, yMin: real, yMax: real)
  {
    predicate Contains(x: real, y: real)
    {
      xMin <= x <= xMax && yMin <= y <= yMax
    }
  }

  /** Region `(i, j)` of a `rows` by `cols` split of the `w` by `h` arena. */
  function Cell(rows: nat, cols: nat, w: real, h: real, i: int, j: int): Region
    requires 1 <= rows && 1 <= cols
  {
    var wr := w / cols as real;
    var hr := h / rows as real;
    Region(j as real * wr, (j + 1) as real * wr, i as real * hr, (i + 1) as real * hr)
  }

  lemma MulMono(a: nat, b: nat, c: nat)
    requires a <= b
    ensures a * c <= b * c
  {
    var d := b - a;
    assert b * c == a * c + d * c;
  }

  lemma ProductBound(i: nat, j: nat, rows: nat, cols: nat)
    requires i < rows && j < cols
    ensures i * cols + j < rows * cols
  {
    assert (i + 1) * cols == i * cols + cols;
    MulMono(i + 1, rows, cols);
  }

  lemma MulSign(d: int, c: int)
    requires 0 < c
    ensures 1 <= d ==> c <= d * c
    ensures d <= -1 ==> d * c <= -c
  {
    if d >= 1 {
      MulMono(1, d, c);
    } else if d <= -1 {
      MulMono(1, -d, c);
      assert (-d) * c == -(d * c);
    }
  }

  /** A multiple of `c` strictly between `-c` and `c` is zero. */
  lemma SmallMultiple(d: int, c: int)
    requires 0 < c && -c < d * c < c
    ensures d == 0
  {
    MulSign(d, c);
  }

  /** Index `i * cols + j` is row `i`, column `j` of a row-major layout. */
  lemma RowMajor(i: nat, j: nat, cols: nat)
    requires j < cols
    ensures (i * cols + j) / cols == i && (i * cols + j) % cols == j
  {
    var a := i * cols + j;
    var q, r := a / cols, a % cols;
    assert a == q * cols + r;
    assert (q - i) * cols == j - r;
    SmallMultiple(q - i, cols);
  }

  /** The regions of `exhaustive_search`: the whole arena for one agent;
      otherwise row by row, column by column, the cells of the `Split` of
      the agent count. */
  method Regions(n: nat, w: real, h: real) returns (regions: seq<Region>)
    requires 1 <= n
    ensures |regions| == n
    ensures n == 1 ==> regions == [Region(0.0, w, 0.0, h)]
    ensures n > 1 ==> forall k :: 0 <= k < n ==>
              regions[k] == Cell(Split(n).0, Split(n).1, w, h, k / Split(n).1, k % Split(n).1)
  {
    if n == 1 {
      return [Region(0.0, w, 0.0, h)];
    }
    var (rows, cols) := Split(n);
    regions := [];
    var i := 0;
    while i < rows
      invariant 0 <= i <= rows && |regions| == i * cols
      invariant forall k :: 0 <= k < |regions| ==> regions[k] == Cell(rows, cols, w, h, k / cols, k % cols)
    {
      var j := 0;
      while j < cols
        invariant 0 <= j <= cols && |regions| == i * cols + j
        invariant forall k :: 0 <= k < |regions| ==> regions[k] == Cell(rows, cols, w, h, k / cols, k % cols)
      {
        ProductBound(i, j, rows, cols);
        if |regions| < n {
          RowMajor(i, j, cols);
          regions := regions + [Cell(rows, cols, w, h, i, j)];
        }
        j := j + 1;
      }
      i := i + 1;
    }
  }

  lemma FloorCell(x: real, size: real, parts: nat) returns (j: nat)
    requires 0.0 < size && 1 <= parts && 0.0 <= x <= size
    ensures j < parts
    ensures j as real * (size / parts as real) <= x <= (j + 1) as real * (size / parts as real)
  {
    var part := size / parts as real;
    assert parts as real * part == size;
    var q := x / part;
    assert q * part == x;
    MulNonNeg(x, 1.0 / part);
    var f := Floor(q);
    if f >= parts {
      j := parts - 1;
      MulNonNeg(q - parts as real, part);
      assert (q - parts as real) * part == x - size;
      assert (j + 1) as real * part == size;
      assert j as real * part == size - part;
    } else {
      j := f;
      assert j as real <= q < (j + 1) as real;
      MulNonNeg(q - j as real, part);
      assert (q - j as real) * part == x - j as real * part;
      MulNonNeg((j + 1) as real - q, part);
      assert ((j + 1) as real - q) * part == (j + 1) as real * part - x;
    }
  }

  /** The cells of a split cover the arena: every point of `[0, w] x [0, h]`
      lies in the region of some index. */
  lemma CellsCover(rows: nat, cols: nat, w: real, h: real, x: real, y: real) returns (k: nat)
    requires 1 <= rows && 1 <= cols && 0.0 < w && 0.0 < h
    requires 0.0 <= x <= w && 0.0 <= y <= h
    ensures k < rows * cols
    ensures Cell(rows, cols, w, h, k / cols, k % cols).Contains(x, y)
  {
    var j := FloorCell(x, w, cols);
    var i := FloorCell(y, h, rows);
    ProductBound(i, j, rows, cols);
    RowMajor(i, j, cols);
    k := i * cols + j;
  }

  /** `int(max(2, int(hi - lo)) // step)`: the number of waypoints along one
      side of a region. */
  function Points(lo: real, hi: real, step: real): nat
    requires 0.0 < step
  {
    var q := MaxInt(2, Trunc(hi - lo)) as real / step;
    assert 0.0 < q;
    Floor(q)
  }

  /** `lo + (k + 0.5) * step`: the centre of step `k` along one side. */
  function Coord(lo: real, k: int, step: real): real
  {
    lo + (k as real + 0.5) * step
  }

  lemma CoordNext(lo: real, k: int, step: real)
    ensures Coord(lo, k + 1, step) == Coord(lo, k, step) + step
  {
    assert ((k + 1) as real + 0.5) * step == (k as real + 0.5) * step + step;
  }

  /** Waypoint `idx` of the zig-zag over `region`: row `idx / xp` at height
      `y_min + (row + 0.5) * step`, run left to right on even rows and right
      to left on odd ones, column `x_min + (x_idx + 0.5) * step`. */
  function Waypoint(region: Region, step: real, xp: nat, idx: nat): (real, real)
    requires 1 <= xp
  {
    var row := idx / xp;
    var col := idx % xp;
    var xIdx := if row % 2 == 0 then col else xp - 1 - col;
    (Coord(region.xMin, xIdx, step), Coord(region.yMin, row, step))
  }

  /** The pattern loop of `exhaustive_search` for one region, with
      `hor_step = vert_step = step`. */
  method Pattern(region: Region, step: real) returns (pattern: seq<(real, real)>)
    requires 0.0 < step
    ensures |pattern| == Points(region.xMin, region.xMax, step) * Points(region.yMin, region.yMax, step)
    ensures forall idx :: 0 <= idx < |pattern| ==>
              pattern[idx] == Waypoint(region, step, Points(region.xMin, region.xMax, step), idx)
  {
    var xp := Points(region.xMin, region.xMax, step);
    var yp := Points(region.yMin, region.yMax, step);
    pattern := [];
    if xp == 0 {
      return;
    }
    var yIdx := 0;
    while yIdx < yp
      invariant 0 <= yIdx <= yp && |pattern| == yIdx * xp
      invariant forall idx :: 0 <= idx < |pattern| ==> pattern[idx] == Waypoint(region, step, xp, idx)
    {
      var y := Coord(region.yMin, yIdx, step);
      var n := 0;
      while n < xp
        invariant 0 <= n <= xp && |pattern| == yIdx * xp + n
        invariant forall idx :: 0 <= idx < |pattern| ==> pattern[idx] == Waypoint(region, step, xp, idx)
      {
        var xIdx := if yIdx % 2 == 0 then n else xp - 1 - n;
        RowMajor(yIdx, n, xp);
        pattern := pattern + [(Coord(region.xMin, xIdx, step), y)];
        n := n + 1;
      }
      yIdx := yIdx + 1;
    }
  }

  /** `pattern` is the zig-zag over `region` that `Pattern` builds. */
  predicate ZigZag(pattern: seq<(real, real)>, region: Region, step: real)
    requires 0.0 < step
  {
    && |pattern| == Points(region.xMin, region.xMax, step) * Points(region.yMin, region.yMax, step)
    && forall idx :: 0 <= idx < |pattern| ==>
         pattern[idx] == Waypoint(region, step, Points(region.xMin, region.xMax, step), idx)
  }

  /** Consecutive waypoints are one step apart along one axis: sideways
      within a row, straight up from the end of one row to the start of the
      next. */
  lemma ZigZagAdjacent(region: Region, step: real, xp: nat, idx: nat)
    requires 1 <= xp && 0.0 < step
    ensures var a, b := Waypoint(region, step, xp, idx), Waypoint(region, step, xp, idx + 1);
            (a.1 == b.1 && Abs(a.0 - b.0) == step) || (a.0 == b.0 && b.1 - a.1 == step)
  {
    if idx % xp + 1 < xp {
      SameRow(region, step, xp, idx);
    } else {
      NextRow(region, step, xp, idx);
    }
  }

  lemma SameRow(region: Region, step: real, xp: nat, idx: nat)
    requires 1 <= xp && 0.0 < step && idx % xp + 1 < xp
    ensures var a, b := Waypoint(region, step, xp, idx), Waypoint(region, step, xp, idx + 1);
            a.1 == b.1 && Abs(a.0 - b.0) == step
  {
    var row, col := idx / xp, idx % xp;
    assert idx == row * xp + col;
    RowMajor(row, col + 1, xp);
    assert (idx + 1) / xp == row && (idx + 1) % xp == col + 1;
    if row % 2 == 0 {
      CoordNext(region.xMin, col, step);
    } else {
      CoordNext(region.xMin, xp - 1 - (col + 1), step);
    }
  }

  lemma NextRow(region: Region, step: real, xp: nat, idx: nat)
    requires 1 <= xp && idx % xp + 1 == xp
    ensures var a, b := Waypoint(region, step, xp, idx), Waypoint(region, step, xp, idx + 1);
            a.0 == b.0 && b.1 - a.1 == step
  {
    var row := idx / xp;
    assert idx + 1 == (row + 1) * xp + 0;
    RowMajor(row + 1, 0, xp);
    assert (idx + 1) / xp == row + 1 && (idx + 1) % xp == 0;
    CoordNext(region.yMin, row, step);
  }

  /** In a region at least 2 wide and 2 high, every waypoint of its
      pattern lies inside it. */
  lemma WaypointInRegion(region: Region, step: real, idx: nat)
    requires 0.0 < step && 1 <= Points(region.xMin, region.xMax, step)
    requires 2.0 <= region.xMax - region.xMin && 2.0 <= region.yMax - region.yMin
    requires idx < Points(region.xMin, region.xMax, step) * Points(region.yMin, region.yMax, step)
    ensures var p := Waypoint(region, step, Points(region.xMin, region.xMax, step), idx);
            region.Contains(p.0, p.1)
  {
    var xp, yp := Points(region.xMin, region.xMax, step), Points(region.yMin, region.yMax, step);
    var row, col := idx / xp, idx % xp;
    RowMajor(row, col, xp);
    MulMonoIf(yp, row, xp);
    assert row < yp;
    var xIdx := if row % 2 == 0 then col else xp - 1 - col;
    WithinSide(region.xMin, region.xMax, step, xIdx);
    WithinSide(region.yMin, region.yMax, step, row);
  }

  lemma MulMonoIf(a: nat, b: nat, c: nat)
    ensures a <= b ==> a * c <= b * c
  {
    if a <= b {
      MulMono(a, b, c);
    }
  }

  /** Index `k` below `Points(lo, hi, step)` puts `lo + (k + 0.5) * step`
      inside `[lo, hi]` when the side is at least 2 long. */
  lemma WithinSide(lo: real, hi: real, step: real, k: nat)
    requires 0.0 < step && 2.0 <= hi - lo && k < Points(lo, hi, step)
    ensures lo <= Coord(lo, k, step) <= hi
  {
    var t := Trunc(hi - lo);
    assert MaxInt(2, t) == t;
    var q := t as real / step;
    assert (k + 1) as real <= q;
    assert q * step == t as real;
    assert (k + 1) as real * step <= t as real by {
      MulNonNeg(q - (k + 1) as real, step);
    }
    MulNonNeg(k as real + 0.5, step);
  }
}
