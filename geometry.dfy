// Plane geometry the simulator relies on: axis-aligned boxes (obstacles,
// targets and the footprint of an agent), the circle-against-box collision
// test by clamping, the box overlap test used while placing objects, and the
// arena bounds test.

module Geometry {
  import opened Numerics

  /** An axis-aligned rectangle given by its centre and half extents. Obstacles
      are stored as `[x, y, half_width, half_height]`, targets as
      `[x, y, half_size]` and an agent occupies a square of `half_size`. */
  datatype Box = Box(cx: real, cy: real, hw: real, hh: real)
  {
    /** The closed rectangle contains `(x, y)`. */
    predicate Contains(x: real, y: real)
    {
      cx - hw <= x <= cx + hw && cy - hh <= y <= cy + hh
    }

    /** The open rectangle contains `(x, y)`. */
    predicate Interior(x: real, y: real)
    {
      cx - hw < x < cx + hw && cy - hh < y < cy + hh
    }
  }

  function Square(cx: real, cy: real, h: real): Box
  {
    Box(cx, cy, h, h)
  }

  /** The squared Euclidean distance between two points. */
  function SqDist(x1: real, y1: real, x2: real, y2: real): real
  {
    (x1 - x2) * (x1 - x2) + (y1 - y2) * (y1 - y2)
  }

  lemma SqDistNonNeg(x1: real, y1: real, x2: real, y2: real)
    ensures 0.0 <= SqDist(x1, y1, x2, y2)
  {
    SquareNonNeg(x1 - x2);
    SquareNonNeg(y1 - y2);
  }

  lemma SquareNonNeg(t: real)
    ensures 0.0 <= t * t
  {
    if t < 0.0 { MulPos(-t, -t); assert (-t) * (-t) == t * t; }
    else { MulNonNeg(t, t); }
  }

  /** `math.dist(p, q) < r` (or `math.sqrt(d2) < r`), in the equivalent form
      of lemma `SqrtBelow`. */
  predicate WithinRadius(d2: real, r: real)
  {
    0.0 < r && d2 < r * r
  }

  /** `max(lo, min(v, hi))`, the nearest value to `v` in `[lo, hi]`. */
  function Clamp(lo: real, v: real, hi: real): (c: real)
    ensures lo <= hi ==> lo <= c <= hi
    ensures lo <= hi ==> (c == v <==> lo <= v <= hi)
  {
    Max(lo, Min(v, hi))
  }

  /** The clamped value is at least as close to `v` as any point of `[lo, hi]`. */
  lemma ClampClosest(lo: real, v: real, hi: real, p: real)
    requires lo <= p <= hi
    ensures (v - Clamp(lo, v, hi)) * (v - Clamp(lo, v, hi)) <= (v - p) * (v - p)
  {
    var c := Clamp(lo, v, hi);
    if v < lo {
      SquareLe(c - v, p - v);
      assert (v - c) * (v - c) == (c - v) * (c - v);
      assert (v - p) * (v - p) == (p - v) * (p - v);
    } else if v > hi {
      SquareLe(v - c, v - p);
    } else {
      assert c == v;
      SquareNonNeg(v - p);
    }
  }

  /** The circle of radius `r` around `(x, y)` leaves the `w` by `h` arena. */
  predicate OutOfArena(w: real, h: real, x: real, y: real, r: real)
  {
    x - r < 0.0 || x + r > w || y - r < 0.0 || y + r > h
  }

  /** The collision test of `is_collision`: the point of the box closest to
      `(x, y)`, found by clamping each coordinate, is closer than `r`. */
  predicate CircleHitsBox(x: real, y: real, r: real, b: Box)
  {
    WithinRadius(SqDist(x, y, Clamp(b.cx - b.hw, x, b.cx + b.hw),
                        Clamp(b.cy - b.hh, y, b.cy + b.hh)), r)
  }

  /** Clamping finds a colliding point whenever there is one: the circle hits
      the box exactly when some point of the closed box lies within `r`. */
  lemma CircleHitsBoxIff(x: real, y: real, r: real, b: Box)
    requires 0.0 <= b.hw && 0.0 <= b.hh
    ensures CircleHitsBox(x, y, r, b) <==>
            exists px, py :: b.Contains(px, py) && WithinRadius(SqDist(x, y, px, py), r)
  {
    var qx := Clamp(b.cx - b.hw, x, b.cx + b.hw);
    var qy := Clamp(b.cy - b.hh, y, b.cy + b.hh);
    if CircleHitsBox(x, y, r, b) {
      assert b.Contains(qx, qy);
    }
    forall px, py | b.Contains(px, py) && WithinRadius(SqDist(x, y, px, py), r)
      ensures CircleHitsBox(x, y, r, b)
    {
      ClampClosest(b.cx - b.hw, x, b.cx + b.hw, px);
      ClampClosest(b.cy - b.hh, y, b.cy + b.hh, py);
      var dq, dp := SqDist(x, y, qx, qy), SqDist(x, y, px, py);
      assert dq <= dp;
      assert dq < r * r;
    }
  }

  /** The test of `check_overlap`: the centre distances on both axes are below
      the sums of the half extents. */
  predicate Overlap(x: real, y: real, hw: real, hh: real, b: Box)
  {
    Abs(x - b.cx) < hw + b.hw && Abs(y - b.cy) < hh + b.hh
  }

  /** For boxes of positive extent, `Overlap` is exactly the intersection of
      the two open rectangles. */
  lemma OverlapIff(x: real, y: real, hw: real, hh: real, b: Box)
    requires 0.0 < hw && 0.0 < hh && 0.0 < b.hw && 0.0 < b.hh
    ensures Overlap(x, y, hw, hh, b) <==>
            exists px, py :: Box(x, y, hw, hh).Interior(px, py) && b.Interior(px, py)
  {
    var a := Box(x, y, hw, hh);
    if Overlap(x, y, hw, hh, b) {
      var px := (Max(x - hw, b.cx - b.hw) + Min(x + hw, b.cx + b.hw)) / 2.0;
      var py := (Max(y - hh, b.cy - b.hh) + Min(y + hh, b.cy + b.hh)) / 2.0;
      assert a.Interior(px, py) && b.Interior(px, py);
    }
  }

  /** `d` is a non-negative multiple of the offset `(dx, dy)`: it points the
      offset's way along its line. */
  predicate Toward(d: (real, real), dx: real, dy: real)
  {
    d.0 * dy == d.1 * dx && 0.0 <= d.0 * dx && 0.0 <= d.1 * dy
  }

  /** An offset points its own way. */
  lemma TowardItself(dx: real, dy: real)
    ensures Toward((dx, dy), dx, dy)
  {
    SquareNonNeg(dx);
    SquareNonNeg(dy);
  }

  /** Scaling by a non-negative factor keeps a vector's way. */
  lemma ScaleToward(s: real, e: (real, real), dx: real, dy: real)
    requires 0.0 <= s && Toward(e, dx, dy)
    ensures Toward((s * e.0, s * e.1), dx, dy)
  {
    assert (s * e.0) * dy == s * (e.0 * dy);
    assert (s * e.1) * dx == s * (e.1 * dx);
    MulNonNeg(s, e.0 * dx);
    MulNonNeg(s, e.1 * dy);
    assert (s * e.0) * dx == s * (e.0 * dx);
    assert (s * e.1) * dy == s * (e.1 * dy);
  }
}
