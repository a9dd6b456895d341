// The particle of the distributed PSO strategy (dPSO.py): a point that
// moves with its own velocity and keeps its own best.

module DPSOParticle {
  import opened Numerics

  /** `Particle` of dPSO.py. */
  class Particle {
    const radius: real
    var x: real
    var y: real
    var vx: real
    var vy: real
    var px: real
    var py: real
    var pbest: Ext

    /** `Particle.__init__`: at rest, its best position is where it starts and
        its best value is infinite. */
    constructor(x: real, y: real, radius: real)
      ensures this.x == x && this.y == y && this.radius == radius
      ensures vx == 0.0 && vy == 0.0
      ensures px == x && py == y && pbest == Inf
    {
      this.x := x;
      this.y := y;
      vx := 0.0;
      vy := 0.0;
      px := x;
      py := y;
      pbest := Inf;
      this.radius := radius;
    }

    /** `Particle.setcoords`: only the position changes; a particle keeps no
        trajectory. */
    method SetCoords(nx: real, ny: real)
      modifies this`x, this`y
      ensures x == nx && y == ny
    {
      x := nx;
      y := ny;
    }

    /** `Particle.setVelocity`. */
    method SetVelocity(nvx: real, nvy: real)
      modifies this`vx, this`vy
      ensures vx == nvx && vy == nvy
    {
      vx := nvx;
      vy := nvy;
    }
  }
}
