/** Per-frame work of the particle controller (src/scenes/ParticleSystem.js):
    `updateParticles`, `applySimpleMouseForce`, the globe part of
    `onMouseMove`, and the globe rotation of `animate`.

    `Math.sqrt`, `Math.exp` and `Math.random` are parameters. Where the source
    takes `Math.cos(Math.atan2(y, x))` and `Math.sin(Math.atan2(y, x))`, the
    model writes `x / d` and `y / d`, which are those values when `d` is the
    length of (x, y). */
module ParticleMotion {
  import opened ParticleCommon
  import opened Wrappers
  import opened RealArith
  import opened Performance
  import ParticleFlags

  datatype Particle = Particle(pos: Vec3, vel: Vec3)

  // ---------------------------------------------------------------------------
  // updateParticles

  /** Planar radius beyond which particles are pulled back. */
  const OuterRadius: real := 60.0
  /** Depth beyond which particles are pulled back towards z = 0. */
  const OuterDepth: real := 30.0

  /** Position after one frame: the old position plus the old velocity. */
  function Advance(pt: Particle): Vec3 {
    Vec3(pt.pos.x + pt.vel.x, pt.pos.y + pt.vel.y, pt.pos.z + pt.vel.z)
  }

  /** Fast particles are damped harder than slow ones. */
  function Damping(speed: real): (f: real)
    ensures 0.0 < f < 1.0
    ensures speed > 0.5 ==> f < 0.96
  {
    if speed > 0.5 then 0.92 else 0.96
  }

  /** Random motion added to a moving particle: three draws, each moved by at most 0.0005. */
  function Jitter(v: Vec3, rand: nat -> real, k: nat): Vec3 {
    Vec3(v.x + (rand(k) - 0.5) * 0.001, v.y + (rand(k + 1) - 0.5) * 0.001, v.z + (rand(k + 2) - 0.5) * 0.001)
  }

  /** The pull back towards the axis, per unit of position, at planar radius `dist`. */
  function PullRate(dist: real): (c: real)
    requires dist > OuterRadius
    ensures c > 0.0
  {
    QuotientPositive((dist - OuterRadius) * 0.00005, dist);
    (dist - OuterRadius) * 0.00005 / dist
  }

  /** `velocities -= (cos angle, sin angle) * (dist - 60) * 0.00005` for the point `p`. */
  function RadialPull(v: Vec3, p: Vec3, dist: real): Vec3
    requires dist > OuterRadius
  {
    var f := (dist - OuterRadius) * 0.00005;
    Vec3(v.x - (p.x / dist) * f, v.y - (p.y / dist) * f, v.z)
  }

  /** The gentle pull towards z = 0 beyond depth 30. */
  function DepthPull(v: Vec3, p: Vec3): Vec3 {
    if Abs(p.z) > OuterDepth then v.(z := v.z - p.z * 0.0001) else v
  }

  datatype Moved = Moved(particle: Particle, nextDraw: nat)

  /** One particle's step of the update loop, reading draws from `k` on. */
  function Integrate(pt: Particle, sqrt: real -> real, rand: nat -> real, k: nat): (m: Moved)
    ensures m.particle.pos == Advance(pt)
    ensures m.nextDraw == k || m.nextDraw == k + 3
  {
    var p := Advance(pt);
    var v := pt.vel;
    var damp := Damping(sqrt(v.x * v.x + v.y * v.y));
    var v1 := Vec3(v.x * damp, v.y * damp, v.z * damp);
    var moving := sqrt(v1.x * v1.x + v1.y * v1.y) > 0.01;
    var v2 := if moving then Jitter(v1, rand, k) else v1;
    var dist := sqrt(p.x * p.x + p.y * p.y);
    var v3 := if dist > OuterRadius then RadialPull(v2, p, dist) else v2;
    Moved(Particle(p, DepthPull(v3, p)), if moving then k + 3 else k)
  }

  datatype Frame = Frame(particles: seq<Particle>, nextDraw: nat)

  /** The update loop over all particles, threading the draw counter. */
  function UpdateAll(ps: seq<Particle>, sqrt: real -> real, rand: nat -> real, k: nat): (r: Frame)
    ensures |r.particles| == |ps|
    ensures forall i | 0 <= i < |ps| :: r.particles[i].pos == Advance(ps[i])
    ensures k <= r.nextDraw <= k + 3 * |ps|
    decreases |ps|
  {
    if ps == [] then Frame([], k)
    else
      var m := Integrate(ps[0], sqrt, rand, k);
      var rest := UpdateAll(ps[1..], sqrt, rand, m.nextDraw);
      Frame([m.particle] + rest.particles, rest.nextDraw)
  }

  /** `updateParticles`: nothing moves while text, pin or space mode is on;
      otherwise every particle advances by its velocity. The fluid branch is
      off (`useFluidSimulation` is never set). */
  function UpdateParticles(f: ParticleFlags.Flags, ps: seq<Particle>, sqrt: real -> real, rand: nat -> real, k: nat)
    : (r: Frame)
    ensures f.textFormed || f.pinned || f.spaceFormed ==> r == Frame(ps, k)
    ensures |r.particles| == |ps|
    ensures !(f.textFormed || f.pinned || f.spaceFormed) ==>
              forall i | 0 <= i < |ps| :: r.particles[i].pos == Advance(ps[i])
  {
    if f.textFormed || f.pinned || f.spaceFormed then Frame(ps, k)
    else UpdateAll(ps, sqrt, rand, k)
  }

  lemma QuotientPositive(a: real, b: real)
    requires a > 0.0 && b > 0.0
    ensures a / b > 0.0
  {
    var q := a / b;
    assert q * b == a;
    if q <= 0.0 {
      MulNonNeg(-q, b);
      assert false;
    }
  }

  /** With draws in [0, 1) the random motion moves each component by at most 0.0005. */
  lemma JitterBounded(v: Vec3, rand: nat -> real, k: nat)
    requires UnitDraws(rand)
    ensures Abs(Jitter(v, rand, k).x - v.x) <= 0.0005
    ensures Abs(Jitter(v, rand, k).y - v.y) <= 0.0005
    ensures Abs(Jitter(v, rand, k).z - v.z) <= 0.0005
  {
    assert 0.0 <= rand(k) < 1.0;
    assert 0.0 <= rand(k + 1) < 1.0;
    assert 0.0 <= rand(k + 2) < 1.0;
  }

  /** The radial pull points at the axis: it subtracts a positive multiple of
      the planar position and leaves the depth velocity alone. */
  lemma {:induction false} RadialPullInward(v: Vec3, p: Vec3, dist: real)
    requires dist > OuterRadius
    ensures RadialPull(v, p, dist).x == v.x - PullRate(dist) * p.x
    ensures RadialPull(v, p, dist).y == v.y - PullRate(dist) * p.y
    ensures RadialPull(v, p, dist).z == v.z
    ensures PullRate(dist) > 0.0
  {
    var f := (dist - OuterRadius) * 0.00005;
    assert (p.x / dist) * f == f / dist * p.x;
    assert (p.y / dist) * f == f / dist * p.y;
  }

  /** Beyond depth 30 the depth velocity changes against the sign of z; within it nothing changes. */
  lemma {:induction false} DepthPullTowardPlane(v: Vec3, p: Vec3)
    ensures Abs(p.z) > OuterDepth ==> (DepthPull(v, p).z - v.z) * p.z < 0.0
    ensures Abs(p.z) <= OuterDepth ==> DepthPull(v, p) == v
    ensures DepthPull(v, p).x == v.x && DepthPull(v, p).y == v.y
  {
    if Abs(p.z) > OuterDepth {
      var d := DepthPull(v, p).z - v.z;
      assert d == -(p.z * 0.0001);
      MulPositive(p.z * p.z, 0.0001);
      if p.z < 0.0 {
        MulPositive(-p.z, -p.z);
      } else {
        MulPositive(p.z, p.z);
      }
      assert d * p.z == -(p.z * p.z * 0.0001);
    }
  }

  // ---------------------------------------------------------------------------
  // applySimpleMouseForce

  /** Mouse NDC coordinates are scaled by 50 into the particle plane. */
  const MouseScale: real := 50.0
  /** Particles closer than this are not pushed (the direction would be unstable). */
  const DeadZone: real := 0.1
  /** Particles farther than this are not pushed. */
  const Reach: real := 20.0

  function MousePoint(mx: real, my: real): Vec3 {
    Vec3(mx * MouseScale, my * MouseScale, 0.0)
  }

  function Offset(a: Vec3, b: Vec3): Vec3 {
    Vec3(a.x - b.x, a.y - b.y, a.z - b.z)
  }

  /** `distanceTo`, through the square-root parameter. */
  function Distance(a: Vec3, b: Vec3, sqrt: real -> real): real {
    var o := Offset(a, b);
    sqrt(o.x * o.x + o.y * o.y + o.z * o.z)
  }

  /** One particle's push: direction away from the mouse, strength
      `exp(-0.08 d) / (size * 0.5)`, depth component halved. `normalize` divides
      by the same length the distance is. */
  function Push(pt: Particle, size: real, m: Vec3, sqrt: real -> real, exp: real -> real): (q: Particle)
    requires size != 0.0
    ensures q.pos == pt.pos
    ensures !(DeadZone < Distance(pt.pos, m, sqrt) < Reach) ==> q == pt
  {
    var o := Offset(pt.pos, m);
    var d := Distance(pt.pos, m, sqrt);
    if d < Reach && d > DeadZone then
      var strength := exp(-d * 0.08) * 1.0 * (1.0 / (size * 0.5));
      Particle(pt.pos, Vec3(pt.vel.x + (o.x / d) * strength,
                            pt.vel.y + (o.y / d) * strength,
                            pt.vel.z + (o.z / d) * strength * 0.5))
    else pt
  }

  /** `applySimpleMouseForce` over all particles. */
  function MouseForce(ps: seq<Particle>, sizes: seq<real>, mx: real, my: real,
                      sqrt: real -> real, exp: real -> real): (r: seq<Particle>)
    requires |sizes| == |ps|
    requires forall i | 0 <= i < |sizes| :: sizes[i] != 0.0
    ensures |r| == |ps|
    ensures forall i | 0 <= i < |ps| :: r[i].pos == ps[i].pos
    ensures forall i | 0 <= i < |ps| && !(DeadZone < Distance(ps[i].pos, MousePoint(mx, my), sqrt) < Reach) ::
              r[i] == ps[i]
  {
    seq(|ps|, i requires 0 <= i < |ps| => Push(ps[i], sizes[i], MousePoint(mx, my), sqrt, exp))
  }

  lemma ScaledSameSign(a: real, d: real, s: real)
    requires d > 0.0 && s > 0.0
    ensures ((a / d) * s) * a >= 0.0
  {
    var q := a / d;
    assert q * d == a;
    if a > 0.0 {
      if q <= 0.0 {
        MulNonNeg(-q, d);
        assert false;
      }
      MulPositive(q, s);
      MulPositive(q * s, a);
    } else if a < 0.0 {
      if q >= 0.0 {
        MulNonNeg(q, d);
        assert false;
      }
      MulPositive(-q, s);
      MulPositive((-q) * s, -a);
      assert (q * s) * a == ((-q) * s) * (-a);
    }
  }

  /** Inside the window, with a positive size, the push points away from the
      mouse: each velocity change has the sign of the particle's offset from it. */
  lemma {:induction false} PushAway(pt: Particle, size: real, m: Vec3, sqrt: real -> real, exp: real -> real)
    requires size > 0.0 && ExpPositive(exp)
    requires DeadZone < Distance(pt.pos, m, sqrt) < Reach
    ensures (Push(pt, size, m, sqrt, exp).vel.x - pt.vel.x) * Offset(pt.pos, m).x >= 0.0
    ensures (Push(pt, size, m, sqrt, exp).vel.y - pt.vel.y) * Offset(pt.pos, m).y >= 0.0
    ensures (Push(pt, size, m, sqrt, exp).vel.z - pt.vel.z) * Offset(pt.pos, m).z >= 0.0
  {
    var o := Offset(pt.pos, m);
    var d := Distance(pt.pos, m, sqrt);
    var e := exp(-d * 0.08);
    QuotientPositive(1.0, size * 0.5);
    MulPositive(e, 1.0 / (size * 0.5));
    var strength := e * 1.0 * (1.0 / (size * 0.5));
    ScaledSameSign(o.x, d, strength);
    ScaledSameSign(o.y, d, strength);
    ScaledSameSign(o.z, d, strength * 0.5);
    assert (o.z / d) * strength * 0.5 == (o.z / d) * (strength * 0.5);
  }

  // ---------------------------------------------------------------------------
  // Globe rotation

  datatype Globe = Globe(rotX: real, rotY: real, velX: real, velY: real)

  /** The globe group starts unrotated, spinning slowly about y. */
  const InitGlobe := Globe(0.0, 0.0, 0.0, 0.001)

  /** Tilt limit: 60 degrees either way. */
  const TiltLimit: real := Pi / 3.0
  const MaxSpin: real := 0.02
  const MinSpin: real := 0.0005
  const IdleSpin: real := 0.001

  /** Dragging with the button held, in globe mode, adds 0.00005 per pixel. */
  function Drag(g: Globe, f: ParticleFlags.Flags, mouseDown: bool, dx: real, dy: real): (r: Globe)
    ensures !(f.globeInteraction && mouseDown) ==> r == g
    ensures r.rotX == g.rotX && r.rotY == g.rotY
  {
    if f.globeInteraction && mouseDown then
      g.(velY := g.velY + dx * 0.00005, velX := g.velX + dy * 0.00005)
    else g
  }

  /** The globe part of `animate`: rotate by the velocity, clamp the tilt,
      damp and clamp the velocity, and keep a minimum spin. */
  function AnimateGlobe(g: Globe): (r: Globe)
    ensures -TiltLimit <= r.rotX <= TiltLimit
    ensures -MaxSpin <= r.velX <= MaxSpin
    ensures MinSpin <= Abs(r.velY) <= MaxSpin
    ensures r.rotY == g.rotY + g.velY
    ensures -TiltLimit <= g.rotX + g.velX <= TiltLimit ==> r.rotX == g.rotX + g.velX
  {
    var vy := Clamp(g.velY * 0.98, -MaxSpin, MaxSpin);
    Globe(Clamp(g.rotX + g.velX, -TiltLimit, TiltLimit),
          g.rotY + g.velY,
          Clamp(g.velX * 0.98, -MaxSpin, MaxSpin),
          if Abs(vy) < MinSpin then IdleSpin else vy)
  }

  /** In space mode a hover within 0.15 of the special star shows the pointer
      cursor and any other hover the default one; elsewhere the cursor is left alone. */
  function HoverCursor(f: ParticleFlags.Flags, starDistance: real): (r: Option<bool>)
    ensures r.Some? <==> f.spaceFormed && f.specialStar.Some?
    ensures r.Some? ==> (r.value <==> starDistance < ParticleFlags.StarHitRadius)
  {
    if f.spaceFormed && f.specialStar.Some? then Some(starDistance < ParticleFlags.StarHitRadius)
    else None
  }

  /** `onMouseMove` without the fluid branch: the globe takes the drag, and
      outside text and space mode the particles take the push. */
  function MouseMove(f: ParticleFlags.Flags, g: Globe, mouseDown: bool, dx: real, dy: real,
                     ps: seq<Particle>, sizes: seq<real>, mx: real, my: real,
                     sqrt: real -> real, exp: real -> real): (r: (Globe, seq<Particle>))
    requires |sizes| == |ps|
    requires forall i | 0 <= i < |sizes| :: sizes[i] != 0.0
    ensures f.textFormed || f.spaceFormed ==> r.1 == ps
    ensures !(f.globeInteraction && mouseDown) ==> r.0 == g
    ensures |r.1| == |ps|
  {
    (Drag(g, f, mouseDown, dx, dy),
     if !f.textFormed && !f.spaceFormed then MouseForce(ps, sizes, mx, my, sqrt, exp) else ps)
  }
}
