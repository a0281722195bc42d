/**
 * The dot sphere of the visualiser (frontend.py `Dot`): each frame a dot
 * travels along the surface and its latitude is reflected at the poles;
 * `project` clamps the camera depth and derives the dot's size and colour.
 * The trigonometry between the two is left to the caller: the rotated
 * cartesian coordinates enter `Project` as parameters.
 */
module Sphere {
  import opened Wrappers
  import opened Colour

  /** `math.pi`, as the real it denotes. */
  const PI: real := 3.141592653589793

  /** A dot's latitude and its rate, as `update` leaves them. */
  datatype Latitude = Latitude(phi: real, dphi: real)

  /** The reflection at the poles: a latitude past 0 or past pi is mirrored back and its rate reversed. */
  function Reflect(phi: real, dphi: real): Latitude {
    if phi < 0.0 then Latitude(-phi, -dphi)
    else if phi > PI then Latitude(2.0 * PI - phi, -dphi)
    else Latitude(phi, dphi)
  }

  /** A step of at most pi from a latitude in [0, pi] stays in [0, pi]. */
  lemma LatitudeStays(phi: real, step: real, dphi: real)
    requires 0.0 <= phi <= PI && -PI <= step <= PI
    ensures 0.0 <= Reflect(phi + step, dphi).phi <= PI
  {
  }

  /** The rate keeps its magnitude, and is reversed exactly when the latitude left [0, pi]. */
  lemma ReflectRate(phi: real, dphi: real)
    ensures Reflect(phi, dphi).dphi == (if 0.0 <= phi <= PI then dphi else -dphi)
    ensures 0.0 <= phi <= PI ==> Reflect(phi, dphi).phi == phi
  {
  }

  /** A step longer than pi can leave the range: from the pole, a step of -4 lands at 4. */
  lemma LongStepEscapes()
    ensures Reflect(0.0 + -4.0, 0.25).phi == 4.0 > PI
  {
  }

  /** The angle step `rate * dt * 0.001` of one frame lasting dt milliseconds. */
  function Step(rate: real, dt: int): real {
    rate * dt as real * 0.001
  }

  /** With |dphi| <= 0.25 rad/s, as drawn at start-up, any frame up to 12 s keeps the step within pi. */
  lemma ShortFrameStep(dphi: real, dt: int)
    requires -0.25 <= dphi <= 0.25 && 0 <= dt <= 12000
    ensures -PI <= Step(dphi, dt) <= PI
  {
    var d := dt as real * 0.001;
    assert 0.0 <= d <= 12.0;
    assert Step(dphi, dt) == dphi * d;
    if dphi >= 0.0 {
      assert dphi * d <= 0.25 * d;
    } else {
      assert (-dphi) * d <= 0.25 * d;
    }
  }

  /** One dot: the fields `update` changes (the rotated coordinates are left out). */
  class Dot {
    var theta: real
    var phi: real
    var dtheta: real
    var dphi: real

    /** `Dot()`, given the four values it draws at random. */
    constructor (theta0: real, phi0: real, dtheta0: real, dphi0: real)
      requires 0.0 <= theta0 <= 2.0 * PI && 0.0 <= phi0 <= PI
      requires -0.4 <= dtheta0 <= 0.4 && -0.25 <= dphi0 <= 0.25
      ensures theta == theta0 && phi == phi0 && dtheta == dtheta0 && dphi == dphi0
      ensures Valid()
    {
      theta := theta0;
      phi := phi0;
      dtheta := dtheta0;
      dphi := dphi0;
    }

    /** The latitude is in [0, pi] and the rate within the range it was drawn from. */
    predicate Valid()
      reads this
    {
      0.0 <= phi <= PI && -0.25 <= dphi <= 0.25
    }

    /** `update(dt, ...)`, up to the trigonometry. */
    method Update(dt: int)
      modifies this
      ensures theta == old(theta) + Step(old(dtheta), dt)
      ensures Latitude(phi, dphi) == Reflect(old(phi) + Step(old(dphi), dt), old(dphi))
      ensures dtheta == old(dtheta)
      ensures old(Valid()) && 0 <= dt <= 12000 ==> Valid()
    {
      theta := theta + dtheta * dt as real * 0.001;
      phi := phi + dphi * dt as real * 0.001;
      if phi < 0.0 {
        phi := -phi;
        dphi := dphi * -1.0;
      } else if phi > PI {
        phi := 2.0 * PI - phi;
        dphi := dphi * -1.0;
      }
      if old(Valid()) && 0 <= dt <= 12000 {
        ShortFrameStep(old(dphi), dt);
        LatitudeStays(old(phi), Step(old(dphi), dt), old(dphi));
      }
    }
  }

  // ------------------------------------------------------------ project

  /** What `project` returns: screen position, radius, colour and depth. */
  datatype Projection = Projection(sx: int, sy: int, radius: int, colour: Rgb, depth: real)

  const GOLD: Rgb := Rgb(255, 215, 0)

  /** `z + SPHERE_RADIUS * 2.2`, raised to 1 when it is not above 1. */
  function CameraZ(z: real, radius: int): (zc: real)
    ensures zc >= 1.0
    ensures zc > 1.0 ==> zc == z + radius as real * 2.2
  {
    var zc := z + radius as real * 2.2;
    if zc <= 1.0 then 1.0 else zc
  }

  /** `max(0.0, min(1.0, 1 - z_cam / (SPHERE_RADIUS_BASE * 3.0)))`. */
  function Depth(zc: real, base: int): (d: real)
    requires base != 0
    ensures 0.0 <= d <= 1.0
  {
    var raw := 1.0 - zc / (base as real * 3.0);
    if raw < 0.0 then 0.0 else if raw > 1.0 then 1.0 else raw
  }

  /** `max(2, int(1 + depth * 3))`. */
  function DotRadius(depth: real): (r: int)
    requires 0.0 <= depth <= 1.0
    ensures 2 <= r <= 4
  {
    var n := Trunc(1.0 + depth * 3.0);
    assert 1.0 <= 1.0 + depth * 3.0 <= 4.0;
    TruncWithin(1.0 + depth * 3.0, 1, 4);
    if n < 2 then 2 else n
  }

  /** GOLD scaled by `0.5 + depth * 0.7`, channel by channel. */
  function DotColour(depth: real): Rgb {
    var k := 0.5 + depth * 0.7;
    Rgb(Trunc(GOLD.r as real * k), Trunc(GOLD.g as real * k), Trunc(GOLD.b as real * k))
  }

  /**
   * `project()` for a dot at (x, y, z), with the globals it reads as
   * parameters: None where SPHERE_RADIUS_BASE is 0 and the depth division
   * raises ZeroDivisionError.
   */
  function Project(x: real, y: real, z: real, radius: int, base: int, fov: real, cx: int, cy: int)
    : (p: Option<Projection>)
    ensures p.None? <==> base == 0
    ensures p.Some? ==> 0.0 <= p.value.depth <= 1.0 && 2 <= p.value.radius <= 4
  {
    if base == 0 then None
    else
      var zc := CameraZ(z, radius);
      var factor := fov / zc;
      var depth := Depth(zc, base);
      Some(Projection(Trunc(cx as real + x * factor), Trunc(cy as real + y * factor),
                      DotRadius(depth), DotColour(depth), depth))
  }

  lemma DivMonotone(a: real, b: real, c: real)
    requires a <= b && c > 0.0
    ensures a / c <= b / c
  {
    var q := (b - a) / c;
    assert q * c == b - a;
    assert b / c - a / c == q;
  }

  /** A nearer dot (smaller z) is at least as deep, hence at least as large. */
  lemma NearerIsLarger(z1: real, z2: real, radius: int, base: int)
    requires z1 <= z2 && base > 0
    ensures Depth(CameraZ(z2, radius), base) <= Depth(CameraZ(z1, radius), base)
    ensures DotRadius(Depth(CameraZ(z2, radius), base)) <= DotRadius(Depth(CameraZ(z1, radius), base))
  {
    var b := base as real * 3.0;
    var c1, c2 := CameraZ(z1, radius), CameraZ(z2, radius);
    DivMonotone(c1, c2, b);
    var d1, d2 := Depth(c1, base), Depth(c2, base);
    assert 1.0 + d2 * 3.0 <= 1.0 + d1 * 3.0;
    TruncMonotone(1.0 + d2 * 3.0, 1.0 + d1 * 3.0);
  }

  /**
   * For a dot on the sphere (|z| <= R, R = SPHERE_RADIUS_BASE >= 1) the
   * camera is far enough that the depth is at most 0.6, so the scaled gold
   * never exceeds 255 in any channel.
   */
  lemma OnSphereColourValid(z: real, base: int)
    requires base >= 1 && -(base as real) <= z <= base as real
    ensures Depth(CameraZ(z, base), base) <= 0.6
    ensures ValidRgb(DotColour(Depth(CameraZ(z, base), base)))
  {
    var r := base as real;
    var zc := CameraZ(z, base);
    assert zc == z + r * 2.2;
    assert zc >= 1.2 * r;
    assert zc / (r * 3.0) >= 0.4;
    var d := Depth(zc, base);
    var k := 0.5 + d * 0.7;
    assert 0.5 <= k <= 0.92;
    TruncWithin(255.0 * k, 0, 255);
    TruncWithin(215.0 * k, 0, 255);
    TruncWithin(0.0 * k, 0, 0);
  }
}
