/**
  The asteroid meshes of static/main.js as values: the mapping from a record
  to its initial orbit state (createAsteroid3D, static/main.js:53-91) and the
  per-frame orbit step of `animate` (static/main.js:99-111).

  `Math.random` is replaced by explicit draws in [0, 1), and `Math.cos` /
  `Math.sin` by the two functions of a `Trig` parameter, about which nothing
  is assumed unless a lemma says so.
 */
module Scene {
  import opened Results
  import opened Records

  /** Radius of the Earth sphere (static/main.js:34). */
  const EarthRadius: real := 6.0
  /** Orbit radius of a zero miss distance, and kilometres per scene unit (static/main.js:55). */
  const OrbitBase: real := 14.0
  const KmPerUnit: real := 1000000.0
  /** Tint and dodecahedron radius per hazard flag (static/main.js:62-63). */
  const HazardTint: int := 0xff5555
  const PlainTint: int := 0xffffff
  const HazardRadius: real := 0.6
  const PlainRadius: real := 0.3
  /** `Math.PI`, the double closest to pi. */
  const Pi: real := 3.141592653589793

  datatype Vec3 = Vec3(x: real, y: real, z: real)

  /** A freshly created mesh sits at the origin, unrotated. */
  const Origin: Vec3 := Vec3(0.0, 0.0, 0.0)

  /** `mesh.userData` (static/main.js:80-87). */
  datatype OrbitState = OrbitState(
    distance: real,
    angle: real,
    speed: real,
    height: real,
    rotSpeedX: real,
    rotSpeedZ: real)

  /** One asteroid mesh: its material tint, geometry radius, orbit state and transform. */
  datatype Asteroid3D = Asteroid3D(tint: int, radius: real, orbit: OrbitState, position: Vec3, rotation: Vec3)

  /** The five `Math.random()` results createAsteroid3D consumes, in call order. */
  datatype Draws = Draws(angle: real, height: real, speed: real, spinX: real, spinZ: real)

  predicate UnitDraw(u: real) {
    0.0 <= u < 1.0
  }

  predicate ValidDraws(d: Draws) {
    UnitDraw(d.angle) && UnitDraw(d.height) && UnitDraw(d.speed) && UnitDraw(d.spinX) && UnitDraw(d.spinZ)
  }

  /** `Math.cos` and `Math.sin`, left uninterpreted. */
  datatype Trig = Trig(cos: real -> real, sin: real -> real)

  ghost predicate Pythagorean(t: Trig) {
    forall a :: t.cos(a) * t.cos(a) + t.sin(a) * t.sin(a) == 1.0
  }

  /** `14 + realDistance / 1000000` (static/main.js:55). */
  function VisualDistance(km: real): (d: real)
    ensures (d - OrbitBase) * KmPerUnit == km
    ensures km >= 0.0 ==> d >= OrbitBase > EarthRadius
  {
    OrbitBase + km / KmPerUnit
  }

  /** The tint and radius the hazard flag selects. */
  predicate HazardLook(hazardous: bool, tint: int, radius: real) {
    if hazardous then tint == HazardTint && radius == HazardRadius
    else tint == PlainTint && radius == PlainRadius
  }

  /** The ranges the draws give the motion parameters; none of them changes after creation. */
  ghost predicate MotionBounds(o: OrbitState) {
    && 0.0005 <= o.speed < 0.001
    && -7.5 <= o.height < 7.5
    && -0.01 <= o.rotSpeedX < 0.01
    && -0.01 <= o.rotSpeedZ < 0.01
  }

  /** A mesh as createAsteroid3D can build it, whatever frames have passed since. */
  ghost predicate Sound(a: Asteroid3D) {
    && (HazardLook(true, a.tint, a.radius) || HazardLook(false, a.tint, a.radius))
    && MotionBounds(a.orbit)
  }

  /**
    createAsteroid3D (static/main.js:53-91). Reading the first close approach
    of a record without one throws (static/main.js:54).
   */
  function CreateAsteroid3D(rec: NeoRecord, d: Draws): (r: Result<Asteroid3D, RecordError>)
    ensures r.Ok? <==> |rec.approaches| > 0
    ensures r.Ok? ==> r.value.orbit.distance == VisualDistance(rec.approaches[0].missKm)
    ensures r.Ok? ==> HazardLook(rec.hazardous, r.value.tint, r.value.radius)
    ensures r.Ok? ==> r.value.position == Origin && r.value.rotation == Origin
    ensures r.Ok? ==> r.value.orbit.angle / (2.0 * Pi) == d.angle
    ensures r.Ok? ==> (r.value.orbit.speed - 0.0005) * 2000.0 == d.speed
    ensures r.Ok? ==> r.value.orbit.height / 15.0 + 0.5 == d.height
    ensures r.Ok? ==> r.value.orbit.rotSpeedX * 50.0 + 0.5 == d.spinX
    ensures r.Ok? ==> r.value.orbit.rotSpeedZ * 50.0 + 0.5 == d.spinZ
  {
    var km :- FirstMissKm(rec);
    var tint := if rec.hazardous then HazardTint else PlainTint;
    var radius := if rec.hazardous then HazardRadius else PlainRadius;
    var orbit := OrbitState(
      distance := VisualDistance(km),
      angle := d.angle * Pi * 2.0,
      speed := 0.0005 + d.speed * 0.0005,
      height := (d.height - 0.5) * 15.0,
      rotSpeedX := (d.spinX - 0.5) * 0.02,
      rotSpeedZ := (d.spinZ - 0.5) * 0.02);
    Ok(Asteroid3D(tint, radius, orbit, Origin, Origin))
  }

  /**
    Draws in [0, 1) put the initial angle in [0, 2 pi), the speed in
    [0.0005, 0.001), so always forward, the height in [-7.5, 7.5) and both
    spin rates in [-0.01, 0.01) (static/main.js:77-86).
   */
  lemma CreateAsteroid3DBounds(rec: NeoRecord, d: Draws)
    requires ValidDraws(d) && |rec.approaches| > 0
    ensures 0.0 <= CreateAsteroid3D(rec, d).value.orbit.angle < 2.0 * Pi
    ensures MotionBounds(CreateAsteroid3D(rec, d).value.orbit)
    ensures Sound(CreateAsteroid3D(rec, d).value)
  {
  }

  /** Where a mesh with orbit state `o` is drawn (static/main.js:104-106). */
  function OrbitPosition(o: OrbitState, trig: Trig): Vec3 {
    Vec3(trig.cos(o.angle) * o.distance, o.height, trig.sin(o.angle) * o.distance)
  }

  /** The body of the `forEach` in `animate` for one mesh (static/main.js:100-110). */
  function Step(a: Asteroid3D, trig: Trig): (b: Asteroid3D)
    ensures b.tint == a.tint && b.radius == a.radius
    ensures b.orbit.angle == a.orbit.angle + a.orbit.speed
    ensures b.orbit.(angle := a.orbit.angle) == a.orbit
    ensures a.orbit.speed > 0.0 ==> b.orbit.angle > a.orbit.angle
    ensures b.position.y == a.orbit.height
    ensures b.rotation == Vec3(a.rotation.x + a.orbit.rotSpeedX, a.rotation.y, a.rotation.z + a.orbit.rotSpeedZ)
    ensures Sound(a) ==> Sound(b) && b.orbit.angle > a.orbit.angle
  {
    var o := a.orbit.(angle := a.orbit.angle + a.orbit.speed);
    var rot := a.rotation.(x := a.rotation.x + a.orbit.rotSpeedX, z := a.rotation.z + a.orbit.rotSpeedZ);
    Asteroid3D(a.tint, a.radius, o, OrbitPosition(o, trig), rot)
  }

  /** With a true cosine and sine, a step keeps the mesh on its circle of radius `distance`. */
  lemma StepStaysOnOrbit(a: Asteroid3D, trig: Trig)
    requires Pythagorean(trig)
    ensures
      var p := Step(a, trig).position;
      p.x * p.x + p.z * p.z == a.orbit.distance * a.orbit.distance
  {
  }

  /** `n` calls of `animate` on one mesh. */
  function Frames(a: Asteroid3D, trig: Trig, n: nat): Asteroid3D
    decreases n
  {
    if n == 0 then a else Step(Frames(a, trig, n - 1), trig)
  }

  /**
    After `n` frames the angle has advanced by exactly `n` times the speed and
    the rotations by `n` times the spin rates; everything else is as created,
    and the position is recomputed from the current angle, never accumulated.
   */
  lemma {:induction false} FramesClosedForm(a: Asteroid3D, trig: Trig, n: nat)
    ensures Frames(a, trig, n).orbit == a.orbit.(angle := a.orbit.angle + n as real * a.orbit.speed)
    ensures Frames(a, trig, n).rotation
      == Vec3(a.rotation.x + n as real * a.orbit.rotSpeedX, a.rotation.y, a.rotation.z + n as real * a.orbit.rotSpeedZ)
    ensures Frames(a, trig, n).tint == a.tint && Frames(a, trig, n).radius == a.radius
    ensures n > 0 ==> Frames(a, trig, n).position == OrbitPosition(Frames(a, trig, n).orbit, trig)
    ensures Sound(a) && n > 0 ==> Frames(a, trig, n).orbit.angle > a.orbit.angle
  {
    FramesKeepMotion(a, trig, n);
    FramesOrbit(a, trig, n);
    FramesRotation(a, trig, n);
    if Sound(a) && n > 0 {
      assert n as real * a.orbit.speed >= a.orbit.speed;
    }
  }

  /** `m` steps of `x` and one more make `m + 1` steps. */
  lemma OneMoreTime(m: real, x: real)
    ensures m * x + x == (m + 1.0) * x
  {
  }

  /** Frames change only the angle, the position and the rotation of a mesh. */
  lemma {:induction false} FramesKeepMotion(a: Asteroid3D, trig: Trig, n: nat)
    ensures Frames(a, trig, n).orbit.(angle := a.orbit.angle) == a.orbit
    ensures Frames(a, trig, n).tint == a.tint && Frames(a, trig, n).radius == a.radius
    ensures n > 0 ==> Frames(a, trig, n).position == OrbitPosition(Frames(a, trig, n).orbit, trig)
  {
    if n > 0 {
      FramesKeepMotion(a, trig, n - 1);
    }
  }

  lemma {:induction false} FramesOrbit(a: Asteroid3D, trig: Trig, n: nat)
    ensures Frames(a, trig, n).orbit == a.orbit.(angle := a.orbit.angle + n as real * a.orbit.speed)
  {
    FramesKeepMotion(a, trig, n);
    if n > 0 {
      FramesOrbit(a, trig, n - 1);
      OneMoreTime((n - 1) as real, a.orbit.speed);
    }
  }

  lemma {:induction false} FramesRotation(a: Asteroid3D, trig: Trig, n: nat)
    ensures Frames(a, trig, n).rotation
      == Vec3(a.rotation.x + n as real * a.orbit.rotSpeedX, a.rotation.y, a.rotation.z + n as real * a.orbit.rotSpeedZ)
  {
    if n > 0 {
      FramesRotation(a, trig, n - 1);
      FramesKeepMotion(a, trig, n - 1);
      OneMoreTime((n - 1) as real, a.orbit.rotSpeedX);
      OneMoreTime((n - 1) as real, a.orbit.rotSpeedZ);
    }
  }

  /** One `animate` frame over the list `asteroids3D`, in list order (static/main.js:99-111). */
  function Animate(asteroids: seq<Asteroid3D>, trig: Trig): (r: seq<Asteroid3D>)
    ensures |r| == |asteroids|
    ensures forall i :: 0 <= i < |r| ==> r[i] == Step(asteroids[i], trig)
    ensures (forall i :: 0 <= i < |asteroids| ==> Sound(asteroids[i])) ==> forall i :: 0 <= i < |r| ==> Sound(r[i])
  {
    seq(|asteroids|, i requires 0 <= i < |asteroids| => Step(asteroids[i], trig))
  }
}
