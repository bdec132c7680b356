/**
 * The per-frame motion of one particle in ParticleCanvas.tsx: move by the
 * velocity, then on each axis reflect off the walls of the bounding box and
 * clamp back onto the wall. Coordinates are reals (no floating-point rounding).
 */
module Motion {

  /** BOUNDING_BOX_SIZE: the edge of the cube the particles live in. */
  const BoundingBoxSize: real := 10.0
  /** The walls stand at plus and minus half the box size. */
  const HalfExtent: real := BoundingBoxSize / 2.0
  /** `randFloatSpread(BOUNDING_BOX_SIZE * 0.8)` spawns within plus and minus this. */
  const SpawnHalfExtent: real := BoundingBoxSize * 0.8 / 2.0
  /** `randFloatSpread(0.02)` gives velocity components within plus and minus this. */
  const DriftHalfExtent: real := 0.02 / 2.0

  datatype Vec3 = Vec3(x: real, y: real, z: real)

  function Abs(r: real): real {
    if r < 0.0 then -r else r
  }

  /** Every component lies in [-h, h]. */
  predicate Within(v: Vec3, h: real) {
    -h <= v.x <= h && -h <= v.y <= h && -h <= v.z <= h
  }

  function Add(a: Vec3, b: Vec3): Vec3 {
    Vec3(a.x + b.x, a.y + b.y, a.z + b.z)
  }

  /** `userData` of a particle mesh together with its position. */
  datatype Particle = Particle(
    number: int,
    position: Vec3,
    velocity: Vec3,
    isDrawn: bool,
    isBeingDrawn: bool)

  /**
   * One axis of the wall test: a coordinate beyond a wall has its velocity
   * component reversed and is put back on that wall; otherwise both stay.
   */
  function ReflectAxis(p: real, v: real): (r: (real, real))
    ensures -HalfExtent <= r.0 <= HalfExtent
    ensures Abs(r.1) == Abs(v)
    ensures Abs(p) <= HalfExtent ==> r == (p, v)
    ensures Abs(p) > HalfExtent ==> r.1 == -v && Abs(r.0) == HalfExtent && (r.0 > 0.0 <==> p > 0.0)
  {
    if Abs(p) > HalfExtent then
      (Max(-HalfExtent, Min(HalfExtent, p)), -v)
    else
      (p, v)
  }

  function Min(a: real, b: real): real { if a <= b then a else b }
  function Max(a: real, b: real): real { if a >= b then a else b }

  /** Move by the velocity, then test the three walls one axis at a time. */
  function Advance(q: Particle): (r: Particle)
    ensures Within(r.position, HalfExtent)
    ensures r.number == q.number && r.isDrawn == q.isDrawn && r.isBeingDrawn == q.isBeingDrawn
    ensures Abs(r.velocity.x) == Abs(q.velocity.x)
    ensures Abs(r.velocity.y) == Abs(q.velocity.y)
    ensures Abs(r.velocity.z) == Abs(q.velocity.z)
    ensures Within(Add(q.position, q.velocity), HalfExtent) ==>
              r.position == Add(q.position, q.velocity) && r.velocity == q.velocity
  {
    var moved := Add(q.position, q.velocity);
    var (px, vx) := ReflectAxis(moved.x, q.velocity.x);
    var (py, vy) := ReflectAxis(moved.y, q.velocity.y);
    var (pz, vz) := ReflectAxis(moved.z, q.velocity.z);
    q.(position := Vec3(px, py, pz), velocity := Vec3(vx, vy, vz))
  }

  /** What one animation frame does to a particle: a particle being drawn is frozen. */
  function StepParticle(q: Particle): Particle {
    if q.isBeingDrawn then q else Advance(q)
  }

  /** A frozen particle keeps its position and velocity; any other one moves and stays in the box. */
  lemma StepFreezesOnlyBeingDrawn(q: Particle)
    ensures q.isBeingDrawn ==> StepParticle(q) == q
    ensures !q.isBeingDrawn ==> Within(StepParticle(q).position, HalfExtent)
    ensures !q.isBeingDrawn && Within(Add(q.position, q.velocity), HalfExtent) ==>
              StepParticle(q).position == Add(q.position, q.velocity)
  {
  }

  /**
   * Each axis is handled on its own: the velocity component on an axis is
   * reversed and the coordinate put on the wall exactly when the moved
   * coordinate lies beyond that wall.
   */
  lemma AdvanceReflectsPerAxis(q: Particle)
    ensures var moved := Add(q.position, q.velocity);
      var r := Advance(q);
      (Abs(moved.x) > HalfExtent ==> r.velocity.x == -q.velocity.x && Abs(r.position.x) == HalfExtent)
      && (Abs(moved.x) <= HalfExtent ==> r.velocity.x == q.velocity.x && r.position.x == moved.x)
      && (Abs(moved.y) > HalfExtent ==> r.velocity.y == -q.velocity.y && Abs(r.position.y) == HalfExtent)
      && (Abs(moved.y) <= HalfExtent ==> r.velocity.y == q.velocity.y && r.position.y == moved.y)
      && (Abs(moved.z) > HalfExtent ==> r.velocity.z == -q.velocity.z && Abs(r.position.z) == HalfExtent)
      && (Abs(moved.z) <= HalfExtent ==> r.velocity.z == q.velocity.z && r.position.z == moved.z)
  {
  }
}
