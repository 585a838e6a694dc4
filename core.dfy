/** The ship's physics (src/ts/core.ts): one `tick` turns the ship, wraps its bearing once into
    [-π, π], and advances position and velocity by a half-step / full-step / half-step scheme
    with thrust along the new bearing and drag proportional to speed. Numbers are `real`s;
    `Math.sin`, `Math.cos` and `Math.sqrt` are supplied by the caller. */
module Core {
  import opened Utility

  const TickTime: real := 0.1
  const RotationRate: real := 2.0
  const Acceleration: real := 30.0
  const Drag: real := 2.0
  /** `Math.PI` as its 16-digit decimal; the double's exact value differs beyond that digit. */
  const Pi: real := 3.141592653589793

  datatype ShipState = ShipState(position: Vector, velocity: Vector, bearing: real)

  /** The two `if`s after the turn: add 2π below -π, then subtract 2π above π. */
  function WrapOnce(b: real): (r: real)
    ensures r == b || r == b + 2.0 * Pi || r == b - 2.0 * Pi
    ensures -Pi <= b <= Pi ==> r == b
  {
    var lifted := if b < -Pi then b + 2.0 * Pi else b;
    if Pi < lifted then lifted - 2.0 * Pi else lifted
  }

  function NextBearing(bearing: real, rotate: real): real
  {
    WrapOnce(bearing + rotate * RotationRate * TickTime)
  }

  /** The acceleration term: thrust along (-sin b, cos b) minus drag against the velocity,
      both already multiplied by the tick time. */
  function Accel(thrust: real, bearing: real, velocity: Vector, speed: real, sin: real -> real, cos: real -> real): Vector
  {
    Vector(thrust * -sin(bearing) * Acceleration * TickTime - velocity.x * speed * Drag * TickTime,
           thrust * cos(bearing) * Acceleration * TickTime - velocity.y * speed * Drag * TickTime)
  }

  /** Half a tick of motion at the current velocity. */
  function HalfStep(s: ShipState): (r: ShipState)
    ensures r.velocity == s.velocity && r.bearing == s.bearing
  {
    s.(position := Vector(s.position.x + s.velocity.x * TickTime / 2.0, s.position.y + s.velocity.y * TickTime / 2.0))
  }

  /** A tick's worth of acceleration `a`. */
  function Kick(s: ShipState, a: Vector): (r: ShipState)
    ensures r.position == s.position && r.bearing == s.bearing
  {
    s.(velocity := Vector(s.velocity.x + a.x * TickTime, s.velocity.y + a.y * TickTime))
  }

  /** The position and velocity update of `tick` once the bearing has been turned, for a
      ship moving at `speed`: the acceleration is taken from the velocity before the move. */
  function Motion(s: ShipState, thrust: real, speed: real, sin: real -> real, cos: real -> real): (r: ShipState)
    ensures r.bearing == s.bearing
  {
    HalfStep(Kick(HalfStep(s), Accel(thrust, s.bearing, s.velocity, speed, sin, cos)))
  }

  /** The ship after one `tick(thrust, rotate)`. */
  function Next(s: ShipState, thrust: real, rotate: real, sin: real -> real, cos: real -> real, sqrt: real -> real): ShipState
  {
    Motion(s.(bearing := NextBearing(s.bearing, rotate)), thrust, VectorLength(s.velocity, sqrt), sin, cos)
  }

  /** A bearing in [-π, π] stays there after a turn of at most one unit of `rotate`: the step
      is at most 0.2 and a single wrap brings it back. */
  lemma BearingStaysInRange(bearing: real, rotate: real)
    requires -Pi <= bearing <= Pi && -1.0 <= rotate <= 1.0
    ensures -Pi <= NextBearing(bearing, rotate) <= Pi
    ensures var step := NextBearing(bearing, rotate) - bearing;
      step == rotate * 0.2 || step == rotate * 0.2 + 2.0 * Pi || step == rotate * 0.2 - 2.0 * Pi
  {
  }

  /** Without rotation a bearing in range is left alone. */
  lemma NoTurnKeepsBearing(bearing: real)
    requires -Pi <= bearing <= Pi
    ensures NextBearing(bearing, 0.0) == bearing
  {
  }

  /** The position moves by the average of the old and the new velocity over one tick. */
  lemma PositionIsTrapezoid(s: ShipState, thrust: real, rotate: real, sin: real -> real, cos: real -> real, sqrt: real -> real)
    ensures var n := Next(s, thrust, rotate, sin, cos, sqrt);
      && n.position.x == s.position.x + TickTime / 2.0 * (s.velocity.x + n.velocity.x)
      && n.position.y == s.position.y + TickTime / 2.0 * (s.velocity.y + n.velocity.y)
  {
  }

  /** The velocity changes by thrust and drag scaled by the tick time squared, the thrust
      along the new bearing. */
  lemma VelocityStep(s: ShipState, thrust: real, rotate: real, sin: real -> real, cos: real -> real, sqrt: real -> real)
    ensures var n := Next(s, thrust, rotate, sin, cos, sqrt);
      var speed := VectorLength(s.velocity, sqrt);
      var b := n.bearing;
      && n.bearing == NextBearing(s.bearing, rotate)
      && n.velocity.x == s.velocity.x + TickTime * TickTime * (thrust * Acceleration * -sin(b) - s.velocity.x * speed * Drag)
      && n.velocity.y == s.velocity.y + TickTime * TickTime * (thrust * Acceleration * cos(b) - s.velocity.y * speed * Drag)
  {
  }

  /** Coasting: each velocity component is scaled by `1 - speed * Drag * TickTime²`. */
  lemma CoastingDrag(s: ShipState, rotate: real, sin: real -> real, cos: real -> real, sqrt: real -> real)
    ensures var n := Next(s, 0.0, rotate, sin, cos, sqrt);
      var factor := 1.0 - VectorLength(s.velocity, sqrt) * Drag * TickTime * TickTime;
      n.velocity == Vector(s.velocity.x * factor, s.velocity.y * factor)
  {
  }

  /** From rest, the new velocity points along (-sin b, cos b) of the new bearing b, with
      magnitude thrust times 0.3 (Acceleration · TickTime²). */
  lemma ThrustFromRest(position: Vector, bearing: real, thrust: real, rotate: real, sin: real -> real, cos: real -> real, sqrt: real -> real)
    ensures var n := Next(ShipState(position, Vector(0.0, 0.0), bearing), thrust, rotate, sin, cos, sqrt);
      n.velocity == Vector(thrust * 0.3 * -sin(n.bearing), thrust * 0.3 * cos(n.bearing))
  {
  }

  /** A ship at rest without thrust stays where it is, at rest, since its drag is zero. */
  lemma RestIsFixed(position: Vector, bearing: real, rotate: real, sin: real -> real, cos: real -> real, sqrt: real -> real)
    ensures var n := Next(ShipState(position, Vector(0.0, 0.0), bearing), 0.0, rotate, sin, cos, sqrt);
      n.position == position && n.velocity == Vector(0.0, 0.0)
  {
  }

  /** `Ship`: position and velocity are two-element arrays updated in place. */
  class Ship {
    const position: array<real>
    const velocity: array<real>
    var bearing: real

    predicate Valid()
      reads this
    {
      position.Length == 2 && velocity.Length == 2 && position != velocity
    }

    function State(): ShipState
      reads this, position, velocity
      requires Valid()
    {
      ShipState(Vector(position[0], position[1]), Vector(velocity[0], velocity[1]), bearing)
    }

    constructor (position: array<real>, velocity: array<real>, bearing: real)
      requires position.Length == 2 && velocity.Length == 2 && position != velocity
      ensures Valid()
      ensures this.position == position && this.velocity == velocity && this.bearing == bearing
    {
      this.position := position;
      this.velocity := velocity;
      this.bearing := bearing;
    }

    /** `tick(thrust, rotate)`: turn, then move. */
    method Tick(thrust: real, rotate: real, sin: real -> real, cos: real -> real, sqrt: real -> real)
      requires Valid()
      modifies this, position, velocity
      ensures Valid()
      ensures State() == Next(old(State()), thrust, rotate, sin, cos, sqrt)
    {
      Turn(rotate);
      Move(thrust, sin, cos, sqrt);
    }

    /** The first three statements of `tick`: turn and wrap the bearing once. */
    method Turn(rotate: real)
      requires Valid()
      modifies this`bearing
      ensures Valid()
      ensures bearing == NextBearing(old(bearing), rotate)
    {
      bearing := bearing + rotate * RotationRate * TickTime;
      if bearing < -Pi {
        bearing := bearing + 2.0 * Pi;
      }
      if Pi < bearing {
        bearing := bearing - 2.0 * Pi;
      }
    }

    /** The rest of `tick`: half a step of position, a step of velocity, half a step of
        position, in place. */
    method Move(thrust: real, sin: real -> real, cos: real -> real, sqrt: real -> real)
      requires Valid()
      modifies position, velocity
      ensures State() == Motion(old(State()), thrust, VectorLength(old(State()).velocity, sqrt), sin, cos)
    {
      ghost var before := State();
      var speed := VectorLength(Vector(velocity[0], velocity[1]), sqrt);
      var acceleration := [
        thrust * -sin(bearing) * Acceleration * TickTime - velocity[0] * speed * Drag * TickTime,
        thrust * cos(bearing) * Acceleration * TickTime - velocity[1] * speed * Drag * TickTime
      ];
      ghost var a := Accel(thrust, bearing, before.velocity, speed, sin, cos);
      assert acceleration[0] == a.x && acceleration[1] == a.y;
      position[0] := position[0] + velocity[0] * TickTime / 2.0;
      position[1] := position[1] + velocity[1] * TickTime / 2.0;
      assert State() == HalfStep(before);
      ghost var half := State();
      velocity[0] := velocity[0] + acceleration[0] * TickTime;
      velocity[1] := velocity[1] + acceleration[1] * TickTime;
      assert State() == Kick(half, a);
      ghost var kicked := State();
      position[0] := position[0] + velocity[0] * TickTime / 2.0;
      position[1] := position[1] + velocity[1] * TickTime / 2.0;
      assert State() == HalfStep(kicked);
    }
  }
}
