/** Planets: construction and the per-frame orbit step. */
module Planets {
  import opened Outcomes
  import opened Vector2
  import opened Entities

  /** Sprite frames a planet cycles through, and degrees in a full turn. */
  const FrameCount: int := 360
  const FullTurn: real := 360.0

  /** The bounds every planet keeps: a field wider than the body, a frame
      that indexes its sprite list, and an angle within one turn. */
  predicate PlanetInv(p: Entity)
  {
    && p.Planet?
    && p.fieldRadius > p.radius
    && 0 <= p.frame < FrameCount
    && 0.0 <= p.angle < FullTurn
  }

  /** Planet.__init__. The source asserts `field_radius > radius` before
      anything else; a failing assert is an AssertionError. The starting
      angle comes from `random.randint(0, 359)` and is a parameter here. */
  function NewPlanet(position: Vec, velocity: Vec, radius: real, fieldRadius: real,
                     fieldQuadratic: real, fieldLinear: real, orbitalRadius: real,
                     orbitalSpeed: real, initialAngle: int): (r: Outcome<Entity>)
    requires 0 <= initialAngle <= 359
    ensures r.Err? <==> fieldRadius <= radius
    ensures r.Err? ==> r.fault == AssertionFailed
    ensures r.Ok? ==> PlanetInv(r.value) && r.value.frame == 0
    ensures r.Ok? ==> r.value.body == Body(position, velocity, Zero)
    ensures r.Ok? ==> r.value.angle == initialAngle as real
    ensures r.Ok? ==> r.value.radius == radius && r.value.fieldRadius == fieldRadius
    ensures r.Ok? ==> r.value.fieldQuadratic == fieldQuadratic && r.value.fieldLinear == fieldLinear
    ensures r.Ok? ==> r.value.orbitalRadius == orbitalRadius && r.value.orbitalSpeed == orbitalSpeed
  {
    if !(fieldRadius > radius) then Err(AssertionFailed)
    else Ok(Planet(Body(position, velocity, Zero), radius, fieldRadius, fieldQuadratic,
                   fieldLinear, orbitalRadius, orbitalSpeed, initialAngle as real, 0))
  }

  /** Python's `a % 360` on a float: floored, so the result lies in
      [0, 360) whatever the sign of `a`, and differs from `a` by a whole
      number of turns. */
  function Angle360(a: real): (r: real)
    ensures 0.0 <= r < FullTurn
    ensures 0.0 <= a < FullTurn ==> r == a
  {
    var turns := (a / FullTurn).Floor;
    a - FullTurn * turns as real
  }

  /** Angle360 is characterised by its range and by differing from its
      argument by whole turns: any such value is the one it returns. */
  lemma {:induction false} Angle360Unique(a: real, b: real, k: int)
    requires 0.0 <= b < FullTurn && a == b + FullTurn * k as real
    ensures Angle360(a) == b
  {
    var f := (a / FullTurn).Floor;
    assert a / FullTurn == b / FullTurn + k as real;
    assert 0.0 <= b / FullTurn < 1.0;
    assert f == k;
  }

  /** Adding whole turns does not change the reduced angle. */
  lemma AngleIgnoresWholeTurns(a: real, k: int)
    ensures Angle360(a + FullTurn * k as real) == Angle360(a)
  {
    var b := Angle360(a);
    var f := (a / FullTurn).Floor;
    assert a == b + FullTurn * f as real;
    Angle360Unique(a + FullTurn * k as real, b, f + k);
  }

  /** Planet.prepare. The position is placed on the orbit around the focus'
      current position, along `direction` = (cos angle, sin angle) (the
      trigonometry is outside this model); then the angle advances by the
      orbital speed modulo 360 and the sprite frame by one modulo 360.
      Velocity, acceleration and the planet's parameters are untouched. */
  function PlanetPrepare(p: Entity, focus: Vec, direction: Vec): (r: Entity)
    requires p.Planet?
    ensures r.Planet? && SameTraits(p.(angle := r.angle, frame := r.frame), r)
    ensures r.body.position == Add(focus, Scale(direction, p.orbitalRadius))
    ensures r.body.velocity == p.body.velocity && r.body.acceleration == p.body.acceleration
    ensures 0.0 <= r.angle < FullTurn && 0 <= r.frame < FrameCount
    ensures 0 <= p.frame < FrameCount - 1 ==> r.frame == p.frame + 1
    ensures p.frame == FrameCount - 1 ==> r.frame == 0
    ensures r.angle == Angle360(p.angle + p.orbitalSpeed)
    ensures 0.0 <= p.angle + p.orbitalSpeed < FullTurn ==> r.angle == p.angle + p.orbitalSpeed
    ensures PlanetInv(p) ==> PlanetInv(r)
  {
    var position := Vec(p.orbitalRadius * direction.x + focus.x,
                        p.orbitalRadius * direction.y + focus.y);
    p.(body := p.body.(position := position),
       angle := Angle360(p.angle + p.orbitalSpeed),
       frame := (p.frame + 1) % FrameCount)
  }

  /** With a unit direction the planet lands exactly `orbitalRadius` from
      its focus (in squared form). */
  lemma OnOrbit(p: Entity, focus: Vec, direction: Vec)
    requires p.Planet? && LengthSq(direction) == 1.0
    ensures LengthSq(Sub(PlanetPrepare(p, focus, direction).body.position, focus))
            == p.orbitalRadius * p.orbitalRadius
  {
  }

  /** `n` frames of Planet.prepare, the focus and direction of each frame
      given as sequences. */
  function Orbit(p: Entity, foci: seq<Vec>, directions: seq<Vec>): (r: Entity)
    requires p.Planet? && |foci| == |directions|
    ensures r.Planet?
    decreases |foci|
  {
    if |foci| == 0 then p
    else Orbit(PlanetPrepare(p, foci[0], directions[0]), foci[1..], directions[1..])
  }

  /** The unreduced angle after n steps of `speed`. */
  function Drift(angle: real, speed: real, n: nat): real
    decreases n
  {
    if n == 0 then angle else Drift(angle + speed, speed, n - 1)
  }

  /** n steps of `speed` add n times `speed`. */
  lemma {:induction false} DriftIsProduct(angle: real, speed: real, n: nat)
    ensures Drift(angle, speed, n) == angle + (n as real) * speed
    decreases n
  {
    if n > 0 {
      DriftIsProduct(angle + speed, speed, n - 1);
      assert ((n - 1) as real) * speed + speed == (n as real) * speed;
    }
  }

  /** Drifting commutes with subtracting whole turns. */
  lemma {:induction false} DriftShift(angle: real, speed: real, n: nat, c: real)
    ensures Drift(angle - c, speed, n) == Drift(angle, speed, n) - c
    decreases n
  {
    if n > 0 {
      assert angle - c + speed == (angle + speed) - c;
      DriftShift(angle + speed, speed, n - 1, c);
    }
  }

  /** Reducing the angle before drifting does not change the reduced
      result. */
  lemma ReduceThenDrift(angle: real, speed: real, n: nat)
    ensures Angle360(Drift(Angle360(angle), speed, n)) == Angle360(Drift(angle, speed, n))
  {
    var f := (angle / FullTurn).Floor;
    var c := FullTurn * f as real;
    assert Angle360(angle) == angle - c;
    DriftShift(angle, speed, n, c);
    var d := Drift(angle, speed, n);
    assert d - c == d + FullTurn * (-f) as real;
    AngleIgnoresWholeTurns(d, -f);
  }

  /** Every frame keeps the planet's bounds, and the sprite frame counts
      frames modulo 360. */
  lemma {:induction false} OrbitFrames(p: Entity, foci: seq<Vec>, directions: seq<Vec>)
    requires PlanetInv(p) && |foci| == |directions|
    ensures PlanetInv(Orbit(p, foci, directions))
    ensures Orbit(p, foci, directions).frame == (p.frame + |foci|) % FrameCount
    decreases |foci|
  {
    if |foci| > 0 {
      var q := PlanetPrepare(p, foci[0], directions[0]);
      OrbitFrames(q, foci[1..], directions[1..]);
      FrameStep(p.frame, |foci|);
    }
  }

  /** The angle accumulates the orbital speed, reduced modulo 360 after
      every frame; reducing once at the end gives the same angle. */
  lemma {:induction false} OrbitDrift(p: Entity, foci: seq<Vec>, directions: seq<Vec>)
    requires p.Planet? && 0.0 <= p.angle < FullTurn && |foci| == |directions|
    ensures Orbit(p, foci, directions).angle == Angle360(Drift(p.angle, p.orbitalSpeed, |foci|))
    decreases |foci|
  {
    if |foci| > 0 {
      var q := PlanetPrepare(p, foci[0], directions[0]);
      OrbitDrift(q, foci[1..], directions[1..]);
      ReduceThenDrift(p.angle + p.orbitalSpeed, p.orbitalSpeed, |foci| - 1);
    }
  }

  /** One frame step followed by n - 1 more counts n frames. */
  lemma FrameStep(frame: int, n: int)
    requires 0 <= frame < FrameCount && n > 0
    ensures ((frame + 1) % FrameCount + (n - 1)) % FrameCount == (frame + n) % FrameCount
  {
  }

  /** After 360 frames the sprite frame is back where it started. */
  lemma FrameCycle(p: Entity, foci: seq<Vec>, directions: seq<Vec>)
    requires PlanetInv(p) && |foci| == |directions| == FrameCount
    ensures Orbit(p, foci, directions).frame == p.frame
  {
    assert Orbit(p, foci, directions).frame == (p.frame + FrameCount) % FrameCount by {
      OrbitFrames(p, foci, directions);
    }
    FullCycle(p.frame);
  }

  /** A full cycle of frames lands on the starting frame. */
  lemma FullCycle(frame: int)
    requires 0 <= frame < FrameCount
    ensures (frame + FrameCount) % FrameCount == frame
  {
  }
}
