/** The game elements: the kinematic state every element shares, and the
    element variants that take part in the per-frame update. */
module Entities {
  import opened Vector2

  /** Position, velocity and acceleration of one element. Each element owns
      its own vectors; nothing is shared between elements. */
  datatype Body = Body(position: Vec, velocity: Vec, acceleration: Vec)

  /** The element variants in the game's element list. Every variant carries
      its `body`; the remaining fields are the variant's own state. */
  datatype Entity =
    | Sun(body: Body, radius: real)
    | Planet(body: Body, radius: real, fieldRadius: real, fieldQuadratic: real,
             fieldLinear: real, orbitalRadius: real, orbitalSpeed: real,
             angle: real, frame: int)
    | Player(body: Body, yaw: int, boostLevel: int, isBoosting: bool,
             subject: Vec, damper: Vec, damperCount: int, score: int)
    | Meteor(body: Body)

  /** `b` is `a` with possibly different motion and, for the player, a
      different score: everything else about the element is the same. */
  predicate SameTraits(a: Entity, b: Entity)
  {
    if a.Player? then b.Player? && b == a.(body := b.body, score := b.score)
    else b == a.(body := b.body)
  }

  /** Element.prepare: the velocity gains the acceleration, then the
      position moves by the new velocity. */
  function Kinematics(b: Body): (r: Body)
    ensures Sub(r.velocity, b.velocity) == b.acceleration
    ensures Sub(r.position, b.position) == r.velocity
    ensures r.acceleration == b.acceleration
  {
    var v := Add(b.velocity, b.acceleration);
    Body(Add(b.position, v), v, b.acceleration)
  }

  /** A body at rest with no acceleration (the Sun) never moves. */
  lemma RestingBodyStays(b: Body)
    requires b.velocity == Zero && b.acceleration == Zero
    ensures Kinematics(b) == b
  {
    assert Add(b.velocity, b.acceleration) == b.velocity;
    assert Add(b.position, b.velocity) == b.position;
  }
}
