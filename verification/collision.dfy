/** The pairwise rule `_detect_collision` and its circle test. */
module Collision {
  import opened Outcomes
  import opened RealFacts
  import opened Vector2
  import opened Entities
  import opened PlayerControl

  /** Clearance added to a planet's radius for the player's hard collision. */
  const CollisionMargin: real := 25.0

  /** `_is_point_in_circle`: squared distance against squared radius, with
      the boundary counted as inside. The centre is always inside, and a
      circle of radius zero holds its centre only. */
  predicate IsPointInCircle(point: Vec, centre: Vec, radius: real): (r: bool)
    ensures point == centre ==> r
    ensures radius == 0.0 ==> (r <==> point == centre)
  {
    LengthSq(Sub(point, centre)) <= radius * radius
  }

  /** The player's hard-collision guard `l < radius + 25` on the distance
      `l`, stated without the square root: the bound must be positive and
      the squared distance strictly below its square. */
  predicate HardCollision(position: Vec, planet: Entity)
    requires planet.Planet?
  {
    var c := planet.radius + CollisionMargin;
    c > 0.0 && LengthSq(Sub(planet.body.position, position)) < c * c
  }

  /** The gravity coefficient `field_quadratic^2 + field_linear`. */
  function PullFactor(planet: Entity): real
    requires planet.Planet?
  {
    planet.fieldQuadratic * planet.fieldQuadratic + planet.fieldLinear
  }

  /** Where obj1 stands when the field test runs: the respawn point if the
      player hit the planet, else where it was. */
  function PositionAfterCheck(obj1: Entity, planet: Entity): (r: Vec)
    requires planet.Planet?
    ensures r == RespawnPoint || r == obj1.body.position
    ensures !obj1.Player? ==> r == obj1.body.position
  {
    if obj1.Player? && HardCollision(obj1.body.position, planet) then RespawnPoint
    else obj1.body.position
  }

  /** The first half of `_detect_collision` against a planet: a player
      closer than the collision bound is reset; any other element is left
      as it is. */
  function CollisionCheck(obj1: Entity, planet: Entity): (r: Entity)
    requires planet.Planet?
    ensures SameTraits(obj1, r)
    ensures r.body.position == PositionAfterCheck(obj1, planet)
    ensures obj1.Player? && HardCollision(obj1.body.position, planet) ==>
      r == Reset(obj1)
    ensures !(obj1.Player? && HardCollision(obj1.body.position, planet)) ==> r == obj1
  {
    if obj1.Player? && HardCollision(obj1.body.position, planet) then Reset(obj1) else obj1
  }

  /** The velocity change a planet's field gives an element at `position`:
      `(centre - position) * PullFactor`. At the centre itself the source
      normalises a zero vector, which raises ZeroDivisionError. */
  function Pull(position: Vec, planet: Entity): (r: Outcome<Vec>)
    requires planet.Planet?
    ensures r.Err? <==> position == planet.body.position
    ensures r.Err? ==> r.fault == ZeroDivision
    ensures r.Ok? ==> Add(r.value, Scale(position, PullFactor(planet)))
                      == Scale(planet.body.position, PullFactor(planet))
  {
    var v := Sub(planet.body.position, position);
    if v == Zero then Err(ZeroDivision) else Ok(Scale(v, PullFactor(planet)))
  }

  /** An element inside a field: the player scores ten, and the pull (if
      it could be computed) is added to the velocity. */
  function Attract(a: Entity, pull: Outcome<Vec>): (r: Outcome<Entity>)
    ensures r.Err? <==> pull.Err?
    ensures r.Err? ==> r.fault == pull.fault
    ensures r.Ok? ==> SameTraits(a, r.value) && r.value.body.position == a.body.position
    ensures r.Ok? ==> r.value.body.acceleration == a.body.acceleration
    ensures r.Ok? ==> Sub(r.value.body.velocity, a.body.velocity) == pull.value
    ensures r.Ok? && a.Player? ==> r.value.score == a.score + FieldScore
  {
    var b := if a.Player? then a.(score := a.score + FieldScore) else a;
    match pull
    case Err(f) => Err(f)
    case Ok(p) => Ok(b.(body := b.body.(velocity := Add(b.body.velocity, p))))
  }

  /** The second half of `_detect_collision` against a planet: inside the
      field (boundary included) the element is attracted; outside nothing
      changes. */
  function FieldEffect(a: Entity, planet: Entity): (r: Outcome<Entity>)
    requires planet.Planet?
    ensures r.Ok? ==> SameTraits(a, r.value) && r.value.body.position == a.body.position
    ensures r.Err? ==> r.fault == ZeroDivision
    ensures !IsPointInCircle(a.body.position, planet.body.position, planet.fieldRadius) ==>
      r == Ok(a)
    ensures IsPointInCircle(a.body.position, planet.body.position, planet.fieldRadius) ==>
      && (r.Err? <==> a.body.position == planet.body.position)
      && (r.Ok? ==> Sub(r.value.body.velocity, a.body.velocity)
                    == Scale(Sub(planet.body.position, a.body.position), PullFactor(planet)))
      && (r.Ok? && a.Player? ==> r.value.score == a.score + FieldScore)
  {
    if IsPointInCircle(a.body.position, planet.body.position, planet.fieldRadius) then
      Attract(a, Pull(a.body.position, planet))
    else Ok(a)
  }

  /** `_detect_collision(obj1, obj2)` without square roots. Only a Planet as
      obj2 has any effect; against a planet the hard-collision check runs
      first and the field test then sees the position it left. */
  function DetectCollision(obj1: Entity, obj2: Entity): (r: Outcome<Entity>)
    ensures !obj2.Planet? ==> r == Ok(obj1)
    ensures r.Ok? ==> SameTraits(obj1, r.value)
    ensures r.Err? ==> r.fault == ZeroDivision
    ensures obj2.Planet? ==> r == FieldEffect(CollisionCheck(obj1, obj2), obj2)
  {
    if !obj2.Planet? then Ok(obj1)
    else FieldEffect(CollisionCheck(obj1, obj2), obj2)
  }

  /** A collision with a planet keeps the player's bounds (its score stays
      non-negative). */
  lemma DetectCollisionKeepsPlayerInv(obj1: Entity, obj2: Entity)
    requires obj1.Player?
    ensures PlayerInv(obj1) && DetectCollision(obj1, obj2).Ok? ==>
      PlayerInv(DetectCollision(obj1, obj2).value)
  {
  }

  /** The sqrt-free guard agrees with the source's `l < radius + 25` for the
      distance `l` that math.sqrt returns. */
  lemma HardCollisionIsDistanceTest(position: Vec, planet: Entity, l: real)
    requires planet.Planet?
    requires IsLength(Sub(planet.body.position, position), l)
    ensures HardCollision(position, planet) <==> l < planet.radius + CollisionMargin
  {
    var c := planet.radius + CollisionMargin;
    var s := LengthSq(Sub(planet.body.position, position));
    var cc := c * c;
    if c > 0.0 {
      if l < c {
        SquareLess(l, c, s, cc);
        assert s < cc;
      } else {
        SquareAtMost(c, l, cc, s);
        assert !(s < cc);
      }
    }
  }

  /** The circle test agrees with "distance at most |radius|" for the
      distance `l` that math.sqrt returns: the boundary is inside. */
  lemma InCircleIsDistanceTest(point: Vec, centre: Vec, radius: real, l: real)
    requires IsLength(Sub(point, centre), l)
    ensures IsPointInCircle(point, centre, radius) <==> l <= if radius < 0.0 then -radius else radius
  {
    var a := if radius < 0.0 then -radius else radius;
    var s := LengthSq(Sub(point, centre));
    var rr := radius * radius;
    assert rr == a * a;
    if l <= a {
      SquareAtMost(l, a, s, rr);
      assert s <= rr;
    } else {
      SquareLess(a, l, rr, s);
      assert !(s <= rr);
    }
  }

  /** Where the source's field test runs, given the pre-reset distance `l`. */
  function PositionAfterGuard(obj1: Entity, planet: Entity, l: real): Vec
    requires planet.Planet?
  {
    if obj1.Player? && l < planet.radius + CollisionMargin then RespawnPoint else obj1.body.position
  }

  /** `_detect_collision` as written: the distance `l` to the planet before
      the reset and the distance `d` after it are the square roots the
      source takes with `length()`. */
  function DetectCollisionAsWritten(obj1: Entity, obj2: Entity, l: real, d: real): (r: Outcome<Entity>)
    requires obj2.Planet? ==> IsLength(Sub(obj2.body.position, obj1.body.position), l)
    requires obj2.Planet? ==> IsLength(Sub(obj2.body.position, PositionAfterGuard(obj1, obj2, l)), d)
    ensures r.Ok? ==> SameTraits(obj1, r.value)
    ensures !obj2.Planet? ==> r == Ok(obj1)
  {
    if !obj2.Planet? then Ok(obj1)
    else FieldEffectAsWritten(CollisionCheckAsWritten(obj1, obj2, l), obj2, d)
  }

  /** The reset guard as written, on the distance `l`. */
  function CollisionCheckAsWritten(obj1: Entity, planet: Entity, l: real): (r: Entity)
    requires planet.Planet?
    ensures SameTraits(obj1, r)
    ensures r.body.position == PositionAfterGuard(obj1, planet, l)
  {
    if obj1.Player? && l < planet.radius + CollisionMargin then Reset(obj1) else obj1
  }

  /** The pull as written: the difference is normalised with its length
      `d` and scaled by `d*q^2 + d*linear`. */
  function PullAsWritten(position: Vec, planet: Entity, d: real): (r: Outcome<Vec>)
    requires planet.Planet?
    requires IsLength(Sub(planet.body.position, position), d)
  {
    var n := Normalise(Sub(planet.body.position, position), d);
    var q := planet.fieldQuadratic;
    if n.Err? then n else Ok(Scale(n.value, d * (q * q) + d * planet.fieldLinear))
  }

  /** The field step as written. */
  function FieldEffectAsWritten(a: Entity, planet: Entity, d: real): (r: Outcome<Entity>)
    requires planet.Planet?
    requires IsLength(Sub(planet.body.position, a.body.position), d)
  {
    if IsPointInCircle(a.body.position, planet.body.position, planet.fieldRadius) then
      Attract(a, PullAsWritten(a.body.position, planet, d))
    else Ok(a)
  }

  /** Normalising and scaling by `d*q^2 + d*linear` is scaling the raw
      difference by `q^2 + linear`; both fail together at the centre. */
  lemma PullMatchesSource(position: Vec, planet: Entity, d: real)
    requires planet.Planet?
    requires IsLength(Sub(planet.body.position, position), d)
    ensures PullAsWritten(position, planet, d) == Pull(position, planet)
  {
    var v := Sub(planet.body.position, position);
    if v == Zero {
      assert Normalise(v, d).Err? by { NormaliseUnit(v, d); }
    } else {
      assert Normalise(v, d).Ok? && Scale(Normalise(v, d).value, d) == v by {
        NormaliseUnit(v, d);
      }
      var n := Normalise(v, d).value;
      var q := planet.fieldQuadratic;
      var k := PullFactor(planet);
      assert d * (q * q) + d * planet.fieldLinear == d * k;
      StretchedUnit(v, n, d, k);
      assert Scale(n, d * (q * q) + d * planet.fieldLinear) == Scale(n, d * k);
      var w := PullAsWritten(position, planet, d);
      assert w.Ok? && w.value == Scale(n, d * (q * q) + d * planet.fieldLinear);
      assert w == Ok(Scale(n, d * k));
    }
  }

  /** If `v` is `n` stretched by `d`, then `n` scaled by `d * k` is `v`
      scaled by `k`. */
  lemma StretchedUnit(v: Vec, n: Vec, d: real, k: real)
    requires Scale(n, d) == v
    ensures Scale(n, d * k) == Scale(v, k)
  {
    assert n.x * (d * k) == (n.x * d) * k;
    assert n.y * (d * k) == (n.y * d) * k;
  }

  /** The sqrt-free rule is the source's rule: for the lengths math.sqrt
      returns, both give the same outcome. */
  lemma DetectCollisionMatchesSource(obj1: Entity, obj2: Entity, l: real, d: real)
    requires obj2.Planet? ==> IsLength(Sub(obj2.body.position, obj1.body.position), l)
    requires obj2.Planet? ==> IsLength(Sub(obj2.body.position, PositionAfterGuard(obj1, obj2, l)), d)
    ensures DetectCollisionAsWritten(obj1, obj2, l, d) == DetectCollision(obj1, obj2)
  {
    if obj2.Planet? {
      HardCollisionIsDistanceTest(obj1.body.position, obj2, l);
      var a := CollisionCheck(obj1, obj2);
      assert CollisionCheckAsWritten(obj1, obj2, l) == a;
      PullMatchesSource(a.body.position, obj2, d);
    }
  }

  /** The field boundary is inside: an element exactly `fieldRadius` from
      the centre is pulled and, for the player, scores; one unit further
      out nothing happens. */
  lemma FieldBoundaryInclusive(centre: Vec, fieldRadius: real)
    requires fieldRadius >= 0.0
    ensures IsPointInCircle(Vec(centre.x + fieldRadius, centre.y), centre, fieldRadius)
    ensures !IsPointInCircle(Vec(centre.x + fieldRadius + 1.0, centre.y), centre, fieldRadius)
  {
  }

  /** The hard-collision boundary is outside: a player exactly
      `radius + 25` from the centre is not reset; any closer and it is. */
  lemma HardCollisionBoundaryStrict(planet: Entity, gap: real)
    requires planet.Planet? && planet.radius + CollisionMargin > 0.0
    requires 0.0 <= gap < planet.radius + CollisionMargin
    ensures !HardCollision(Vec(planet.body.position.x + planet.radius + CollisionMargin,
                               planet.body.position.y), planet)
    ensures HardCollision(Vec(planet.body.position.x + gap, planet.body.position.y), planet)
  {
    var c := planet.radius + CollisionMargin;
    var o := planet.body.position;
    assert LengthSq(Sub(o, Vec(o.x + c, o.y))) == c * c;
    SquareLess(gap, c, gap * gap, c * c);
    assert LengthSq(Sub(o, Vec(o.x + gap, o.y))) == gap * gap;
  }

  /** The reset happens before the field test and the test uses the
      respawn point: a player that hits a planet far from the respawn
      point ends the call at rest with no score, even though it stood
      inside the field before the reset. */
  lemma ResetBeforeFieldTest(player: Entity, planet: Entity)
    requires player.Player? && planet.Planet?
    requires HardCollision(player.body.position, planet)
    requires !IsPointInCircle(RespawnPoint, planet.body.position, planet.fieldRadius)
    ensures DetectCollision(player, planet) == Ok(Reset(player))
    ensures DetectCollision(player, planet).value.score == 0
  {
  }
}
