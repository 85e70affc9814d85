# Daredevil: the update rules, in Dafny

Daredevil is a small pygame game. The player steers a ship through a
solar system of orbiting planets. Boosting costs a charge and starts a
30-frame damper. Each frame spent inside a planet's gravitational field
scores ten points. Flying too close to a planet sends the player back to
the start.

This project models the game's deterministic update rules as pure
functions over immutable state, and proves what those rules guarantee.

| Module | File | Contents |
|---|---|---|
| `Outcomes` | `outcomes.dfy` | Python's two runtime faults that matter here: `ZeroDivisionError` and a failing `assert`. |
| `RealFacts` | `realfacts.dfy` | Small facts about products of reals, used by the distance proofs. |
| `Vector2` | `vector2.dfy` | The `Vector2` value type over exact reals. |
| `Entities` | `entities.dfy` | The shared kinematic state (position, velocity, acceleration) and the element variants Sun, Planet, Player and Meteor. |
| `PlayerControl` | `player.dfy` | Yaw steering, boosting, reset, and the bookkeeping at the end of each player frame. |
| `Collision` | `collision.dfy` | The pairwise rule `_detect_collision` and the circle test `_is_point_in_circle`. |
| `PlayerUpdate` | `update.dfy` | `Player.prepare` as a whole. |
| `Planets` | `planets.dfy` | Planet construction and the orbit step. |
| `Particles` | `particles.dfy` | Particle ageing. |

## Square roots

`Vector2.length` is `math.sqrt(x*x + y*y)`. The model does not compute a
square root. Instead, the predicate `IsLength(v, l)` says that `l` is
that root: `l >= 0` and `l*l == x*x + y*y`. `Normalise` takes such an
`l` as a parameter.

`_detect_collision` takes two lengths: the player's distance to the
planet, and the distance after a possible reset. Two versions of it are
modelled:

- `DetectCollisionAsWritten` takes both lengths as parameters and follows
  the source step by step.
- `DetectCollision` works on squared distances. Its field pull is
  `(centre - position) * (q^2 + linear)`.

`DetectCollisionMatchesSource` proves the two agree for every pair of
admissible lengths. The rest of the model uses the square-root-free
version.

## Two notes on the rules as written

- Python's `%` on floats is floored. The planet angle therefore stays in [0, 360) whatever the sign of the orbital speed, not only for non-negative speeds. `Angle360` states the range for every speed.
- The damper is set from the whole velocity after the boost, not from the boost impulse alone. With no other forces, thirty damper frames bring the ship to a stop rather than back to its pre-boost velocity. `DamperCancelsBoostVelocity` states exactly this.

## Model

| member | source | states |
|---|---|---|
| Vector2.Add | Vector2.py:21-22 | Component-wise sum, with the zero vector as identity on both sides. The rest of its algebra with subtraction is in AddSubRoundTrip. |
| Vector2.Sub | Vector2.py:24-25 | Component-wise difference. It is zero exactly between equal vectors, and subtracting zero changes nothing. |
| Vector2.Scale | Vector2.py:27-28 | Multiplication by a scalar. 1 is the identity, and a zero factor on either side gives the zero vector. |
| Vector2.AddSubRoundTrip | Vector2.py:21-25 | `(a + b) - b == a` and `(a - b) + b == a`. A difference is zero exactly when the operands are equal. |
| Vector2.ScaleIdentities | Vector2.py:27-28 | Scaling by 1 is the identity. Scaling by 0, or scaling the zero vector, gives the zero vector. |
| Vector2.Div | Vector2.py:30-31 | Dividing by a non-zero `k` equals scaling by `1/k`, and scaling by `k` undoes it. |
| Vector2.LengthSq | Vector2.py:33-34 | The squared length is non-negative, and zero exactly for the zero vector. |
| Vector2.LengthZero | Vector2.py:33-34 | The length is zero exactly for the zero vector. |
| Vector2.LengthUnique | Vector2.py:33-34 | A vector has at most one non-negative length. |
| Vector2.Normalise | Vector2.py:36-39 | A zero length raises ZeroDivisionError. Otherwise the result is the vector divided by its length. |
| Vector2.NormaliseUnit | Vector2.py:36-39 | Normalising fails exactly on the zero vector. Otherwise the result has unit squared length, and the original is the result scaled by the positive length, so the direction is preserved. |
| Vector2.UnitAfterDivision | Vector2.py:36-39 | Dividing both components by the length leaves squared length 1. |
| Entities.Kinematics | __main__.py:28-30 | The new velocity exceeds the old by the acceleration. The new position exceeds the old by the new velocity. The acceleration is kept. |
| Entities.RestingBodyStays | __main__.py:28-30 | A body with no velocity and no acceleration does not move. |
| PlayerControl.NewPlayer | __main__.py:62-73 | A new player faces yaw 270 with 30 boost charges, a zero facing vector, a zero damper, countdown 0, no score, not boosting, and satisfies the player bounds. |
| PlayerControl.WrapYaw | __main__.py:75-80 | The yaw stays in [0, 359] for any delta. An in-range sum is kept, a negative sum becomes 359, and a sum above 359 becomes 0. |
| PlayerControl.AdjustYaw | __main__.py:75-80 | The new yaw is the asymmetric wrap `WrapYaw` of old yaw plus delta, so it stays in [0, 359]. Only the yaw changes, and the player bounds are kept. |
| PlayerControl.LeftTurnsAreModular | __main__.py:75-80 | From an even yaw, n turns of +2 reach `(yaw + 2n) mod 360`. |
| PlayerControl.RightTurnsAreModular | __main__.py:75-80 | From an odd yaw, n turns of -2 reach `(yaw - 2n) mod 360`. |
| PlayerControl.LeftTurnCycle | __main__.py:75-80 | From an even yaw, 180 turns of +2 return to the start. |
| PlayerControl.AsymmetricWrap | __main__.py:75-80 | 0 turned by -2 gives 359, 358 turned by +2 gives 0, and 180 turns of -2 from 0 end at 1, not 0. |
| PlayerControl.Boost | __main__.py:82-90 | With no charge nothing changes. Otherwise the flag is set, velocity gains `0.1*subject`, thirty dampers cancel the new velocity, the countdown is 30, exactly one charge is spent, and nothing else changes. |
| PlayerControl.Reset | __main__.py:115-122 | The player is at (20, 300) with zero velocity, zero acceleration and score 0. Nothing else changes. |
| PlayerControl.ResetIdempotent | __main__.py:115-122 | Resetting twice is resetting once. |
| PlayerControl.Settle | __main__.py:101-108 | The flag is always cleared. A charge regenerates exactly when not boosting and below 10, so regeneration never lifts the level past 10. In a non-boosting frame with the countdown running, the damper is added to velocity once and the countdown drops by one. Otherwise velocity and countdown are unchanged. The player bounds are kept. |
| PlayerControl.DamperAccumulates | __main__.py:104-107 | After k boost-free frames within the countdown, the velocity has gained exactly k dampers and the countdown has dropped by k. |
| PlayerControl.DamperCancelsBoostVelocity | __main__.py:82-108 | With no other forces, the boosting frame plus thirty boost-free frames bring the velocity to zero, and the countdown ends at 0. |
| Collision.PositionAfterCheck | __main__.py:194-198 | The field test runs at the respawn point or at obj1's own position. It is always the latter for a non-player. |
| Collision.CollisionCheck | __main__.py:194-197 | Only a player inside the strict collision bound is reset. Anything else is returned unchanged. |
| Collision.Pull | __main__.py:201-204 | The pull fails with ZeroDivisionError exactly at the planet's centre. Otherwise it is the offset to the centre scaled by `q^2 + linear`. |
| Collision.Attract | __main__.py:199-204 | Only a player scores +10. The velocity changes by exactly the pull, and position and acceleration are kept. |
| Collision.FieldEffect | __main__.py:198-204 | Outside the field nothing changes. Inside it (boundary included), the velocity gains the pull, the player scores 10, and the centre itself is a ZeroDivisionError. |
| Collision.DetectCollision | __main__.py:192-204 | A non-planet obj2 has no effect. Against a planet the field test runs on the element the collision check left. Only motion and score can change, and the only fault is ZeroDivisionError. |
| Collision.DetectCollisionKeepsPlayerInv | __main__.py:194-200 | A collision keeps the player bounds, so the score stays non-negative. |
| Collision.HardCollisionIsDistanceTest | __main__.py:195-196 | The squared-distance guard agrees with `length < radius + 25` for the true length. |
| Collision.IsPointInCircle | __main__.py:206-207 | Squared distance at most squared radius, so the boundary is inside. The centre is always inside, and a zero radius holds only the centre. The agreement with the true distance is in InCircleIsDistanceTest. |
| Collision.InCircleIsDistanceTest | __main__.py:206-207 | The circle test agrees with `length <= abs(radius)` for the true length. |
| Collision.CollisionCheckAsWritten | __main__.py:194-197 | Resetting on `l < radius + 25` changes only motion and score, and the field test then runs at the respawn point or at the old position. |
| Collision.DetectCollisionAsWritten | __main__.py:192-204 | The source's rule with both lengths as parameters. A non-planet obj2 has no effect, and only motion and score can change. |
| Collision.PullMatchesSource | __main__.py:201-204 | Normalising and scaling by `d*q^2 + d*linear` equals scaling the raw offset by `q^2 + linear`. Both fail together at the centre. |
| Collision.DetectCollisionMatchesSource | __main__.py:192-207 | For the true lengths, the source's rule and the squared-distance rule give the same outcome. |
| Collision.FieldBoundaryInclusive | __main__.py:206-207 | A point exactly `field_radius` from the centre is inside the field, and one unit further out is not. |
| Collision.HardCollisionBoundaryStrict | __main__.py:195-196 | A player exactly `radius + 25` away is not reset. Any closer and it is. |
| Collision.ResetBeforeFieldTest | __main__.py:194-198 | A player that hits a planet whose field does not cover the respawn point ends the call reset, with score 0, even if it was inside the field before. |
| PlayerUpdate.CollideAll | __main__.py:98-100 | The player meets every element in list order. A list with no planet changes nothing, since players are skipped and other non-planets have no effect. Only motion and score change, the bounds are kept, and the only fault is ZeroDivisionError. |
| PlayerUpdate.CollideAllSingle | __main__.py:98-100 | On a one-element list, a Player is skipped and any other element is exactly one `detect_collision` call. |
| PlayerUpdate.CollideAllAppend | __main__.py:98-100 | The loop over `a + b` is the loop over `a` and then, unless that raised, the loop over `b` from the resulting player. With CollideAllSingle this fixes the loop as one `detect_collision` per non-Player element, in list order, stopping at the first fault. |
| PlayerUpdate.Advance | __main__.py:93-94 | The kinematics step and the new facing vector. The bounds are kept, and every other field, score included, is unchanged. |
| PlayerUpdate.PlayerPrepare | __main__.py:92-108 | A frame is the kinematics step, then every collision in list order, then the bookkeeping (`Settle`). It fails exactly when a collision does. So position, velocity and score change only by the collision rules and by one damper application. After a frame the flag is clear and yaw and damper are kept. Boost level and countdown follow the regeneration and damper rules. The player bounds are preserved. |
| PlayerUpdate.BoostFrame | __main__.py:82-108 | A boost followed by the frame update spends exactly one charge, and leaves the countdown at 30. |
| PlayerUpdate.BoostNeverRegeneratesAboveCap | __main__.py:101-103 | Across a frame, with or without a boost, the level never ends above the larger of its old value and 10. |
| Planets.NewPlanet | __main__.py:131-145 | Construction raises AssertionError exactly when `field_radius <= radius`. Otherwise the planet has frame 0, the given angle, zero acceleration, the given radius, field radius, field coefficients, orbital radius and orbital speed, and satisfies the planet bounds. |
| Planets.Angle360 | __main__.py:152 | Python's floored `% 360` lands in [0, 360), and leaves an angle already in that range unchanged. |
| Planets.Angle360Unique | __main__.py:152 | Any value in [0, 360) that differs from the argument by whole turns is the reduced angle. |
| Planets.AngleIgnoresWholeTurns | __main__.py:152 | Adding whole turns does not change the reduced angle. |
| Planets.PlanetPrepare | __main__.py:149-154 | The planet is placed at focus + orbitalRadius * direction. The angle advances modulo 360 and the frame by one modulo 360, and both stay in range. The new angle is `Angle360(angle + speed)`. Velocity, acceleration and parameters are kept, as are the planet bounds. |
| Planets.OnOrbit | __main__.py:150-151 | With a unit direction the planet lies exactly `orbital_radius` from its focus, in squared form. |
| Planets.OrbitFrames | __main__.py:153-154 | Over any number of frames the bounds hold, and the frame is the frame count modulo 360. |
| Planets.OrbitDrift | __main__.py:152 | Reducing after every frame gives the same angle as drifting unreduced and reducing once. |
| Planets.DriftIsProduct | __main__.py:152 | n frames of drift add n times the orbital speed. |
| Planets.ReduceThenDrift | __main__.py:152 | Reducing the start angle first does not change the reduced angle after any drift. |
| Planets.FrameCycle | __main__.py:153-154 | After 360 frames the sprite frame is back where it started. |
| Particles.NewParticle | __main__.py:173-181 | A new particle is alive, has been alive for no time, and keeps its body and lifetime. |
| Particles.ParticlePrepare | __main__.py:183-189 | A zero lifetime changes nothing. Otherwise the age grows by the elapsed time, and the particle is alive exactly when it was alive and its age does not exceed the lifetime. Only age and liveness change. |
| Particles.AgeExact | __main__.py:183-189 | With a non-zero lifetime, after any sequence of frames the age has grown by the sum of the frame times. The particle is alive exactly when it was alive and no intermediate age exceeded the lifetime. |
| Particles.ImmortalParticle | __main__.py:186 | With lifetime 0 no sequence of frames changes the particle. |
| Particles.DeathIsFinal | __main__.py:188-189 | A particle that is not alive stays that way. |
| Particles.FreshParticleLifetime | __main__.py:183-189 | A fresh particle with a positive lifetime, given non-negative frame times, is alive exactly when their total does not exceed its lifetime. |

## Left out

- pygame is not modelled: image loading, rotation, rendering, fonts, the event loop, key polling and the clock. These are I/O and foreign library calls.
- `runGame`, the game loop, is not modelled. It is where elements are created, keys become `adjustYaw`/`boost` calls, and `Clock.tick` supplies particle frame times.
- `Meteor.prepare` is not modelled. It is the kinematics step followed by `_detect_collision` against each planet, and `DetectCollision` covers the per-planet step.
- `Sun.__init__` and `Element.__init__` store their arguments, load and scale the sprite, and set `alive`. The variants of `Entity` record the stored fields. Only particles ever change `alive`, and nothing reads it, so other elements do not carry it. The sprite is rendering.
- `setup.py` is packaging configuration with no logic.
- `Player._calculate_subject` is not modelled, because it uses trigonometry and the 3.14 approximation of pi. The facing vector is a parameter of `PlayerPrepare`.
- The planet's orbit direction `(cos angle, sin angle)` is a parameter of `PlanetPrepare` for the same reason.
- `math.sqrt` is replaced by a length parameter constrained by `IsLength`.
- Randomness is replaced by parameters: the initial planet angle (0..359), orbital speeds and star placement.
- Floating point is not modelled. Values are exact reals, so rounding, overflow and NaN are out of scope.
- Python 2 integer division in `Vector2.__div__` on integer components is not modelled. `Vector2.Div` divides reals.
- The shared default `acceleration=Vector2()` object is not modelled. Every element owns its own vectors, and `Player.reset` zeroing a shared acceleration is seen only on the player.
- `Vector2.__init__` is the `Vec` constructor, with `Zero` as the default, and has no contract of its own.
- The planet's `orbital_focus` is an element, and only its current position is read. The model passes that position to `PlanetPrepare`.
- The sprite lookup `images[frame]` is rendering. `OrbitFrames` shows its index always stays in [0, 360).
