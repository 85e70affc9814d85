/** The player's control rules: steering, boosting, respawning, and the
    bookkeeping that closes every Player.prepare. */
module PlayerControl {
  import opened Vector2
  import opened Entities

  /** Largest yaw value; yaw lives in [0, MaxYaw]. */
  const MaxYaw: int := 359
  /** Boost charges a new player starts with. */
  const InitialBoost: int := 30
  /** Passive regeneration only tops the boost level up to this value. */
  const RegenCap: int := 10
  /** Frames over which the damper bleeds off the velocity after a boost. */
  const DamperFrames: int := 30
  /** Where `reset` puts the player. */
  const RespawnPoint: Vec := Vec(20.0, 300.0)
  /** Score gained per frame spent inside a planet's field. */
  const FieldScore: int := 10

  /** The bounds every player state keeps. */
  predicate PlayerInv(p: Entity)
  {
    && p.Player?
    && 0 <= p.yaw <= MaxYaw
    && 0 <= p.boostLevel <= InitialBoost
    && 0 <= p.damperCount <= DamperFrames
    && p.score >= 0
  }

  /** Player.__init__: facing yaw 270 with a full boost tank, no damper and
      no score; its acceleration is a fresh zero vector. */
  function NewPlayer(position: Vec, velocity: Vec): (r: Entity)
    ensures PlayerInv(r)
    ensures r.body == Body(position, velocity, Zero)
    ensures r.boostLevel == InitialBoost && r.score == 0 && !r.isBoosting
    ensures r.yaw == 270 && r.subject == Zero && r.damper == Zero && r.damperCount == 0
  {
    Player(Body(position, velocity, Zero), 270, InitialBoost, false, Zero, Zero, 0, 0)
  }

  /** The yaw after turning by `angle`: below 0 wraps to 359, above 359
      wraps to 0 (not a modulo: the overshoot is dropped). */
  function WrapYaw(yaw: int, angle: int): (r: int)
    ensures 0 <= r <= MaxYaw
    ensures 0 <= yaw + angle <= MaxYaw ==> r == yaw + angle
    ensures yaw + angle < 0 ==> r == MaxYaw
    ensures yaw + angle > MaxYaw ==> r == 0
  {
    var y := yaw + angle;
    if y < 0 then MaxYaw
    else if y > MaxYaw then 0
    else y
  }

  /** Player.adjustYaw: only the yaw changes, and it stays in [0, 359]
      whatever the delta. */
  function AdjustYaw(p: Entity, angle: int): (r: Entity)
    requires p.Player?
    ensures r.Player? && 0 <= r.yaw <= MaxYaw
    ensures r.yaw == WrapYaw(p.yaw, angle)
    ensures r == p.(yaw := r.yaw)
    ensures PlayerInv(p) ==> PlayerInv(r)
  {
    p.(yaw := WrapYaw(p.yaw, angle))
  }

  /** Player.boost. With no charge left nothing happens. Otherwise the
      velocity gains a tenth of the facing vector, the damper is set so
      that thirty applications cancel the new velocity, the countdown
      restarts at thirty and exactly one charge is spent. */
  function Boost(p: Entity): (r: Entity)
    requires p.Player?
    ensures p.boostLevel == 0 ==> r == p
    ensures p.boostLevel != 0 ==>
      && r.Player?
      && r.isBoosting
      && r.body.velocity == Add(p.body.velocity, Scale(p.subject, 0.1))
      && Add(r.body.velocity, Scale(r.damper, DamperFrames as real)) == Zero
      && r.damperCount == DamperFrames
      && r.boostLevel == p.boostLevel - 1
      && r.body.position == p.body.position
      && r.body.acceleration == p.body.acceleration
      && r == p.(body := r.body, isBoosting := true, damper := r.damper,
                 damperCount := DamperFrames, boostLevel := r.boostLevel)
    ensures PlayerInv(p) ==> PlayerInv(r)
  {
    if p.boostLevel == 0 then p
    else
      var v := Vec(p.body.velocity.x + 0.1 * p.subject.x, p.body.velocity.y + 0.1 * p.subject.y);
      var d := Vec(-v.x / 30.0, -v.y / 30.0);
      p.(body := p.body.(velocity := v), isBoosting := true, damper := d,
         damperCount := DamperFrames, boostLevel := p.boostLevel - 1)
  }

  /** Player.reset: back to the respawn point at rest with no score; yaw,
      boost and damper state are left alone. */
  function Reset(p: Entity): (r: Entity)
    requires p.Player?
    ensures r.Player?
    ensures r.body == Body(RespawnPoint, Zero, Zero) && r.score == 0
    ensures r == p.(body := r.body, score := 0)
    ensures PlayerInv(p) ==> PlayerInv(r)
  {
    p.(body := Body(RespawnPoint, Zero, Zero), score := 0)
  }

  /** The tail of Player.prepare. On a frame without a boost the level
      regenerates by one while below ten, and a running damper is added to
      the velocity once while its countdown ticks down. Either way the
      boosting flag is cleared. */
  function Settle(p: Entity): (r: Entity)
    requires p.Player?
    ensures r.Player? && !r.isBoosting
    ensures r.boostLevel == p.boostLevel + 1 <==> !p.isBoosting && p.boostLevel < RegenCap
    ensures r.boostLevel == p.boostLevel || r.boostLevel == p.boostLevel + 1
    ensures r.boostLevel <= if p.boostLevel > RegenCap then p.boostLevel else RegenCap
    ensures !p.isBoosting && p.damperCount != 0 ==>
      r.damperCount == p.damperCount - 1 && r.body.velocity == Add(p.body.velocity, p.damper)
    ensures p.isBoosting || p.damperCount == 0 ==>
      r.damperCount == p.damperCount && r.body.velocity == p.body.velocity
    ensures r == p.(body := r.body, boostLevel := r.boostLevel, damperCount := r.damperCount,
                    isBoosting := false)
    ensures r.body.position == p.body.position && r.body.acceleration == p.body.acceleration
    ensures PlayerInv(p) ==> PlayerInv(r)
  {
    var q :=
      if p.isBoosting then p
      else
        var level := if p.boostLevel < RegenCap then p.boostLevel + 1 else p.boostLevel;
        if p.damperCount != 0 then
          p.(boostLevel := level, damperCount := p.damperCount - 1,
             body := p.body.(velocity := Add(p.body.velocity, p.damper)))
        else p.(boostLevel := level);
    q.(isBoosting := false)
  }

  /** Reset twice is reset once. */
  lemma ResetIdempotent(p: Entity)
    requires p.Player?
    ensures Reset(Reset(p)) == Reset(p)
  {
  }

  /** `n` turns by `angle`, one per frame. */
  function Turn(yaw: int, angle: int, n: nat): (r: int)
    ensures n > 0 ==> 0 <= r <= MaxYaw
    decreases n
  {
    if n == 0 then yaw else Turn(WrapYaw(yaw, angle), angle, n - 1)
  }

  /** Values a whole turn apart agree modulo 360. */
  lemma WholeTurnApart(a: int, b: int)
    requires b == a || b == a + 360 || b == a - 360
    ensures b % 360 == a % 360
  {
  }

  /** From an even yaw, turning left by 2 is addition modulo 360. */
  lemma {:induction false} LeftTurnsAreModular(yaw: int, n: nat)
    requires 0 <= yaw <= MaxYaw && yaw % 2 == 0
    ensures Turn(yaw, 2, n) == (yaw + 2 * n) % 360
    decreases n
  {
    if n > 0 {
      var w := WrapYaw(yaw, 2);
      assert w == yaw + 2 || w == yaw + 2 - 360;
      assert Turn(yaw, 2, n) == Turn(w, 2, n - 1);
      LeftTurnsAreModular(w, n - 1);
      WholeTurnApart(yaw + 2 * n, w + 2 * (n - 1));
    }
  }

  /** From an odd yaw, turning right by 2 is subtraction modulo 360. */
  lemma {:induction false} RightTurnsAreModular(yaw: int, n: nat)
    requires 0 <= yaw <= MaxYaw && yaw % 2 == 1
    ensures Turn(yaw, -2, n) == (yaw - 2 * n) % 360
    decreases n
  {
    if n > 0 {
      var w := WrapYaw(yaw, -2);
      assert w == yaw - 2 || w == yaw - 2 + 360;
      assert Turn(yaw, -2, n) == Turn(w, -2, n - 1);
      RightTurnsAreModular(w, n - 1);
      WholeTurnApart(yaw - 2 * n, w - 2 * (n - 1));
    }
  }

  /** 180 left turns bring an even yaw back to where it started. */
  lemma LeftTurnCycle(yaw: int)
    requires 0 <= yaw <= MaxYaw && yaw % 2 == 0
    ensures Turn(yaw, 2, 180) == yaw
  {
    LeftTurnsAreModular(yaw, 180);
  }

  /** The wrap is asymmetric: 0 turned right lands on 359 (not 358), 358
      turned left lands on 0, and 180 right turns from 0 end on 1, not 0. */
  lemma AsymmetricWrap()
    ensures WrapYaw(0, -2) == 359
    ensures WrapYaw(358, 2) == 0
    ensures Turn(0, -2, 180) == 1
  {
    RightTurnsAreModular(359, 179);
  }

  /** `n` boost-free frames of bookkeeping. */
  function Settles(p: Entity, n: nat): (r: Entity)
    requires p.Player?
    ensures r.Player?
    decreases n
  {
    if n == 0 then p else Settles(Settle(p), n - 1)
  }

  /** While the countdown runs, each boost-free frame adds the damper once:
      after k of them the velocity has gained k dampers. */
  lemma {:induction false} DamperAccumulates(p: Entity, k: nat)
    requires p.Player? && !p.isBoosting && k <= p.damperCount
    ensures Settles(p, k).damperCount == p.damperCount - k
    ensures Settles(p, k).body.velocity == Add(p.body.velocity, Scale(p.damper, k as real))
    ensures Settles(p, k).damper == p.damper
    decreases k
  {
    if k > 0 {
      var q := Settle(p);
      assert q.damper == p.damper && q.damperCount == p.damperCount - 1 && !q.isBoosting;
      assert q.body.velocity == Add(p.body.velocity, p.damper);
      assert Settles(p, k) == Settles(q, k - 1);
      DamperAccumulates(q, k - 1);
      DamperStep(p.body.velocity, p.damper, k);
    }
  }

  /** Adding one damper and then k - 1 more adds k of them. */
  lemma DamperStep(v: Vec, d: Vec, k: nat)
    requires k > 0
    ensures Add(Add(v, d), Scale(d, (k - 1) as real)) == Add(v, Scale(d, k as real))
  {
    var m := (k - 1) as real;
    assert d.x * m + d.x == d.x * (k as real);
    assert d.y * m + d.y == d.y * (k as real);
  }

  /** After a boost, the boosting frame's bookkeeping and then thirty
      boost-free frames bleed the boost-time velocity off completely (in
      the absence of other forces), and the countdown ends at zero. */
  lemma DamperCancelsBoostVelocity(p: Entity)
    requires p.Player? && p.boostLevel != 0
    ensures Settles(Boost(p), DamperFrames + 1).body.velocity == Zero
    ensures Settles(Boost(p), DamperFrames + 1).damperCount == 0
  {
    var b := Boost(p);
    var q := Settle(b);
    assert q.body.velocity == b.body.velocity && q.damperCount == DamperFrames;
    DamperAccumulates(q, DamperFrames);
    assert Settles(b, DamperFrames + 1) == Settles(q, DamperFrames);
  }
}
