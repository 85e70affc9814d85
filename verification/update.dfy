/** Player.prepare: one frame of the player's own update. */
module PlayerUpdate {
  import opened Outcomes
  import opened Vector2
  import opened Entities
  import opened PlayerControl
  import opened Collision

  /** The player against every element of the frame's list that is not a
      Player, in list order (the `collision_list` loop). A fault from any
      pair ends the frame. */
  function CollideAll(p: Entity, elements: seq<Entity>): (r: Outcome<Entity>)
    requires p.Player?
    ensures r.Ok? ==> r.value.Player? && SameTraits(p, r.value)
    ensures r.Ok? && PlayerInv(p) ==> PlayerInv(r.value)
    ensures r.Err? ==> r.fault == ZeroDivision
    ensures (forall i | 0 <= i < |elements| :: !elements[i].Planet?) ==> r == Ok(p)
    decreases |elements|
  {
    if |elements| == 0 then Ok(p)
    else if elements[0].Player? then CollideAll(p, elements[1..])
    else
      match DetectCollision(p, elements[0])
      case Err(f) => Err(f)
      case Ok(q) =>
        DetectCollisionKeepsPlayerInv(p, elements[0]);
        CollideAll(q, elements[1..])
  }

  /** One element: a Player is skipped, anything else is one
      detect_collision call. */
  lemma CollideAllSingle(p: Entity, e: Entity)
    requires p.Player?
    ensures CollideAll(p, [e]) == if e.Player? then Ok(p) else DetectCollision(p, e)
  {
  }

  /** The loop over `a + b` is the loop over `a`, then, unless it faulted,
      the loop over `b` from where the player ended up. With
      CollideAllSingle this pins the loop to one DetectCollision per
      non-Player element, in list order. */
  lemma {:induction false} CollideAllAppend(p: Entity, a: seq<Entity>, b: seq<Entity>)
    requires p.Player?
    ensures CollideAll(p, a + b) ==
      match CollideAll(p, a)
      case Err(f) => Err(f)
      case Ok(q) => CollideAll(q, b)
    decreases |a|
  {
    if |a| == 0 {
      assert a + b == b;
    } else {
      assert (a + b)[0] == a[0];
      assert (a + b)[1..] == a[1..] + b;
      if a[0].Player? {
        CollideAllAppend(p, a[1..], b);
      } else {
        match DetectCollision(p, a[0])
        case Err(f) =>
        case Ok(q) =>
          CollideAllAppend(q, a[1..], b);
      }
    }
  }

  /** Player.prepare. The body moves by its kinematics, the facing vector
      becomes `facing` (the normalised (-sin yaw, -cos yaw), computed by
      trigonometry outside this model), the player meets every other
      element, and the frame's boost/damper bookkeeping closes it. */
  function PlayerPrepare(p: Entity, elements: seq<Entity>, facing: Vec): (r: Outcome<Entity>)
    requires p.Player?
    ensures r.Err? ==> r.fault == ZeroDivision
    ensures r.Err? <==> CollideAll(Advance(p, facing), elements).Err?
    ensures r.Ok? ==> r.value == Settle(CollideAll(Advance(p, facing), elements).value)
    ensures r.Ok? ==> r.value.Player? && !r.value.isBoosting
    ensures r.Ok? ==> r.value.yaw == p.yaw && r.value.subject == facing && r.value.damper == p.damper
    ensures r.Ok? ==>
      r.value.boostLevel == if !p.isBoosting && p.boostLevel < RegenCap then p.boostLevel + 1 else p.boostLevel
    ensures r.Ok? ==>
      r.value.damperCount == if !p.isBoosting && p.damperCount != 0 then p.damperCount - 1 else p.damperCount
    ensures r.Ok? && PlayerInv(p) ==> PlayerInv(r.value)
  {
    match CollideAll(Advance(p, facing), elements)
    case Err(f) => Err(f)
    case Ok(q) => Ok(Settle(q))
  }

  /** The first steps of Player.prepare: Element.prepare's kinematics and
      the new facing vector; nothing else about the player changes. */
  function Advance(p: Entity, facing: Vec): (r: Entity)
    requires p.Player?
    ensures PlayerInv(p) ==> PlayerInv(r)
    ensures r.Player? && r.body == Kinematics(p.body) && r.subject == facing
    ensures SameTraits(p.(subject := facing), r) && r.score == p.score
  {
    var moved := Kinematics(p.body);
    p.(body := moved, subject := facing)
  }

  /** In a frame where the player boosts and then updates, one charge is
      spent and none regenerated, and the damper countdown is still full
      at the end of the frame. */
  lemma BoostFrame(p: Entity, elements: seq<Entity>, facing: Vec)
    requires p.Player? && p.boostLevel != 0
    requires PlayerPrepare(Boost(p), elements, facing).Ok?
    ensures PlayerPrepare(Boost(p), elements, facing).value.boostLevel == p.boostLevel - 1
    ensures PlayerPrepare(Boost(p), elements, facing).value.damperCount == DamperFrames
  {
  }

  /** Boost charge never rises across a frame beyond the larger of its
      previous value and ten, so from the initial thirty it can only fall
      until it is at most ten. */
  lemma BoostNeverRegeneratesAboveCap(p: Entity, elements: seq<Entity>, facing: Vec, boosting: bool)
    requires p.Player?
    requires PlayerPrepare(if boosting then Boost(p) else p, elements, facing).Ok?
    ensures PlayerPrepare(if boosting then Boost(p) else p, elements, facing).value.boostLevel
            <= if p.boostLevel > RegenCap then p.boostLevel else RegenCap
  {
  }
}
