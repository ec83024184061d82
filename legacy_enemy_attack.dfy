/** The older enemy attack (Assets/EnemyAttack.cs): it attacks the moment the player is
    in range and the cooldown since the last attack's start is over, and damages every
    Player collider with health, without offering a parry. */
module LegacyEnemyAttack {
  import opened Common
  import EnemyAttack

  const AttackTrigger: string := "attack"
  const NeverAttacked: real := -999.0

  /** One collider returned by the overlap query: its tag, where its object is, and
      whether it has a PlayerHealth. */
  datatype Target = Target(tag: string, at: Vec2, hasHealth: bool)

  /** The result of PerformAttackHit: the hitbox centre and the TakeDamage calls made, or
      the null-reference failure when the enemy has no sprite renderer. */
  datatype Impact = Impact(centre: Vec2, calls: seq<DamageCall>) | MissingSprite

  /** The hitbox centre: the offset's magnitude, pointing the way the sprite faces. */
  function HitboxCentre(position: Vec2, offsetX: real, offsetY: real, flipX: bool): (c: Vec2)
    ensures c.y == position.y + offsetY
    ensures Abs(c.x - position.x) == Abs(offsetX)
    ensures flipX ==> c.x <= position.x
    ensures !flipX ==> c.x >= position.x
  {
    Vec2(position.x + (if flipX then -Abs(offsetX) else Abs(offsetX)), position.y + offsetY)
  }

  /** The newer script's hitbox agrees with this one for a forward offset, and for a
      negative offset mirrors it to the side the sprite faces away from. */
  lemma HitboxVersionsAgree(position: Vec2, offsetX: real, offsetY: real, flipX: bool)
    ensures offsetX >= 0.0 ==>
      EnemyAttack.HitboxCentre(position, Vec2(offsetX, offsetY), flipX) == HitboxCentre(position, offsetX, offsetY, flipX)
    ensures offsetX < 0.0 ==>
      EnemyAttack.HitboxCentre(position, Vec2(offsetX, offsetY), flipX) == HitboxCentre(position, offsetX, offsetY, !flipX)
  {
  }

  predicate Hurts(t: Target) {
    t.tag == PlayerTag && t.hasHealth
  }

  /** The foreach loop from collider `i` on: one TakeDamage per Player collider with health. */
  function CallsFrom(hits: seq<Target>, i: nat, position: Vec2, damage: real): seq<DamageCall>
    requires i <= |hits|
    decreases |hits| - i
  {
    if i == |hits| then []
    else (if Hurts(hits[i]) then [DamageCall(i, damage, Towards(position, hits[i].at))] else [])
         + CallsFrom(hits, i + 1, position, damage)
  }

  /** The loop over the overlap results. */
  method DamageAll(hits: seq<Target>, position: Vec2, damage: real) returns (calls: seq<DamageCall>)
    ensures calls == CallsFrom(hits, 0, position, damage)
  {
    calls := [];
    for i := 0 to |hits|
      invariant calls + CallsFrom(hits, i, position, damage) == CallsFrom(hits, 0, position, damage)
    {
      ghost var rest := CallsFrom(hits, i + 1, position, damage);
      var head: seq<DamageCall> := [];
      if hits[i].tag == PlayerTag && hits[i].hasHealth {
        head := [DamageCall(i, damage, Towards(position, hits[i].at))];
      }
      assert CallsFrom(hits, i, position, damage) == head + rest;
      calls := calls + head;
    }
  }

  /** Every call deals `damage` to a Player collider with health from `i` on, towards it. */
  predicate WellAimed(calls: seq<DamageCall>, hits: seq<Target>, i: nat, position: Vec2, damage: real) {
    forall k :: 0 <= k < |calls| ==>
      && i <= calls[k].index < |hits|
      && Hurts(hits[calls[k].index])
      && calls[k].amount == damage
      && calls[k].direction == Towards(position, hits[calls[k].index].at)
  }

  /** Exactly the Player colliders with health from `i` on are damaged. */
  predicate CoversPlayers(calls: seq<DamageCall>, hits: seq<Target>, i: nat) {
    forall j :: i <= j < |hits| ==> (Damages(calls, j) <==> Hurts(hits[j]))
  }

  lemma {:induction false} CallsWellAimed(hits: seq<Target>, i: nat, position: Vec2, damage: real)
    requires i <= |hits|
    ensures WellAimed(CallsFrom(hits, i, position, damage), hits, i, position, damage)
    ensures IncreasingIndices(CallsFrom(hits, i, position, damage))
    decreases |hits| - i
  {
    if i < |hits| {
      CallsWellAimed(hits, i + 1, position, damage);
      var head: seq<DamageCall> := if Hurts(hits[i]) then [DamageCall(i, damage, Towards(position, hits[i].at))] else [];
      var rest := CallsFrom(hits, i + 1, position, damage);
      assert CallsFrom(hits, i, position, damage) == head + rest;
      forall k | 0 <= k < |head + rest|
        ensures (head + rest)[k] == if k < |head| then head[k] else rest[k - |head|]
      {
      }
    }
  }

  /** Every Player collider with health from `i` on is damaged. */
  lemma {:induction false} CallsReachPlayers(hits: seq<Target>, i: nat, position: Vec2, damage: real)
    requires i <= |hits|
    ensures forall j :: i <= j < |hits| && Hurts(hits[j]) ==> Damages(CallsFrom(hits, i, position, damage), j)
    decreases |hits| - i
  {
    if i < |hits| {
      CallsReachPlayers(hits, i + 1, position, damage);
      var head: seq<DamageCall> := if Hurts(hits[i]) then [DamageCall(i, damage, Towards(position, hits[i].at))] else [];
      var rest := CallsFrom(hits, i + 1, position, damage);
      assert CallsFrom(hits, i, position, damage) == head + rest;
      forall j | i <= j < |hits| && Hurts(hits[j])
        ensures Damages(head + rest, j)
      {
        if j == i {
          assert (head + rest)[0].index == i;
        } else {
          var k :| 0 <= k < |rest| && rest[k].index == j;
          assert (head + rest)[k + |head|] == rest[k];
        }
      }
    }
  }

  /** Exactly the Player colliders with health are damaged, each once, in list order, by
      `attackDamage`, towards the collider: there is no parry check and no early exit. */
  lemma DamagesEveryPlayer(hits: seq<Target>, position: Vec2, damage: real)
    ensures CoversPlayers(CallsFrom(hits, 0, position, damage), hits, 0)
    ensures WellAimed(CallsFrom(hits, 0, position, damage), hits, 0, position, damage)
    ensures IncreasingIndices(CallsFrom(hits, 0, position, damage))
  {
    CallsReachPlayers(hits, 0, position, damage);
    CallsWellAimed(hits, 0, position, damage);
  }

  class LegacyEnemyAttack {
    const attackDamage: real
    const attackRange: real
    const attackCooldown: real
    const attackOffsetX: real
    const attackOffsetY: real
    const hasSprite: bool
    const hasAnimator: bool

    var lastAttackTime: real
    var isAttacking: bool
    var animatorTriggers: seq<string>

    constructor (attackDamage: real, attackRange: real, attackCooldown: real, attackOffsetX: real,
                 attackOffsetY: real, hasSprite: bool, hasAnimator: bool)
      ensures this.attackDamage == attackDamage && this.attackRange == attackRange
      ensures this.attackCooldown == attackCooldown && this.attackOffsetX == attackOffsetX
      ensures this.attackOffsetY == attackOffsetY && this.hasSprite == hasSprite && this.hasAnimator == hasAnimator
      ensures lastAttackTime == NeverAttacked && !isAttacking && animatorTriggers == []
    {
      this.attackDamage := attackDamage;
      this.attackRange := attackRange;
      this.attackCooldown := attackCooldown;
      this.attackOffsetX := attackOffsetX;
      this.attackOffsetY := attackOffsetY;
      this.hasSprite := hasSprite;
      this.hasAnimator := hasAnimator;
      lastAttackTime := NeverAttacked;
      isAttacking := false;
      animatorTriggers := [];
    }

    /** PerformAttackHit: damages the Player colliders found at the hitbox and clears
        `isAttacking`; without a sprite renderer it fails before doing either. */
    method PerformAttackHit(flipX: bool, position: Vec2, hits: seq<Target>) returns (impact: Impact)
      modifies this
      ensures impact.MissingSprite? <==> !hasSprite
      ensures impact.Impact? ==>
                && impact.centre == HitboxCentre(position, attackOffsetX, attackOffsetY, flipX)
                && impact.calls == CallsFrom(hits, 0, position, attackDamage)
      ensures isAttacking == (if hasSprite then false else old(isAttacking))
      ensures lastAttackTime == old(lastAttackTime) && animatorTriggers == old(animatorTriggers)
    {
      if !hasSprite {
        return MissingSprite;
      }
      var centre := HitboxCentre(position, attackOffsetX, attackOffsetY, flipX);
      var calls := DamageAll(hits, position, attackDamage);
      isAttacking := false;
      impact := Impact(centre, calls);
    }

    /** Attack: the cooldown is measured from here, the trigger fires, and the hit is
        performed at once. */
    method Attack(now: real, flipX: bool, position: Vec2, hits: seq<Target>) returns (impact: Impact)
      modifies this
      ensures lastAttackTime == now
      ensures animatorTriggers == old(animatorTriggers) + if hasAnimator then [AttackTrigger] else []
      ensures impact.MissingSprite? <==> !hasSprite
      ensures impact.Impact? ==>
                && impact.centre == HitboxCentre(position, attackOffsetX, attackOffsetY, flipX)
                && impact.calls == CallsFrom(hits, 0, position, attackDamage)
      ensures isAttacking == !hasSprite
    {
      lastAttackTime := now;
      isAttacking := true;
      if hasAnimator {
        animatorTriggers := animatorTriggers + [AttackTrigger];
      }
      impact := PerformAttackHit(flipX, position, hits);
    }

    /** Update: attacks whenever the player exists, is within range and the cooldown is
        over, whether or not an attack is in progress. */
    method Update(playerPosition: Option<Vec2>, position: Vec2, now: real, flipX: bool, hits: seq<Target>)
      returns (impact: Option<Impact>)
      modifies this
      ensures var attacks := playerPosition.Some? && WithinRange(position, playerPosition.value, attackRange)
                             && now >= old(lastAttackTime) + attackCooldown;
        if attacks then
          && impact.Some?
          && lastAttackTime == now
          && animatorTriggers == old(animatorTriggers) + (if hasAnimator then [AttackTrigger] else [])
          && (impact.value.MissingSprite? <==> !hasSprite)
          && (impact.value.Impact? ==> impact.value.calls == CallsFrom(hits, 0, position, attackDamage))
          && isAttacking == !hasSprite
        else impact.None? && unchanged(this)
    {
      if playerPosition.None? {
        return None;
      }
      if WithinRange(position, playerPosition.value, attackRange) && now >= lastAttackTime + attackCooldown {
        var i := Attack(now, flipX, position, hits);
        return Some(i);
      }
      return None;
    }
  }
}
