/** The player's attack hit, run by an animation event (AnimationEventFunctionCall.OnAttacking):
    the attack offset is mirrored to the side the sprite faces, and every enemy collider
    in the attack area that has an EnemyHealth takes `attackMultiplier * attackNum`. */
module AnimationEventFunctionCall {
  import opened Common

  /** One collider in the attack area: where its object is and whether it has an EnemyHealth. */
  datatype EnemyTarget = EnemyTarget(at: Vec2, hasHealth: bool)

  /** The new `offSetX`: its magnitude, negative exactly when the sprite is flipped. */
  function MirrorOffset(offsetX: real, flipX: bool): (r: real)
    ensures Abs(r) == Abs(offsetX)
    ensures offsetX != 0.0 ==> (r < 0.0 <==> flipX)
    ensures r <= 0.0 <==> flipX || offsetX == 0.0
  {
    if flipX then -Abs(offsetX) else Abs(offsetX)
  }

  /** Mirroring again with the same flip changes nothing. */
  lemma MirrorIdempotent(offsetX: real, flipX: bool)
    ensures MirrorOffset(MirrorOffset(offsetX, flipX), flipX) == MirrorOffset(offsetX, flipX)
  {
  }

  /** The offset after a run of attacks: the flip of each attack in order. */
  function MirrorAll(offsetX: real, flips: seq<bool>): real
    decreases |flips|
  {
    if flips == [] then offsetX else MirrorOffset(MirrorAll(offsetX, flips[..|flips| - 1]), flips[|flips| - 1])
  }

  /** Only the last attack's flip matters: earlier mirrorings are forgotten. */
  lemma {:induction false} LastFlipDecides(offsetX: real, flips: seq<bool>)
    requires flips != []
    ensures MirrorAll(offsetX, flips) == MirrorOffset(offsetX, flips[|flips| - 1])
    decreases |flips|
  {
    var prefix := flips[..|flips| - 1];
    if prefix != [] {
      LastFlipDecides(offsetX, prefix);
      assert prefix[|prefix| - 1] == flips[|flips| - 2];
    }
  }

  /** The attack area's centre. */
  function AttackArea(position: Vec2, offsetX: real, offsetY: real): (c: Vec2)
    ensures c.x - position.x == offsetX && c.y - position.y == offsetY
  {
    Vec2(position.x + offsetX, position.y + offsetY)
  }

  /** The foreach loop from collider `i` on: one TakeDamage per collider with EnemyHealth. */
  function CallsFrom(hits: seq<EnemyTarget>, i: nat, position: Vec2, damage: real): seq<DamageCall>
    requires i <= |hits|
    decreases |hits| - i
  {
    if i == |hits| then []
    else (if hits[i].hasHealth then [DamageCall(i, damage, Towards(position, hits[i].at))] else [])
         + CallsFrom(hits, i + 1, position, damage)
  }

  method DamageAll(hits: seq<EnemyTarget>, position: Vec2, damage: real) returns (calls: seq<DamageCall>)
    ensures calls == CallsFrom(hits, 0, position, damage)
  {
    calls := [];
    for i := 0 to |hits|
      invariant calls + CallsFrom(hits, i, position, damage) == CallsFrom(hits, 0, position, damage)
    {
      ghost var rest := CallsFrom(hits, i + 1, position, damage);
      var head: seq<DamageCall> := [];
      if hits[i].hasHealth {
        head := [DamageCall(i, damage, Towards(position, hits[i].at))];
      }
      assert CallsFrom(hits, i, position, damage) == head + rest;
      calls := calls + head;
    }
  }

  /** Every call deals `damage` to a collider with EnemyHealth from `i` on, towards it. */
  predicate WellAimed(calls: seq<DamageCall>, hits: seq<EnemyTarget>, i: nat, position: Vec2, damage: real) {
    forall k :: 0 <= k < |calls| ==>
      && i <= calls[k].index < |hits|
      && hits[calls[k].index].hasHealth
      && calls[k].amount == damage
      && calls[k].direction == Towards(position, hits[calls[k].index].at)
  }

  /** Exactly the colliders with EnemyHealth from `i` on are damaged. */
  predicate CoversEnemies(calls: seq<DamageCall>, hits: seq<EnemyTarget>, i: nat) {
    forall j :: i <= j < |hits| ==> (Damages(calls, j) <==> hits[j].hasHealth)
  }

  lemma {:induction false} CallsWellAimed(hits: seq<EnemyTarget>, i: nat, position: Vec2, damage: real)
    requires i <= |hits|
    ensures WellAimed(CallsFrom(hits, i, position, damage), hits, i, position, damage)
    ensures IncreasingIndices(CallsFrom(hits, i, position, damage))
    decreases |hits| - i
  {
    if i < |hits| {
      CallsWellAimed(hits, i + 1, position, damage);
      var head: seq<DamageCall> := if hits[i].hasHealth then [DamageCall(i, damage, Towards(position, hits[i].at))] else [];
      var rest := CallsFrom(hits, i + 1, position, damage);
      assert CallsFrom(hits, i, position, damage) == head + rest;
      forall k | 0 <= k < |head + rest|
        ensures (head + rest)[k] == if k < |head| then head[k] else rest[k - |head|]
      {
      }
    }
  }

  /** Every collider with EnemyHealth from `i` on is damaged. */
  lemma {:induction false} CallsReachEnemies(hits: seq<EnemyTarget>, i: nat, position: Vec2, damage: real)
    requires i <= |hits|
    ensures forall j :: i <= j < |hits| && hits[j].hasHealth ==> Damages(CallsFrom(hits, i, position, damage), j)
    decreases |hits| - i
  {
    if i < |hits| {
      CallsReachEnemies(hits, i + 1, position, damage);
      var head: seq<DamageCall> := if hits[i].hasHealth then [DamageCall(i, damage, Towards(position, hits[i].at))] else [];
      var rest := CallsFrom(hits, i + 1, position, damage);
      assert CallsFrom(hits, i, position, damage) == head + rest;
      forall j | i <= j < |hits| && hits[j].hasHealth
        ensures Damages(head + rest, j)
      {
        if j == i {
          assert (head + rest)[0].index == i;
        } else {
          var k :| 0 <= k < |rest| && rest[k].index == j;
          assert (head + rest)[k + |head|] == rest[k];
        }
      }
    }
  }

  /** Exactly the colliders with EnemyHealth are damaged, each once, in list order, by
      `damage`, towards the collider: no collider is skipped after another is hit. */
  lemma DamagesEveryEnemy(hits: seq<EnemyTarget>, position: Vec2, damage: real)
    ensures CoversEnemies(CallsFrom(hits, 0, position, damage), hits, 0)
    ensures WellAimed(CallsFrom(hits, 0, position, damage), hits, 0, position, damage)
    ensures IncreasingIndices(CallsFrom(hits, 0, position, damage))
  {
    CallsReachEnemies(hits, 0, position, damage);
    CallsWellAimed(hits, 0, position, damage);
  }

  class AnimationEventFunctionCall {
    const attackMultiplier: real
    const offSetY: real
    var offSetX: real
    var attackAreaPosition: Vec2

    constructor (attackMultiplier: real, offSetX: real, offSetY: real)
      ensures this.attackMultiplier == attackMultiplier && this.offSetX == offSetX && this.offSetY == offSetY
    {
      this.attackMultiplier := attackMultiplier;
      this.offSetX := offSetX;
      this.offSetY := offSetY;
      attackAreaPosition := Vec2(0.0, 0.0);
    }

    /** OnAttacking: mirrors the stored offset, places the attack area, and damages the
        colliders the overlap query found there. */
    method OnAttacking(attackNum: real, flipX: bool, position: Vec2, hits: seq<EnemyTarget>)
      returns (calls: seq<DamageCall>)
      modifies this
      ensures offSetX == MirrorOffset(old(offSetX), flipX)
      ensures attackAreaPosition == AttackArea(position, offSetX, offSetY)
      ensures calls == CallsFrom(hits, 0, position, attackMultiplier * attackNum)
    {
      attackAreaPosition := position;
      offSetX := if flipX then -Abs(offSetX) else Abs(offSetX);
      attackAreaPosition := Vec2(attackAreaPosition.x + offSetX, attackAreaPosition.y + offSetY);
      var damage := attackMultiplier * attackNum;
      calls := DamageAll(hits, position, damage);
    }
  }
}
