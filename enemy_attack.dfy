/** The enemy melee attack (Assets/Scripts/EnemyAttack.cs): the entry guard, the attack
    sequence (AI off, telegraph, animation trigger, recovery wait, cooldown write, AI on)
    and the impact, which offers every Player collider a parry before damaging it. */
module EnemyAttack {
  import opened Common
  import ParrySystem
  import EnemyTelegraph

  const AttackTrigger: string := "Attack1"
  /** The wait for the attack animation after the trigger. */
  const RecoverySeconds: real := 0.5
  const NeverAttacked: real := -999.0

  // ---------------------------------------------------------------------------
  // The impact

  /** A PlayerHealth component as the impact sees it: whether it is invincible now, and
      the invincibility length a hit on it would start. */
  datatype HealthView = HealthView(invincible: bool, invincibilityDuration: real)

  /** A ParrySystem component as TryParry sees it. */
  datatype ParryView = ParryView(isParrying: bool, playerWeight: real)

  /** One collider returned by the overlap query: its tag, the GameObject it belongs to
      (two colliders may share one), where that object is, and its components. */
  datatype Collider = Collider(tag: string, owner: nat, at: Vec2, health: Option<HealthView>, parry: Option<ParryView>)

  /** What the impact does to one collider's components, in order. */
  datatype HitCall =
    | TryParryCall(index: nat, direction: Vec2, outcome: ParrySystem.ParryOutcome)
    | TakeDamageCall(call: DamageCall)

  /** The centre of the hitbox: the offset, mirrored in x when the sprite is flipped. */
  function HitboxCentre(position: Vec2, offset: Vec2, flipX: bool): (c: Vec2)
    ensures c.y == position.y + offset.y
    ensures Abs(c.x - position.x) == Abs(offset.x)
    ensures offset.x > 0.0 ==> (c.x < position.x <==> flipX)
  {
    Vec2(position.x + (if flipX then -offset.x else offset.x), position.y + offset.y)
  }

  /** Flipping the sprite reflects the hitbox through the enemy's vertical axis. */
  lemma HitboxMirrors(position: Vec2, offset: Vec2)
    ensures HitboxCentre(position, offset, true).x - position.x == -(HitboxCentre(position, offset, false).x - position.x)
    ensures HitboxCentre(position, offset, true).y == HitboxCentre(position, offset, false).y
  {
  }

  /** Whether the collider is a Player offering a parry that succeeds. */
  predicate ParriedAt(hits: seq<Collider>, j: nat)
    requires j < |hits|
  {
    hits[j].tag == PlayerTag && hits[j].parry.Some? && hits[j].parry.value.isParrying
  }

  /** Whether the collider's health would take the hit, given the objects the impact has
      already made invincible. */
  predicate Damageable(h: Collider, shielded: set<nat>) {
    h.health.Some? && !h.health.value.invincible && h.owner !in shielded
  }

  function IndexOf(c: HitCall): nat {
    match c
    case TryParryCall(i, _, _) => i
    case TakeDamageCall(d) => d.index
  }

  /** The calls the loop makes for collider `i`: nothing unless it is tagged Player;
      otherwise TryParry when it has a ParrySystem, then, unless that parried, TakeDamage
      when its health takes the hit. */
  function CallsAt(hits: seq<Collider>, i: nat, position: Vec2, weight: Option<real>, damage: real,
                   shielded: set<nat>): (r: seq<HitCall>)
    requires i < |hits|
    ensures forall k :: 0 <= k < |r| ==> IndexOf(r[k]) == i
  {
    var h := hits[i];
    var dir := Towards(position, h.at);
    var offer: seq<HitCall> :=
      if h.parry.Some? then [TryParryCall(i, dir, ParrySystem.Resolve(h.parry.value.isParrying, weight, h.parry.value.playerWeight))]
      else [];
    if h.tag != PlayerTag then []
    else if !ParriedAt(hits, i) && Damageable(h, shielded) then offer + [TakeDamageCall(DamageCall(i, damage, dir))]
    else offer
  }

  /** The objects made invincible once collider `i` has been handled. */
  function ShieldedAfter(hits: seq<Collider>, i: nat, shielded: set<nat>): set<nat>
    requires i < |hits|
  {
    var h := hits[i];
    if h.tag == PlayerTag && !ParriedAt(hits, i) && Damageable(h, shielded) && h.health.value.invincibilityDuration > 0.0
    then shielded + {h.owner} else shielded
  }

  /** The whole foreach loop of PerformAttackHit from collider `i` on: it stops after the
      first collider that parries. `shielded` holds the objects that a hit earlier in the
      loop has already made invincible. */
  function HitsFrom(hits: seq<Collider>, i: nat, position: Vec2, weight: Option<real>, damage: real,
                    shielded: set<nat>): seq<HitCall>
    requires i <= |hits|
    decreases |hits| - i
  {
    if i == |hits| then []
    else if ParriedAt(hits, i) then CallsAt(hits, i, position, weight, damage, shielded)
    else CallsAt(hits, i, position, weight, damage, shielded)
         + HitsFrom(hits, i + 1, position, weight, damage, ShieldedAfter(hits, i, shielded))
  }

  lemma ConcatAssoc(a: seq<HitCall>, b: seq<HitCall>, c: seq<HitCall>)
    ensures (a + b) + c == a + (b + c)
  {
  }

  /** The foreach loop itself, with its early return on a successful parry. */
  method ResolveHits(hits: seq<Collider>, position: Vec2, weight: Option<real>, damage: real)
    returns (calls: seq<HitCall>)
    ensures calls == HitsFrom(hits, 0, position, weight, damage, {})
  {
    calls := [];
    var shielded: set<nat> := {};
    var i := 0;
    while i < |hits|
      invariant i <= |hits|
      invariant calls + HitsFrom(hits, i, position, weight, damage, shielded) == HitsFrom(hits, 0, position, weight, damage, {})
      decreases |hits| - i
    {
      ghost var before := calls;
      ghost var head := CallsAt(hits, i, position, weight, damage, shielded);
      ghost var next := ShieldedAfter(hits, i, shielded);
      ghost var rest := HitsFrom(hits, i, position, weight, damage, shielded);
      var h := hits[i];
      if h.tag == PlayerTag {
        var dir := Towards(position, h.at);
        if h.parry.Some? {
          var outcome := ParrySystem.Resolve(h.parry.value.isParrying, weight, h.parry.value.playerWeight);
          calls := calls + [TryParryCall(i, dir, outcome)];
          if outcome.Parried? {
            assert calls == before + head && rest == head;
            return;
          }
        }
        if h.health.Some? && !h.health.value.invincible && h.owner !in shielded {
          calls := calls + [TakeDamageCall(DamageCall(i, damage, dir))];
          if h.health.value.invincibilityDuration > 0.0 {
            shielded := shielded + {h.owner};
          }
        }
      }
      assert calls == before + head && shielded == next;
      assert rest == head + HitsFrom(hits, i + 1, position, weight, damage, next);
      ConcatAssoc(before, head, HitsFrom(hits, i + 1, position, weight, damage, next));
      i := i + 1;
    }
  }

  /** Every call concerns a Player collider at index `i` or later. */
  predicate OnlyPlayersFrom(calls: seq<HitCall>, hits: seq<Collider>, i: nat) {
    forall k :: 0 <= k < |calls| ==> i <= IndexOf(calls[k]) < |hits| && hits[IndexOf(calls[k])].tag == PlayerTag
  }

  /** The calls concern colliders in the order of the list. */
  predicate InListOrder(calls: seq<HitCall>) {
    forall k, l :: 0 <= k < l < |calls| ==> IndexOf(calls[k]) <= IndexOf(calls[l])
  }

  /** Every damage call deals `damage`, towards a Player collider from `i` on that has
      health, is not invincible and did not parry. */
  predicate ExactDamage(calls: seq<HitCall>, hits: seq<Collider>, i: nat, position: Vec2, damage: real) {
    forall k :: 0 <= k < |calls| && calls[k].TakeDamageCall? ==>
      && i <= calls[k].call.index < |hits|
      && calls[k].call.amount == damage
      && calls[k].call.direction == Towards(position, hits[calls[k].call.index].at)
      && hits[calls[k].call.index].tag == PlayerTag
      && hits[calls[k].call.index].health.Some?
      && !hits[calls[k].call.index].health.value.invincible
      && !ParriedAt(hits, calls[k].call.index)
  }

  /** The last call is a successful TryParry on collider `p`, and no call concerns a
      collider after it. */
  predicate EndsWithParryAt(calls: seq<HitCall>, p: nat) {
    && |calls| > 0
    && calls[|calls| - 1].TryParryCall? && calls[|calls| - 1].index == p && calls[|calls| - 1].outcome.Parried?
    && forall k :: 0 <= k < |calls| ==> IndexOf(calls[k]) <= p
  }

  /** The calls only concern Player colliders from `i` on. */
  lemma {:induction false} CallsInRange(hits: seq<Collider>, i: nat, position: Vec2, weight: Option<real>, damage: real, shielded: set<nat>)
    requires i <= |hits|
    ensures OnlyPlayersFrom(HitsFrom(hits, i, position, weight, damage, shielded), hits, i)
    decreases |hits| - i
  {
    if i < |hits| && !ParriedAt(hits, i) {
      CallsInRange(hits, i + 1, position, weight, damage, ShieldedAfter(hits, i, shielded));
      var head := CallsAt(hits, i, position, weight, damage, shielded);
      var rest := HitsFrom(hits, i + 1, position, weight, damage, ShieldedAfter(hits, i, shielded));
      assert head != [] ==> hits[i].tag == PlayerTag;
      forall k | 0 <= k < |head + rest|
        ensures i <= IndexOf((head + rest)[k]) < |hits| && hits[IndexOf((head + rest)[k])].tag == PlayerTag
      {
        if k >= |head| {
          assert (head + rest)[k] == rest[k - |head|];
        } else {
          assert (head + rest)[k] == head[k];
        }
      }
    }
  }

  /** Calls about collider `i` followed by ordered calls about later colliders are ordered. */
  lemma OrderAppend(a: seq<HitCall>, b: seq<HitCall>, i: nat)
    requires forall k :: 0 <= k < |a| ==> IndexOf(a[k]) == i
    requires forall k :: 0 <= k < |b| ==> i < IndexOf(b[k])
    requires InListOrder(b)
    ensures InListOrder(a + b)
  {
    forall k, l | 0 <= k < l < |a + b|
      ensures IndexOf((a + b)[k]) <= IndexOf((a + b)[l])
    {
      if l >= |a| {
        assert (a + b)[l] == b[l - |a|];
        if k >= |a| {
          assert (a + b)[k] == b[k - |a|];
        } else {
          assert (a + b)[k] == a[k];
        }
      } else {
        assert (a + b)[k] == a[k] && (a + b)[l] == a[l];
      }
    }
  }

  /** The calls visit colliders in list order. */
  lemma {:induction false} CallsInOrder(hits: seq<Collider>, i: nat, position: Vec2, weight: Option<real>, damage: real, shielded: set<nat>)
    requires i <= |hits|
    ensures InListOrder(HitsFrom(hits, i, position, weight, damage, shielded))
    decreases |hits| - i
  {
    if i < |hits| && !ParriedAt(hits, i) {
      var next := ShieldedAfter(hits, i, shielded);
      CallsInOrder(hits, i + 1, position, weight, damage, next);
      CallsInRange(hits, i + 1, position, weight, damage, next);
      OrderAppend(CallsAt(hits, i, position, weight, damage, shielded), HitsFrom(hits, i + 1, position, weight, damage, next), i);
    }
  }

  /** Exact damage calls about collider `i` followed by exact ones about later colliders. */
  lemma ExactDamageAppend(a: seq<HitCall>, b: seq<HitCall>, hits: seq<Collider>, i: nat, position: Vec2, damage: real)
    requires ExactDamage(a, hits, i, position, damage) && ExactDamage(b, hits, i + 1, position, damage)
    ensures ExactDamage(a + b, hits, i, position, damage)
  {
    forall k | 0 <= k < |a + b|
      ensures (a + b)[k] == if k < |a| then a[k] else b[k - |a|]
    {
    }
  }

  /** Every damage call deals exactly `attackDamage`, to a Player collider that has health,
      is not invincible and did not parry, in the direction from the enemy to it. */
  lemma {:induction false} DamageCallsAreExact(hits: seq<Collider>, i: nat, position: Vec2, weight: Option<real>, damage: real, shielded: set<nat>)
    requires i <= |hits|
    ensures ExactDamage(HitsFrom(hits, i, position, weight, damage, shielded), hits, i, position, damage)
    decreases |hits| - i
  {
    if i < |hits| {
      var head := CallsAt(hits, i, position, weight, damage, shielded);
      assert ExactDamage(head, hits, i, position, damage);
      if !ParriedAt(hits, i) {
        var next := ShieldedAfter(hits, i, shielded);
        DamageCallsAreExact(hits, i + 1, position, weight, damage, next);
        ExactDamageAppend(head, HitsFrom(hits, i + 1, position, weight, damage, next), hits, i, position, damage);
      }
    }
  }

  /** The first successful parry ends the impact: its TryParry is the last call, so no
      later collider is offered a parry or damaged. */
  lemma {:induction false} ParryEndsImpact(hits: seq<Collider>, i: nat, p: nat, position: Vec2, weight: Option<real>, damage: real, shielded: set<nat>)
    requires i <= p < |hits| && ParriedAt(hits, p)
    requires forall j :: i <= j < p ==> !ParriedAt(hits, j)
    ensures EndsWithParryAt(HitsFrom(hits, i, position, weight, damage, shielded), p)
    decreases |hits| - i
  {
    if i < p {
      assert !ParriedAt(hits, i);
      ParryEndsImpact(hits, i + 1, p, position, weight, damage, ShieldedAfter(hits, i, shielded));
      var head := CallsAt(hits, i, position, weight, damage, shielded);
      var rest := HitsFrom(hits, i + 1, position, weight, damage, ShieldedAfter(hits, i, shielded));
      assert (head + rest)[|head + rest| - 1] == rest[|rest| - 1];
      forall k | 0 <= k < |head + rest|
        ensures IndexOf((head + rest)[k]) <= p
      {
        if k >= |head| {
          assert (head + rest)[k] == rest[k - |head|];
        }
      }
    }
  }

  /** The indices of the colliders that are damaged, in order. */
  function DamagedIndices(calls: seq<HitCall>): seq<nat> {
    if calls == [] then []
    else (if calls[0].TakeDamageCall? then [calls[0].call.index] else []) + DamagedIndices(calls[1..])
  }

  /** The Player colliders with index in [i, end) that have health and are not invincible. */
  function Eligible(hits: seq<Collider>, i: nat, end: nat): seq<nat>
    requires i <= end <= |hits|
    decreases end - i
  {
    if i == end then []
    else
      var h := hits[i];
      (if h.tag == PlayerTag && h.health.Some? && !h.health.value.invincible then [i] else []) + Eligible(hits, i + 1, end)
  }

  lemma DamagedIndicesAppend(a: seq<HitCall>, b: seq<HitCall>)
    ensures DamagedIndices(a + b) == DamagedIndices(a) + DamagedIndices(b)
  {
    if a != [] {
      assert (a + b)[1..] == a[1..] + b;
      DamagedIndicesAppend(a[1..], b);
    } else {
      assert a + b == b;
    }
  }

  /** Let `p` be the first collider from `i` on whose parry succeeds, or the end of the list
      when there is none. When the colliders before `p` belong to different objects,
      exactly the Player colliders before `p` with health that are not invincible are
      damaged, in list order; the parrying collider and those after it are not. */
  lemma {:induction false} DamagedBeforeFirstParry(hits: seq<Collider>, i: nat, p: nat, position: Vec2,
                                                   weight: Option<real>, damage: real, shielded: set<nat>)
    requires i <= p <= |hits|
    requires p < |hits| ==> ParriedAt(hits, p)
    requires forall j :: i <= j < p ==> !ParriedAt(hits, j) && hits[j].owner !in shielded
    requires forall j, k :: i <= j < k < p ==> hits[j].owner != hits[k].owner
    ensures DamagedIndices(HitsFrom(hits, i, position, weight, damage, shielded)) == Eligible(hits, i, p)
    decreases p - i
  {
    if i < |hits| {
      var h := hits[i];
      var dir := Towards(position, h.at);
      var offer: seq<HitCall> :=
        if h.parry.Some? then [TryParryCall(i, dir, ParrySystem.Resolve(h.parry.value.isParrying, weight, h.parry.value.playerWeight))]
        else [];
      assert DamagedIndices(offer) == [] by {
        if h.parry.Some? {
          assert offer[1..] == [];
        }
      }
      if i == p {
        // the parrying collider only gets its TryParry call, and the loop stops there
        assert HitsFrom(hits, i, position, weight, damage, shielded) == offer;
      } else {
        var next := ShieldedAfter(hits, i, shielded);
        DamagedBeforeFirstParry(hits, i + 1, p, position, weight, damage, next);
        var head := CallsAt(hits, i, position, weight, damage, shielded);
        DamagedIndicesAppend(head, HitsFrom(hits, i + 1, position, weight, damage, next));
        if h.tag == PlayerTag && Damageable(h, shielded) {
          var hit: seq<HitCall> := [TakeDamageCall(DamageCall(i, damage, dir))];
          assert head == offer + hit;
          DamagedIndicesAppend(offer, hit);
          assert DamagedIndices(hit) == [i] by {
            assert hit[1..] == [];
          }
        } else if h.tag == PlayerTag {
          assert head == offer;
        }
      }
    }
  }

  // ---------------------------------------------------------------------------
  // The component

  /** Where the attack sequence is: not running, waiting for the telegraph to finish,
      or in the recovery wait that ends at `resumeAt`. */
  datatype SequencePhase = NotRunning | AwaitingTelegraph | Recovering(resumeAt: real)

  class EnemyAttack {
    const attackDamage: real
    const attackRange: real
    const attackCooldown: real
    const attackOffset: Vec2
    const hasAnimator: bool
    const hasSprite: bool
    /** This enemy's EnemyWeight component, which TryParry weighs. */
    const weight: Option<real>
    /** This enemy's GameObject, with its EnemyAI. */
    const body: EnemyBody
    /** This enemy's AttackTelegraph, when it has one. */
    const telegraph: EnemyTelegraph.AttackTelegraph?

    var lastAttackTime: real
    var isAttacking: bool
    var phase: SequencePhase
    var animatorTriggers: seq<string>

    /** The telegraph as a frame: empty when the enemy has none. */
    function TelegraphFrame(): set<object> {
      if telegraph == null then {} else {telegraph}
    }

    ghost predicate Valid()
      reads this, telegraph
    {
      && (isAttacking <==> !phase.NotRunning?)
      && (telegraph == null ==> !phase.AwaitingTelegraph?)
      && (telegraph != null ==> telegraph.Valid() && (telegraph.IsTelegraphActive <==> phase.AwaitingTelegraph?))
      && (phase.Recovering? && hasAnimator ==> |animatorTriggers| > 0 && animatorTriggers[|animatorTriggers| - 1] == AttackTrigger)
    }

    constructor (attackDamage: real, attackRange: real, attackCooldown: real, attackOffset: Vec2,
                 hasAnimator: bool, hasSprite: bool, weight: Option<real>, body: EnemyBody,
                 telegraph: EnemyTelegraph.AttackTelegraph?)
      requires telegraph != null ==> telegraph.Valid() && !telegraph.IsTelegraphActive
      ensures Valid()
      ensures this.attackDamage == attackDamage && this.attackRange == attackRange
      ensures this.attackCooldown == attackCooldown && this.attackOffset == attackOffset
      ensures this.hasAnimator == hasAnimator && this.hasSprite == hasSprite && this.weight == weight
      ensures this.body == body && this.telegraph == telegraph
      ensures lastAttackTime == NeverAttacked && !isAttacking && phase == NotRunning && animatorTriggers == []
    {
      this.attackDamage := attackDamage;
      this.attackRange := attackRange;
      this.attackCooldown := attackCooldown;
      this.attackOffset := attackOffset;
      this.hasAnimator := hasAnimator;
      this.hasSprite := hasSprite;
      this.weight := weight;
      this.body := body;
      this.telegraph := telegraph;
      lastAttackTime := NeverAttacked;
      isAttacking := false;
      phase := NotRunning;
      animatorTriggers := [];
    }

    /** The part of AttackSequence after the telegraph: the Attack1 trigger, then the
        recovery wait. */
    method FireAttack(now: real)
      requires isAttacking
      modifies this
      ensures animatorTriggers == old(animatorTriggers) + if hasAnimator then [AttackTrigger] else []
      ensures phase == Recovering(now + RecoverySeconds)
      ensures lastAttackTime == old(lastAttackTime) && isAttacking
    {
      if hasAnimator {
        animatorTriggers := animatorTriggers + [AttackTrigger];
      }
      phase := Recovering(now + RecoverySeconds);
    }

    /** What the telegraph shows in the frame ShowTelegraph starts, from its state before:
        the colour, triggers and indicator of the steps up to its first wait, and when that
        wait ends. */
    ghost predicate TelegraphOpened(color0: Color, triggers0: seq<string>, alive0: bool, at0: Vec2,
                                    resume0: real, now: real, position: Vec2)
      requires telegraph != null
      reads telegraph
    {
      var t := telegraph;
      && t.pc <= |t.plan|
      && (t.pc < |t.plan| ==> t.plan[t.pc].Wait?)
      && t.color == EnemyTelegraph.ColorAfter(t.plan[..t.pc], color0)
      && t.animatorTriggers == triggers0 + EnemyTelegraph.TriggersOf(t.plan[..t.pc])
      && t.indicatorAlive == EnemyTelegraph.IndicatorAlive(t.plan[..t.pc], alive0)
      && t.indicatorPosition ==
           (if EnemyTelegraph.SpawnIndicator in t.plan[..t.pc] then position.Plus(t.cfg.indicatorOffset) else at0)
      && t.resumeAt == (if t.pc < |t.plan| then now + t.plan[t.pc].seconds else resume0)
    }

    /** Update: starts a sequence only when the player exists, no sequence is running, the
        player is within range and the cooldown since the last sequence's end is over.
        The sequence disables the AI, then shows the telegraph; Attack1 fires in the same
        frame only when the telegraph has nothing to wait for. */
    method Update(playerPosition: Option<Vec2>, position: Vec2, now: real)
      requires Valid()
      modifies this, body, telegraph
      ensures Valid()
      ensures var starts := playerPosition.Some? && !old(isAttacking)
                            && WithinRange(position, playerPosition.value, attackRange)
                            && now >= old(lastAttackTime) + attackCooldown;
        if starts then
          && isAttacking
          && lastAttackTime == old(lastAttackTime)
          && body.aiEnabled == (if body.hasAI then false else old(body.aiEnabled))
          && body.alive == old(body.alive)
          && (telegraph != null ==>
                && telegraph.plan == EnemyTelegraph.Plan(telegraph.cfg) && telegraph.startedAt == now
                && telegraph.pc == EnemyTelegraph.NextWait(telegraph.plan, 0)
                && (!telegraph.IsTelegraphActive ==> EnemyTelegraph.TotalWait(telegraph.plan) == 0.0)
                && TelegraphOpened(old(telegraph.color), old(telegraph.animatorTriggers),
                                   old(telegraph.indicatorAlive), old(telegraph.indicatorPosition),
                                   old(telegraph.resumeAt), now, position))
          && if telegraph == null || !telegraph.IsTelegraphActive then
               && phase == Recovering(now + RecoverySeconds)
               && animatorTriggers == old(animatorTriggers) + if hasAnimator then [AttackTrigger] else []
             else
               && phase == AwaitingTelegraph
               && animatorTriggers == old(animatorTriggers)
        else unchanged(this, body, TelegraphFrame())
    {
      if playerPosition.None? || isAttacking {
        return;
      }
      if WithinRange(position, playerPosition.value, attackRange) && now >= lastAttackTime + attackCooldown && !isAttacking {
        isAttacking := true;
        if body.hasAI {
          body.aiEnabled := false;
        }
        if telegraph != null {
          telegraph.ShowTelegraph(now, position);
          if telegraph.IsTelegraphActive {
            phase := AwaitingTelegraph;
            return;
          }
        }
        FireAttack(now);
      }
    }

    /** The engine resumes the running sequence. While the telegraph runs it is resumed in
        turn, and Attack1 fires the moment it finishes; once the recovery wait is over the
        cooldown starts from now, the AI is re-enabled and the sequence ends. A destroyed
        enemy runs no coroutines. */
    method Resume(now: real, position: Vec2)
      requires Valid()
      modifies this, body, telegraph
      ensures Valid()
      ensures body.alive == old(body.alive)
      ensures telegraph != null ==> telegraph.plan == old(telegraph.plan) && telegraph.startedAt == old(telegraph.startedAt)
      ensures !old(body.alive) ==> unchanged(this, body, TelegraphFrame())
      ensures old(body.alive) && old(phase).Recovering? && now >= old(phase).resumeAt ==>
                && lastAttackTime == now && !isAttacking && phase == NotRunning
                && animatorTriggers == old(animatorTriggers)
                && body.aiEnabled == (if body.hasAI then true else old(body.aiEnabled))
                && unchanged(TelegraphFrame())
      ensures old(body.alive) && old(phase).AwaitingTelegraph? ==>
                && lastAttackTime == old(lastAttackTime) && isAttacking && unchanged(body)
                && if telegraph.IsTelegraphActive then
                     phase == AwaitingTelegraph && animatorTriggers == old(animatorTriggers)
                   else
                     && phase == Recovering(now + RecoverySeconds)
                     && animatorTriggers == old(animatorTriggers) + (if hasAnimator then [AttackTrigger] else [])
                     && now >= telegraph.startedAt + EnemyTelegraph.TotalWait(telegraph.plan)
      ensures old(phase).NotRunning? || (old(phase).Recovering? && now < old(phase).resumeAt) ==>
                unchanged(this, body, TelegraphFrame())
    {
      if !body.alive {
        return;
      }
      match phase {
        case NotRunning =>
        case AwaitingTelegraph =>
          telegraph.Resume(now, position);
          if !telegraph.IsTelegraphActive {
            FireAttack(now);
          }
        case Recovering(t) =>
          if now >= t {
            lastAttackTime := now;
            if body.hasAI && body.alive {
              body.aiEnabled := true;
            }
            isAttacking := false;
            phase := NotRunning;
          }
      }
    }

    /** PerformAttackHit, run by the animation's impact event: nothing without a sprite
        renderer; otherwise the hitbox centre for the overlap query and, for the colliders
        it returned, the calls the loop makes. */
    method PerformAttackHit(flipX: bool, position: Vec2, hits: seq<Collider>)
      returns (centre: Option<Vec2>, calls: seq<HitCall>)
      ensures centre.None? <==> !hasSprite
      ensures centre.Some? ==> centre.value == HitboxCentre(position, attackOffset, flipX)
      ensures calls == if hasSprite then HitsFrom(hits, 0, position, weight, attackDamage, {}) else []
    {
      if !hasSprite {
        return None, [];
      }
      centre := Some(HitboxCentre(position, attackOffset, flipX));
      calls := ResolveHits(hits, position, weight, attackDamage);
    }
  }
}
