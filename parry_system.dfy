/** The player's parry: a timed window opened by a key press, followed by a cooldown,
    and the weight comparison that decides who is knocked back when an attack is parried.
    Time is explicit: `now` is the scaled game time, `realNow` the unscaled real time.
    Each `Resume...` method stands for the engine resuming one of the class's coroutines. */
module ParrySystem {
  import opened Common

  /** The player weight of a freshly configured ParrySystem. */
  const DefaultPlayerWeight: real := 50.0
  /** The weight assumed for an attacker that has no EnemyWeight component. */
  const MissingEnemyWeight: real := 50.0
  /** How long a knocked-back enemy's AI stays disabled. */
  const StunSeconds: real := 0.5
  /** The value of `lastParryTime` before the first parry. */
  const NeverParried: real := -999.0
  const ParryTrigger: string := "parry"

  /** What TryParry reports: the attack was not parried, or it was and the
      flag says whether the player (rather than the enemy) is knocked back. */
  datatype ParryOutcome = NotParried | Parried(playerKnockedBack: bool)

  function EnemyWeightValue(enemyWeight: Option<real>): real {
    match enemyWeight
    case Some(w) => w
    case None => MissingEnemyWeight
  }

  /** The decision TryParry makes: no parry unless the window is open; otherwise the
      player is knocked back exactly when the enemy is strictly heavier. */
  function Resolve(isParrying: bool, enemyWeight: Option<real>, playerWeight: real): (o: ParryOutcome)
    ensures o.NotParried? <==> !isParrying
    ensures o.Parried? ==> (o.playerKnockedBack <==> EnemyWeightValue(enemyWeight) > playerWeight)
  {
    if !isParrying then NotParried
    else Parried(EnemyWeightValue(enemyWeight) > playerWeight)
  }

  /** On equal weights the enemy, not the player, is knocked back. */
  lemma TieKnocksBackEnemy(w: real)
    ensures Resolve(true, Some(w), w) == Parried(false)
  {
  }

  /** An attacker without an EnemyWeight loses against the default player weight. */
  lemma MissingWeightLosesToDefault()
    ensures Resolve(true, None, DefaultPlayerWeight) == Parried(false)
  {
  }

  /** Direction of the impulse given to a player who loses the tie-break, before
      normalisation: the attack's horizontal direction and a fixed upward bias. */
  function PlayerKnockbackDirection(attackDirection: Vec2): (d: Vec2)
    ensures d.y > 0.0 && d.x == attackDirection.x
  {
    Vec2(attackDirection.x, 0.3)
  }

  /** Direction of the impulse given to an enemy that loses the tie-break: away from
      the player (the reversed attack direction) with a smaller upward bias. */
  function EnemyKnockbackDirection(attackDirection: Vec2): (d: Vec2)
    ensures d.y > 0.0 && d.x == -attackDirection.x
  {
    Vec2(-attackDirection.x, 0.2)
  }

  /** Where the PerformParry coroutine stands: not running, inside the parry window
      (resumes at `closesAt`), or inside the cooldown (resumes at `readyAt`). */
  datatype ParryRoutine = NoParry | WindowOpen(closesAt: real) | CoolingDown(readyAt: real)

  /** A running ParrySuccessEffects coroutine: frozen until real time `thawAt`,
      then tinted until game time `restoreAt`. */
  datatype SuccessEffects = Frozen(thawAt: real) | Tinted(restoreAt: real)

  /** A running ParryKnockbackEnemy coroutine that re-enables `enemy`'s AI at `wakeAt`. */
  datatype Stun = Stun(enemy: EnemyBody, wakeAt: real)

  datatype Side = PlayerSide | EnemySide

  /** An impulse applied after cancelling the body's velocity; `direction` is the
      vector Unity normalises and scales by the knockback force. */
  datatype Knockback = Knockback(side: Side, direction: Vec2)

  /** One resumption of a success-effects coroutine whose wait is over:
      a thaw starts the tint wait, an expired tint ends the coroutine. */
  function StepEffect(e: SuccessEffects, flashDuration: real, now: real, realNow: real): seq<SuccessEffects> {
    match e
    case Frozen(t) => if realNow >= t then [Tinted(now + flashDuration)] else [e]
    case Tinted(t) => if now >= t then [] else [e]
  }

  function StepEffects(es: seq<SuccessEffects>, flashDuration: real, now: real, realNow: real): seq<SuccessEffects> {
    if es == [] then [] else StepEffect(es[0], flashDuration, now, realNow) + StepEffects(es[1..], flashDuration, now, realNow)
  }

  predicate FreezePending(es: seq<SuccessEffects>) {
    exists i :: 0 <= i < |es| && es[i].Frozen?
  }

  predicate AnyThaw(es: seq<SuccessEffects>, realNow: real) {
    exists i :: 0 <= i < |es| && es[i].Frozen? && realNow >= es[i].thawAt
  }

  predicate AnyRestore(es: seq<SuccessEffects>, now: real) {
    exists i :: 0 <= i < |es| && es[i].Tinted? && now >= es[i].restoreAt
  }

  /** A freeze whose real-time wait is not over survives a resumption step, so time
      can only return to normal speed when some freeze has actually thawed. */
  lemma {:induction false} FreezeSurvivesStep(es: seq<SuccessEffects>, flashDuration: real, now: real, realNow: real)
    requires FreezePending(es) && !AnyThaw(es, realNow)
    ensures FreezePending(StepEffects(es, flashDuration, now, realNow))
  {
    var rest: seq<SuccessEffects> := StepEffects(es[1..], flashDuration, now, realNow);
    if es[0].Frozen? {
      assert StepEffects(es, flashDuration, now, realNow) == [es[0]] + rest;
      assert StepEffects(es, flashDuration, now, realNow)[0].Frozen?;
    } else {
      var i :| 0 <= i < |es| && es[i].Frozen?;
      assert es[1..][i - 1] == es[i];
      forall j | 0 <= j < |es[1..]| && es[1..][j].Frozen?
        ensures realNow < es[1..][j].thawAt
      {
        assert es[1..][j] == es[j + 1];
      }
      FreezeSurvivesStep(es[1..], flashDuration, now, realNow);
      var k :| 0 <= k < |rest| && rest[k].Frozen?;
      var head: seq<SuccessEffects> := StepEffect(es[0], flashDuration, now, realNow);
      assert StepEffects(es, flashDuration, now, realNow) == head + rest;
      assert (head + rest)[|head| + k] == rest[k];
    }
  }

  /** A resumption step never creates a freeze: only TryParry starts one. */
  lemma {:induction false} NoFreezeMeansNoStepFreeze(es: seq<SuccessEffects>, flashDuration: real, now: real, realNow: real)
    requires !FreezePending(es)
    ensures !FreezePending(StepEffects(es, flashDuration, now, realNow))
  {
    if es != [] {
      forall j | 0 <= j < |es[1..]|
        ensures !es[1..][j].Frozen?
      {
        assert es[1..][j] == es[j + 1];
      }
      NoFreezeMeansNoStepFreeze(es[1..], flashDuration, now, realNow);
      var head: seq<SuccessEffects> := StepEffect(es[0], flashDuration, now, realNow);
      var rest: seq<SuccessEffects> := StepEffects(es[1..], flashDuration, now, realNow);
      assert StepEffects(es, flashDuration, now, realNow) == head + rest;
      forall j | 0 <= j < |head + rest|
        ensures !(head + rest)[j].Frozen?
      {
        if j >= |head| {
          assert (head + rest)[j] == rest[j - |head|];
        }
      }
    }
  }

  /** The stuns of `stuns` that are still waiting at `now`. */
  function PendingStuns(stuns: seq<Stun>, now: real): (r: seq<Stun>)
    ensures forall i :: 0 <= i < |r| ==> r[i] in stuns && now < r[i].wakeAt
    ensures forall i :: 0 <= i < |stuns| && now < stuns[i].wakeAt ==> stuns[i] in r
  {
    if stuns == [] then []
    else (if now < stuns[0].wakeAt then [stuns[0]] else []) + PendingStuns(stuns[1..], now)
  }

  class ParrySystem {
    const parryWindow: real
    const parryCooldown: real
    const playerWeight: real
    const freezeDuration: real
    const flashDuration: real
    const parryFlashColor: Color
    /** The sprite's colour when the component started. */
    const originalColor: Color
    const hasSprite: bool
    const hasRigidbody: bool
    const hasAnimator: bool

    var isParrying: bool
    var canParry: bool
    var lastParryTime: real
    var routine: ParryRoutine
    /** Triggers sent to the animator, oldest first. */
    var animatorTriggers: seq<string>
    /** The global `Time.timeScale`. */
    var timeScale: real
    var color: Color
    var effects: seq<SuccessEffects>
    var stuns: seq<Stun>
    /** Impulses this component applied, oldest first. */
    var knockbacks: seq<Knockback>

    ghost predicate Valid()
      reads this
    {
      && (canParry <==> routine.NoParry?)
      && (isParrying <==> routine.WindowOpen?)
      && (routine.WindowOpen? ==> routine.closesAt == lastParryTime + parryWindow)
      // The cooldown wait starts when the window wait ends, so it can only end later
      // than `parryCooldown` after the parry started.
      && (routine.CoolingDown? ==> routine.readyAt >= lastParryTime + parryCooldown)
      && (timeScale == 0.0 || timeScale == 1.0)
      && (!FreezePending(effects) ==> timeScale == 1.0)
    }

    constructor (parryWindow: real, parryCooldown: real, playerWeight: real,
                 freezeDuration: real, flashDuration: real, parryFlashColor: Color,
                 spriteColor: Option<Color>, hasRigidbody: bool, hasAnimator: bool)
      ensures Valid()
      ensures this.parryWindow == parryWindow && this.parryCooldown == parryCooldown
      ensures this.playerWeight == playerWeight && this.freezeDuration == freezeDuration
      ensures this.flashDuration == flashDuration && this.parryFlashColor == parryFlashColor
      ensures hasSprite == spriteColor.Some? && (spriteColor.Some? ==> originalColor == spriteColor.value && color == originalColor)
      ensures this.hasRigidbody == hasRigidbody && this.hasAnimator == hasAnimator
      ensures !isParrying && canParry && lastParryTime == NeverParried && routine == NoParry
      ensures timeScale == 1.0 && effects == [] && stuns == [] && knockbacks == [] && animatorTriggers == []
    {
      this.parryWindow := parryWindow;
      this.parryCooldown := parryCooldown;
      this.playerWeight := playerWeight;
      this.freezeDuration := freezeDuration;
      this.flashDuration := flashDuration;
      this.parryFlashColor := parryFlashColor;
      hasSprite := spriteColor.Some?;
      var c := if spriteColor.Some? then spriteColor.value else Color(1.0, 1.0, 1.0, 1.0);
      originalColor := c;
      color := c;
      this.hasRigidbody := hasRigidbody;
      this.hasAnimator := hasAnimator;
      isParrying := false;
      canParry := true;
      lastParryTime := NeverParried;
      routine := NoParry;
      animatorTriggers := [];
      timeScale := 1.0;
      effects := [];
      stuns := [];
      knockbacks := [];
    }

    function IsParrying(): bool
      reads this
    {
      isParrying
    }

    function CanParry(): bool
      reads this
    {
      canParry
    }

    /** HandleParryInput: a key press starts a parry when it is allowed and the cooldown has
        passed; starting runs PerformParry up to its first wait. */
    method HandleParryInput(keyDown: bool, now: real)
      requires Valid()
      modifies this
      ensures Valid()
      ensures if keyDown && old(canParry) && now >= old(lastParryTime) + parryCooldown then
                && isParrying && !canParry && lastParryTime == now
                && routine == WindowOpen(now + parryWindow)
                && animatorTriggers == old(animatorTriggers) + (if hasAnimator then [ParryTrigger] else [])
                && timeScale == old(timeScale) && color == old(color) && effects == old(effects)
                && stuns == old(stuns) && knockbacks == old(knockbacks)
              else unchanged(this)
    {
      if keyDown && canParry && now >= lastParryTime + parryCooldown {
        isParrying := true;
        canParry := false;
        lastParryTime := now;
        if hasAnimator {
          animatorTriggers := animatorTriggers + [ParryTrigger];
        }
        routine := WindowOpen(now + parryWindow);
      }
    }

    /** The engine resumes PerformParry: the window closes once its wait is over, and the
        parry becomes available again once the following cooldown wait is over. */
    method ResumeParry(now: real)
      requires Valid()
      modifies this
      ensures Valid()
      ensures lastParryTime == old(lastParryTime) && animatorTriggers == old(animatorTriggers)
      ensures timeScale == old(timeScale) && color == old(color) && effects == old(effects)
      ensures stuns == old(stuns) && knockbacks == old(knockbacks)
      ensures old(routine).WindowOpen? && now >= old(routine).closesAt ==>
                !isParrying && !canParry && routine == CoolingDown(now + (parryCooldown - parryWindow))
      ensures old(routine).CoolingDown? && now >= old(routine).readyAt ==>
                !isParrying && canParry && routine == NoParry
      ensures (old(routine).NoParry?
               || (old(routine).WindowOpen? && now < old(routine).closesAt)
               || (old(routine).CoolingDown? && now < old(routine).readyAt)) ==>
                isParrying == old(isParrying) && canParry == old(canParry) && routine == old(routine)
    {
      match routine
      case NoParry =>
      case WindowOpen(t) =>
        if now >= t {
          isParrying := false;
          routine := CoolingDown(now + (parryCooldown - parryWindow));
        }
      case CoolingDown(t) =>
        if now >= t {
          canParry := true;
          routine := NoParry;
        }
    }

    /** TryParry: resolves an attack by `attacker`. When the window is open it launches the
        knockback of the loser and the success effects; it never touches the parry timing. */
    method TryParry(attacker: EnemyBody, attackerWeight: Option<real>, attackerHasRigidbody: bool,
                    attackDirection: Vec2, now: real, realNow: real)
      returns (parried: bool, playerGetsKnockedBack: bool)
      requires Valid()
      modifies this, attacker
      ensures Valid()
      ensures var o := Resolve(old(isParrying), attackerWeight, playerWeight);
              parried == o.Parried? && playerGetsKnockedBack == (o.Parried? && o.playerKnockedBack)
      ensures isParrying == old(isParrying) && canParry == old(canParry)
      ensures lastParryTime == old(lastParryTime) && routine == old(routine)
      ensures animatorTriggers == old(animatorTriggers)
      ensures attacker.alive == old(attacker.alive)
      ensures !parried ==> unchanged(this) && unchanged(attacker)
      ensures parried ==>
                && timeScale == 0.0
                && color == (if hasSprite then parryFlashColor else old(color))
                && effects == old(effects) + [Frozen(realNow + freezeDuration)]
      ensures parried && playerGetsKnockedBack ==>
                && knockbacks == old(knockbacks)
                     + (if hasRigidbody then [Knockback(PlayerSide, PlayerKnockbackDirection(attackDirection))] else [])
                && stuns == old(stuns) && attacker.aiEnabled == old(attacker.aiEnabled)
      ensures parried && !playerGetsKnockedBack ==>
                var stunned := attackerHasRigidbody && attacker.hasAI;
                && knockbacks == old(knockbacks)
                     + (if attackerHasRigidbody then [Knockback(EnemySide, EnemyKnockbackDirection(attackDirection))] else [])
                && stuns == old(stuns) + (if stunned then [Stun(attacker, now + StunSeconds)] else [])
                && attacker.aiEnabled == (if stunned then false else old(attacker.aiEnabled))
    {
      playerGetsKnockedBack := false;
      if !isParrying {
        return false, playerGetsKnockedBack;
      }
      var enemyWeightValue := EnemyWeightValue(attackerWeight);
      if enemyWeightValue > playerWeight {
        playerGetsKnockedBack := true;
        // ParryKnockbackPlayer
        if hasRigidbody {
          knockbacks := knockbacks + [Knockback(PlayerSide, PlayerKnockbackDirection(attackDirection))];
        }
      } else {
        playerGetsKnockedBack := false;
        KnockbackEnemy(attacker, attackerHasRigidbody, attackDirection, now);
      }
      StartSuccessEffects(realNow);
      return true, playerGetsKnockedBack;
    }

    /** ParryKnockbackEnemy, given the reversed attack direction, up to its wait: the
        enemy is pushed when it has a Rigidbody, and stunned when it also has an EnemyAI. */
    method KnockbackEnemy(attacker: EnemyBody, attackerHasRigidbody: bool, attackDirection: Vec2, now: real)
      requires Valid()
      modifies this, attacker
      ensures Valid()
      ensures var stunned := attackerHasRigidbody && attacker.hasAI;
              && knockbacks == old(knockbacks)
                   + (if attackerHasRigidbody then [Knockback(EnemySide, EnemyKnockbackDirection(attackDirection))] else [])
              && stuns == old(stuns) + (if stunned then [Stun(attacker, now + StunSeconds)] else [])
              && attacker.aiEnabled == (if stunned then false else old(attacker.aiEnabled))
      ensures attacker.alive == old(attacker.alive)
      ensures isParrying == old(isParrying) && canParry == old(canParry)
      ensures lastParryTime == old(lastParryTime) && routine == old(routine)
      ensures animatorTriggers == old(animatorTriggers) && timeScale == old(timeScale)
      ensures color == old(color) && effects == old(effects)
    {
      if attackerHasRigidbody {
        knockbacks := knockbacks + [Knockback(EnemySide, EnemyKnockbackDirection(attackDirection))];
        if attacker.hasAI {
          attacker.aiEnabled := false;
          stuns := stuns + [Stun(attacker, now + StunSeconds)];
        }
      }
    }

    /** ParrySuccessEffects up to its real-time wait: time stops and the sprite takes the
        parry colour. */
    method StartSuccessEffects(realNow: real)
      requires Valid()
      modifies this
      ensures Valid()
      ensures timeScale == 0.0
      ensures color == (if hasSprite then parryFlashColor else old(color))
      ensures effects == old(effects) + [Frozen(realNow + freezeDuration)]
      ensures isParrying == old(isParrying) && canParry == old(canParry)
      ensures lastParryTime == old(lastParryTime) && routine == old(routine)
      ensures animatorTriggers == old(animatorTriggers) && stuns == old(stuns) && knockbacks == old(knockbacks)
    {
      timeScale := 0.0;
      if hasSprite {
        color := parryFlashColor;
      }
      effects := effects + [Frozen(realNow + freezeDuration)];
      assert effects[|effects| - 1].Frozen?;
    }

    /** The engine resumes every ParrySuccessEffects coroutine whose wait is over: a thaw sets
        the time scale back to 1, an expired tint restores the sprite's original colour. */
    method ResumeEffects(now: real, realNow: real)
      requires Valid()
      modifies this
      ensures Valid()
      ensures effects == StepEffects(old(effects), flashDuration, now, realNow)
      ensures timeScale == (if AnyThaw(old(effects), realNow) then 1.0 else old(timeScale))
      ensures color == (if hasSprite && AnyRestore(old(effects), now) then originalColor else old(color))
      ensures isParrying == old(isParrying) && canParry == old(canParry)
      ensures lastParryTime == old(lastParryTime) && routine == old(routine)
      ensures animatorTriggers == old(animatorTriggers) && stuns == old(stuns) && knockbacks == old(knockbacks)
    {
      if AnyThaw(effects, realNow) {
        timeScale := 1.0;
      }
      if hasSprite && AnyRestore(effects, now) {
        color := originalColor;
      }
      if FreezePending(effects) && !AnyThaw(effects, realNow) {
        FreezeSurvivesStep(effects, flashDuration, now, realNow);
      } else if !FreezePending(effects) {
        NoFreezeMeansNoStepFreeze(effects, flashDuration, now, realNow);
      }
      effects := StepEffects(effects, flashDuration, now, realNow);
    }

    /** The engine resumes every ParryKnockbackEnemy coroutine whose wait is over; each
        re-enables its enemy's AI, but only if that enemy has not been destroyed. */
    method ResumeStuns(now: real)
      requires Valid()
      modifies this, set s | s in stuns :: s.enemy
      ensures Valid()
      ensures stuns == PendingStuns(old(stuns), now)
      ensures forall s :: s in old(stuns) ==>
                && s.enemy.alive == old(s.enemy.alive)
                && s.enemy.aiEnabled == (old(s.enemy.aiEnabled)
                     || exists w :: w in old(stuns) && w.enemy == s.enemy && now >= w.wakeAt && old(w.enemy.alive))
      ensures isParrying == old(isParrying) && canParry == old(canParry)
      ensures lastParryTime == old(lastParryTime) && routine == old(routine)
      ensures animatorTriggers == old(animatorTriggers) && timeScale == old(timeScale)
      ensures color == old(color) && effects == old(effects) && knockbacks == old(knockbacks)
    {
      var woken := set w | w in stuns && now >= w.wakeAt && w.enemy.alive :: w.enemy;
      forall e | e in woken {
        e.aiEnabled := true;
      }
      stuns := PendingStuns(stuns, now);
    }
  }
}
