/** An enemy's health (Assets/Scripts/EnemyHealth.cs): every hit subtracts, starts a
    flash and a shake unless one is running, and a hit that leaves health at or below
    zero pushes the enemy horizontally and schedules its death. */
module EnemyHealth {
  import opened Common

  /** The sprite's material: its own, or the flash material. */
  datatype Material = OriginalMaterial | FlashMaterial

  const White: Color := Color(1.0, 1.0, 1.0, 1.0)

  /** The death impulse before normalisation: the hit's horizontal part only. */
  function DeathKnockbackDirection(hitDirection: Vec2): (d: Vec2)
    ensures d.y == 0.0
    ensures d.x > 0.0 <==> hitDirection.x > 0.0
    ensures d.x < 0.0 <==> hitDirection.x < 0.0
  {
    Vec2(hitDirection.x, 0.0)
  }

  class EnemyHealth {
    const maxHealth: real
    const flashDuration: real
    const hasFlashMaterial: bool
    const hasOriginalMaterial: bool
    const shakeDuration: real
    const deathDelay: real
    const hasRigidbody: bool
    /** The sprite's local position at Start. */
    const originalPosition: Vec2
    /** This enemy's GameObject, with its EnemyAI. */
    const body: EnemyBody

    var currentHealth: real
    var isFlashing: bool
    var flashEndsAt: real
    var material: Material
    var color: Color
    var isShaking: bool
    var shakeElapsed: real
    /** The sprite's local position. */
    var spritePosition: Vec2
    /** The impulse directions applied to the Rigidbody, oldest first. */
    var impulses: seq<Vec2>
    /** When each running DelayedDeath calls Die. */
    var deathsAt: seq<real>
    /** How often Die has run. */
    var dieCalls: nat

    ghost predicate Valid()
      reads this
    {
      && (!isShaking ==> spritePosition == originalPosition)
      && (!isFlashing && hasOriginalMaterial ==> material == OriginalMaterial)
    }

    constructor (maxHealth: real, flashDuration: real, hasFlashMaterial: bool, hasOriginalMaterial: bool,
                 shakeDuration: real, deathDelay: real, hasRigidbody: bool, originalPosition: Vec2,
                 spriteColor: Color, body: EnemyBody)
      ensures Valid()
      ensures this.maxHealth == maxHealth && this.flashDuration == flashDuration
      ensures this.hasFlashMaterial == hasFlashMaterial && this.hasOriginalMaterial == hasOriginalMaterial
      ensures this.shakeDuration == shakeDuration && this.deathDelay == deathDelay
      ensures this.hasRigidbody == hasRigidbody && this.originalPosition == originalPosition && this.body == body
      ensures currentHealth == maxHealth && !isFlashing && !isShaking && color == spriteColor
      ensures impulses == [] && deathsAt == [] && dieCalls == 0
    {
      this.maxHealth := maxHealth;
      this.flashDuration := flashDuration;
      this.hasFlashMaterial := hasFlashMaterial;
      this.hasOriginalMaterial := hasOriginalMaterial;
      this.shakeDuration := shakeDuration;
      this.deathDelay := deathDelay;
      this.hasRigidbody := hasRigidbody;
      this.originalPosition := originalPosition;
      this.body := body;
      currentHealth := maxHealth;
      isFlashing := false;
      flashEndsAt := 0.0;
      material := OriginalMaterial;
      color := spriteColor;
      isShaking := false;
      shakeElapsed := 0.0;
      spritePosition := originalPosition;
      impulses := [];
      deathsAt := [];
      dieCalls := 0;
    }

    /** TakeDamage: health always drops by exactly `damage`. A flash starts unless one is
        running, and so does a shake (its first frame moves the sprite by `jitter`). Only
        a hit that leaves health at or below zero applies an impulse, and it also disables
        the AI and schedules Die after `deathDelay`. */
    method TakeDamage(damage: real, hitDirection: Vec2, now: real, deltaTime: real, jitter: Vec2)
      requires Valid()
      modifies this, body
      ensures Valid()
      ensures currentHealth == old(currentHealth) - damage
      ensures isFlashing
      ensures !old(isFlashing) ==>
                && flashEndsAt == now + flashDuration
                && material == (if hasFlashMaterial then FlashMaterial else old(material))
                && color == (if hasFlashMaterial then old(color) else White)
      ensures old(isFlashing) ==> flashEndsAt == old(flashEndsAt) && material == old(material) && color == old(color)
      ensures !old(isShaking) ==>
                && isShaking == (shakeDuration > 0.0)
                && (isShaking ==> spritePosition == originalPosition.Plus(jitter) && shakeElapsed == deltaTime)
      ensures old(isShaking) ==> isShaking && spritePosition == old(spritePosition) && shakeElapsed == old(shakeElapsed)
      ensures if currentHealth <= 0.0 then
                && impulses == old(impulses) + (if hasRigidbody then [DeathKnockbackDirection(hitDirection)] else [])
                && deathsAt == old(deathsAt) + [now + deathDelay]
                && body.aiEnabled == (if body.hasAI then false else old(body.aiEnabled))
              else
                && impulses == old(impulses) && deathsAt == old(deathsAt)
                && body.aiEnabled == old(body.aiEnabled)
      ensures body.alive == old(body.alive) && dieCalls == old(dieCalls)
    {
      currentHealth := currentHealth - damage;
      if !isFlashing {
        StartFlash(now);
      }
      if !isShaking {
        StartShake(deltaTime, jitter);
      }
      if currentHealth <= 0.0 {
        if hasRigidbody {
          impulses := impulses + [DeathKnockbackDirection(hitDirection)];
        }
        // DelayedDeath, up to its wait.
        if body.hasAI {
          body.aiEnabled := false;
        }
        deathsAt := deathsAt + [now + deathDelay];
      }
    }

    /** DamageFlash up to its wait: the flash material, or white without one. */
    method StartFlash(now: real)
      requires Valid()
      modifies this
      ensures Valid()
      ensures isFlashing && flashEndsAt == now + flashDuration
      ensures material == (if hasFlashMaterial then FlashMaterial else old(material))
      ensures color == (if hasFlashMaterial then old(color) else White)
      ensures currentHealth == old(currentHealth) && isShaking == old(isShaking)
      ensures spritePosition == old(spritePosition) && shakeElapsed == old(shakeElapsed)
      ensures impulses == old(impulses) && deathsAt == old(deathsAt) && dieCalls == old(dieCalls)
    {
      isFlashing := true;
      if hasFlashMaterial {
        material := FlashMaterial;
      } else {
        color := White;
      }
      flashEndsAt := now + flashDuration;
    }

    /** ShakeEffect up to its first frame: moved by `jitter`, or, for a non-positive
        duration, back in place and done. */
    method StartShake(deltaTime: real, jitter: Vec2)
      requires Valid()
      modifies this
      ensures Valid()
      ensures isShaking == (shakeDuration > 0.0)
      ensures isShaking ==> spritePosition == originalPosition.Plus(jitter) && shakeElapsed == deltaTime
      ensures currentHealth == old(currentHealth) && isFlashing == old(isFlashing) && flashEndsAt == old(flashEndsAt)
      ensures material == old(material) && color == old(color)
      ensures impulses == old(impulses) && deathsAt == old(deathsAt) && dieCalls == old(dieCalls)
    {
      isShaking := true;
      shakeElapsed := 0.0;
      ShakeFrame(deltaTime, jitter);
    }

    /** One pass of the shake loop's condition: while `elapsed` is below the duration the
        sprite is moved by `jitter` and `elapsed` grows by the frame time; otherwise the
        sprite returns to its original position and the shake ends. */
    method ShakeFrame(deltaTime: real, jitter: Vec2)
      requires isShaking && (!isFlashing && hasOriginalMaterial ==> material == OriginalMaterial)
      modifies this
      ensures Valid()
      ensures if old(shakeElapsed) < shakeDuration then
                isShaking && spritePosition == originalPosition.Plus(jitter) && shakeElapsed == old(shakeElapsed) + deltaTime
              else
                !isShaking && spritePosition == originalPosition && shakeElapsed == old(shakeElapsed)
      ensures currentHealth == old(currentHealth) && isFlashing == old(isFlashing) && flashEndsAt == old(flashEndsAt)
      ensures material == old(material) && color == old(color)
      ensures impulses == old(impulses) && deathsAt == old(deathsAt) && dieCalls == old(dieCalls)
    {
      if shakeElapsed < shakeDuration {
        spritePosition := originalPosition.Plus(jitter);
        shakeElapsed := shakeElapsed + deltaTime;
      } else {
        spritePosition := originalPosition;
        isShaking := false;
      }
    }

    /** The engine resumes ShakeEffect on the next frame, unless the enemy has been destroyed. */
    method ResumeShake(deltaTime: real, jitter: Vec2)
      requires Valid()
      modifies this
      ensures Valid()
      ensures !old(isShaking) || !body.alive ==> unchanged(this)
      ensures old(isShaking) && body.alive ==>
                if old(shakeElapsed) < shakeDuration then
                  isShaking && spritePosition == originalPosition.Plus(jitter) && shakeElapsed == old(shakeElapsed) + deltaTime
                else
                  !isShaking && spritePosition == originalPosition && shakeElapsed == old(shakeElapsed)
      ensures currentHealth == old(currentHealth) && isFlashing == old(isFlashing) && material == old(material)
      ensures color == old(color) && flashEndsAt == old(flashEndsAt)
      ensures impulses == old(impulses) && deathsAt == old(deathsAt) && dieCalls == old(dieCalls)
    {
      if isShaking && body.alive {
        ShakeFrame(deltaTime, jitter);
      }
    }

    /** The engine resumes DamageFlash once its wait is over, unless the enemy has been
        destroyed: back to the original material (or white again without one), and the
        flash is over. */
    method ResumeFlash(now: real)
      requires Valid()
      modifies this
      ensures Valid()
      ensures if old(isFlashing) && now >= old(flashEndsAt) && body.alive then
                && !isFlashing
                && material == (if hasOriginalMaterial then OriginalMaterial else old(material))
                && color == (if hasOriginalMaterial then old(color) else White)
              else unchanged(this)
      ensures currentHealth == old(currentHealth) && isShaking == old(isShaking) && spritePosition == old(spritePosition)
      ensures shakeElapsed == old(shakeElapsed) && flashEndsAt == old(flashEndsAt)
      ensures impulses == old(impulses) && deathsAt == old(deathsAt) && dieCalls == old(dieCalls)
    {
      if isFlashing && now >= flashEndsAt && body.alive {
        if hasOriginalMaterial {
          material := OriginalMaterial;
        } else {
          color := White;
        }
        isFlashing := false;
      }
    }

    /** The engine resumes the DelayedDeath coroutines whose wait is over: each calls Die,
        which destroys the enemy; a destroyed enemy runs no coroutines. */
    method ResumeDeaths(now: real)
      requires Valid()
      modifies this, body
      ensures Valid()
      ensures !old(body.alive) ==> unchanged(this, body)
      ensures old(body.alive) ==>
                && dieCalls == old(dieCalls) + CountEnded(old(deathsAt), now)
                && deathsAt == PendingEnds(old(deathsAt), now)
                && body.alive == !AnyEnded(old(deathsAt), now)
                && body.aiEnabled == old(body.aiEnabled)
      ensures currentHealth == old(currentHealth) && isFlashing == old(isFlashing) && isShaking == old(isShaking)
      ensures spritePosition == old(spritePosition) && material == old(material) && impulses == old(impulses)
      ensures color == old(color) && flashEndsAt == old(flashEndsAt) && shakeElapsed == old(shakeElapsed)
    {
      if !body.alive {
        return;
      }
      var due := CountEnded(deathsAt, now);
      EndedAndPending(deathsAt, now);
      dieCalls := dieCalls + due;
      if due > 0 {
        body.alive := false;
      }
      deathsAt := PendingEnds(deathsAt, now);
    }
  }
}
