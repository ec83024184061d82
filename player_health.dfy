/** The player's health (class PlayerHealth): the invincibility gate on damage, the
    blinking invincibility frames, the knocked-back flag and death. */
module PlayerHealth {
  import opened Common

  /** The alpha a blink dims to. */
  const DimAlpha: real := 0.4
  /** The vertical component of every knockback direction before normalisation. */
  const KnockbackLift: real := 0.5

  /** One blink: full alpha dims to 0.4, anything else becomes full. */
  function Blink(a: real): (r: real)
    ensures r == DimAlpha <==> a == 1.0
    ensures r == 1.0 <==> a != 1.0
  {
    if a == 1.0 then DimAlpha else 1.0
  }

  /** The alpha after `n` blinks from `a`. */
  function BlinkN(a: real, n: nat): real {
    if n == 0 then a else Blink(BlinkN(a, n - 1))
  }

  /** From full alpha the blinks alternate dim, full, dim, ... */
  lemma {:induction false} BlinksAlternate(n: nat)
    ensures BlinkN(1.0, n) == if n % 2 == 0 then 1.0 else DimAlpha
  {
    if n > 0 {
      BlinksAlternate(n - 1);
    }
  }

  /** From any alpha, once it has blinked the alpha is full or dim and repeats every two blinks. */
  lemma BlinksSettle(a: real, n: nat)
    requires n >= 1
    ensures BlinkN(a, n) == 1.0 || BlinkN(a, n) == DimAlpha
    ensures BlinkN(a, n + 2) == BlinkN(a, n)
  {
  }

  /** The knockback direction before normalisation: horizontal part of the hit, always lifted. */
  function KnockbackDirection(hitDirection: Vec2): (d: Vec2)
    ensures d.x == hitDirection.x && d.y > 0.0
  {
    Vec2(hitDirection.x, KnockbackLift)
  }

  class PlayerHealth {
    const maxHealth: real
    const invincibilityDuration: real
    const blinkSpeed: real
    const knockbackDuration: real
    const hasSprite: bool
    const hasRigidbody: bool

    var currentHealth: real
    var isInvincible: bool
    /** The sprite's alpha. */
    var alpha: real
    /** InvincibilityFrames' `elapsed`, and when its current wait is over. */
    var blinkElapsed: real
    var blinkResumeAt: real
    var isKnockedBack: bool
    /** When each running ApplyKnockback coroutine ends. */
    var knockbackEnds: seq<real>
    /** The impulse directions applied to the Rigidbody, oldest first. */
    var impulses: seq<Vec2>
    /** How often Die has run. */
    var dieCalls: nat

    /** The blinks of the running invincibility, and the alpha it started from. */
    ghost var blinks: nat
    ghost var alphaAtHit: real

    ghost predicate Valid()
      reads this
    {
      && (isInvincible ==> blinks >= 1 && blinkElapsed == (blinks - 1) as real * blinkSpeed && blinkElapsed < invincibilityDuration)
      && (isInvincible && hasSprite ==> alpha == BlinkN(alphaAtHit, blinks))
      && (isKnockedBack ==> |knockbackEnds| > 0)
    }

    constructor (maxHealth: real, invincibilityDuration: real, blinkSpeed: real, knockbackDuration: real,
                 spriteAlpha: Option<real>, hasRigidbody: bool)
      ensures Valid()
      ensures this.maxHealth == maxHealth && this.invincibilityDuration == invincibilityDuration
      ensures this.blinkSpeed == blinkSpeed && this.knockbackDuration == knockbackDuration
      ensures hasSprite == spriteAlpha.Some? && this.hasRigidbody == hasRigidbody
      ensures currentHealth == maxHealth && !isInvincible && !isKnockedBack
      ensures knockbackEnds == [] && impulses == [] && dieCalls == 0
      ensures spriteAlpha.Some? ==> alpha == spriteAlpha.value
    {
      this.maxHealth := maxHealth;
      this.invincibilityDuration := invincibilityDuration;
      this.blinkSpeed := blinkSpeed;
      this.knockbackDuration := knockbackDuration;
      hasSprite := spriteAlpha.Some?;
      this.hasRigidbody := hasRigidbody;
      currentHealth := maxHealth;
      isInvincible := false;
      alpha := if spriteAlpha.Some? then spriteAlpha.value else 1.0;
      blinkElapsed := 0.0;
      blinkResumeAt := 0.0;
      isKnockedBack := false;
      knockbackEnds := [];
      impulses := [];
      dieCalls := 0;
      blinks := 0;
      alphaAtHit := 1.0;
    }

    /** TakeDamage: ignored entirely while invincible. Otherwise health drops by exactly
        `damage`, a knockback starts when there is a Rigidbody, the invincibility frames
        start (and end at once when their duration is not positive), and Die runs when
        health is at or below zero. */
    method TakeDamage(damage: real, hitDirection: Vec2, now: real)
      requires Valid()
      modifies this
      ensures Valid()
      ensures old(isInvincible) ==> unchanged(this)
      ensures !old(isInvincible) ==>
        && currentHealth == old(currentHealth) - damage
        && (if hasRigidbody then
              && isKnockedBack
              && knockbackEnds == old(knockbackEnds) + [now + knockbackDuration]
              && impulses == old(impulses) + [KnockbackDirection(hitDirection)]
            else
              && isKnockedBack == old(isKnockedBack)
              && knockbackEnds == old(knockbackEnds) && impulses == old(impulses))
        && isInvincible == (invincibilityDuration > 0.0)
        && (isInvincible ==> blinkElapsed == 0.0 && blinkResumeAt == now + blinkSpeed)
        && alpha == (if !hasSprite then old(alpha) else if isInvincible then Blink(old(alpha)) else 1.0)
        && dieCalls == old(dieCalls) + (if currentHealth <= 0.0 then 1 else 0)
    {
      if isInvincible {
        return;
      }
      currentHealth := currentHealth - damage;
      if hasRigidbody {
        StartKnockback(hitDirection, now);
      }
      StartInvincibility(now);
      if currentHealth <= 0.0 {
        dieCalls := dieCalls + 1;
      }
    }

    /** ApplyKnockback up to its wait. */
    method StartKnockback(hitDirection: Vec2, now: real)
      requires Valid()
      modifies this
      ensures Valid()
      ensures isKnockedBack
      ensures knockbackEnds == old(knockbackEnds) + [now + knockbackDuration]
      ensures impulses == old(impulses) + [KnockbackDirection(hitDirection)]
      ensures currentHealth == old(currentHealth) && isInvincible == old(isInvincible) && alpha == old(alpha)
      ensures blinkElapsed == old(blinkElapsed) && blinkResumeAt == old(blinkResumeAt) && dieCalls == old(dieCalls)
      ensures blinks == old(blinks) && alphaAtHit == old(alphaAtHit)
    {
      isKnockedBack := true;
      impulses := impulses + [KnockbackDirection(hitDirection)];
      knockbackEnds := knockbackEnds + [now + knockbackDuration];
    }

    /** InvincibilityFrames up to its first wait: the first blink, or, when the duration is
        not positive, the immediate end. */
    method StartInvincibility(now: real)
      requires Valid()
      modifies this
      ensures Valid()
      ensures isInvincible == (invincibilityDuration > 0.0)
      ensures isInvincible ==> blinkElapsed == 0.0 && blinkResumeAt == now + blinkSpeed
      ensures alpha == (if !hasSprite then old(alpha) else if isInvincible then Blink(old(alpha)) else 1.0)
      ensures currentHealth == old(currentHealth) && isKnockedBack == old(isKnockedBack)
      ensures knockbackEnds == old(knockbackEnds) && impulses == old(impulses) && dieCalls == old(dieCalls)
    {
      isInvincible := true;
      blinkElapsed := 0.0;
      alphaAtHit := alpha;
      blinks := 0;
      if blinkElapsed < invincibilityDuration {
        if hasSprite {
          alpha := Blink(alpha);
        }
        blinks := 1;
        assert (blinks - 1) as real * blinkSpeed == 0.0;
        blinkResumeAt := now + blinkSpeed;
      } else {
        if hasSprite {
          alpha := 1.0;
        }
        isInvincible := false;
      }
    }

    /** The engine resumes InvincibilityFrames once its wait is over: `elapsed` grows by
        `blinkSpeed`; while it is below the duration the sprite blinks again, otherwise
        alpha returns to full and invincibility ends. */
    method ResumeInvincibility(now: real)
      requires Valid()
      modifies this
      ensures Valid()
      ensures if old(isInvincible) && now >= old(blinkResumeAt) then
                && blinkElapsed == old(blinkElapsed) + blinkSpeed
                && isInvincible == (blinkElapsed < invincibilityDuration)
                && (isInvincible ==> blinkResumeAt == now + blinkSpeed)
                && alpha == (if !hasSprite then old(alpha) else if isInvincible then Blink(old(alpha)) else 1.0)
                && currentHealth == old(currentHealth) && isKnockedBack == old(isKnockedBack)
                && knockbackEnds == old(knockbackEnds) && impulses == old(impulses) && dieCalls == old(dieCalls)
              else unchanged(this)
    {
      if isInvincible && now >= blinkResumeAt {
        blinkElapsed := blinkElapsed + blinkSpeed;
        if blinkElapsed < invincibilityDuration {
          if hasSprite {
            alpha := Blink(alpha);
          }
          blinks := blinks + 1;
          blinkResumeAt := now + blinkSpeed;
        } else {
          if hasSprite {
            alpha := 1.0;
          }
          isInvincible := false;
        }
      }
    }

    /** The engine resumes the ApplyKnockback coroutines whose wait is over; each clears
        the flag as it ends. */
    method ResumeKnockback(now: real)
      requires Valid()
      modifies this
      ensures Valid()
      ensures knockbackEnds == PendingEnds(old(knockbackEnds), now)
      ensures isKnockedBack == (old(isKnockedBack) && !AnyEnded(old(knockbackEnds), now))
      ensures currentHealth == old(currentHealth) && isInvincible == old(isInvincible) && alpha == old(alpha)
      ensures blinkElapsed == old(blinkElapsed) && blinkResumeAt == old(blinkResumeAt)
      ensures impulses == old(impulses) && dieCalls == old(dieCalls)
    {
      if AnyEnded(knockbackEnds, now) {
        isKnockedBack := false;
      } else {
        NoneEndedKeepsAll(knockbackEnds, now);
      }
      knockbackEnds := PendingEnds(knockbackEnds, now);
    }

    function IsInvincible(): bool
      reads this
    {
      isInvincible
    }

    function GetCurrentHealth(): real
      reads this
    {
      currentHealth
    }

    function IsKnockedBack(): bool
      reads this
    {
      isKnockedBack
    }
  }

  /** The invincibility loop runs a whole number of blinks: with a positive blink speed,
      the blink count of a running invincibility stays below
      `1 + invincibilityDuration / blinkSpeed`. */
  lemma BlinksBounded(h: PlayerHealth)
    requires h.Valid() && h.isInvincible && h.blinkSpeed > 0.0
    ensures (h.blinks - 1) as real < h.invincibilityDuration / h.blinkSpeed
  {
    // from Valid: (blinks - 1) * blinkSpeed == blinkElapsed < invincibilityDuration
  }
}
