/** The older enemy health (Assets/EnemyHealth.cs): every hit subtracts and starts a flash
    unless one is running; a hit that leaves health at or below zero calls Die at once.
    The hit direction is accepted and ignored. */
module LegacyEnemyHealth {
  import opened Common
  import EnemyHealth

  class LegacyEnemyHealth {
    const maxHealth: real
    const flashDuration: real
    const hasFlashMaterial: bool
    const hasOriginalMaterial: bool

    var currentHealth: real
    var isFlashing: bool
    var flashEndsAt: real
    var material: EnemyHealth.Material
    var color: Color
    /** How often Die has run (each run asks for the enemy to be destroyed). */
    var dieCalls: nat

    ghost predicate Valid()
      reads this
    {
      !isFlashing && hasOriginalMaterial ==> material == EnemyHealth.OriginalMaterial
    }

    constructor (maxHealth: real, flashDuration: real, hasFlashMaterial: bool, hasOriginalMaterial: bool, spriteColor: Color)
      ensures Valid()
      ensures this.maxHealth == maxHealth && this.flashDuration == flashDuration
      ensures this.hasFlashMaterial == hasFlashMaterial && this.hasOriginalMaterial == hasOriginalMaterial
      ensures currentHealth == maxHealth && !isFlashing && color == spriteColor && dieCalls == 0
    {
      this.maxHealth := maxHealth;
      this.flashDuration := flashDuration;
      this.hasFlashMaterial := hasFlashMaterial;
      this.hasOriginalMaterial := hasOriginalMaterial;
      currentHealth := maxHealth;
      isFlashing := false;
      flashEndsAt := 0.0;
      material := EnemyHealth.OriginalMaterial;
      color := spriteColor;
      dieCalls := 0;
    }

    /** TakeDamage: health drops by exactly `damage`, a flash starts unless one is running,
        and Die runs when health is at or below zero. Nothing depends on `hitDirection`. */
    method TakeDamage(damage: real, hitDirection: Vec2, now: real)
      requires Valid()
      modifies this
      ensures Valid()
      ensures currentHealth == old(currentHealth) - damage
      ensures isFlashing
      ensures !old(isFlashing) ==>
                && flashEndsAt == now + flashDuration
                && material == (if hasFlashMaterial then EnemyHealth.FlashMaterial else old(material))
                && color == (if hasFlashMaterial then old(color) else EnemyHealth.White)
      ensures old(isFlashing) ==> flashEndsAt == old(flashEndsAt) && material == old(material) && color == old(color)
      ensures dieCalls == old(dieCalls) + if currentHealth <= 0.0 then 1 else 0
    {
      currentHealth := currentHealth - damage;
      if !isFlashing {
        // DamageFlash, up to its wait.
        isFlashing := true;
        if hasFlashMaterial {
          material := EnemyHealth.FlashMaterial;
        } else {
          color := EnemyHealth.White;
        }
        flashEndsAt := now + flashDuration;
      }
      if currentHealth <= 0.0 {
        dieCalls := dieCalls + 1;
      }
    }

    /** The engine resumes DamageFlash once its wait is over. Once Die has run the enemy is
        destroyed, and the coroutine with it, so nothing happens any more. */
    method ResumeFlash(now: real)
      requires Valid()
      modifies this
      ensures Valid()
      ensures old(dieCalls) > 0 ==> unchanged(this)
      ensures if old(isFlashing) && now >= old(flashEndsAt) && old(dieCalls) == 0 then
                && !isFlashing
                && material == (if hasOriginalMaterial then EnemyHealth.OriginalMaterial else old(material))
                && color == (if hasOriginalMaterial then old(color) else EnemyHealth.White)
                && currentHealth == old(currentHealth) && dieCalls == old(dieCalls)
              else unchanged(this)
    {
      if isFlashing && now >= flashEndsAt && dieCalls == 0 {
        if hasOriginalMaterial {
          material := EnemyHealth.OriginalMaterial;
        } else {
          color := EnemyHealth.White;
        }
        isFlashing := false;
      }
    }
  }

  /** Without a death lock, two hits that each leave health at or below zero call Die twice. */
  method TwoFatalHits(h: LegacyEnemyHealth, now: real) returns (calls: nat)
    requires h.Valid() && h.currentHealth <= 0.0
    modifies h
    ensures calls == h.dieCalls - old(h.dieCalls) && calls == 2
  {
    var before := h.dieCalls;
    h.TakeDamage(1.0, Vec2(0.0, 0.0), now);
    h.TakeDamage(1.0, Vec2(0.0, 0.0), now);
    calls := h.dieCalls - before;
  }
}
