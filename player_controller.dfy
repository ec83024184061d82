/** The player's controller (Assets/PlayerController.cs): two-key horizontal movement
    resolved by the later key press, facing, a double jump counter reset on the ground,
    a dash with cooldown and duration, and the knocked-back input lock. */
module PlayerController {
  import opened Common
  import PlayerHealth

  const MaxJumps: int := 2
  const MeleeTrigger: string := "meleeAttack"
  const NeverDashed: real := -999.0

  /** A key-press time; `Never` is `float.NegativeInfinity`. */
  datatype Stamp = Never | At(t: real) {
    /** C#'s `>` on the two floats. */
    predicate Later(other: Stamp) {
      match (this, other)
      case (At(a), At(b)) => a > b
      case (At(_), Never) => true
      case (Never, _) => false
    }
  }

  /** The keys of one frame: pressed this frame (`...Down`) or held. */
  datatype Keys = Keys(aDown: bool, dDown: bool, aHeld: bool, dHeld: bool, spaceDown: bool, fire1Down: bool, fire3Down: bool)

  /** SmartMovement's decision: both keys held go to the one pressed strictly later, a
      tie to the left. */
  function MoveInput(aHeld: bool, dHeld: bool, lastA: Stamp, lastD: Stamp): (m: int)
    ensures m == 1 <==> dHeld && (!aHeld || lastD.Later(lastA))
    ensures m == -1 <==> aHeld && (!dHeld || !lastD.Later(lastA))
    ensures m == 0 <==> !aHeld && !dHeld
  {
    if aHeld && dHeld then (if lastD.Later(lastA) then 1 else -1)
    else if aHeld then -1
    else if dHeld then 1
    else 0
  }

  /** Holding both keys, pressing one of them makes it win. */
  lemma LatestPressWins(t: real, other: Stamp)
    requires other.Never? || other.t < t
    ensures MoveInput(true, true, other, At(t)) == 1
    ensures MoveInput(true, true, At(t), other) == -1
  {
  }

  /** The two-argument FlipPlayerSprite: the sprite faces the movement, and stays as it
      is when there is none. */
  function FlipToMovement(flipX: bool, moveInput: int): (f: bool)
    ensures moveInput == 1 ==> !f
    ensures moveInput == -1 ==> f
    ensures moveInput != 1 && moveInput != -1 ==> f == flipX
  {
    if moveInput == 1 && flipX then false
    else if moveInput == -1 && !flipX then true
    else flipX
  }

  /** The argument-less FlipPlayerSprite: pressing A faces left, otherwise pressing D faces right. */
  function FlipToKeys(flipX: bool, aDown: bool, dDown: bool): (f: bool)
    ensures aDown ==> f
    ensures !aDown && dDown ==> !f
    ensures !aDown && !dDown ==> f == flipX
  {
    var afterD := if dDown && flipX then false else flipX;
    if aDown && !afterD then true else afterD
  }

  class PlayerController {
    const moveSpeed: real
    const jumpForce: real
    const dashSpeed: real
    const dashDuration: real
    const dashCooldown: real
    /** The player's PlayerHealth, when it has one. */
    const playerHealth: PlayerHealth.PlayerHealth?

    var jumpCount: int
    var isDashing: bool
    var dashEndTime: real
    var lastDashTime: real
    var facingDirection: int
    var lastAPressedTime: Stamp
    var lastDPressedTime: Stamp
    var flipX: bool
    /** The Rigidbody's velocity as last written. */
    var velocity: Vec2
    var isMeleeAttack: bool
    var animatorTriggers: seq<string>

    ghost predicate Valid()
      reads this
    {
      && 0 <= jumpCount <= MaxJumps
      && (facingDirection == 1 || facingDirection == -1)
      && (isDashing ==> dashEndTime == lastDashTime + dashDuration)
    }

    constructor (moveSpeed: real, jumpForce: real, dashSpeed: real, dashDuration: real, dashCooldown: real,
                 playerHealth: PlayerHealth.PlayerHealth?, flipX: bool)
      ensures Valid()
      ensures this.moveSpeed == moveSpeed && this.jumpForce == jumpForce && this.dashSpeed == dashSpeed
      ensures this.dashDuration == dashDuration && this.dashCooldown == dashCooldown
      ensures this.playerHealth == playerHealth && this.flipX == flipX
      ensures jumpCount == MaxJumps && !isDashing && lastDashTime == NeverDashed && facingDirection == 1
      ensures lastAPressedTime == Never && lastDPressedTime == Never && animatorTriggers == []
    {
      this.moveSpeed := moveSpeed;
      this.jumpForce := jumpForce;
      this.dashSpeed := dashSpeed;
      this.dashDuration := dashDuration;
      this.dashCooldown := dashCooldown;
      this.playerHealth := playerHealth;
      this.flipX := flipX;
      jumpCount := MaxJumps;
      isDashing := false;
      dashEndTime := 0.0;
      lastDashTime := NeverDashed;
      facingDirection := 1;
      lastAPressedTime := Never;
      lastDPressedTime := Never;
      velocity := Vec2(0.0, 0.0);
      isMeleeAttack := false;
      animatorTriggers := [];
    }

    /** HandleMovement with SmartMovement: records the key presses, sets the horizontal
        velocity, turns the sprite, and faces the movement when there is one. */
    method HandleMovement(keys: Keys, now: real)
      requires Valid()
      modifies this
      ensures Valid()
      ensures lastAPressedTime == (if keys.aDown then At(now) else old(lastAPressedTime))
      ensures lastDPressedTime == (if keys.dDown then At(now) else old(lastDPressedTime))
      ensures var m := MoveInput(keys.aHeld, keys.dHeld, lastAPressedTime, lastDPressedTime);
        && velocity == Vec2(m as real * moveSpeed, old(velocity).y)
        && flipX == FlipToMovement(old(flipX), m)
        && facingDirection == (if m != 0 then m else old(facingDirection))
      ensures jumpCount == old(jumpCount) && isDashing == old(isDashing) && lastDashTime == old(lastDashTime)
      ensures dashEndTime == old(dashEndTime) && animatorTriggers == old(animatorTriggers) && isMeleeAttack == old(isMeleeAttack)
    {
      if keys.aDown {
        lastAPressedTime := At(now);
      }
      if keys.dDown {
        lastDPressedTime := At(now);
      }
      var m := MoveInput(keys.aHeld, keys.dHeld, lastAPressedTime, lastDPressedTime);
      velocity := Vec2(m as real * moveSpeed, velocity.y);
      flipX := FlipToMovement(flipX, m);
      if m != 0 {
        facingDirection := if m > 0 then 1 else -1;
      }
    }

    /** HandleJumping: a jump needs a jump left, and uses it up. */
    method HandleJumping(keys: Keys)
      requires Valid()
      modifies this
      ensures Valid()
      ensures if keys.spaceDown && old(jumpCount) > 0 then
                jumpCount == old(jumpCount) - 1 && velocity == Vec2(old(velocity).x, jumpForce)
              else jumpCount == old(jumpCount) && velocity == old(velocity)
      ensures isDashing == old(isDashing) && lastDashTime == old(lastDashTime) && dashEndTime == old(dashEndTime)
      ensures facingDirection == old(facingDirection) && flipX == old(flipX)
      ensures lastAPressedTime == old(lastAPressedTime) && lastDPressedTime == old(lastDPressedTime)
      ensures animatorTriggers == old(animatorTriggers) && isMeleeAttack == old(isMeleeAttack)
    {
      if keys.spaceDown && jumpCount > 0 {
        velocity := Vec2(velocity.x, jumpForce);
        jumpCount := jumpCount - 1;
      }
    }

    /** HandleDash: a dash needs no dash running and the cooldown since the last one over;
        it faces the held key, then Dash starts (and ends at once for a non-positive
        duration). */
    method HandleDash(keys: Keys, now: real)
      requires Valid()
      modifies this
      ensures Valid()
      ensures if !old(isDashing) && keys.fire3Down && now >= old(lastDashTime) + dashCooldown then
                && facingDirection == (if keys.aHeld then -1 else if keys.dHeld then 1 else old(facingDirection))
                && lastDashTime == now && dashEndTime == now + dashDuration
                && isDashing == (dashDuration > 0.0)
                && velocity == (if isDashing then Vec2(facingDirection as real * dashSpeed, old(velocity).y) else old(velocity))
              else unchanged(this)
      ensures jumpCount == old(jumpCount) && flipX == old(flipX)
      ensures lastAPressedTime == old(lastAPressedTime) && lastDPressedTime == old(lastDPressedTime)
      ensures animatorTriggers == old(animatorTriggers) && isMeleeAttack == old(isMeleeAttack)
    {
      if !isDashing && keys.fire3Down && now >= lastDashTime + dashCooldown {
        if keys.aHeld {
          facingDirection := -1;
        } else if keys.dHeld {
          facingDirection := 1;
        }
        isDashing := true;
        lastDashTime := now;
        dashEndTime := now + dashDuration;
        DashFrame(now);
      }
    }

    /** One pass of Dash's loop condition: before the end time the dash velocity is set
        again, from then on the dash is over. */
    method DashFrame(now: real)
      requires Valid() && isDashing
      modifies this
      ensures Valid()
      ensures if now < old(dashEndTime) then isDashing && velocity == Vec2(facingDirection as real * dashSpeed, old(velocity).y)
              else !isDashing && velocity == old(velocity)
      ensures jumpCount == old(jumpCount) && facingDirection == old(facingDirection) && flipX == old(flipX)
      ensures lastDashTime == old(lastDashTime) && dashEndTime == old(dashEndTime)
      ensures lastAPressedTime == old(lastAPressedTime) && lastDPressedTime == old(lastDPressedTime)
      ensures animatorTriggers == old(animatorTriggers) && isMeleeAttack == old(isMeleeAttack)
    {
      if now < dashEndTime {
        velocity := Vec2(facingDirection as real * dashSpeed, velocity.y);
      } else {
        isDashing := false;
      }
    }

    /** The engine resumes Dash on the next frame. */
    method ResumeDash(now: real)
      requires Valid()
      modifies this
      ensures Valid()
      ensures !old(isDashing) ==> unchanged(this)
      ensures old(isDashing) ==>
                if now < dashEndTime then isDashing && velocity == Vec2(facingDirection as real * dashSpeed, old(velocity).y)
                else !isDashing && velocity == old(velocity)
      ensures jumpCount == old(jumpCount) && facingDirection == old(facingDirection) && flipX == old(flipX)
      ensures lastDashTime == old(lastDashTime) && dashEndTime == old(dashEndTime)
      ensures lastAPressedTime == old(lastAPressedTime) && lastDPressedTime == old(lastDPressedTime)
      ensures animatorTriggers == old(animatorTriggers) && isMeleeAttack == old(isMeleeAttack)
    {
      if isDashing {
        DashFrame(now);
      }
    }

    /** OnCollisionEnter2D: touching the ground gives back every jump. */
    method OnCollisionEnter2D(tag: string)
      requires Valid()
      modifies this
      ensures Valid()
      ensures jumpCount == if tag == GroundTag then MaxJumps else old(jumpCount)
      ensures isDashing == old(isDashing) && velocity == old(velocity) && facingDirection == old(facingDirection)
      ensures flipX == old(flipX) && lastDashTime == old(lastDashTime) && dashEndTime == old(dashEndTime)
      ensures lastAPressedTime == old(lastAPressedTime) && lastDPressedTime == old(lastDPressedTime)
      ensures animatorTriggers == old(animatorTriggers) && isMeleeAttack == old(isMeleeAttack)
    {
      if tag == GroundTag {
        jumpCount := MaxJumps;
      }
    }

    /** The part of Update that only runs when no dash is running: HandleMovement, then
        HandleJumping. */
    method Steer(keys: Keys, now: real)
      requires Valid()
      modifies this
      ensures Valid()
      ensures old(isDashing) ==> unchanged(this)
      ensures !old(isDashing) ==>
                var lastA := if keys.aDown then At(now) else old(lastAPressedTime);
                var lastD := if keys.dDown then At(now) else old(lastDPressedTime);
                var m := MoveInput(keys.aHeld, keys.dHeld, lastA, lastD);
                var jumps := keys.spaceDown && old(jumpCount) > 0;
                && lastAPressedTime == lastA && lastDPressedTime == lastD
                && jumpCount == (if jumps then old(jumpCount) - 1 else old(jumpCount))
                && velocity == Vec2(m as real * moveSpeed, if jumps then jumpForce else old(velocity).y)
                && flipX == FlipToMovement(old(flipX), m)
                && facingDirection == (if m != 0 then m else old(facingDirection))
                && !isDashing && lastDashTime == old(lastDashTime) && dashEndTime == old(dashEndTime)
                && animatorTriggers == old(animatorTriggers) && isMeleeAttack == old(isMeleeAttack)
    {
      if !isDashing {
        HandleMovement(keys, now);
        HandleJumping(keys);
      }
    }

    /** The part of Update that always runs: the key-press sprite flip, the dash check and
        DoAttack. */
    method FinishFrame(keys: Keys, now: real)
      requires Valid()
      modifies this
      ensures Valid()
      ensures flipX == FlipToKeys(old(flipX), keys.aDown, keys.dDown)
      ensures if !old(isDashing) && keys.fire3Down && now >= old(lastDashTime) + dashCooldown then
                && facingDirection == (if keys.aHeld then -1 else if keys.dHeld then 1 else old(facingDirection))
                && lastDashTime == now && dashEndTime == now + dashDuration
                && isDashing == (dashDuration > 0.0)
                && velocity == (if isDashing then Vec2(facingDirection as real * dashSpeed, old(velocity).y) else old(velocity))
              else
                && facingDirection == old(facingDirection) && isDashing == old(isDashing)
                && lastDashTime == old(lastDashTime) && dashEndTime == old(dashEndTime)
                && velocity == old(velocity)
      ensures jumpCount == old(jumpCount)
      ensures lastAPressedTime == old(lastAPressedTime) && lastDPressedTime == old(lastDPressedTime)
      ensures animatorTriggers == old(animatorTriggers) + (if keys.fire1Down then [MeleeTrigger] else [])
      ensures isMeleeAttack == (old(isMeleeAttack) || keys.fire1Down)
    {
      flipX := FlipToKeys(flipX, keys.aDown, keys.dDown);
      HandleDash(keys, now);
      if keys.fire1Down {
        animatorTriggers := animatorTriggers + [MeleeTrigger];
        isMeleeAttack := true;
      }
    }

    /** Update: nothing at all while knocked back. Otherwise movement and jumping unless
        dashing, the key-press sprite flip, the dash check and the melee trigger. */
    method Update(keys: Keys, now: real)
      requires Valid()
      modifies this
      ensures Valid()
      ensures playerHealth != null && playerHealth.isKnockedBack ==> unchanged(this)
      ensures !(playerHealth != null && playerHealth.isKnockedBack) ==>
                && animatorTriggers == old(animatorTriggers) + (if keys.fire1Down then [MeleeTrigger] else [])
                && isMeleeAttack == (old(isMeleeAttack) || keys.fire1Down)
      // During a dash no movement or jump is handled: no key press is stamped, the
      // velocity, the jumps and the facing stay as they were, and no new dash starts;
      // only the key-press flip runs.
      ensures !(playerHealth != null && playerHealth.isKnockedBack) && old(isDashing) ==>
                && velocity == old(velocity) && jumpCount == old(jumpCount) && facingDirection == old(facingDirection)
                && lastAPressedTime == old(lastAPressedTime) && lastDPressedTime == old(lastDPressedTime)
                && isDashing && lastDashTime == old(lastDashTime) && dashEndTime == old(dashEndTime)
                && flipX == FlipToKeys(old(flipX), keys.aDown, keys.dDown)
      // Otherwise: movement and jumping, the key-press flip over the movement flip, and
      // the dash check with the facing that movement left.
      ensures !(playerHealth != null && playerHealth.isKnockedBack) && !old(isDashing) ==>
                var lastA := if keys.aDown then At(now) else old(lastAPressedTime);
                var lastD := if keys.dDown then At(now) else old(lastDPressedTime);
                var m := MoveInput(keys.aHeld, keys.dHeld, lastA, lastD);
                var jumps := keys.spaceDown && old(jumpCount) > 0;
                var v := Vec2(m as real * moveSpeed, if jumps then jumpForce else old(velocity).y);
                var facing := if m != 0 then m else old(facingDirection);
                && lastAPressedTime == lastA && lastDPressedTime == lastD
                && jumpCount == (if jumps then old(jumpCount) - 1 else old(jumpCount))
                && flipX == FlipToKeys(FlipToMovement(old(flipX), m), keys.aDown, keys.dDown)
                && if keys.fire3Down && now >= old(lastDashTime) + dashCooldown then
                     && facingDirection == (if keys.aHeld then -1 else if keys.dHeld then 1 else facing)
                     && lastDashTime == now && dashEndTime == now + dashDuration
                     && isDashing == (dashDuration > 0.0)
                     && velocity == (if isDashing then Vec2(facingDirection as real * dashSpeed, v.y) else v)
                   else
                     && facingDirection == facing && !isDashing
                     && lastDashTime == old(lastDashTime) && dashEndTime == old(dashEndTime)
                     && velocity == v
    {
      if playerHealth != null && playerHealth.IsKnockedBack() {
        return;
      }
      Steer(keys, now);
      FinishFrame(keys, now);
    }
  }
}
