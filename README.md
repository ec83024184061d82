# Combat timing and resolution of a Unity 2D brawler, in Dafny

This project models the combat scripts of a 2D action game written as Unity C# components:

- the player's parry window and the weight tie-break that decides who is knocked back;
- the enemy attack sequencer, with its entry guard, AI on/off, telegraph, animation trigger, recovery wait and cooldown write;
- the enemy's impact loop, which offers each Player collider a parry and otherwise damages it;
- the four attack telegraph variants;
- player health, with an invincibility gate, a blink loop, knockback and death;
- enemy health, with flash, shake, a horizontal death knockback and delayed death;
- weight categories;
- the player's own attack, which mirrors an offset and damages what it hits;
- the player controller, with two-key movement, a double jump and a dash;
- the older (legacy) enemy attack and enemy health scripts. They live in the same repository under the same class names, so each gets its own module.

## How the model is built

- **Time** is explicit. `now` is the scaled game time; `realNow` is the unscaled time that `WaitForSecondsRealtime` measures.
- **Coroutines**: every `yield return new WaitForSeconds(...)` is stored as the time at which the coroutine may go on. A `Resume...` method stands for the engine resuming that coroutine on a later frame. A coroutine that can run several times at once (parry success effects, stuns, knockbacks, delayed deaths) is kept as a sequence of its pending wake-up times.
- **Scripts become classes**: a script whose methods update its fields is a `class` with the same fields. Its methods `modify` them and state the whole new state, and a `Valid()` predicate names what stays true between frames. Optional components are `Option`s, `has...` constants or nullable references.
- **Overlap queries** (`Physics2D.OverlapBoxAll`) become input sequences of collider snapshots. Animator triggers become an appended log.
- **Impulses** are logged as their direction before normalisation, so only signs and zero components are stated.
- **Telegraph coroutines** are written out as step lists (`Tint`, `Wait`, `Trigger`, `SpawnIndicator`, `DestroyIndicator`). The `AttackTelegraph` class runs the list against time. Lemmas about the lists carry the timing and colour properties.
- **Impact loops** are module-level methods. Each returns the calls it makes (`TryParry`, `TakeDamage`) and is proved equal to a recursive specification function. Lemmas about that function state which colliders are damaged and when the loop stops.

Modules: `Common` (shared values) plus one module per script:

| module | script |
|---|---|
| `ParrySystem` | Assets/Scripts/ParrySystem.cs |
| `EnemyAttack` | Assets/Scripts/EnemyAttack.cs |
| `EnemyTelegraph` | Assets/Scripts/EnemyTelegraph.cs |
| `PlayerHealth` | Assets/Scripts/PlayerHealth.cs |
| `EnemyHealth` | Assets/Scripts/EnemyHealth.cs |
| `EnemyWeight` | Assets/Scripts/EnemyWeight.cs |
| `AnimationEventFunctionCall` | Assets/Scripts/AnimationEventFunctionCall.cs |
| `PlayerController` | Assets/PlayerController.cs |
| `LegacyEnemyAttack` | Assets/EnemyAttack.cs |
| `LegacyEnemyHealth` | Assets/EnemyHealth.cs |

### Behaviour worth noting

- **No death lock.** Neither enemy health script ignores damage after death. Every hit subtracts, and every fatal hit schedules (or calls) `Die` again. `LegacyEnemyHealth.TwoFatalHits` shows two fatal hits calling `Die` twice.
- **Invincibility comes after every hit.** `PlayerHealth.TakeDamage` starts invincibility after a fatal hit too, not only after a non-fatal one.
- **Parry tie.** On equal weights the enemy is knocked back: the comparison is a strict `>`.
- **No impact timeout.** The impact happens only when the animation event calls `PerformAttackHit`. There is no fallback timeout.
- **Indicator release.** The attack indicator is destroyed only when the indicator telegraph completes normally; nothing releases it on cancellation.

## Model

| member | source | states |
|---|---|---|
| Common.WithinRangeIsDistance | Assets/Scripts/EnemyAttack.cs:38-41 | the squared-distance range test agrees with `Vector2.Distance(a, b) <= range` |
| Common.PendingEnds | Assets/Scripts/PlayerHealth.cs:74-76 | the coroutines still waiting after a resumption are exactly those whose end time is in the future |
| Common.EndedAndPending | Assets/Scripts/EnemyHealth.cs:172-175 | a resumption splits the waiting coroutines into ended and pending ones, losing none; some ended iff the count of ended ones is positive |
| EnemyWeight.Categorize | Assets/Scripts/EnemyWeight.cs:16-21 | Light iff weight < 45, Medium iff 45 <= weight < 65, Heavy iff weight >= 65 |
| EnemyWeight.CategorizeMonotone | Assets/Scripts/EnemyWeight.cs:16-21 | a heavier weight never gets a lighter category |
| EnemyWeight.NamesDistinct | Assets/Scripts/EnemyWeight.cs:17-21 | the stored category strings are equal iff the categories are |
| EnemyWeight.DefaultIsMedium | Assets/Scripts/EnemyWeight.cs:7-19 | the default weight 50 is "Medium" |
| ParrySystem.Resolve | Assets/Scripts/ParrySystem.cs:83-116 | not parried iff the window is closed; when parried, the player is knocked back iff the enemy weight (50 when it has no EnemyWeight) is strictly greater than the player's |
| ParrySystem.TieKnocksBackEnemy | Assets/Scripts/ParrySystem.cs:97-108 | on equal weights the parry succeeds and the enemy is knocked back |
| ParrySystem.MissingWeightLosesToDefault | Assets/Scripts/ParrySystem.cs:93-108 | an attacker without EnemyWeight loses against the default player weight 50 |
| ParrySystem.PlayerKnockbackDirection | Assets/Scripts/ParrySystem.cs:144-152 | the player's impulse keeps the attack's horizontal part and points upward |
| ParrySystem.EnemyKnockbackDirection | Assets/Scripts/ParrySystem.cs:157-166 | the enemy's impulse reverses the attack's horizontal part and points upward |
| ParrySystem.FreezeSurvivesStep | Assets/Scripts/ParrySystem.cs:118-133 | a freeze whose real-time wait is not over survives a resumption step |
| ParrySystem.NoFreezeMeansNoStepFreeze | Assets/Scripts/ParrySystem.cs:118-133 | a resumption step never creates a freeze |
| ParrySystem.PendingStuns | Assets/Scripts/ParrySystem.cs:168-177 | the stuns still waiting are exactly those whose 0.5 s wait is not over |
| ParrySystem.ParrySystem.constructor | Assets/Scripts/ParrySystem.cs:27-42 | not parrying, parry available, `lastParryTime` -999, time scale 1, sprite colour recorded |
| ParrySystem.ParrySystem.HandleParryInput | Assets/Scripts/ParrySystem.cs:49-69 | a parry starts iff the key is pressed, a parry is allowed and the cooldown has passed; starting sets `isParrying`, clears `canParry`, records `now` and fires the "parry" trigger; otherwise nothing changes |
| ParrySystem.ParrySystem.ResumeParry | Assets/Scripts/ParrySystem.cs:71-79 | the window closes after `parryWindow`; the parry becomes available after a further `parryCooldown - parryWindow`, so never before `parryCooldown` after the start (kept by `Valid`) |
| ParrySystem.ParrySystem.TryParry | Assets/Scripts/ParrySystem.cs:83-180 | returns the decision of `Resolve`; never changes the parry timing; a success freezes time, tints the sprite and starts the real-time freeze wait; only the loser gets an impulse; a knocked-back enemy with a Rigidbody and AI has its AI disabled and a 0.5 s stun scheduled |
| ParrySystem.ParrySystem.KnockbackEnemy | Assets/Scripts/ParrySystem.cs:157-173 | the enemy gets the reversed-direction impulse only when it has a Rigidbody; its AI is disabled and a 0.5 s stun scheduled only when it has both a Rigidbody and an EnemyAI; the parry state is untouched |
| ParrySystem.ParrySystem.StartSuccessEffects | Assets/Scripts/ParrySystem.cs:118-127 | time scale 0, the parry colour when there is a sprite, and a freeze wait of `freezeDuration` in real time; nothing else changes |
| ParrySystem.ParrySystem.ResumeEffects | Assets/Scripts/ParrySystem.cs:129-141 | a thawed freeze sets the time scale back to 1, an ended tint restores the original colour, and the time scale is 1 whenever no freeze is pending |
| ParrySystem.ParrySystem.ResumeStuns | Assets/Scripts/ParrySystem.cs:173-177 | a stunned enemy's AI is re-enabled once its stun is over, and only if the enemy still exists |
| EnemyTelegraph.FlashLoopSplit | Assets/Scripts/EnemyTelegraph.cs:79-85 | the flash loop has four steps per iteration and splits into its first k iterations and the rest |
| EnemyTelegraph.FlashLoopTotal | Assets/Scripts/EnemyTelegraph.cs:77-85 | the flash loop waits `2 * flashCount * interval` in total |
| EnemyTelegraph.FlashTakesDuration | Assets/Scripts/EnemyTelegraph.cs:77-85 | with a sprite and at least one flash, the waits of `telegraphDuration / (flashCount * 2)` add up to `telegraphDuration` |
| EnemyTelegraph.FlashIterationsRestore | Assets/Scripts/EnemyTelegraph.cs:81-84 | every completed flash iteration leaves the sprite in its original colour |
| EnemyTelegraph.FlashWithoutSprite | Assets/Scripts/EnemyTelegraph.cs:76 | without a sprite renderer the flash does nothing and takes no time |
| EnemyTelegraph.IndicatorWithoutPrefab | Assets/Scripts/EnemyTelegraph.cs:98-102 | without a prefab the indicator variant only waits `telegraphDuration` and spawns nothing |
| EnemyTelegraph.IndicatorReleased | Assets/Scripts/EnemyTelegraph.cs:104-129 | with a prefab the indicator is spawned first and destroyed last, so none is left when the variant completes |
| EnemyTelegraph.WindupTriggersThenWaits | Assets/Scripts/EnemyTelegraph.cs:88-94 | with an animator the windup fires its trigger, then waits `telegraphDuration` |
| EnemyTelegraph.CombinedTotal | Assets/Scripts/EnemyTelegraph.cs:63-68 | Combined runs flash, indicator and windup one after another, so it takes the sum of their times |
| EnemyTelegraph.PlanDuration | Assets/Scripts/EnemyTelegraph.cs:45-130 | the windup, and a flash with a sprite and at least one flash, wait exactly `telegraphDuration` in all; the indicator waits `telegraphDuration` without a prefab, and with one the positive part of `telegraphDuration` plus the 0.15 s fade when it has a sprite |
| EnemyTelegraph.CompletedColor | Assets/Scripts/EnemyTelegraph.cs:45-86 | once a telegraph has run to the end, the sprite is in its original colour after any flashing, and otherwise in the colour it started with |
| EnemyTelegraph.CompletedIndicator | Assets/Scripts/EnemyTelegraph.cs:96-130 | once an indicator or combined telegraph with a prefab has completed, no indicator exists |
| EnemyTelegraph.RunSteps | Assets/Scripts/EnemyTelegraph.cs:45-72 | running the coroutine's steps up to its next wait gives the colour, triggers and indicator that the steps so far determine |
| EnemyTelegraph.AttackTelegraph.constructor | Assets/Scripts/EnemyTelegraph.cs:36-43 | inactive, in the sprite's colour, no indicator |
| EnemyTelegraph.AttackTelegraph.RunToNextWait | Assets/Scripts/EnemyTelegraph.cs:45-72 | one frame of the coroutine: it stops at the next wait, or becomes inactive at the end |
| EnemyTelegraph.AttackTelegraph.ShowTelegraph | Assets/Scripts/EnemyTelegraph.cs:45-72 | starts the configured variant's steps at `now`, active until they are done, and over at once only when they wait for nothing at all; the colour, triggers and indicator are those of the steps before the first wait, which ends after its own length; the indicator is placed at position + `indicatorOffset` |
| EnemyTelegraph.AttackTelegraph.Start | Assets/Scripts/EnemyTelegraph.cs:45-72 | the same opening for any step list: the steps before the first wait run, and `Valid` is set up with the start time |
| EnemyTelegraph.AttackTelegraph.RunEndsValid | Assets/Scripts/EnemyTelegraph.cs:45-72 | after a run to the next wait begun no earlier than the waits so far after the start, `Valid` holds, including that the current wait ends no earlier than all waits up to it after the start |
| EnemyTelegraph.AttackTelegraph.Resume | Assets/Scripts/EnemyTelegraph.cs:45-72 | once the current wait is over, runs on to the next wait, which then ends after its own length; when inactive, the colour, triggers and indicator are those of the completed variant; a telegraph that finishes does so no earlier than the plan's total wait after it started (`Valid` keeps every wait's end at least the waits up to it after the start) |
| EnemyAttack.HitboxCentre | Assets/Scripts/EnemyAttack.cs:92-96 | the hitbox centre is offset by `attackOffset.y` vertically and by `attackOffset.x` horizontally, to the left iff the sprite is flipped (for a positive offset) |
| EnemyAttack.HitboxMirrors | Assets/Scripts/EnemyAttack.cs:93-96 | flipping the sprite reflects the hitbox through the enemy's vertical axis |
| EnemyAttack.CallsAt | Assets/Scripts/EnemyAttack.cs:101-130 | every call made for one collider concerns that collider |
| EnemyAttack.ResolveHits | Assets/Scripts/EnemyAttack.cs:101-131 | the foreach loop with its early return makes exactly the calls `HitsFrom` describes |
| EnemyAttack.CallsInRange | Assets/Scripts/EnemyAttack.cs:101-103 | only Player-tagged colliders are offered a parry or damaged |
| EnemyAttack.CallsInOrder | Assets/Scripts/EnemyAttack.cs:101-131 | the colliders are handled in list order |
| EnemyAttack.DamageCallsAreExact | Assets/Scripts/EnemyAttack.cs:124-129 | every damage call deals exactly `attackDamage`, towards a Player collider that has health, is not invincible and did not parry |
| EnemyAttack.ParryEndsImpact | Assets/Scripts/EnemyAttack.cs:115-121 | the first successful parry is the last call: that collider and every later one take no damage |
| EnemyAttack.DamagedBeforeFirstParry | Assets/Scripts/EnemyAttack.cs:101-131 | for `p` the first collider whose parry succeeds (or the end of the list), and distinct objects before it, exactly the Player colliders before `p` with health that are not invincible are damaged, in order; neither the parrying collider nor any later one is damaged |
| EnemyAttack.EnemyAttack.constructor | Assets/Scripts/EnemyAttack.cs:17-32 | not attacking, `lastAttackTime` -999 |
| EnemyAttack.EnemyAttack.FireAttack | Assets/Scripts/EnemyAttack.cs:65-72 | after the telegraph: the "Attack1" trigger, then the 0.5 s recovery wait |
| EnemyAttack.EnemyAttack.Update | Assets/Scripts/EnemyAttack.cs:34-63 | a sequence starts iff the player exists, none is running, the player is within range and the cooldown is over; it sets `isAttacking`, disables the AI and starts the telegraph now, with the colour, triggers, indicator and first wait its opening steps give (`TelegraphOpened`); Attack1 fires at once only when the telegraph is already over, which needs a plan that waits for nothing; otherwise nothing changes |
| EnemyAttack.EnemyAttack.Resume | Assets/Scripts/EnemyAttack.cs:59-85 | Attack1 fires only once the telegraph is no longer active, and so no earlier than the telegraph plan's total wait (see `EnemyTelegraph.PlanDuration`) after the telegraph started, since Resume keeps the telegraph's plan and start time; the cooldown is written after the recovery wait, then the AI is re-enabled and `isAttacking` cleared; a destroyed enemy does nothing; sequences never overlap (kept by `Valid`) |
| EnemyAttack.EnemyAttack.PerformAttackHit | Assets/Scripts/EnemyAttack.cs:88-131 | nothing without a sprite renderer; otherwise the mirrored hitbox and the calls of the parry-then-damage loop |
| PlayerHealth.Blink | Assets/Scripts/PlayerHealth.cs:89-91 | a blink dims full alpha to 0.4 and makes any other alpha full |
| PlayerHealth.BlinksAlternate | Assets/Scripts/PlayerHealth.cs:85-96 | from full alpha the blinks alternate dim, full, dim, ... |
| PlayerHealth.BlinksSettle | Assets/Scripts/PlayerHealth.cs:85-96 | after one blink the alpha is full or dim, and it repeats every two blinks |
| PlayerHealth.BlinksBounded | Assets/Scripts/PlayerHealth.cs:85-96 | in every valid PlayerHealth whose invincibility is running with a positive `blinkSpeed`, the blinks so far number fewer than `1 + invincibilityDuration / blinkSpeed` |
| PlayerHealth.KnockbackDirection | Assets/Scripts/PlayerHealth.cs:62 | the knockback keeps the hit's horizontal part and has a positive vertical part |
| PlayerHealth.PlayerHealth.constructor | Assets/Scripts/PlayerHealth.cs:25-35 | full health, neither invincible nor knocked back |
| PlayerHealth.PlayerHealth.TakeDamage | Assets/Scripts/PlayerHealth.cs:37-55 | while invincible nothing changes; otherwise health drops by exactly `damage`, a knockback starts when there is a Rigidbody, invincibility starts at once and the first blink happens, and Die runs iff health is at or below 0 |
| PlayerHealth.PlayerHealth.StartKnockback | Assets/Scripts/PlayerHealth.cs:57-74 | sets `isKnockedBack`, applies the impulse and schedules its end after `knockbackDuration` |
| PlayerHealth.PlayerHealth.StartInvincibility | Assets/Scripts/PlayerHealth.cs:80-94 | sets `isInvincible` and blinks once, or ends at once with alpha 1 for a non-positive duration |
| PlayerHealth.PlayerHealth.ResumeInvincibility | Assets/Scripts/PlayerHealth.cs:94-106 | `elapsed` grows by `blinkSpeed`; below the duration the sprite blinks again, otherwise alpha becomes 1 and invincibility ends |
| PlayerHealth.PlayerHealth.ResumeKnockback | Assets/Scripts/PlayerHealth.cs:74-76 | an ended knockback clears `isKnockedBack`; the pending ones stay |
| EnemyHealth.DeathKnockbackDirection | Assets/Scripts/EnemyHealth.cs:78 | the death impulse has zero vertical part and the sign of the hit's horizontal part |
| EnemyHealth.EnemyHealth.constructor | Assets/Scripts/EnemyHealth.cs:34-51 | full health, not flashing, not shaking, sprite in place |
| EnemyHealth.EnemyHealth.TakeDamage | Assets/Scripts/EnemyHealth.cs:53-85 | health always drops by exactly `damage`; a running flash or shake is not restarted; only a hit that leaves health at or below 0 applies an impulse (horizontal only), disables the AI and schedules Die after `deathDelay` |
| EnemyHealth.EnemyHealth.StartFlash | Assets/Scripts/EnemyHealth.cs:87-102 | the flash material, or white without one, until `flashDuration` has passed |
| EnemyHealth.EnemyHealth.StartShake | Assets/Scripts/EnemyHealth.cs:140-155 | the shake starts and its first frame moves the sprite, or it ends at once |
| EnemyHealth.EnemyHealth.ShakeFrame | Assets/Scripts/EnemyHealth.cs:145-159 | below the duration the sprite is moved and `elapsed` grows by the frame time; otherwise the sprite returns to its original position and the shake ends |
| EnemyHealth.EnemyHealth.ResumeShake | Assets/Scripts/EnemyHealth.cs:145-159 | the next shake frame while the enemy exists, and no change once it is destroyed; the sprite is at its original position whenever no shake is running (kept by `Valid`); flash, health and death state are untouched |
| EnemyHealth.EnemyHealth.ResumeFlash | Assets/Scripts/EnemyHealth.cs:102-115 | after the wait, and only while the enemy exists, the original material (or white) returns and the flash ends; otherwise nothing changes |
| EnemyHealth.EnemyHealth.ResumeDeaths | Assets/Scripts/EnemyHealth.cs:162-176 | while the enemy exists, every delayed death whose wait is over calls Die, which destroys the enemy, and the others keep waiting; a destroyed enemy changes nothing; flash, shake and health state are untouched and `Valid` is kept. Together with ResumeShake and ResumeFlash this means a destroyed enemy runs no coroutine steps |
| LegacyEnemyHealth.LegacyEnemyHealth.constructor | Assets/EnemyHealth.cs:26-42 | full health, not flashing |
| LegacyEnemyHealth.LegacyEnemyHealth.TakeDamage | Assets/EnemyHealth.cs:44-64 | health drops by exactly `damage`; a running flash is not restarted; Die runs iff health is at or below 0; the hit direction has no effect |
| LegacyEnemyHealth.LegacyEnemyHealth.ResumeFlash | Assets/EnemyHealth.cs:81-94 | after the wait, and only while Die has not run, the original material (or white) returns and the flash ends; otherwise nothing changes |
| LegacyEnemyHealth.TwoFatalHits | Assets/EnemyHealth.cs:44-64 | without a death lock, two fatal hits call Die twice |
| LegacyEnemyAttack.HitboxCentre | Assets/EnemyAttack.cs:69-74 | the hitbox is the magnitude of `attackOffsetX` to the left when flipped and to the right otherwise, and `attackOffsetY` up |
| LegacyEnemyAttack.HitboxVersionsAgree | Assets/EnemyAttack.cs:72 | the newer script's hitbox equals this one for a non-negative offset and is mirrored for a negative one |
| LegacyEnemyAttack.DamageAll | Assets/EnemyAttack.cs:79-96 | the foreach loop makes exactly the calls `CallsFrom` describes |
| LegacyEnemyAttack.DamagesEveryPlayer | Assets/EnemyAttack.cs:79-96 | every Player collider with health, and only those, is damaged once by `attackDamage` towards it, in order, with no parry check and no early exit |
| LegacyEnemyAttack.LegacyEnemyAttack.constructor | Assets/EnemyAttack.cs:5-35 | not attacking, `lastAttackTime` -999 |
| LegacyEnemyAttack.LegacyEnemyAttack.PerformAttackHit | Assets/EnemyAttack.cs:67-99 | the hitbox and the damage calls, then `isAttacking` is false; without a sprite renderer it fails before either |
| LegacyEnemyAttack.LegacyEnemyAttack.Attack | Assets/EnemyAttack.cs:50-64 | `lastAttackTime` is set at the start, the "attack" trigger fires and the hit happens at once |
| LegacyEnemyAttack.LegacyEnemyAttack.Update | Assets/EnemyAttack.cs:37-48 | attacks iff the player exists, is within range and the cooldown since the last start is over, with no `isAttacking` guard |
| AnimationEventFunctionCall.MirrorOffset | Assets/Scripts/AnimationEventFunctionCall.cs:22 | the mirrored offset keeps its magnitude and is negative iff the sprite is flipped (for a non-zero offset) |
| AnimationEventFunctionCall.MirrorIdempotent | Assets/Scripts/AnimationEventFunctionCall.cs:22 | mirroring again with the same flip changes nothing |
| AnimationEventFunctionCall.LastFlipDecides | Assets/Scripts/AnimationEventFunctionCall.cs:22 | after any run of attacks the offset depends only on the last attack's flip |
| AnimationEventFunctionCall.AttackArea | Assets/Scripts/AnimationEventFunctionCall.cs:20-25 | the attack area is the position moved by (`offSetX`, `offSetY`) |
| AnimationEventFunctionCall.DamageAll | Assets/Scripts/AnimationEventFunctionCall.cs:29-47 | the foreach loop makes exactly the calls `CallsFrom` describes |
| AnimationEventFunctionCall.DamagesEveryEnemy | Assets/Scripts/AnimationEventFunctionCall.cs:29-47 | every collider with EnemyHealth, and only those, takes `attackMultiplier * attackNum` once, towards it, in order; the loop never exits early |
| AnimationEventFunctionCall.AnimationEventFunctionCall.constructor | Assets/Scripts/AnimationEventFunctionCall.cs:5-9 | the configured multiplier and offsets |
| AnimationEventFunctionCall.AnimationEventFunctionCall.OnAttacking | Assets/Scripts/AnimationEventFunctionCall.cs:18-48 | stores the mirrored offset and the attack area, and damages every collider there that has EnemyHealth |
| PlayerController.MoveInput | Assets/PlayerController.cs:79-97 | with both keys held, 1 iff D was pressed strictly later than A, else -1; A alone -1, D alone 1, neither 0 |
| PlayerController.LatestPressWins | Assets/PlayerController.cs:83-90 | holding both keys, the one just pressed wins |
| PlayerController.FlipToMovement | Assets/PlayerController.cs:140-146 | the sprite faces the movement, and is left unchanged without one |
| PlayerController.FlipToKeys | Assets/PlayerController.cs:148-154 | pressing A faces left; otherwise pressing D faces right |
| PlayerController.PlayerController.constructor | Assets/PlayerController.cs:11-42 | all jumps available, not dashing, `lastDashTime` -999, facing right, no key pressed yet |
| PlayerController.PlayerController.HandleMovement | Assets/PlayerController.cs:66-97 | records the key presses, sets the horizontal velocity to `moveInput * moveSpeed`, and turns the sprite and facing only when `moveInput != 0` |
| PlayerController.PlayerController.HandleJumping | Assets/PlayerController.cs:110-117 | a jump happens iff Space is pressed with a jump left, and uses one up, so `0 <= jumpCount <= 2` always holds (kept by `Valid`) |
| PlayerController.PlayerController.HandleDash | Assets/PlayerController.cs:99-125 | a dash starts iff none is running, Fire3 is pressed and the cooldown is over; it faces the held key, records `now` and ends after `dashDuration` |
| PlayerController.PlayerController.DashFrame | Assets/PlayerController.cs:125-131 | before the end time the dash velocity is set again; from then on the dash is over |
| PlayerController.PlayerController.ResumeDash | Assets/PlayerController.cs:125-131 | `isDashing` clears once `now >= dashEndTime`; until then the dash velocity is set again; nothing else changes |
| PlayerController.PlayerController.OnCollisionEnter2D | Assets/PlayerController.cs:134-138 | touching the ground gives back both jumps, any other tag changes nothing; no other field changes |
| PlayerController.PlayerController.Steer | Assets/PlayerController.cs:54-58 | with no dash running, HandleMovement then HandleJumping: the press stamps, `moveInput * moveSpeed` with the jump's vertical velocity, the movement flip and facing, one jump used; during a dash nothing changes |
| PlayerController.PlayerController.FinishFrame | Assets/PlayerController.cs:60-62 | the key-press flip, then a dash iff none is running, Fire3 is pressed and the cooldown is over (facing the held key), then the "meleeAttack" trigger iff Fire1 is pressed |
| PlayerController.PlayerController.Update | Assets/PlayerController.cs:48-64 | nothing changes while knocked back; during a dash no key press is stamped and velocity, jumps, facing and dash timing stay, only the key-press flip runs; otherwise the whole new state: press stamps, jump count, flip (key-press flip over movement flip), facing, velocity and dash start composed from HandleMovement, HandleJumping and HandleDash; Fire1 fires "meleeAttack" in both cases |

## Left out

- Physics: velocities are recorded as written, and gravity and integration are not modelled. Impulses are recorded as un-normalised direction vectors, so force magnitudes (`normalized * force`) are not stated.
- Unity plumbing: `GetComponent*`, `FindGameObjectWithTag`, `Instantiate`/`Destroy`, `Debug.Log` and Gizmos. Component presence is a parameter; destroying a GameObject is a flag on `Common.EnemyBody`, or a `dieCalls` counter.
- Scheduling: `now` and `realNow` are whatever the caller passes. The model does not tie the progress of `now` to `Time.timeScale`, and different components are resumed in whichever order the caller chooses.
- Frame-driven waits: the indicator's frame loops (`elapsed += Time.deltaTime` and the 0.15 s fade) are each one wait of their nominal length, and the alpha values of the fade are not modelled. The shake takes the frame time and its random offset (`Random.Range`) as parameters.
- Cosmetics: blood effects, the attack indicator's own script (pulse and rotation) and the animator's bool and float parameters in `SetAnimation`.
- Missing components that would throw a null reference are assumed present: the enemy health scripts' sprite renderer in DamageFlash and ShakeEffect, the player's own sprite renderer in OnAttacking (its `flipX` is an input), and the controller's Rigidbody, Animator and SpriteRenderer. The legacy attack's missing sprite renderer is modelled as the `MissingSprite` result.
- Assets/EnemyAI.cs and Assets/Scripts/EnemyAI.cs (steering) are not part of this model; only the `enabled` flag of an enemy's AI is kept. Assets/Scripts/AttackEventRelay.cs is the caller of `PerformAttackHit`.
- The impact loops return the calls they make instead of running the callee. TryParry's side effects on the player are modelled by `ParrySystem.ParrySystem.TryParry`, and damage by the health classes. Within one impact, invincibility from an earlier hit on the same object is tracked by object identity (`owner`).
- EnemyAttack.DamagedBeforeFirstParry: states the damaged set only when the colliders before the first parry belong to distinct objects. When two colliders share one PlayerHealth, the first hit's invincibility shields the second; `HitsFrom` models that, but this lemma does not describe it.
- EnemyTelegraph.AttackTelegraph.ShowTelegraph: requires the telegraph not to be running already. Its only caller starts it behind `isAttacking`, so two overlapping ShowTelegraph coroutines are not modelled.
- Stopping a coroutine from outside (`StopCoroutine`, disabling a component) is not modelled, except that the resumption steps of both enemy health scripts and of the enemy attack do nothing once the enemy is destroyed.
- State shared through one Unity object is kept per component, so the model does not capture how the components overwrite each other:
  - `ParrySystem.color` and `PlayerHealth.alpha` are one player SpriteRenderer colour. The parry's colour restore resets the alpha that the blink loop reads (`c.a == 1f`).
  - EnemyHealth's colour and material and `AttackTelegraph.color` are one enemy sprite. The telegraph's restore of `originalColor` is not seen by a damage flash running at the same time, and the reverse.
  - EnemyAttack and AttackTelegraph each keep their own log of the triggers sent to the enemy's single Animator, and so do PlayerController and ParrySystem for the player's. The legacy enemy scripts share the enemy sprite and Animator in the same way.
- The plain getters (`IsParrying`, `CanParry`, `IsInvincible`, `GetCurrentHealth`, `IsKnockedBack`) are reads of their fields and carry no contract of their own.
- Floating-point rounding: times, weights and health are exact reals.
