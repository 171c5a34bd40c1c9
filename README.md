# SpaceGame combat core in Dafny

A model of the gameplay core of SpaceGame, a 2D shooter: animated sprites,
particle emitters, the shared weapon firing gate, and the projectile weapon
that keeps a fixed pool of projectiles, launches them, moves them, and
applies direct and splash hits to units.

Layout, one module per file:

- `timespans.dfy` (`TimeSpans`): TimeSpan as a count of 100 ns ticks.
  `TimeSpan.FromSeconds` rounds to the nearest millisecond. The C# `(int)`
  cast truncates toward zero, and `%` takes the sign of its left operand.
- `xna.dfy` (`Xna`): Vector2, Rectangle, Color, Force. The helper functions
  (`XnaHelper.*` and `Vector2.Length`) are passed in by the caller.
- `units.dfy` (`Units`): the unit a weapon belongs to or hits. It only
  records the damage and forces applied to it.
- `sprites.dfy` (`Sprites`): the sprite's state as a value (`SpriteState`),
  with one pure function per operation. `class Sprite` updates the same
  fields in place and each method is proved equal to its function.
- `particles.dfy` (`Particles`): `class ParticleEffect`. Its particle list is
  a `seq` field; Update's backward removal loop and Spawn's append loop are
  proved against `Survivors` and `NewParticles`.
- `weapons.dfy` (`Weapons`): the cooldown and ammunition gate as a value
  (`Gate`), `class Weapon`, and lemmas over any sequence of Trigger and
  Update calls.
- `projectiles.dfy` (`Projectiles`): per-slot step functions, and
  `class ProjectileWeapon`. It holds its pool as an `array<Projectile>` and
  runs the steps in place, in index order, with one shared launch budget.

The abstract base class `Weapon` and its subclass `ProjectileWeapon` become
composition. `ProjectileWeapon` holds a `Weapon`. `Weapon.Update` lowers the
firing flag and returns what it held, and `ProjectileWeapon.Update` passes
that to `UpdateWeapon`. This is equivalent to the virtual call, because
`UpdateWeapon` never reads or writes the cooldown or the ammunition.

Behaviours of the code that the lemmas prove:

- The spawn countdown takes the fractional particle count and subtracts it
  as seconds. Its restart value is `1 / spawnRate` seconds. So a call that
  asks for less than one particle, but for more than `1 / spawnRate` plus a
  millisecond, emits one particle every time (`OneParticlePerCall`). At 10
  particles per second and 60 frames per second (166 667 ticks per call),
  each call asks for a sixth of a particle and gets one: 60 per second.
- In the first half of a flash, the flash clock advances by twice the
  elapsed time (`FlashFirstHalfRunsDouble`).
- The impact animation may be over after the first update that follows a
  hit. Then, while no new hit lands, that projectile applies no splash
  damage and its pool slot is never launched again (`ArmingAfterHit`,
  `StuckForever`). A dissipating projectile is never hit again, so for it
  this lasts forever. A projectile that does not dissipate stays active
  while it has life left and its spot is on screen. While it does, its next
  direct hit replays the impact row and revives the slot (`StuckRevives`).
- A projectile that does not dissipate stays active while it splashes, as
  long as it has life left and its spot is on screen. The hit zeroed its
  velocity, so it rests where it hit (`HitProjectileRests`). The code pushes
  the unit it hits, but the model's units do not move, so in the model the
  unit's hit box keeps covering that spot. For as long as it does, each
  later collision pass hits the projectile again, replays the impact row
  and re-arms the splash. The unit then takes direct and splash damage every
  frame, not one splash (`RestingProjectileSplashesAgain`, `RehitNextFrame`).
  Its impact animation also advances twice per update (`DoubleAnimation`).
- The weapon gate promises infinite ammunition for a cost of 0 per shot
  (`CostlessNeverRunsDry`). The constructor's documented alternative, a
  capacity of 1, does not give that: with a cost of 1 the weapon fires once
  and never again (`SingleRoundFiresOnce`).
- A countdown that lands exactly on zero ends an animation without moving
  the frame (`OverWithoutAdvance`).
- `Sprite.Reset` leaves `Animating` and `AnimationOver` as they were; the
  model follows the code here.

## Model

| member | source | states |
|---|---|---|
| `TimeSpans.FromSeconds` | SpaceGame/SpaceGame/graphics/ParticleEffect.cs:131 | the result is a whole number of milliseconds, within half a millisecond of the requested seconds, with the same sign |
| `TimeSpans.Truncate` | SpaceGame/SpaceGame/equipment/ProjectileWeapon.cs:124-125 | `(int)` of a float rounds toward zero: bounds on each side of the argument, by sign |
| `TimeSpans.Rem` | SpaceGame/SpaceGame/graphics/Sprite.cs:160 | C# `%`: `a` is the truncated quotient times `b` plus the remainder, the remainder has the dividend's sign and a magnitude below the divisor's |
| `Sprites.Created` | SpaceGame/SpaceGame/graphics/Sprite.cs:110-125 | a new sprite takes its frame count, row count, frame interval and default scale from the sheet data, and is on frame 0 of row 0 with a full countdown, default scale, angle 0, white, not animating, no flash |
| `Sprites.AfterReset` | SpaceGame/SpaceGame/graphics/Sprite.cs:140-148 | Reset returns to frame 0, row 0, a full countdown, angle 0, default scale, white and no flash, and keeps the sheet dimensions, interval, default scale, play-once flags and flash settings |
| `Sprites.Updated` | SpaceGame/SpaceGame/graphics/Sprite.cs:150-186 | Update keeps the frame index inside the sheet |
| `Sprites.Played` | SpaceGame/SpaceGame/graphics/Sprite.cs:188-194 | PlayAnimation starts a play-once run from frame 0 on row `n % numStates` (C# remainder), and changes no other field |
| `Sprites.Flashed` | SpaceGame/SpaceGame/graphics/Sprite.cs:196-202 | Flash stores colour and count, restarts the flash clock, sets the half time to half the period rounded to the millisecond, and changes no other field |
| `Sprites.UpdatedAll` | SpaceGame/SpaceGame/graphics/Sprite.cs:150-186 | any run of updates keeps the sprite well formed |
| `Sprites.UpdateAdvance` | SpaceGame/SpaceGame/graphics/Sprite.cs:152-161 | only a strictly negative countdown advances the frame, wrapping after the last, and restarts the countdown; otherwise the countdown simply drops |
| `Sprites.UpdateAnimationOver` | SpaceGame/SpaceGame/graphics/Sprite.cs:152-155 | AnimationOver after Update holds iff it was set, or the sprite is animating on its last frame with the countdown at or below zero |
| `Sprites.OverWithoutAdvance` | SpaceGame/SpaceGame/graphics/Sprite.cs:154-160 | a countdown landing exactly on zero ends the animation on the same frame |
| `Sprites.FreshRunOutlastsTwoUpdates` | SpaceGame/SpaceGame/graphics/Sprite.cs:152-161 | an update moves at most one frame, so a run of three or more frames started on frame 0 is not over after any two updates |
| `Sprites.OverIsSticky` | SpaceGame/SpaceGame/graphics/Sprite.cs:150-186 | once set, AnimationOver survives any run of updates |
| `Sprites.UpdatesKeepRow` | SpaceGame/SpaceGame/graphics/Sprite.cs:150-186 | updates never change the row, the Animating flag, the scale or the angle |
| `Sprites.FlashCountdown` | SpaceGame/SpaceGame/graphics/Sprite.cs:163-184 | one flash ends exactly when the flash clock reaches twice the half time; the last one restores white; with no flashes left nothing changes |
| `Sprites.FlashFirstHalfRunsDouble` | SpaceGame/SpaceGame/graphics/Sprite.cs:165-171 | in a flash's first half the clock advances by twice the elapsed time, and the shade blends from white toward the flash colour |
| `Sprites.FlashCounterBounded` | SpaceGame/SpaceGame/graphics/Sprite.cs:163-184 | the flash counter never grows and never goes negative over any run of updates |
| `Sprites.FlashThenUpdates` | SpaceGame/SpaceGame/graphics/Sprite.cs:196-202 | after Flash with k flashes, any run of updates leaves between 0 and k |
| `Sprites.Sprite.constructor` | SpaceGame/SpaceGame/graphics/Sprite.cs:110-125 | the object's state is the created state |
| `Sprites.Sprite.Reset` | SpaceGame/SpaceGame/graphics/Sprite.cs:140-148 | in-place Reset equals `AfterReset` |
| `Sprites.Sprite.Update` | SpaceGame/SpaceGame/graphics/Sprite.cs:150-186 | in-place Update equals `Updated` |
| `Sprites.Sprite.Tick` | SpaceGame/SpaceGame/graphics/Sprite.cs:152-161 | the frame-clock statements equal `Clocked` |
| `Sprites.Sprite.FlashTick` | SpaceGame/SpaceGame/graphics/Sprite.cs:163-184 | the flash statements equal `Flashing` |
| `Sprites.Sprite.PlayAnimation` | SpaceGame/SpaceGame/graphics/Sprite.cs:188-194 | in-place PlayAnimation equals `Played` |
| `Sprites.Sprite.Flash` | SpaceGame/SpaceGame/graphics/Sprite.cs:196-202 | in-place Flash equals `Flashed` |
| `Sprites.Sprite.FullAnimationTime` | SpaceGame/SpaceGame/graphics/Sprite.cs:95-102 | interval times frame count, rounded to the millisecond |
| `Particles.VarianceBounds` | SpaceGame/SpaceGame/graphics/ParticleEffect.cs:238-241 | a draw from [0, 1) keeps a non-negative value within the fraction `variance` of itself |
| `Particles.Survivors` | SpaceGame/SpaceGame/graphics/ParticleEffect.cs:136-168 | Update never adds particles |
| `Particles.SurvivorsAppend` | SpaceGame/SpaceGame/graphics/ParticleEffect.cs:138-142 | removal decides particle by particle and keeps the remaining particles in order |
| `Particles.SurvivorsMembership` | SpaceGame/SpaceGame/graphics/ParticleEffect.cs:138-165 | a particle is in the result iff it is an unexpired original aged by the elapsed time |
| `Particles.SurvivorsCount` | SpaceGame/SpaceGame/graphics/ParticleEffect.cs:138-142 | the count is unchanged iff no particle had expired |
| `Particles.WholeParticles` | SpaceGame/SpaceGame/graphics/ParticleEffect.cs:225 | the loop `i < (int)k` runs floor(k) times for k >= 0, and not at all below 1 |
| `Particles.OneParticlePerCall` | SpaceGame/SpaceGame/graphics/ParticleEffect.cs:222-235 | a call asking for less than one particle but more than 1/spawnRate plus a millisecond owes no whole particle, yet drives the countdown below zero from anywhere at or below its restart value, so it emits one |
| `Particles.SpawnCount` | SpaceGame/SpaceGame/graphics/ParticleEffect.cs:222-235 | one call emits floor(k) or floor(k)+1 particles, the extra one iff the countdown is below the fractional part taken as seconds |
| `Particles.ParticleEffect.constructor` | SpaceGame/SpaceGame/graphics/ParticleEffect.cs:97-134 | no particles; a countdown of 1/spawnRate seconds; rotation speed in radians per second; colours swapped iff reversed |
| `Particles.ParticleEffect.NewParticle` | SpaceGame/SpaceGame/graphics/ParticleEffect.cs:170-198 | a new particle has age 0, a lifetime of the varied base life, and an angle of 0, or its end-of-life angle when reversed |
| `Particles.ParticleEffect.LifetimeBounds` | SpaceGame/SpaceGame/graphics/ParticleEffect.cs:179 | a new particle's lifetime lies within particleLife times (1 ± variance), give or take half a millisecond of rounding |
| `Particles.ParticleEffect.Update` | SpaceGame/SpaceGame/graphics/ParticleEffect.cs:136-168 | the backward loop with RemoveAt leaves exactly `Survivors` of the old list |
| `Particles.ParticleEffect.Spawn` | SpaceGame/SpaceGame/graphics/ParticleEffect.cs:220-236 | appends floor-count new particles, adjusts the countdown, and appends one more and restarts the countdown when it drops below zero |
| `Weapons.Pulled` | SpaceGame/SpaceGame/equipment/Weapon.cs:61-71 | Trigger fires iff ammo covers the cost and the cooldown has run out, then pays, restarts the cooldown and aims; otherwise nothing changes; ammo stays non-negative |
| `Weapons.Ticked` | SpaceGame/SpaceGame/equipment/Weapon.cs:73-78 | Update runs the cooldown down by the elapsed time and lowers the firing flag, nothing else |
| `Weapons.ShotBudget` | SpaceGame/SpaceGame/equipment/Weapon.cs:61-78 | over any call sequence ammo drops by exactly consumption per shot, and shots times fireDelay are bounded by the elapsed time plus how much the cooldown grew |
| `Weapons.CooldownCapped` | SpaceGame/SpaceGame/equipment/Weapon.cs:68-75 | with forward time the cooldown never exceeds fireDelay |
| `Weapons.FireRateLimit` | SpaceGame/SpaceGame/equipment/Weapon.cs:61-78 | a weapon that starts ready fires at most one shot plus one per fireDelay of game time, and no more than its ammunition pays for |
| `Weapons.AmmoNonNegative` | SpaceGame/SpaceGame/equipment/Weapon.cs:63-68 | ammunition never goes negative |
| `Weapons.NoEarlyShot` | SpaceGame/SpaceGame/equipment/Weapon.cs:63-75 | after a shot no further shot is possible until fireDelay of game time has elapsed; while none is fired the cooldown is exactly fireDelay minus the elapsed time, so once fireDelay has passed a loaded weapon fires on the next pull |
| `Weapons.CostlessNeverRunsDry` | SpaceGame/SpaceGame/equipment/Weapon.cs:61-71 | with a cost of 0 per shot the ammunition never changes over any calls, so a pull fires iff the cooldown is over |
| `Weapons.SingleRoundFiresOnce` | SpaceGame/SpaceGame/equipment/Weapon.cs:41-71 | a weapon holding one round with a cost of at least one fires at most once over any calls, and can never fire after that |
| `Weapons.Weapon.constructor` | SpaceGame/SpaceGame/equipment/Weapon.cs:44-51 | full ammunition, cooldown 0, not firing |
| `Weapons.Weapon.Trigger` | SpaceGame/SpaceGame/equipment/Weapon.cs:61-71 | in-place Trigger equals `Pulled` |
| `Weapons.Weapon.Update` | SpaceGame/SpaceGame/equipment/Weapon.cs:73-78 | in-place Update equals `Ticked` and hands over the pending shot and its direction |
| `Projectiles.Idle` | SpaceGame/SpaceGame/equipment/ProjectileWeapon.cs:75-81 | a new slot is inactive, not splashing, not ready, and holds a freshly created sprite |
| `Projectiles.Latched` | SpaceGame/SpaceGame/equipment/ProjectileWeapon.cs:170-173 | a slot ready and splashing stops being ready; a ready slot starts splashing; nothing else changes |
| `Projectiles.Flown` | SpaceGame/SpaceGame/equipment/ProjectileWeapon.cs:175-189 | flight moves by the new velocity over the elapsed time and uses up life; the slot stays active iff life remains and it is on screen |
| `Projectiles.Advanced` | SpaceGame/SpaceGame/equipment/ProjectileWeapon.cs:170-189 | after the latch and the flight a slot splashes iff it was ready or splashing |
| `Projectiles.Splashed` | SpaceGame/SpaceGame/equipment/ProjectileWeapon.cs:191-194 | the impact animation runs a frame and splashing lasts while it is not over; nothing else about the slot changes |
| `Projectiles.Launched` | SpaceGame/SpaceGame/equipment/ProjectileWeapon.cs:199-214 | a launch is active from the owner's centre with full life, a randomised angle in the spread, speed along that angle, and a reset sprite |
| `Projectiles.BusySlotIgnoresBudget` | SpaceGame/SpaceGame/equipment/ProjectileWeapon.cs:191-201 | a flying or splashing slot is never relaunched, whatever the budget |
| `Projectiles.ExpiredSlotIsReusedAtOnce` | SpaceGame/SpaceGame/equipment/ProjectileWeapon.cs:187-205 | a projectile whose life runs out is relaunched in the same update when budget is left |
| `Projectiles.Launches` | SpaceGame/SpaceGame/equipment/ProjectileWeapon.cs:163-216 | no more launches than slots |
| `Projectiles.LaunchCount` | SpaceGame/SpaceGame/equipment/ProjectileWeapon.cs:163-216 | one update launches exactly min(budget, free slots) projectiles |
| `Projectiles.LaunchesWithinBudget` | SpaceGame/SpaceGame/equipment/ProjectileWeapon.cs:163 | no launch when not firing; at most projectilesPerFire when firing |
| `Projectiles.LaunchedSlots` | SpaceGame/SpaceGame/equipment/ProjectileWeapon.cs:199-216 | slot i is launched iff it is free and fewer than budget lower slots were launched |
| `Projectiles.StepNeverArms` | SpaceGame/SpaceGame/equipment/ProjectileWeapon.cs:170-173 | an update never leaves a slot ready to splash when it started unready, or ready and already splashing |
| `Projectiles.SplashOnce` | SpaceGame/SpaceGame/equipment/ProjectileWeapon.cs:23-26 | once armed, a slot is neither ready nor armed after any non-empty run of updates without a new hit |
| `Projectiles.ArmingAfterHit` | SpaceGame/SpaceGame/equipment/ProjectileWeapon.cs:170-194 | the update after a hit arms the slot iff the impact animation is still running; otherwise the slot is stuck |
| `Projectiles.StuckStep` | SpaceGame/SpaceGame/equipment/ProjectileWeapon.cs:170-201 | a stuck slot stays stuck, is never free and never arms |
| `Projectiles.StuckForever` | SpaceGame/SpaceGame/equipment/ProjectileWeapon.cs:165-217 | across any updates a stuck slot never splashes and is never relaunched |
| `Projectiles.DoubleAnimation` | SpaceGame/SpaceGame/equipment/ProjectileWeapon.cs:175-194 | when a hit projectile stays active, its sprite is updated twice in the arming update |
| `Projectiles.HitSlot` | SpaceGame/SpaceGame/equipment/ProjectileWeapon.cs:147-159 | a hit deactivates a dissipating projectile; with a splash radius it also readies the splash, stops the projectile and plays the impact row; position, life, angle and the splashing flag are kept |
| `Projectiles.StuckRevives` | SpaceGame/SpaceGame/equipment/ProjectileWeapon.cs:147-159 | a direct hit on a stuck, non-dissipating projectile replays the impact row, which clears AnimationOver, so the slot is no longer stuck |
| `Projectiles.HitProjectileRests` | SpaceGame/SpaceGame/equipment/ProjectileWeapon.cs:147-194 | a non-dissipating splash projectile stops where it hits: after the next update it is still active, at the same spot, still in the unit's hit box, and splashing while its impact animation runs |
| `Projectiles.RestingProjectileSplashesAgain` | SpaceGame/SpaceGame/equipment/ProjectileWeapon.cs:121-143 | a splashing projectile that is hit-tested against a unit it overlaps is re-armed by the direct hit and deals direct and splash damage in the same pass |
| `Projectiles.RehitNextFrame` | SpaceGame/SpaceGame/equipment/ProjectileWeapon.cs:116-198 | so with an impact row of three or more frames, in the frame after its hit such a projectile deals the unit direct damage and splash damage again |
| `Projectiles.InertSlot` | SpaceGame/SpaceGame/equipment/ProjectileWeapon.cs:119-145 | an inactive, unarmed slot neither changes nor affects the unit |
| `Projectiles.DissipatingHitsOnce` | SpaceGame/SpaceGame/equipment/ProjectileWeapon.cs:122-129 | a projectile that dissipates on hit is not hit-tested again against later units in the frame |
| `Projectiles.ArmedThroughChecks` | SpaceGame/SpaceGame/equipment/ProjectileWeapon.cs:131-142 | an armed slot stays armed through all units' checks, so every unit in splash range is hit |
| `Projectiles.LogBounds` | SpaceGame/SpaceGame/equipment/ProjectileWeapon.cs:116-145 | the unit gets as many damages as forces, at most two per slot |
| `Projectiles.ProjectileWeapon.constructor` | SpaceGame/SpaceGame/equipment/ProjectileWeapon.cs:69-112 | fire delay is 1/fireRate seconds rounded to the ms; ammo is full; the pool has maxProjectiles idle slots |
| `Projectiles.ProjectileWeapon.CheckAndApplyCollision` | SpaceGame/SpaceGame/equipment/ProjectileWeapon.cs:116-145 | every slot becomes `Checked`, and the unit's damage and force logs grow by the slots' contributions in index order |
| `Projectiles.ProjectileWeapon.CheckSlot` | SpaceGame/SpaceGame/equipment/ProjectileWeapon.cs:121-143 | one slot's direct hit, then its splash |
| `Projectiles.ProjectileWeapon.ApplyProjectileHit` | SpaceGame/SpaceGame/equipment/ProjectileWeapon.cs:147-159 | the unit is pushed along the velocity and damaged; the projectile becomes `HitSlot` |
| `Projectiles.ProjectileWeapon.Update` | SpaceGame/SpaceGame/equipment/Weapon.cs:73-78 | the gate ticks, and the pool is stepped with the budget of the pending shot |
| `Projectiles.ProjectileWeapon.UpdateWeapon` | SpaceGame/SpaceGame/equipment/ProjectileWeapon.cs:161-219 | the pool becomes `PoolStep` with budget projectilesPerFire if firing, else 0; the owner gets one recoil per launch |
| `Projectiles.ProjectileWeapon.StepPool` | SpaceGame/SpaceGame/equipment/ProjectileWeapon.cs:165-219 | the loop over the pool equals `PoolStep` and logs one recoil per launch |
| `Projectiles.ProjectileWeapon.StepAt` | SpaceGame/SpaceGame/equipment/ProjectileWeapon.cs:166-218 | one slot is stepped in place, only that slot changes, and recoil is applied iff it launched |
| `Projectiles.ProjectileWeapon.StepSlot` | SpaceGame/SpaceGame/equipment/ProjectileWeapon.cs:167-217 | the loop body's statements equal `SlotStep`, and it launches iff the slot is free with budget left |

## Left out

- Draw methods, textures, draw rectangles, z-layers and sprite sizes: these are rendering only.
- Particle position, velocity, deceleration, scale, speed variance and spawn arc, and `newParticle`'s random direction. A particle here is lifetime, age and rotation. Spawn's position, angle and source-velocity arguments are therefore not parameters.
- `Particles.ParticleEffect.NewParticle`: only the lifetime and rotation of a new particle are stated; its kinematics and scale are not modelled.
- `IntensityFactor` (ParticleEffect.cs:70-83) is left out. The constructor sets it to 1, which leaves the spawn rate as configured; the model starts from that state.
- The effect and sprite dictionaries (`Data`), the XML configuration and the named constructors: configuration records are passed in directly. `InputManager.cs` is not part of this model.
- The projectile weapon's movement and splash particle effects (ProjectileWeapon.cs:107-110, 185-186, 196-197, 221-224) are left out. They are visual and do not affect the pool.
- The splash scale growth (`_splashScaleRate`, ProjectileWeapon.cs:98-102 and 195) only changes the drawn size, so it is left out.
- `initializeProjectile` (ProjectileWeapon.cs:227-235) is never called, so it is left out.
- Floating point: positions, velocities, angles and seconds are exact reals. `float` rounding, infinities and NaN are not modelled. A hit on a stopped projectile normalises a zero velocity (NaN in the code); `Force.AlongVelocity` keeps that force as a term.
- C#'s 32-bit `int` fields (ammunition, damage, pool counts, frame and row numbers) are unbounded integers. Wrap-around on overflow, such as `_currentAmmo -= _ammoConsumption` at Weapon.cs:68 running past the `int` range, is not modelled.
- TimeSpan ticks are unbounded integers. The 64-bit tick range and `FromSeconds` throwing on huge values are not modelled.
- `XnaHelper` functions and `Vector2.Length` are caller-supplied, uninterpreted functions. `Random` draws are passed in as parameters; the fire direction spread takes one draw per slot.
- `Weapon.ScreenBounds` (a static field) is a parameter.
- `Projectiles.RehitNextFrame`: states the repeated hit only for impact rows of three or more frames, a condition the verifier can check cheaply. The re-hit also happens on shorter rows whenever the replayed animation is still running after the update; `HitProjectileRests` and `RestingProjectileSplashesAgain` cover that case separately.
- `Units.Unit` records damage and forces but does not react to them.
- `Units.Unit` keeps damage and forces in two separate logs, so the order in which `ApplyForce` and `ApplyDamage` calls interleave on a unit is not recorded.
- Requirements the model adds where the code fails:
  - `ParticleEffect` requires `spawnRate != 0`: the code's `FromSeconds(1/0)` throws.
  - `ParticleEffect` requires `particleLife != 0`: the code's float division by zero yields a non-finite rotation speed.
  - `Sprite` requires at least one frame and one state: the code's `%` by zero throws on the first frame advance or PlayAnimation.
  - `ProjectileWeapon` requires `fireRate != 0` (`FromSeconds` of infinity throws).
  - `ProjectileWeapon` requires `maxProjectiles > 0`: the constructor reads `_projectiles[0]`.
- `Projectiles.ProjectileWeapon.Update`: the weapon's virtual `UpdateWeapon` call is made after `Weapon.Update` lowers the flag, with the flag value it had. This gives the same result, because nothing in between reads the cooldown.
