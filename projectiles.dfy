/**
 * A weapon that fires pooled projectiles. The pool is a fixed array of slots;
 * each frame every slot is stepped once (flight, the impact animation, or a
 * launch when the weapon fired and the slot is free), and collision checks
 * against a unit apply direct hits and splash damage.
 *
 * Every slot is a value (its sprite included), so each step is a pure
 * function of the slot; class ProjectileWeapon runs those steps over the
 * array in place, in index order, sharing one launch budget.
 */
module Projectiles {
  import opened TimeSpans
  import opened Xna
  import opened Units
  import opened Sprites
  import opened Weapons

  /** The weapon's configuration record. Spread is in degrees. */
  datatype ProjectileWeaponData = ProjectileWeaponData(
    fireRate: real,
    maxAmmo: int,
    ammoConsumption: int,
    maxProjectiles: int,
    projectilesPerFire: int,
    damage: int,
    projectileForce: real,
    recoil: real,
    projectileSpeed: real,
    projectileAcceleration: real,
    dissipateOnHit: bool,
    projectileSpread: real,
    projectileLife: int,
    splashDamage: int,
    splashRadius: real,
    splashForce: real,
    sprite: SpriteData)

  datatype Projectile = Projectile(
    active: bool,
    splashing: bool,
    readyToSplash: bool,
    position: Vector2,
    velocity: Vector2,
    lifeLeft: int,
    angle: real,
    sprite: SpriteState)
  {
    /** Splash checks apply to this slot. */
    predicate Armed()
    {
      splashing && readyToSplash
    }

    /** Hit, but its impact animation is already over: the slot never splashes and is never reused. */
    predicate Stuck()
    {
      readyToSplash && !splashing && sprite.animationOver
    }
  }

  /** What one UpdateWeapon call reads besides the pool. */
  datatype Frame = Frame(elapsed: int, screen: Rectangle, fireDirection: Vector2, ownerCenter: Vector2, xna: XnaHelper)

  /** A pool slot as the constructor leaves it. */
  function Idle(data: SpriteData): (p: Projectile)
    requires data.numFrames > 0 && data.numStates > 0
    ensures p.sprite == Created(data) && p.sprite.Valid()
    ensures !p.active && !p.splashing && !p.readyToSplash
  {
    Projectile(false, false, false, Zero, Zero, 0, 0.0, Created(data))
  }

  /** The width of the sprite the hit box takes at construction: (int)(frameWidth * scale). */
  function HitWidth(d: ProjectileWeaponData): int
  {
    Truncate(d.sprite.frameWidth as real * d.sprite.defaultScale)
  }

  function HitHeight(d: ProjectileWeaponData): int
  {
    Truncate(d.sprite.frameHeight as real * d.sprite.defaultScale)
  }

  /** The recoil one launch applies to the owner. */
  function Recoil(d: ProjectileWeaponData, fireDirection: Vector2): Force
  {
    Push(fireDirection.Times(-d.recoil))
  }

  function Recoils(d: ProjectileWeaponData, fireDirection: Vector2, n: nat): (r: seq<Force>)
    ensures |r| == n && forall i :: 0 <= i < n ==> r[i] == Recoil(d, fireDirection)
  {
    seq(n, _ => Recoil(d, fireDirection))
  }

  lemma RecoilsGrow(d: ProjectileWeaponData, fireDirection: Vector2, n: nat)
    ensures Recoils(d, fireDirection, n + 1) == Recoils(d, fireDirection, n) + [Recoil(d, fireDirection)]
  {
  }

  // ---------------------------------------------------------------------------
  // One slot, one UpdateWeapon

  /**
   * The splash latch at the top of the loop: a slot that was ready and already
   * splashing stops being ready, and a ready slot starts splashing.
   */
  function Latched(p: Projectile): (r: Projectile)
    ensures r.readyToSplash <==> p.readyToSplash && !p.splashing
    ensures r.splashing <==> p.readyToSplash || p.splashing
    ensures r == p.(readyToSplash := r.readyToSplash, splashing := r.splashing)
  {
    var ready := if p.readyToSplash && p.splashing then false else p.readyToSplash;
    p.(readyToSplash := ready, splashing := ready || p.splashing)
  }

  /**
   * Flight of an active projectile: accelerate along its velocity, move,
   * consume life, animate, and deactivate when its life is used up or it
   * has left the screen.
   */
  function Flown(d: ProjectileWeaponData, p: Projectile, f: Frame): (r: Projectile)
    requires p.sprite.Valid()
    ensures r.sprite == Updated(p.sprite, f.elapsed)
    ensures r.lifeLeft == p.lifeLeft - f.elapsed
    ensures r.active <==> p.active && r.lifeLeft > 0 && f.xna.pointInRect(r.position, f.screen)
    ensures f.xna.length(p.velocity) == 0.0 ==> r.velocity == p.velocity
    ensures r.position == p.position.Plus(r.velocity.Times(Seconds(f.elapsed)))
    ensures r.splashing == p.splashing && r.readyToSplash == p.readyToSplash && r.angle == p.angle
  {
    var speed := f.xna.length(p.velocity);
    var velocity := if speed != 0.0 then p.velocity.Plus(p.velocity.Times(d.projectileAcceleration / speed)) else p.velocity;
    var position := p.position.Plus(velocity.Times(Seconds(f.elapsed)));
    var lifeLeft := p.lifeLeft - f.elapsed;
    p.(velocity := velocity, position := position, lifeLeft := lifeLeft, sprite := Updated(p.sprite, f.elapsed),
       active := p.active && !(lifeLeft <= 0 || !f.xna.pointInRect(position, f.screen)))
  }

  /** The latch, then flight if the slot is active. */
  function Advanced(d: ProjectileWeaponData, p: Projectile, f: Frame): (r: Projectile)
    requires p.sprite.Valid()
    ensures r.sprite.Valid()
    ensures r.splashing <==> p.readyToSplash || p.splashing
    ensures r.readyToSplash <==> p.readyToSplash && !p.splashing
  {
    var q := Latched(p);
    if q.active then Flown(d, q, f) else q
  }

  /** A slot a launch may take: after the latch and the flight it is neither splashing nor active. */
  predicate Free(d: ProjectileWeaponData, p: Projectile, f: Frame)
    requires p.sprite.Valid()
  {
    var q := Advanced(d, p, f);
    !q.splashing && !q.active
  }

  /** The impact animation runs a frame; splashing ends when the animation is over. */
  function Splashed(q: Projectile, elapsed: int): (r: Projectile)
    requires q.sprite.Valid()
    ensures r.sprite == Updated(q.sprite, elapsed)
    ensures r.splashing <==> !r.sprite.animationOver
    ensures r == q.(sprite := r.sprite, splashing := r.splashing)
  {
    var sprite := Updated(q.sprite, elapsed);
    q.(sprite := sprite, splashing := !sprite.animationOver)
  }

  /**
   * A new projectile from the owner's centre, in the fire direction turned by
   * a random angle within the spread, with full life and a reset sprite.
   */
  function Launched(d: ProjectileWeaponData, q: Projectile, f: Frame, draw: real): (r: Projectile)
    requires q.sprite.Valid()
    ensures r.active && !r.splashing && !r.readyToSplash
    ensures r.position == f.ownerCenter && r.lifeLeft == d.projectileLife
    ensures r.angle == f.xna.randomAngle(f.xna.radiansFromVector(f.fireDirection), ToRadians(d.projectileSpread), draw)
    ensures r.velocity == f.xna.vectorFromAngle(r.angle).Times(d.projectileSpeed)
    ensures r.sprite == AfterReset(q.sprite)
  {
    var angle := f.xna.randomAngle(f.xna.radiansFromVector(f.fireDirection), ToRadians(d.projectileSpread), draw);
    q.(active := true, splashing := false, readyToSplash := false, angle := angle,
       lifeLeft := d.projectileLife, position := f.ownerCenter,
       velocity := f.xna.vectorFromAngle(angle).Times(d.projectileSpeed), sprite := AfterReset(q.sprite))
  }

  /** One iteration of UpdateWeapon's loop on a slot, with `budget` launches left. */
  function SlotStep(d: ProjectileWeaponData, p: Projectile, budget: int, f: Frame, draw: real): (r: Projectile)
    requires p.sprite.Valid()
    ensures r.sprite.Valid()
  {
    var q := Advanced(d, p, f);
    if q.splashing then Splashed(q, f.elapsed)
    else if !q.active && budget > 0 then Launched(d, q, f, draw)
    else q
  }

  /**
   * Proof helper: SlotStep's three branches, phrased with `Free`, the
   * predicate the pool lemmas count launches by.
   */
  lemma SlotStepCases(d: ProjectileWeaponData, p: Projectile, budget: int, f: Frame, draw: real)
    requires p.sprite.Valid()
    ensures var r := SlotStep(d, p, budget, f, draw);
      && (Free(d, p, f) && budget > 0 ==> r == Launched(d, Advanced(d, p, f), f, draw))
      && (Advanced(d, p, f).splashing ==> r == Splashed(Advanced(d, p, f), f.elapsed))
      && (!Advanced(d, p, f).splashing && !(Free(d, p, f) && budget > 0) ==> r == Advanced(d, p, f))
  {
  }

  /** A slot that is flying or splashing is stepped the same whatever the budget: it is never relaunched. */
  lemma BusySlotIgnoresBudget(d: ProjectileWeaponData, p: Projectile, budget: int, f: Frame, draw: real, draw': real)
    requires p.sprite.Valid() && !Free(d, p, f)
    ensures SlotStep(d, p, budget, f, draw) == SlotStep(d, p, 0, f, draw')
  {
  }

  /**
   * A slot that is not splashing and stays active again after its flight step
   * while having run out of life or left the screen cannot happen: flight
   * deactivates it, so the same step may relaunch it.
   */
  lemma ExpiredSlotIsReusedAtOnce(d: ProjectileWeaponData, p: Projectile, f: Frame, draw: real)
    requires p.sprite.Valid() && p.active && !p.splashing && !p.readyToSplash
    requires p.lifeLeft - f.elapsed <= 0
    ensures Free(d, p, f)
    ensures SlotStep(d, p, 1, f, draw) == Launched(d, Advanced(d, p, f), f, draw)
  {
    assert Latched(p) == p;
  }

  // ---------------------------------------------------------------------------
  // The whole pool, one UpdateWeapon

  /** How many launches the loop makes over `ps`, starting with `budget`. */
  function Launches(d: ProjectileWeaponData, ps: seq<Projectile>, budget: int, f: Frame): (n: nat)
    requires forall i :: 0 <= i < |ps| ==> ps[i].sprite.Valid()
    ensures n <= |ps|
    decreases |ps|
  {
    if ps == [] then 0
    else
      var n := Launches(d, ps[..|ps| - 1], budget, f);
      n + (if Free(d, ps[|ps| - 1], f) && budget - n > 0 then 1 else 0)
  }

  /** How many slots of `ps` are free this frame. */
  function CountFree(d: ProjectileWeaponData, ps: seq<Projectile>, f: Frame): nat
    requires forall i :: 0 <= i < |ps| ==> ps[i].sprite.Valid()
    decreases |ps|
  {
    if ps == [] then 0
    else CountFree(d, ps[..|ps| - 1], f) + (if Free(d, ps[|ps| - 1], f) then 1 else 0)
  }

  function Min(a: int, b: int): int
  {
    if a <= b then a else b
  }

  /** The pool after UpdateWeapon with `budget` launches to give out; slot i launches with draw i. */
  function PoolStep(d: ProjectileWeaponData, ps: seq<Projectile>, budget: int, f: Frame, draws: nat -> real): (r: seq<Projectile>)
    requires forall i :: 0 <= i < |ps| ==> ps[i].sprite.Valid()
    ensures |r| == |ps|
  {
    seq(|ps|, (i: int) requires 0 <= i < |ps| => SlotStep(d, ps[i], budget - Launches(d, ps[..i], budget, f), f, draws(i)))
  }

  /**
   * Proof helper for StepPool: slot i of the stepped pool is slot i stepped
   * with the budget the lower slots left, read off PoolStep's comprehension
   * without unfolding it in the loop's context.
   */
  lemma PoolStepAt(d: ProjectileWeaponData, ps: seq<Projectile>, budget: int, f: Frame, draws: nat -> real, i: int)
    requires forall j :: 0 <= j < |ps| ==> ps[j].sprite.Valid()
    requires 0 <= i < |ps|
    ensures PoolStep(d, ps, budget, f, draws)[i] == SlotStep(d, ps[i], budget - Launches(d, ps[..i], budget, f), f, draws(i))
  {
  }

  /**
   * One update launches exactly as many projectiles as the budget allows and
   * the pool has free slots: the smaller of the two, and none when the weapon
   * did not fire (budget 0) or has a non-positive projectiles-per-fire.
   */
  lemma {:induction false} LaunchCount(d: ProjectileWeaponData, ps: seq<Projectile>, budget: int, f: Frame)
    requires forall i :: 0 <= i < |ps| ==> ps[i].sprite.Valid()
    ensures Launches(d, ps, budget, f) == Min(Max0(budget), CountFree(d, ps, f))
    decreases |ps|
  {
    if ps != [] {
      LaunchCount(d, ps[..|ps| - 1], budget, f);
    }
  }

  /** A weapon that did not fire this frame launches nothing, and one that did launches at most projectilesPerFire. */
  lemma LaunchesWithinBudget(d: ProjectileWeaponData, ps: seq<Projectile>, firing: bool, f: Frame)
    requires forall i :: 0 <= i < |ps| ==> ps[i].sprite.Valid()
    ensures !firing ==> Launches(d, ps, if firing then d.projectilesPerFire else 0, f) == 0
    ensures Launches(d, ps, if firing then d.projectilesPerFire else 0, f) <= Max0(d.projectilesPerFire)
  {
    LaunchCount(d, ps, if firing then d.projectilesPerFire else 0, f);
  }

  /** The launch count grows by one at slot i exactly when slot i takes a launch. */
  lemma LaunchesStep(d: ProjectileWeaponData, ps: seq<Projectile>, budget: int, f: Frame, i: int)
    requires forall j :: 0 <= j < |ps| ==> ps[j].sprite.Valid()
    requires 0 <= i < |ps|
    ensures Launches(d, ps[..i + 1], budget, f)
            == Launches(d, ps[..i], budget, f) + (if Free(d, ps[i], f) && Launches(d, ps[..i], budget, f) < budget then 1 else 0)
  {
    assert ps[..i + 1][..i] == ps[..i];
  }

  /** Slot i is relaunched exactly when it is free and fewer than `budget` lower slots took a launch. */
  lemma LaunchedSlots(d: ProjectileWeaponData, ps: seq<Projectile>, budget: int, f: Frame, draws: nat -> real, i: int)
    requires forall j :: 0 <= j < |ps| ==> ps[j].sprite.Valid()
    requires 0 <= i < |ps|
    ensures Free(d, ps[i], f) && Launches(d, ps[..i], budget, f) < budget ==>
              PoolStep(d, ps, budget, f, draws)[i] == Launched(d, Advanced(d, ps[i], f), f, draws(i))
    ensures !(Free(d, ps[i], f) && Launches(d, ps[..i], budget, f) < budget) ==>
              PoolStep(d, ps, budget, f, draws)[i] == SlotStep(d, ps[i], 0, f, draws(i))
  {
    LaunchesStep(d, ps, budget, f, i);
  }

  // ---------------------------------------------------------------------------
  // Splash: once per hit

  /** The slot after a run of UpdateWeapon steps with no hit in between, each with its own budget and draw. */
  datatype SlotInput = SlotInput(budget: int, frame: Frame, draw: real)

  function Run(d: ProjectileWeaponData, p: Projectile, inputs: seq<SlotInput>): (r: Projectile)
    requires p.sprite.Valid()
    ensures r.sprite.Valid()
    decreases |inputs|
  {
    if inputs == [] then p
    else
      var before := Run(d, p, inputs[..|inputs| - 1]);
      var input := inputs[|inputs| - 1];
      SlotStep(d, before, input.budget, input.frame, input.draw)
  }

  /** A step leaves an armed slot unready, and never makes a slot ready to splash: only a hit does. */
  lemma StepNeverArms(d: ProjectileWeaponData, p: Projectile, budget: int, f: Frame, draw: real)
    requires p.sprite.Valid() && (!p.readyToSplash || p.Armed())
    ensures !SlotStep(d, p, budget, f, draw).readyToSplash
  {
  }

  /**
   * Splash checks apply in at most one frame per hit: once a slot is armed,
   * the next update disarms it and no later update arms it again.
   */
  lemma {:induction false} SplashOnce(d: ProjectileWeaponData, p: Projectile, inputs: seq<SlotInput>)
    requires p.sprite.Valid() && p.Armed() && inputs != []
    ensures !Run(d, p, inputs).readyToSplash && !Run(d, p, inputs).Armed()
    decreases |inputs|
  {
    var before := inputs[..|inputs| - 1];
    var input := inputs[|inputs| - 1];
    if before != [] {
      SplashOnce(d, p, before);
    }
    StepNeverArms(d, Run(d, p, before), input.budget, input.frame, input.draw);
  }

  /**
   * The first update after a hit arms the slot exactly when the impact
   * animation is still running after that update; otherwise the slot is
   * stuck.
   */
  lemma ArmingAfterHit(d: ProjectileWeaponData, p: Projectile, budget: int, f: Frame, draw: real)
    requires p.sprite.Valid() && p.readyToSplash && !p.splashing
    ensures var q := Advanced(d, p, f);
      SlotStep(d, p, budget, f, draw).Armed() <==> !Updated(q.sprite, f.elapsed).animationOver
    ensures !SlotStep(d, p, budget, f, draw).Armed() ==> SlotStep(d, p, budget, f, draw).Stuck()
  {
  }

  /** An animation that is over stays over through an update. */
  lemma OverStaysOver(s: SpriteState, elapsed: int)
    requires s.Valid() && s.animationOver
    ensures Updated(s, elapsed).animationOver
  {
    OverIsSticky(s, [elapsed]);
  }

  /** A stuck slot stays stuck, is never free, and never splashes. */
  lemma StuckStep(d: ProjectileWeaponData, p: Projectile, budget: int, f: Frame, draw: real)
    requires p.sprite.Valid() && p.Stuck()
    ensures !Free(d, p, f)
    ensures SlotStep(d, p, budget, f, draw).Stuck()
    ensures !SlotStep(d, p, budget, f, draw).Armed()
  {
    var q := Advanced(d, p, f);
    if Latched(p).active {
      OverStaysOver(Latched(p).sprite, f.elapsed);
    }
    assert q.sprite.animationOver;
    OverStaysOver(q.sprite, f.elapsed);
  }

  /**
   * A slot whose impact animation ended within the first update after the hit
   * never applies splash damage and is never launched again, whatever the
   * later budgets.
   */
  lemma {:induction false} StuckForever(d: ProjectileWeaponData, p: Projectile, inputs: seq<SlotInput>)
    requires p.sprite.Valid() && p.Stuck()
    ensures Run(d, p, inputs).Stuck() && !Run(d, p, inputs).Armed()
    ensures forall k :: 0 <= k < |inputs| ==> !Free(d, Run(d, p, inputs[..k]), inputs[k].frame)
    decreases |inputs|
  {
    if inputs != [] {
      var before := inputs[..|inputs| - 1];
      var input := inputs[|inputs| - 1];
      StuckForever(d, p, before);
      StuckStep(d, Run(d, p, before), input.budget, input.frame, input.draw);
      forall k | 0 <= k < |inputs|
        ensures !Free(d, Run(d, p, inputs[..k]), inputs[k].frame)
      {
        if k < |before| {
          assert inputs[..k] == before[..k];
          assert inputs[k] == before[k];
        } else {
          assert inputs[..k] == before;
        }
      }
    }
  }

  /**
   * A slot that was hit without dissipating stays active (at rest) while it
   * splashes, so its impact animation is updated twice in that frame: once by
   * the flight step and once by the splash step.
   */
  lemma DoubleAnimation(d: ProjectileWeaponData, p: Projectile, budget: int, f: Frame, draw: real)
    requires p.sprite.Valid() && p.active && p.readyToSplash && !p.splashing
    ensures SlotStep(d, p, budget, f, draw).sprite == Updated(Updated(p.sprite, f.elapsed), f.elapsed)
  {
  }

  // ---------------------------------------------------------------------------
  // Collisions

  /** The part of the unit a collision check reads. */
  datatype Target = Target(center: Vector2, hitRect: Rectangle)

  function HitBox(d: ProjectileWeaponData, p: Projectile): Rectangle
  {
    Rectangle(Truncate(p.position.x), Truncate(p.position.y), HitWidth(d), HitHeight(d))
  }

  function SplashBox(d: ProjectileWeaponData, p: Projectile): Rectangle
  {
    Rectangle(Truncate(p.position.x), Truncate(p.position.y), Truncate(d.splashRadius * 2.0), Truncate(d.splashRadius * 2.0))
  }

  predicate DirectHit(d: ProjectileWeaponData, p: Projectile, t: Target, xna: XnaHelper)
  {
    p.active && xna.rectsCollide(t.hitRect, HitBox(d, p))
  }

  /** What applyProjectileHit does to the projectile. */
  function HitSlot(d: ProjectileWeaponData, p: Projectile): (r: Projectile)
    requires p.sprite.Valid()
    ensures r.sprite.Valid()
    ensures r.active <==> p.active && !d.dissipateOnHit
    ensures d.splashRadius > 0.0 ==> r.readyToSplash && r.velocity == Zero && r.sprite == Played(p.sprite, 1)
    ensures d.splashRadius <= 0.0 ==> r == p.(active := r.active)
    ensures r.splashing == p.splashing && r.position == p.position
    ensures r == p.(active := r.active, readyToSplash := r.readyToSplash, velocity := r.velocity, sprite := r.sprite)
  {
    var q := if d.dissipateOnHit then p.(active := false) else p;
    if d.splashRadius > 0.0 then q.(readyToSplash := true, velocity := Zero, sprite := Played(q.sprite, 1)) else q
  }

  /** The slot after one slot's part of CheckAndApplyCollision. */
  function Checked(d: ProjectileWeaponData, p: Projectile, t: Target, xna: XnaHelper): Projectile
    requires p.sprite.Valid()
  {
    if DirectHit(d, p, t, xna) then HitSlot(d, p) else p
  }

  /**
   * A stuck slot is revived by a new direct hit when its projectile does not
   * dissipate: playing the impact row again clears AnimationOver, so the next
   * update arms the splash.
   */
  lemma StuckRevives(d: ProjectileWeaponData, p: Projectile, t: Target, xna: XnaHelper)
    requires p.sprite.Valid() && p.Stuck() && !d.dissipateOnHit && d.splashRadius > 0.0 && DirectHit(d, p, t, xna)
    ensures var q := Checked(d, p, t, xna);
      q.active && q.readyToSplash && !q.splashing && !q.sprite.animationOver && !q.Stuck()
  {
  }

  predicate SplashHit(d: ProjectileWeaponData, q: Projectile, t: Target, xna: XnaHelper)
  {
    q.Armed() && xna.rectsCollide(t.hitRect, SplashBox(d, q))
  }

  /**
   * A projectile that does not dissipate but splashes stops where it hits
   * (applyProjectileHit zeroes its velocity) and stays active while its life
   * lasts and that spot is on screen. So after the next update it is still
   * inside the unit's hit box, armed while the impact animation runs.
   */
  lemma HitProjectileRests(d: ProjectileWeaponData, p: Projectile, t: Target, budget: int, f: Frame, draw: real)
    requires p.sprite.Valid() && !d.dissipateOnHit && d.splashRadius > 0.0 && f.xna.length(Zero) == 0.0
    requires DirectHit(d, p, t, f.xna)
    requires p.lifeLeft - f.elapsed > 0 && f.xna.pointInRect(p.position, f.screen)
    ensures var s := SlotStep(d, Checked(d, p, t, f.xna), budget, f, draw);
      && s.active && s.velocity == Zero && s.position == p.position && s.lifeLeft == p.lifeLeft - f.elapsed
      && DirectHit(d, s, t, f.xna)
      && (s.splashing <==> !s.sprite.animationOver)
  {
    var h := Checked(d, p, t, f.xna);
    assert h == HitSlot(d, p);
    var q := Latched(h);
    assert q.active && q.velocity == Zero && q.position == p.position;
    var g := Flown(d, q, f);
    assert g.velocity == Zero && g.position == p.position;
    assert Advanced(d, h, f) == g;
    assert g.active && g.splashing;
    assert SlotStep(d, h, budget, f, draw) == Splashed(g, f.elapsed);
  }

  /**
   * A resting projectile that is still splashing hits the unit again: the
   * direct hit re-arms it, so the same pass deals the direct damage and the
   * splash damage once more.
   */
  lemma RestingProjectileSplashesAgain(d: ProjectileWeaponData, p: Projectile, t: Target, xna: XnaHelper)
    requires p.sprite.Valid() && p.splashing && d.splashRadius > 0.0 && DirectHit(d, p, t, xna)
    ensures Checked(d, p, t, xna).Armed()
    ensures SlotDamage(d, p, t, xna)
            == [d.damage] + (if xna.rectsCollide(t.hitRect, SplashBox(d, p)) then [d.splashDamage] else [])
  {
    var h := Checked(d, p, t, xna);
    assert h == HitSlot(d, p);
    assert SplashBox(d, h) == SplashBox(d, p);
  }

  /**
   * The frame after a projectile that does not dissipate hits a unit, it hits
   * the same unit again with direct and splash damage: with three or more
   * frames the replayed impact row is still running after the update. By
   * HitProjectileRests the pattern repeats every frame.
   */
  lemma RehitNextFrame(d: ProjectileWeaponData, p: Projectile, t: Target, budget: int, f: Frame, draw: real)
    requires p.sprite.Valid() && !d.dissipateOnHit && d.splashRadius > 0.0 && f.xna.length(Zero) == 0.0
    requires DirectHit(d, p, t, f.xna)
    requires p.lifeLeft - f.elapsed > 0 && f.xna.pointInRect(p.position, f.screen)
    requires p.sprite.framesPerAnimation >= 3
    ensures SlotDamage(d, SlotStep(d, Checked(d, p, t, f.xna), budget, f, draw), t, f.xna)
            == [d.damage] + (if f.xna.rectsCollide(t.hitRect, SplashBox(d, p)) then [d.splashDamage] else [])
  {
    var s := SlotStep(d, Checked(d, p, t, f.xna), budget, f, draw);
    HitProjectileRests(d, p, t, budget, f, draw);
    assert s.sprite == Updated(Updated(Played(p.sprite, 1), f.elapsed), f.elapsed);
    FreshRunOutlastsTwoUpdates(Played(p.sprite, 1), f.elapsed, f.elapsed);
    RestingProjectileSplashesAgain(d, s, t, f.xna);
    assert SplashBox(d, s) == SplashBox(d, p);
  }

  /** The damage one slot deals the unit: the direct hit first, then the splash. */
  function SlotDamage(d: ProjectileWeaponData, p: Projectile, t: Target, xna: XnaHelper): seq<int>
    requires p.sprite.Valid()
  {
    (if DirectHit(d, p, t, xna) then [d.damage] else [])
    + (if SplashHit(d, Checked(d, p, t, xna), t, xna) then [d.splashDamage] else [])
  }

  /** The forces one slot applies to the unit, in the same order. */
  function SlotForces(d: ProjectileWeaponData, p: Projectile, t: Target, xna: XnaHelper): seq<Force>
    requires p.sprite.Valid()
  {
    var q := Checked(d, p, t, xna);
    (if DirectHit(d, p, t, xna) then [AlongVelocity(p.velocity, d.projectileForce)] else [])
    + (if SplashHit(d, q, t, xna) then [Push(xna.directionBetween(q.position, t.center).Times(d.splashForce))] else [])
  }

  function DamageLog(d: ProjectileWeaponData, ps: seq<Projectile>, t: Target, xna: XnaHelper): seq<int>
    requires forall i :: 0 <= i < |ps| ==> ps[i].sprite.Valid()
    decreases |ps|
  {
    if ps == [] then [] else DamageLog(d, ps[..|ps| - 1], t, xna) + SlotDamage(d, ps[|ps| - 1], t, xna)
  }

  function ForceLog(d: ProjectileWeaponData, ps: seq<Projectile>, t: Target, xna: XnaHelper): seq<Force>
    requires forall i :: 0 <= i < |ps| ==> ps[i].sprite.Valid()
    decreases |ps|
  {
    if ps == [] then [] else ForceLog(d, ps[..|ps| - 1], t, xna) + SlotForces(d, ps[|ps| - 1], t, xna)
  }

  /** A slot that is neither flying nor armed neither changes nor hurts anything. */
  lemma InertSlot(d: ProjectileWeaponData, p: Projectile, t: Target, xna: XnaHelper)
    requires p.sprite.Valid() && !p.active && !p.Armed()
    ensures Checked(d, p, t, xna) == p && SlotDamage(d, p, t, xna) == [] && SlotForces(d, p, t, xna) == []
  {
  }

  /** A projectile that dissipates on hit hits at most one of the units checked in a frame. */
  lemma DissipatingHitsOnce(d: ProjectileWeaponData, p: Projectile, t1: Target, t2: Target, xna: XnaHelper)
    requires p.sprite.Valid() && d.dissipateOnHit && DirectHit(d, p, t1, xna)
    ensures !DirectHit(d, Checked(d, p, t1, xna), t2, xna)
  {
  }

  /** An armed slot stays armed through the checks of every unit in the frame: each one in range takes the splash. */
  lemma ArmedThroughChecks(d: ProjectileWeaponData, p: Projectile, t: Target, xna: XnaHelper)
    requires p.sprite.Valid() && p.Armed()
    ensures Checked(d, p, t, xna).Armed()
    ensures SplashHit(d, Checked(d, p, t, xna), t, xna) <==> xna.rectsCollide(t.hitRect, SplashBox(d, Checked(d, p, t, xna)))
  {
  }

  /**
   * Each slot contributes at most its direct hit and its splash: the unit takes
   * at most two damage entries and two forces per slot.
   */
  lemma {:induction false} LogBounds(d: ProjectileWeaponData, ps: seq<Projectile>, t: Target, xna: XnaHelper)
    requires forall i :: 0 <= i < |ps| ==> ps[i].sprite.Valid()
    ensures |DamageLog(d, ps, t, xna)| == |ForceLog(d, ps, t, xna)| <= 2 * |ps|
    decreases |ps|
  {
    if ps != [] {
      LogBounds(d, ps[..|ps| - 1], t, xna);
    }
  }

  // ---------------------------------------------------------------------------
  // The weapon

  class ProjectileWeapon {
    /** The base weapon: the firing gate and the owner. */
    const weapon: Weapon
    const data: ProjectileWeaponData
    const projectiles: array<Projectile>

    ghost predicate Valid()
      reads this, projectiles
    {
      && projectiles.Length == data.maxProjectiles
      && forall i :: 0 <= i < projectiles.Length ==> projectiles[i].sprite.Valid()
    }

    constructor (data: ProjectileWeaponData, owner: Unit)
      requires data.fireRate != 0.0
      requires data.maxProjectiles > 0
      requires data.sprite.numFrames > 0 && data.sprite.numStates > 0
      ensures Valid() && fresh(weapon) && fresh(projectiles) && this.data == data
      ensures weapon.owner == owner
      ensures weapon.Config() == WeaponConfig(FromSeconds(1.0 / data.fireRate), data.maxAmmo, data.ammoConsumption)
      ensures weapon.State() == Gate(0, data.maxAmmo, false, Zero)
      ensures forall i :: 0 <= i < projectiles.Length ==> projectiles[i] == Idle(data.sprite)
    {
      weapon := new Weapon(FromSeconds(1.0 / data.fireRate), data.maxAmmo, data.ammoConsumption, owner);
      this.data := data;
      projectiles := new Projectile[data.maxProjectiles](_ => Idle(data.sprite));
    }

    /**
     * CheckAndApplyCollision(unit): every slot in turn may hit the unit
     * directly, then splash it.
     */
    method CheckAndApplyCollision(unit: Unit, xna: XnaHelper)
      requires Valid()
      modifies projectiles, unit
      ensures Valid() && unit.center == old(unit.center)
      ensures forall i :: 0 <= i < projectiles.Length ==>
                projectiles[i] == Checked(data, old(projectiles[i]), Target(unit.center, unit.hitRect), xna)
      ensures unit.damageTaken == old(unit.damageTaken) + DamageLog(data, old(projectiles[..]), Target(unit.center, unit.hitRect), xna)
      ensures unit.forcesTaken == old(unit.forcesTaken) + ForceLog(data, old(projectiles[..]), Target(unit.center, unit.hitRect), xna)
    {
      ghost var before := projectiles[..];
      ghost var t := Target(unit.center, unit.hitRect);
      var i := 0;
      while i < projectiles.Length
        invariant 0 <= i <= projectiles.Length && Valid()
        invariant unit.center == old(unit.center)
        invariant forall j :: 0 <= j < i ==> projectiles[j] == Checked(data, before[j], t, xna)
        invariant forall j :: i <= j < projectiles.Length ==> projectiles[j] == before[j]
        invariant unit.damageTaken == old(unit.damageTaken) + DamageLog(data, before[..i], t, xna)
        invariant unit.forcesTaken == old(unit.forcesTaken) + ForceLog(data, before[..i], t, xna)
      {
        assert before[..i + 1][..i] == before[..i];
        var p := CheckSlot(projectiles[i], unit, xna);
        projectiles[i] := p;
        i := i + 1;
      }
      assert before[..i] == before;
    }

    /** One slot's part of CheckAndApplyCollision: the direct hit, then the splash. */
    method CheckSlot(p: Projectile, unit: Unit, xna: XnaHelper) returns (r: Projectile)
      requires p.sprite.Valid()
      modifies unit`damageTaken, unit`forcesTaken
      ensures r == Checked(data, p, Target(unit.center, unit.hitRect), xna)
      ensures unit.damageTaken == old(unit.damageTaken) + SlotDamage(data, p, Target(unit.center, unit.hitRect), xna)
      ensures unit.forcesTaken == old(unit.forcesTaken) + SlotForces(data, p, Target(unit.center, unit.hitRect), xna)
    {
      r := p;
      if r.active {
        var hitDetectionRect := Rectangle(Truncate(r.position.x), Truncate(r.position.y), HitWidth(data), HitHeight(data));
        if xna.rectsCollide(unit.hitRect, hitDetectionRect) {
          r := ApplyProjectileHit(r, unit);
        }
      }
      if r.splashing && r.readyToSplash {
        var size := Truncate(data.splashRadius * 2.0);
        var splashDetectionRect := Rectangle(Truncate(r.position.x), Truncate(r.position.y), size, size);
        if xna.rectsCollide(unit.hitRect, splashDetectionRect) {
          unit.ApplyDamage(data.splashDamage);
          unit.ApplyForce(Push(xna.directionBetween(r.position, unit.center).Times(data.splashForce)));
        }
      }
    }

    /** applyProjectileHit: push and damage the unit, then let the projectile dissipate or start its impact. */
    method ApplyProjectileHit(p: Projectile, unit: Unit) returns (r: Projectile)
      requires p.sprite.Valid()
      modifies unit`damageTaken, unit`forcesTaken
      ensures r == HitSlot(data, p)
      ensures unit.forcesTaken == old(unit.forcesTaken) + [AlongVelocity(p.velocity, data.projectileForce)]
      ensures unit.damageTaken == old(unit.damageTaken) + [data.damage]
    {
      unit.ApplyForce(AlongVelocity(p.velocity, data.projectileForce));
      unit.ApplyDamage(data.damage);
      r := p;
      if data.dissipateOnHit {
        r := r.(active := false);
      }
      if data.splashRadius > 0.0 {
        r := r.(readyToSplash := true, velocity := Zero, sprite := Played(r.sprite, 1));
      }
    }

    /**
     * Update(gameTime): the base weapon's cooldown and firing pulse, with
     * UpdateWeapon run on the pulse it hands over.
     */
    method Update(elapsed: int, screen: Rectangle, draws: nat -> real, xna: XnaHelper)
      requires Valid()
      modifies weapon, projectiles, weapon.owner`forcesTaken
      ensures Valid()
      ensures weapon.State() == Ticked(old(weapon.State()), elapsed)
      ensures var f := Frame(elapsed, screen, old(weapon.fireDirection), weapon.owner.center, xna);
        var budget := if old(weapon.firing) then data.projectilesPerFire else 0;
        && projectiles[..] == PoolStep(data, old(projectiles[..]), budget, f, draws)
        && weapon.owner.forcesTaken
           == old(weapon.owner.forcesTaken) + Recoils(data, f.fireDirection, Launches(data, old(projectiles[..]), budget, f))
    {
      var pulse, direction := weapon.Update(elapsed);
      UpdateWeapon(pulse, direction, elapsed, screen, draws, xna);
    }

    /**
     * UpdateWeapon: step every slot in index order; a firing weapon hands out
     * projectilesPerFire launches to the free slots, each with recoil on the owner.
     */
    method UpdateWeapon(firing: bool, fireDirection: Vector2, elapsed: int, screen: Rectangle, draws: nat -> real, xna: XnaHelper)
      requires Valid()
      modifies projectiles, weapon.owner`forcesTaken
      ensures Valid()
      ensures var f := Frame(elapsed, screen, fireDirection, weapon.owner.center, xna);
        var budget := if firing then data.projectilesPerFire else 0;
        && projectiles[..] == PoolStep(data, old(projectiles[..]), budget, f, draws)
        && weapon.owner.forcesTaken
           == old(weapon.owner.forcesTaken) + Recoils(data, fireDirection, Launches(data, old(projectiles[..]), budget, f))
    {
      var projectilesToSpawn := if firing then data.projectilesPerFire else 0;
      StepPool(projectilesToSpawn, Frame(elapsed, screen, fireDirection, weapon.owner.center, xna), draws);
    }

    /** UpdateWeapon's loop, with the launch budget and the frame it reads. */
    method StepPool(budget: int, f: Frame, draws: nat -> real)
      requires Valid() && f.ownerCenter == weapon.owner.center
      modifies projectiles, weapon.owner`forcesTaken
      ensures Valid()
      ensures projectiles[..] == PoolStep(data, old(projectiles[..]), budget, f, draws)
      ensures weapon.owner.forcesTaken
              == old(weapon.owner.forcesTaken) + Recoils(data, f.fireDirection, Launches(data, old(projectiles[..]), budget, f))
    {
      ghost var before := projectiles[..];
      ghost var after := PoolStep(data, before, budget, f, draws);
      var projectilesToSpawn := budget;
      var i := 0;
      while i < projectiles.Length
        invariant 0 <= i <= projectiles.Length && Valid()
        invariant weapon.owner.center == f.ownerCenter
        invariant forall j :: 0 <= j < i ==> projectiles[j] == after[j]
        invariant forall j :: i <= j < projectiles.Length ==> projectiles[j] == before[j]
        invariant projectilesToSpawn == budget - Launches(data, before[..i], budget, f)
        invariant weapon.owner.forcesTaken
                  == old(weapon.owner.forcesTaken) + Recoils(data, f.fireDirection, Launches(data, before[..i], budget, f))
      {
        LaunchesStep(data, before, budget, f, i);
        PoolStepAt(data, before, budget, f, draws, i);
        assert projectiles[i] == before[i];
        ghost var n := Launches(data, before[..i], budget, f);
        var launched := StepAt(i, projectilesToSpawn, f, draws(i));
        if launched {
          projectilesToSpawn := projectilesToSpawn - 1;
          RecoilsGrow(data, f.fireDirection, n);
        }
        i := i + 1;
      }
      assert before[..i] == before;
      assert projectiles[..] == after;
    }

    /** Slot i's turn in UpdateWeapon's loop, recoil included. */
    method StepAt(i: int, projectilesToSpawn: int, f: Frame, draw: real) returns (launched: bool)
      requires Valid() && 0 <= i < projectiles.Length && f.ownerCenter == weapon.owner.center
      modifies projectiles, weapon.owner`forcesTaken
      ensures Valid()
      ensures projectiles[i] == SlotStep(data, old(projectiles[i]), projectilesToSpawn, f, draw)
      ensures forall j :: 0 <= j < projectiles.Length && j != i ==> projectiles[j] == old(projectiles[j])
      ensures launched == (Free(data, old(projectiles[i]), f) && projectilesToSpawn > 0)
      ensures weapon.owner.forcesTaken == old(weapon.owner.forcesTaken) + (if launched then [Recoil(data, f.fireDirection)] else [])
    {
      var p;
      p, launched := StepSlot(projectiles[i], projectilesToSpawn, f, draw);
      if launched {
        weapon.owner.ApplyForce(Push(f.fireDirection.Times(-data.recoil)));
      }
      projectiles[i] := p;
    }

    /** The body of UpdateWeapon's loop for one slot; `launched` tells whether it took a launch. */
    method StepSlot(p: Projectile, projectilesToSpawn: int, f: Frame, draw: real)
      returns (r: Projectile, launched: bool)
      requires p.sprite.Valid() && f.ownerCenter == weapon.owner.center
      ensures r == SlotStep(data, p, projectilesToSpawn, f, draw)
      ensures launched == (Free(data, p, f) && projectilesToSpawn > 0)
    {
      var elapsed, screen, fireDirection, xna := f.elapsed, f.screen, f.fireDirection, f.xna;
      r := p;
      if r.readyToSplash && r.splashing {
        r := r.(readyToSplash := false);
      }
      r := r.(splashing := r.readyToSplash || r.splashing);
      if r.active {
        if xna.length(r.velocity) != 0.0 {
          r := r.(velocity := r.velocity.Plus(r.velocity.Times(data.projectileAcceleration / xna.length(r.velocity))));
        }
        r := r.(position := r.position.Plus(r.velocity.Times(Seconds(elapsed))));
        r := r.(lifeLeft := r.lifeLeft - elapsed);
        r := r.(sprite := Updated(r.sprite, elapsed));
        if r.lifeLeft <= 0 || !xna.pointInRect(r.position, screen) {
          r := r.(active := false);
        }
      }
      launched := false;
      if r.splashing {
        var sprite := Updated(r.sprite, elapsed);
        r := r.(sprite := sprite, splashing := !sprite.animationOver);
      } else if !r.active {
        if projectilesToSpawn > 0 {
          r := r.(active := true, splashing := false, readyToSplash := false);
          var angle := xna.radiansFromVector(fireDirection);
          angle := xna.randomAngle(angle, ToRadians(data.projectileSpread), draw);
          r := r.(angle := angle, lifeLeft := data.projectileLife, position := weapon.owner.center);
          r := r.(velocity := xna.vectorFromAngle(angle).Times(data.projectileSpeed));
          r := r.(sprite := AfterReset(r.sprite));
          launched := true;
        }
      }
    }
  }
}
