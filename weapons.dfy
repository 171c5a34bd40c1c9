/**
 * The firing gate every weapon shares: a cooldown, an ammunition count, and a
 * firing flag that Trigger raises and Update lowers again. What a weapon does
 * with the flag in between (launching projectiles) belongs to the concrete
 * weapon; Update hands the flag to it as its result.
 */
module Weapons {
  import opened Xna
  import opened Units

  /** The constructor arguments that stay fixed. */
  datatype WeaponConfig = WeaponConfig(fireDelay: int, maxAmmo: int, ammoConsumption: int)

  /** The fields Trigger and Update change. */
  datatype Gate = Gate(tillNextFire: int, currentAmmo: int, firing: bool, fireDirection: Vector2)

  /** A shot is allowed when enough ammunition is left and the cooldown has run out. */
  predicate CanFire(cfg: WeaponConfig, g: Gate)
  {
    g.currentAmmo >= cfg.ammoConsumption && g.tillNextFire <= 0
  }

  /** Trigger(firePosition, targetPosition). */
  function Pulled(cfg: WeaponConfig, g: Gate, firePosition: Vector2, targetPosition: Vector2, xna: XnaHelper): (r: Gate)
    ensures CanFire(cfg, g) ==> r == Gate(cfg.fireDelay, g.currentAmmo - cfg.ammoConsumption, true,
                                          xna.directionBetween(firePosition, targetPosition))
    ensures !CanFire(cfg, g) ==> r == g
    ensures g.currentAmmo >= 0 && cfg.ammoConsumption >= 0 ==> r.currentAmmo >= 0
    ensures cfg.ammoConsumption >= 0 ==> r.currentAmmo <= g.currentAmmo
    ensures cfg.ammoConsumption == 0 ==> r.currentAmmo == g.currentAmmo
  {
    if g.currentAmmo >= cfg.ammoConsumption && g.tillNextFire <= 0 then
      Gate(cfg.fireDelay, g.currentAmmo - cfg.ammoConsumption, true, xna.directionBetween(firePosition, targetPosition))
    else
      g
  }

  /** The gate part of Update(gameTime): the cooldown runs down and the flag is lowered. */
  function Ticked(g: Gate, elapsed: int): (r: Gate)
    ensures r.tillNextFire == g.tillNextFire - elapsed && !r.firing
    ensures r.currentAmmo == g.currentAmmo && r.fireDirection == g.fireDirection
  {
    g.(tillNextFire := g.tillNextFire - elapsed, firing := false)
  }

  /** The calls a game makes on a weapon's gate. */
  datatype WeaponCall = Pull(firePosition: Vector2, targetPosition: Vector2) | Tick(elapsed: int)

  function Step(cfg: WeaponConfig, g: Gate, call: WeaponCall, xna: XnaHelper): Gate
  {
    match call
    case Pull(from, to) => Pulled(cfg, g, from, to, xna)
    case Tick(elapsed) => Ticked(g, elapsed)
  }

  /** The gate after `calls`, made in order. */
  function Replay(cfg: WeaponConfig, g: Gate, calls: seq<WeaponCall>, xna: XnaHelper): Gate
    decreases |calls|
  {
    if calls == [] then g
    else Step(cfg, Replay(cfg, g, calls[..|calls| - 1], xna), calls[|calls| - 1], xna)
  }

  /** How many of `calls` are pulls that fire. */
  function Shots(cfg: WeaponConfig, g: Gate, calls: seq<WeaponCall>, xna: XnaHelper): nat
    decreases |calls|
  {
    if calls == [] then 0
    else
      var before := calls[..|calls| - 1];
      Shots(cfg, g, before, xna)
      + (if calls[|calls| - 1].Pull? && CanFire(cfg, Replay(cfg, g, before, xna)) then 1 else 0)
  }

  /** The game time that `calls` let pass. */
  function Elapsed(calls: seq<WeaponCall>): int
    decreases |calls|
  {
    if calls == [] then 0
    else Elapsed(calls[..|calls| - 1]) + (if calls[|calls| - 1].Tick? then calls[|calls| - 1].elapsed else 0)
  }

  predicate ForwardTicks(calls: seq<WeaponCall>)
  {
    forall i :: 0 <= i < |calls| && calls[i].Tick? ==> calls[i].elapsed >= 0
  }

  function Max0(a: int): int
  {
    if a < 0 then 0 else a
  }

  /**
   * Over any sequence of calls, each shot costs `ammoConsumption` and nothing
   * else changes the ammunition, and the shots are paced by the cooldown:
   * every shot after the first waits out `fireDelay`.
   */
  lemma {:induction false} ShotBudget(cfg: WeaponConfig, g: Gate, calls: seq<WeaponCall>, xna: XnaHelper)
    ensures var r := Replay(cfg, g, calls, xna);
      r.currentAmmo == g.currentAmmo - Shots(cfg, g, calls, xna) * cfg.ammoConsumption
    ensures var r := Replay(cfg, g, calls, xna);
      Shots(cfg, g, calls, xna) * cfg.fireDelay <= Elapsed(calls) + r.tillNextFire - g.tillNextFire
    decreases |calls|
  {
    if calls != [] {
      var before := calls[..|calls| - 1];
      var last := calls[|calls| - 1];
      ShotBudget(cfg, g, before, xna);
      var h := Replay(cfg, g, before, xna);
      var n := Shots(cfg, g, before, xna);
      var r := Replay(cfg, g, calls, xna);
      assert r == Step(cfg, h, last, xna);
      if last.Pull? && CanFire(cfg, h) {
        assert Shots(cfg, g, calls, xna) == n + 1;
        assert r.tillNextFire == cfg.fireDelay && r.currentAmmo == h.currentAmmo - cfg.ammoConsumption;
        assert Elapsed(calls) == Elapsed(before);
        MulSucc(n, cfg.ammoConsumption);
        MulSucc(n, cfg.fireDelay);
      } else {
        assert Shots(cfg, g, calls, xna) == n;
        assert r.currentAmmo == h.currentAmmo;
        assert Elapsed(calls) + r.tillNextFire == Elapsed(before) + h.tillNextFire;
      }
    }
  }

  lemma MulSucc(n: int, c: int)
    ensures (n + 1) * c == n * c + c
  {
  }

  /** With forward ticks the cooldown never exceeds `fireDelay` once it starts at or below it. */
  lemma {:induction false} CooldownCapped(cfg: WeaponConfig, g: Gate, calls: seq<WeaponCall>, xna: XnaHelper)
    requires ForwardTicks(calls) && g.tillNextFire <= cfg.fireDelay
    ensures Replay(cfg, g, calls, xna).tillNextFire <= cfg.fireDelay
    decreases |calls|
  {
    if calls != [] {
      var before := calls[..|calls| - 1];
      assert ForwardTicks(before) by {
        forall i | 0 <= i < |before| && before[i].Tick?
          ensures before[i].elapsed >= 0
        {
          assert before[i] == calls[i];
        }
      }
      CooldownCapped(cfg, g, before, xna);
    }
  }

  /**
   * A weapon that starts ready (cooldown 0, as constructed) fires at most one
   * shot, plus one per `fireDelay` of elapsed game time, and never more shots
   * than its ammunition pays for.
   */
  lemma FireRateLimit(cfg: WeaponConfig, g: Gate, calls: seq<WeaponCall>, xna: XnaHelper)
    requires ForwardTicks(calls) && g.tillNextFire == 0 && 0 <= cfg.fireDelay
    ensures Shots(cfg, g, calls, xna) * cfg.fireDelay <= Elapsed(calls) + cfg.fireDelay
    ensures g.currentAmmo >= 0 && cfg.ammoConsumption > 0 ==>
              Shots(cfg, g, calls, xna) * cfg.ammoConsumption <= g.currentAmmo
  {
    ShotBudget(cfg, g, calls, xna);
    CooldownCapped(cfg, g, calls, xna);
    if g.currentAmmo >= 0 && cfg.ammoConsumption > 0 {
      AmmoNonNegative(cfg, g, calls, xna);
    }
  }

  /** Ammunition never goes negative when each shot costs a non-negative amount. */
  lemma {:induction false} AmmoNonNegative(cfg: WeaponConfig, g: Gate, calls: seq<WeaponCall>, xna: XnaHelper)
    requires g.currentAmmo >= 0 && cfg.ammoConsumption >= 0
    ensures Replay(cfg, g, calls, xna).currentAmmo >= 0
    decreases |calls|
  {
    if calls != [] {
      AmmoNonNegative(cfg, g, calls[..|calls| - 1], xna);
    }
  }

  /**
   * Right after a shot the weapon stays silent until `fireDelay` of game time
   * has passed: a pull that fires after `calls` needs `calls` to have let at
   * least the cooldown elapse. Conversely, while it stays silent the cooldown
   * is exactly what is left of `fireDelay`, so once that much game time has
   * passed a loaded weapon fires on the next pull.
   */
  lemma {:induction false} NoEarlyShot(cfg: WeaponConfig, g: Gate, calls: seq<WeaponCall>, xna: XnaHelper)
    requires ForwardTicks(calls) && g.tillNextFire == cfg.fireDelay
    ensures CanFire(cfg, Replay(cfg, g, calls, xna)) ==> Elapsed(calls) >= cfg.fireDelay
    ensures Elapsed(calls) < cfg.fireDelay ==>
              Replay(cfg, g, calls, xna).tillNextFire == cfg.fireDelay - Elapsed(calls)
              && Shots(cfg, g, calls, xna) == 0
    ensures Shots(cfg, g, calls, xna) == 0 ==>
              Replay(cfg, g, calls, xna).tillNextFire == cfg.fireDelay - Elapsed(calls)
              && Replay(cfg, g, calls, xna).currentAmmo == g.currentAmmo
    ensures Shots(cfg, g, calls, xna) == 0 && Elapsed(calls) >= cfg.fireDelay && g.currentAmmo >= cfg.ammoConsumption ==>
              CanFire(cfg, Replay(cfg, g, calls, xna))
    decreases |calls|
  {
    if calls != [] {
      var before := calls[..|calls| - 1];
      assert ForwardTicks(before) by {
        forall i | 0 <= i < |before| && before[i].Tick?
          ensures before[i].elapsed >= 0
        {
          assert before[i] == calls[i];
        }
      }
      NoEarlyShot(cfg, g, before, xna);
    }
  }

  /**
   * A weapon whose shots cost nothing never runs dry: over any calls its
   * ammunition stays as it was, so a pull fires exactly when the cooldown
   * is over.
   */
  lemma CostlessNeverRunsDry(cfg: WeaponConfig, g: Gate, calls: seq<WeaponCall>, xna: XnaHelper)
    requires cfg.ammoConsumption == 0 && g.currentAmmo >= 0
    ensures Replay(cfg, g, calls, xna).currentAmmo == g.currentAmmo
    ensures CanFire(cfg, Replay(cfg, g, calls, xna)) <==> Replay(cfg, g, calls, xna).tillNextFire <= 0
  {
    ShotBudget(cfg, g, calls, xna);
  }

  /**
   * A capacity of one round does not give infinite ammunition when a shot
   * costs at least one: the weapon fires at most once, and never again after.
   */
  lemma SingleRoundFiresOnce(cfg: WeaponConfig, g: Gate, calls: seq<WeaponCall>, xna: XnaHelper)
    requires g.currentAmmo == 1 && cfg.ammoConsumption >= 1
    ensures Shots(cfg, g, calls, xna) <= 1
    ensures Shots(cfg, g, calls, xna) == 1 ==> !CanFire(cfg, Replay(cfg, g, calls, xna))
  {
    ShotBudget(cfg, g, calls, xna);
    AmmoNonNegative(cfg, g, calls, xna);
  }

  class Weapon {
    const fireDelay: int
    const maxAmmo: int
    const ammoConsumption: int
    const owner: Unit

    var tillNextFire: int
    var currentAmmo: int
    var firing: bool
    var fireDirection: Vector2

    function Config(): WeaponConfig
    {
      WeaponConfig(fireDelay, maxAmmo, ammoConsumption)
    }

    function State(): Gate
      reads this
    {
      Gate(tillNextFire, currentAmmo, firing, fireDirection)
    }

    /** A new weapon is loaded, ready to fire, and not firing. */
    constructor (fireDelay: int, maxAmmo: int, ammoConsumption: int, owner: Unit)
      ensures Config() == WeaponConfig(fireDelay, maxAmmo, ammoConsumption) && this.owner == owner
      ensures State() == Gate(0, maxAmmo, false, Zero)
    {
      this.fireDelay := fireDelay;
      this.maxAmmo := maxAmmo;
      this.currentAmmo := maxAmmo;
      this.ammoConsumption := ammoConsumption;
      this.owner := owner;
      tillNextFire := 0;
      firing := false;
      fireDirection := Zero;
    }

    method Trigger(firePosition: Vector2, targetPosition: Vector2, xna: XnaHelper)
      modifies this
      ensures State() == Pulled(Config(), old(State()), firePosition, targetPosition, xna)
    {
      if currentAmmo >= ammoConsumption && tillNextFire <= 0 {
        firing := true;
        fireDirection := xna.directionBetween(firePosition, targetPosition);
        currentAmmo := currentAmmo - ammoConsumption;
        tillNextFire := fireDelay;
      }
    }

    /**
     * Update(gameTime) without the concrete weapon's step: returns whether a
     * shot is pending and its direction, which the concrete weapon acts on,
     * and lowers the flag.
     */
    method Update(elapsed: int) returns (pulse: bool, direction: Vector2)
      modifies this
      ensures pulse == old(firing) && direction == old(fireDirection)
      ensures State() == Ticked(old(State()), elapsed)
    {
      tillNextFire := tillNextFire - elapsed;
      pulse, direction := firing, fireDirection;
      firing := false;
    }
  }
}
