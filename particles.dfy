/**
 * The particle emitter's bookkeeping: the list of live particles, the
 * removal of expired ones, and the rule that decides how many particles a
 * Spawn call appends. A particle is modelled by its lifetime, its age and its
 * rotation; its position, velocity and scale are not modelled.
 */
module Particles {
  import opened TimeSpans
  import opened Xna

  datatype Particle = Particle(lifeTime: int, timeAlive: int, angle: real)
  {
    /** The removal test of Update, made on the particle as it is on entry. */
    predicate Expired()
    {
      lifeTime < timeAlive
    }
  }

  /** The part of the effect's configuration record this model uses. */
  datatype ParticleEffectData = ParticleEffectData(
    spawnRate: int,
    particleLife: int,
    particleLifeVariance: real,
    particleRotation: real,
    startColor: Color,
    endColor: Color,
    reversed: bool)

  /** `baseValue` perturbed by a fraction `variance` of itself, given a draw from [0, 1). */
  function ApplyVariance(baseValue: real, variance: real, draw: real): real
  {
    baseValue + baseValue * variance * (1.0 - 2.0 * draw)
  }

  /** A draw from [0, 1) keeps a non-negative value within the fraction `variance` of itself. */
  lemma VarianceBounds(baseValue: real, variance: real, draw: real)
    requires 0.0 <= baseValue && 0.0 <= variance && 0.0 <= draw < 1.0
    ensures baseValue - baseValue * variance < ApplyVariance(baseValue, variance, draw) || baseValue * variance == 0.0
    ensures ApplyVariance(baseValue, variance, draw) <= baseValue + baseValue * variance
  {
    var spread := baseValue * variance;
    assert 0.0 <= spread;
    assert baseValue * variance * (1.0 - 2.0 * draw) == spread * (1.0 - 2.0 * draw);
    assert spread * (1.0 - 2.0 * draw) <= spread;
    assert spread > 0.0 ==> -spread < spread * (1.0 - 2.0 * draw);
  }

  /** The particle after one Update: older by `elapsed`, turned by `turn`. */
  function Aged(p: Particle, elapsed: int, turn: real): Particle
  {
    p.(timeAlive := p.timeAlive + elapsed, angle := p.angle + turn)
  }

  /** The particles an Update keeps, aged, in their original order. */
  function Survivors(ps: seq<Particle>, elapsed: int, turn: real): (r: seq<Particle>)
    ensures |r| <= |ps|
  {
    if ps == [] then []
    else (if ps[0].Expired() then [] else [Aged(ps[0], elapsed, turn)]) + Survivors(ps[1..], elapsed, turn)
  }

  /** Removal works particle by particle: the survivors of a concatenation are the concatenated survivors. */
  lemma {:induction false} SurvivorsAppend(a: seq<Particle>, b: seq<Particle>, elapsed: int, turn: real)
    ensures Survivors(a + b, elapsed, turn) == Survivors(a, elapsed, turn) + Survivors(b, elapsed, turn)
    decreases |a|
  {
    if a == [] {
      assert a + b == b;
    } else {
      assert (a + b)[0] == a[0];
      assert (a + b)[1..] == a[1..] + b;
      SurvivorsAppend(a[1..], b, elapsed, turn);
    }
  }

  /** A particle survives exactly when it had not expired, and a survivor is an original particle aged by `elapsed`. */
  lemma {:induction false} SurvivorsMembership(ps: seq<Particle>, elapsed: int, turn: real, q: Particle)
    ensures q in Survivors(ps, elapsed, turn)
            <==> exists i :: 0 <= i < |ps| && !ps[i].Expired() && q == Aged(ps[i], elapsed, turn)
    decreases |ps|
  {
    if ps != [] {
      SurvivorsMembership(ps[1..], elapsed, turn, q);
      if q in Survivors(ps[1..], elapsed, turn) {
        var i :| 0 <= i < |ps[1..]| && !ps[1..][i].Expired() && q == Aged(ps[1..][i], elapsed, turn);
        assert ps[i + 1] == ps[1..][i];
      }
      if exists i :: 0 <= i < |ps| && !ps[i].Expired() && q == Aged(ps[i], elapsed, turn) {
        var i :| 0 <= i < |ps| && !ps[i].Expired() && q == Aged(ps[i], elapsed, turn);
        if i > 0 {
          assert ps[1..][i - 1] == ps[i];
        }
      }
    }
  }

  /** Update keeps the count exactly when no particle has expired, and otherwise shrinks it. */
  lemma {:induction false} SurvivorsCount(ps: seq<Particle>, elapsed: int, turn: real)
    ensures |Survivors(ps, elapsed, turn)| == |ps| <==> forall i :: 0 <= i < |ps| ==> !ps[i].Expired()
    decreases |ps|
  {
    if ps != [] {
      SurvivorsCount(ps[1..], elapsed, turn);
      assert forall i :: 1 <= i < |ps| ==> ps[i] == ps[1..][i - 1];
    }
  }

  /** The fractional number of particles one Spawn call asks for. */
  function SpawnAmount(spawnRate: int, time: int, multiplier: real): real
  {
    multiplier * (spawnRate as real * Seconds(time))
  }

  /** How many times Spawn's loop `for (i = 0; i < (int)k; i++)` runs. */
  function WholeParticles(k: real): (n: nat)
    ensures 0.0 <= k ==> n as real <= k < n as real + 1.0
    ensures k < 1.0 ==> n == 0
  {
    if Truncate(k) < 0 then 0 else Truncate(k)
  }

  /** The countdown after Spawn subtracts the fractional part of `k`, taken as seconds. */
  function CountdownAfter(countdown: int, k: real): int
  {
    countdown - FromSeconds(k - Truncate(k) as real)
  }

  /**
   * A call that asks for less than one particle, but for more than 1/spawnRate
   * plus a millisecond taken as seconds, subtracts more than the countdown can
   * hold after its restart at 1/spawnRate seconds: no whole particle is due,
   * yet the countdown drops below zero, so every such call emits one particle.
   */
  lemma OneParticlePerCall(spawnRate: int, time: int, multiplier: real, countdown: int)
    requires spawnRate > 0 && countdown <= FromSeconds(1.0 / spawnRate as real)
    requires 1.0 / spawnRate as real + 0.001 <= SpawnAmount(spawnRate, time, multiplier) < 1.0
    ensures WholeParticles(SpawnAmount(spawnRate, time, multiplier)) == 0
    ensures CountdownAfter(countdown, SpawnAmount(spawnRate, time, multiplier)) < 0
  {
    var k := SpawnAmount(spawnRate, time, multiplier);
    var period := 1.0 / spawnRate as real;
    assert 0.0 < period;
    assert Truncate(k) == 0;
    assert (period + 0.001) * TicksPerSecond as real == period * TicksPerSecond as real + 10000.0;
    assert FromSeconds(k) as real >= period * TicksPerSecond as real + 5000.0;
  }

  class ParticleEffect {
    const spawnRate: int
    const particleLife: int
    const particleLifeVariance: real
    /** Radians per second. */
    const rotationSpeed: real
    const reversed: bool
    const startColor: Color
    const endColor: Color

    var tillNextParticleSpawn: int
    var particles: seq<Particle>

    ghost predicate Valid()
    {
      spawnRate != 0
    }

    constructor (data: ParticleEffectData)
      requires data.spawnRate != 0 && data.particleLife != 0
      ensures Valid()
      ensures particles == [] && tillNextParticleSpawn == FromSeconds(1.0 / data.spawnRate as real)
      ensures spawnRate == data.spawnRate && particleLife == data.particleLife
      ensures particleLifeVariance == data.particleLifeVariance
      ensures rotationSpeed == ToRadians(data.particleRotation / Seconds(data.particleLife))
      ensures reversed == data.reversed
      ensures data.reversed ==> startColor == data.endColor && endColor == data.startColor
      ensures !data.reversed ==> startColor == data.startColor && endColor == data.endColor
    {
      particleLife := data.particleLife;
      particleLifeVariance := data.particleLifeVariance;
      rotationSpeed := ToRadians(data.particleRotation / Seconds(data.particleLife));
      if data.reversed {
        startColor := data.endColor;
        endColor := data.startColor;
        reversed := true;
      } else {
        startColor := data.startColor;
        endColor := data.endColor;
        reversed := false;
      }
      spawnRate := data.spawnRate;
      tillNextParticleSpawn := FromSeconds(1.0 / data.spawnRate as real);
      particles := [];
    }

    /** How far one Update turns a particle: forward, or backward in reversed mode. */
    function Turn(elapsed: int): real
    {
      if reversed then -(rotationSpeed * Seconds(elapsed)) else rotationSpeed * Seconds(elapsed)
    }

    /**
     * newParticle, given the random draw its lifetime variance uses. A reversed
     * particle starts at the rotation it would have at the end of its life.
     */
    function NewParticle(draw: real): (p: Particle)
      ensures p.timeAlive == 0
      ensures p.lifeTime == FromSeconds(ApplyVariance(Seconds(particleLife), particleLifeVariance, draw))
      ensures !reversed ==> p.angle == 0.0
      ensures reversed ==> p.angle == rotationSpeed * Seconds(p.lifeTime)
    {
      var lifeTime := FromSeconds(ApplyVariance(Seconds(particleLife), particleLifeVariance, draw));
      Particle(lifeTime, 0, if reversed then rotationSpeed * Seconds(lifeTime) else 0.0)
    }

    /**
     * A new particle lives the configured life, give or take the fraction
     * `particleLifeVariance` of it, and at most half a millisecond of rounding.
     */
    lemma LifetimeBounds(draw: real)
      requires 0.0 <= draw < 1.0 && 0.0 <= particleLifeVariance && 0 <= particleLife
      ensures var t := NewParticle(draw).lifeTime as real;
        var spread := particleLife as real * particleLifeVariance;
        particleLife as real - spread - 5000.0 <= t <= particleLife as real + spread + 5000.0
    {
      var life := particleLife as real;
      var sec := Seconds(particleLife);
      var v := ApplyVariance(sec, particleLifeVariance, draw);
      VarianceBounds(sec, particleLifeVariance, draw);
      assert sec * TicksPerSecond as real == life;
      assert (sec - sec * particleLifeVariance) * TicksPerSecond as real == life - life * particleLifeVariance;
      assert (sec + sec * particleLifeVariance) * TicksPerSecond as real == life + life * particleLifeVariance;
      assert sec - sec * particleLifeVariance <= v <= sec + sec * particleLifeVariance;
      assert (sec - sec * particleLifeVariance) * TicksPerSecond as real <= v * TicksPerSecond as real;
      assert v * TicksPerSecond as real <= (sec + sec * particleLifeVariance) * TicksPerSecond as real;
    }

    /** `count` new particles, the i-th built from draw i. */
    function NewParticles(count: nat, draws: nat -> real): (r: seq<Particle>)
      ensures |r| == count
      ensures forall i :: 0 <= i < count ==> r[i] == NewParticle(draws(i))
    {
      seq(count, (i: int) requires 0 <= i => NewParticle(draws(i)))
    }

    /**
     * Update: going from the last particle to the first, remove every expired
     * particle and age every other one.
     */
    method Update(elapsed: int)
      modifies this`particles
      ensures particles == Survivors(old(particles), elapsed, Turn(elapsed))
    {
      ghost var before := particles;
      var turn := Turn(elapsed);
      var i := |particles| - 1;
      while i >= 0
        invariant -1 <= i < |before|
        invariant particles == before[..i + 1] + Survivors(before[i + 1..], elapsed, turn)
        decreases i
      {
        var particle := particles[i];
        assert particle == before[i];
        assert before[i..][1..] == before[i + 1..];
        if particle.Expired() {
          particles := particles[..i] + particles[i + 1..];
        } else {
          particles := particles[..i] + [Aged(particle, elapsed, turn)] + particles[i + 1..];
        }
        assert before[..i + 1][..i] == before[..i];
        i := i - 1;
      }
      assert before[0..] == before;
    }

    /**
     * Spawn(position, angle, time, sourceVelocity, multiplier), given one random
     * draw per new particle: the whole part of the requested count is appended at
     * once, and the fractional part is subtracted from the countdown; a countdown
     * that drops below zero appends one particle more and restarts.
     */
    method Spawn(time: int, multiplier: real, draws: nat -> real)
      requires Valid()
      modifies this`particles, this`tillNextParticleSpawn
      ensures var k := SpawnAmount(spawnRate, time, multiplier);
        var countdown := CountdownAfter(old(tillNextParticleSpawn), k);
        && particles == old(particles) + NewParticles(WholeParticles(k) + (if countdown < 0 then 1 else 0), draws)
        && tillNextParticleSpawn == (if countdown < 0 then FromSeconds(1.0 / spawnRate as real) else countdown)
    {
      ghost var before := particles;
      var particlesToSpawn := SpawnAmount(spawnRate, time, multiplier);
      var whole := Truncate(particlesToSpawn);
      var i := 0;
      while i < whole
        invariant 0 <= i <= WholeParticles(particlesToSpawn)
        invariant particles == before + NewParticles(i, draws)
        invariant tillNextParticleSpawn == old(tillNextParticleSpawn)
        decreases whole - i
      {
        particles := particles + [NewParticle(draws(i))];
        assert NewParticles(i + 1, draws) == NewParticles(i, draws) + [NewParticle(draws(i))];
        i := i + 1;
      }
      assert i == WholeParticles(particlesToSpawn);
      tillNextParticleSpawn := tillNextParticleSpawn - FromSeconds(particlesToSpawn - whole as real);
      assert tillNextParticleSpawn == CountdownAfter(old(tillNextParticleSpawn), particlesToSpawn);
      if tillNextParticleSpawn < 0 {
        particles := particles + [NewParticle(draws(i))];
        assert NewParticles(i + 1, draws) == NewParticles(i, draws) + [NewParticle(draws(i))];
        tillNextParticleSpawn := FromSeconds(1.0 / spawnRate as real);
      }
    }
  }

  /**
   * One Spawn call appends floor(k) or floor(k) + 1 particles for a
   * non-negative request k, and the extra one exactly when the countdown,
   * less the fractional part of k, falls below zero.
   */
  lemma SpawnCount(countdown: int, k: real)
    requires 0.0 <= k
    ensures var n := WholeParticles(k) + (if CountdownAfter(countdown, k) < 0 then 1 else 0);
      n == k.Floor || n == k.Floor + 1
    ensures CountdownAfter(countdown, k) < 0 <==> countdown < FromSeconds(k - k.Floor as real)
  {
    assert Truncate(k) == k.Floor;
  }
}
