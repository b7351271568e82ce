/** The particle system's bookkeeping: a bounded list of live particles, a
    bounded pool of reset particles for reuse, and emitters that add
    particles up to their own limit. A particle is modelled by its life
    cycle only (age, life, alive); its motion, forces and rendering are not
    modelled. */
module ParticleSystems {
  import opened Wrappers

  /** A particle's life cycle. */
  datatype Particle = Particle(age: real, life: real, isAlive: bool)

  /** `reset()`: alive, age 0, life 1. */
  function Fresh(): Particle {
    Particle(0.0, 1.0, true)
  }

  /** `Particle.update(deltaTime)` on the life cycle: a dead particle is
      left alone; otherwise it ages and dies once its age reaches its life. */
  function Aged(p: Particle, deltaTime: real): Particle {
    if !p.isAlive then p
    else
      var age := p.age + deltaTime;
      if age >= p.life then p.(age := age, isAlive := false) else p.(age := age)
  }

  /** A reset particle is alive at age 0; a dead particle stays dead and
      unchanged; a live one dies exactly when its new age reaches its life. */
  lemma AgedFacts(p: Particle, deltaTime: real)
    ensures Fresh().isAlive && Fresh().age == 0.0
    ensures !p.isAlive ==> Aged(p, deltaTime) == p
    ensures p.isAlive ==> Aged(p, deltaTime).age == p.age + deltaTime && Aged(p, deltaTime).life == p.life
    ensures p.isAlive ==> (Aged(p, deltaTime).isAlive <==> p.age + deltaTime < p.life)
  {
  }

  /** `getProgress`: age over life, or 1 without a positive life. */
  function Progress(p: Particle): real {
    if p.life > 0.0 then p.age / p.life else 1.0
  }

  /** A particle that survives an update from a non-negative age has made
      progress in [0, 1). */
  lemma SurvivorProgress(p: Particle, deltaTime: real)
    requires p.isAlive && p.life > 0.0 && p.age + deltaTime >= 0.0
    requires Aged(p, deltaTime).isAlive
    ensures 0.0 <= Progress(Aged(p, deltaTime)) < 1.0
  {
    var q := Aged(p, deltaTime);
    assert q.age < q.life;
    assert Progress(q) * q.life == q.age;
  }

  /** The particles that are still alive after each has been updated, in
      their order. */
  function Survivors(ps: seq<Particle>, deltaTime: real): (r: seq<Particle>)
    ensures |r| <= |ps|
  {
    if ps == [] then []
    else
      var p := Aged(ps[0], deltaTime);
      (if p.isAlive then [p] else []) + Survivors(ps[1..], deltaTime)
  }

  /** How many particles die (or are dead) after the update. */
  function DeadCount(ps: seq<Particle>, deltaTime: real): nat {
    if ps == [] then 0
    else (if Aged(ps[0], deltaTime).isAlive then 0 else 1) + DeadCount(ps[1..], deltaTime)
  }

  /** Every particle is either kept or counted as removed, every survivor
      is alive, and the survivors are exactly the updated particles that
      are alive. */
  lemma {:induction false} SurvivorsFacts(ps: seq<Particle>, deltaTime: real)
    ensures |Survivors(ps, deltaTime)| + DeadCount(ps, deltaTime) == |ps|
    ensures forall k :: 0 <= k < |Survivors(ps, deltaTime)| ==> Survivors(ps, deltaTime)[k].isAlive
    ensures forall i :: 0 <= i < |ps| && Aged(ps[i], deltaTime).isAlive ==> Aged(ps[i], deltaTime) in Survivors(ps, deltaTime)
  {
    if ps != [] {
      SurvivorsFacts(ps[1..], deltaTime);
      assert forall i :: 1 <= i < |ps| ==> ps[i] == ps[1..][i - 1];
    }
  }

  /** The pool's length after `k` calls of `releaseParticle` from length
      `n`: one more each time while pooling is on and the pool is below its
      size. */
  function Refilled(n: nat, k: nat, poolSize: int, pooling: bool): (r: nat)
    ensures r >= n
    ensures pooling && n < poolSize ==> r <= poolSize
    ensures !pooling || n >= poolSize ==> r == n
  {
    if !pooling || n >= poolSize then n
    else if n + k < poolSize then n + k else poolSize
  }

  /** One more release adds one more particle while there is room. */
  lemma RefilledStep(n: nat, k: nat, poolSize: int, pooling: bool)
    ensures Refilled(n, k + 1, poolSize, pooling) == Refilled(if pooling && n < poolSize then n + 1 else n, k, poolSize, pooling)
  {
  }

  /** One step of the backward removal loop at position `i`, with the
      particles after `i` already updated: removing the dead particle, or
      writing back the aged live one, extends the processed suffix by one. */
  lemma RemovalStep(all: seq<Particle>, i: nat, deltaTime: real, ps: seq<Particle>)
    requires i < |all| && ps == all[..i + 1] + Survivors(all[i + 1..], deltaTime)
    ensures i < |ps| && ps[i] == all[i]
    ensures DeadCount(all[i..], deltaTime)
      == (if Aged(all[i], deltaTime).isAlive then 0 else 1) + DeadCount(all[i + 1..], deltaTime)
    ensures !Aged(all[i], deltaTime).isAlive ==>
      ps[..i] + ps[i + 1..] == all[..i] + Survivors(all[i..], deltaTime)
    ensures Aged(all[i], deltaTime).isAlive ==>
      ps[..i] + [Aged(all[i], deltaTime)] + ps[i + 1..] == all[..i] + Survivors(all[i..], deltaTime)
  {
    var rest := all[i + 1..];
    SplitAt(all[..i + 1] + Survivors(rest, deltaTime), all, i, Survivors(rest, deltaTime));
    assert all[i..] == [all[i]] + rest;
    StepAt(all[i..], all[i], rest, deltaTime);
    var p := Aged(all[i], deltaTime);
    if p.isAlive {
      assert ps[..i] + [p] + ps[i + 1..] == all[..i] + ([p] + Survivors(rest, deltaTime));
    }
  }

  /** The parts of `all[..i + 1] + tail` around position `i`. */
  lemma SplitAt(ps: seq<Particle>, all: seq<Particle>, i: nat, tail: seq<Particle>)
    requires i < |all| && ps == all[..i + 1] + tail
    ensures i < |ps| && ps[..i] == all[..i] && ps[i] == all[i] && ps[i + 1..] == tail
  {
    assert all[..i + 1] == all[..i] + [all[i]];
  }

  /** `Survivors` and `DeadCount` of a list with head `h` and tail `rest`. */
  lemma StepAt(s: seq<Particle>, h: Particle, rest: seq<Particle>, deltaTime: real)
    requires s == [h] + rest
    ensures Survivors(s, deltaTime)
      == (if Aged(h, deltaTime).isAlive then [Aged(h, deltaTime)] else []) + Survivors(rest, deltaTime)
    ensures DeadCount(s, deltaTime) == (if Aged(h, deltaTime).isAlive then 0 else 1) + DeadCount(rest, deltaTime)
  {
    assert s[0] == h && s[1..] == rest;
  }

  /** Every pooled particle is a reset one. */
  predicate AllFresh(pool: seq<Particle>) {
    forall k :: 0 <= k < |pool| ==> pool[k] == Fresh()
  }

  /** How many particles the front trimming drops to bring the list down to
      `max`. */
  function Overflow(n: nat, max: nat): (d: nat)
    ensures d <= n
    ensures n - d == (if n < max then n else max)
  {
    if n <= max then 0 else n - max
  }

  /** The options a system is created with; None is an absent option. */
  datatype SystemConfig = SystemConfig(active: Option<bool>, maxParticles: Option<int>,
                                       useObjectPooling: Option<bool>, poolSize: Option<int>)

  /** `value || fallback` for a number. */
  function OrDefault(value: Option<int>, fallback: int): int {
    if value.None? || value.value == 0 then fallback else value.value
  }

  class ParticleSystem {
    var particles: seq<Particle>
    var pool: seq<Particle>
    var maxParticles: int
    const poolSize: int
    const useObjectPooling: bool
    var isActive: bool

    /** The pool holds only reset particles, stays empty without pooling,
        and never grows past its size. */
    predicate Valid()
      reads this
    {
      AllFresh(pool) && (!useObjectPooling ==> pool == []) && (pool == [] || |pool| <= poolSize)
    }

    /** `new ParticleSystem(id, config, engine)` followed by
        `initializePool`. */
    constructor(config: SystemConfig)
      ensures isActive == (config.active != Some(false))
      ensures maxParticles == OrDefault(config.maxParticles, 1000)
      ensures poolSize == OrDefault(config.poolSize, 100)
      ensures useObjectPooling == (config.useObjectPooling != Some(false))
      ensures particles == []
      ensures |pool| == (if useObjectPooling && poolSize > 0 then poolSize else 0)
      ensures Valid()
    {
      particles := [];
      isActive := config.active != Some(false);
      maxParticles := OrDefault(config.maxParticles, 1000);
      poolSize := OrDefault(config.poolSize, 100);
      useObjectPooling := config.useObjectPooling != Some(false);
      pool := [];
      new;
      InitializePool();
    }

    /** `initializePool`: `poolSize` reset particles when pooling is on. */
    method InitializePool()
      requires pool == []
      modifies this
      ensures |pool| == (if useObjectPooling && poolSize > 0 then poolSize else 0) && AllFresh(pool)
      ensures particles == old(particles) && maxParticles == old(maxParticles) && isActive == old(isActive)
    {
      if useObjectPooling {
        var filled := [];
        var i := 0;
        while i < poolSize
          invariant 0 <= i && (poolSize > 0 ==> i <= poolSize) && (poolSize <= 0 ==> i == 0)
          invariant |filled| == i && AllFresh(filled)
          decreases poolSize - i
        {
          filled := filled + [Fresh()];
          i := i + 1;
        }
        pool := filled;
      }
    }

    /** `getParticle`: the last pooled particle, or a new one; either way a
        reset particle. */
    method GetParticle() returns (p: Particle)
      requires Valid()
      modifies this
      ensures p == Fresh()
      ensures useObjectPooling && old(pool) != [] ==> pool == old(pool)[..|old(pool)| - 1]
      ensures !(useObjectPooling && old(pool) != []) ==> pool == old(pool)
      ensures particles == old(particles) && maxParticles == old(maxParticles) && isActive == old(isActive)
      ensures Valid()
    {
      if useObjectPooling && |pool| > 0 {
        p := pool[|pool| - 1];
        pool := pool[..|pool| - 1];
        return;
      }
      p := Fresh();
    }

    /** `releaseParticle`: reset it and pool it while the pool has room. */
    method ReleaseParticle(p: Particle)
      requires Valid()
      modifies this
      ensures |pool| == Refilled(|old(pool)|, 1, poolSize, useObjectPooling)
      ensures particles == old(particles) && maxParticles == old(maxParticles) && isActive == old(isActive)
      ensures Valid()
    {
      if useObjectPooling && |pool| < poolSize {
        pool := pool + [Fresh()];
      }
    }

    /** `addParticle`: appended only below the limit. */
    method AddParticle(p: Particle)
      modifies this
      ensures particles == if |old(particles)| < maxParticles then old(particles) + [p] else old(particles)
      ensures pool == old(pool) && maxParticles == old(maxParticles) && isActive == old(isActive)
    {
      if |particles| < maxParticles {
        particles := particles + [p];
      }
    }

    /** Drop particles from the front, releasing each, until the list is
        within the limit. */
    method Trim()
      requires Valid() && maxParticles >= 0
      modifies this
      ensures maxParticles == old(maxParticles) && isActive == old(isActive)
      ensures particles == old(particles)[Overflow(|old(particles)|, maxParticles)..]
      ensures |pool| == Refilled(|old(pool)|, Overflow(|old(particles)|, maxParticles), poolSize, useObjectPooling)
      ensures Valid()
    {
      ghost var dropped := 0;
      while |particles| > maxParticles
        invariant Valid()
        invariant maxParticles == old(maxParticles) && isActive == old(isActive)
        invariant dropped <= |old(particles)| && particles == old(particles)[dropped..]
        invariant |pool| == Refilled(|old(pool)|, dropped, poolSize, useObjectPooling)
        invariant dropped <= Overflow(|old(particles)|, maxParticles)
        decreases |particles|
      {
        var particle := particles[0];
        particles := particles[1..];
        RefilledStep(|old(pool)|, dropped, poolSize, useObjectPooling);
        ReleaseParticle(particle);
        dropped := dropped + 1;
      }
    }

    /** `update(deltaTime)` without the emitters and force fields: each
        particle is updated, the dead ones are released and removed, and the
        list is trimmed to the limit from the front. */
    method Update(deltaTime: real)
      requires Valid() && maxParticles >= 0
      modifies this
      ensures maxParticles == old(maxParticles) && isActive == old(isActive)
      ensures !old(isActive) ==> particles == old(particles) && pool == old(pool)
      ensures old(isActive) ==>
        var kept := Survivors(old(particles), deltaTime);
        && particles == kept[Overflow(|kept|, maxParticles)..]
        && |pool| == Refilled(Refilled(|old(pool)|, DeadCount(old(particles), deltaTime), poolSize, useObjectPooling),
                              Overflow(|kept|, maxParticles), poolSize, useObjectPooling)
      ensures Valid()
    {
      if !isActive {
        return;
      }
      RemoveDead(deltaTime);
      Trim();
    }

    /** The backward removal loop of `update`. */
    method RemoveDead(deltaTime: real)
      requires Valid()
      modifies this
      ensures particles == Survivors(old(particles), deltaTime)
      ensures |pool| == Refilled(|old(pool)|, DeadCount(old(particles), deltaTime), poolSize, useObjectPooling)
      ensures maxParticles == old(maxParticles) && isActive == old(isActive)
      ensures Valid()
    {
      ghost var all := particles;
      var i := |particles|;
      while i > 0
        invariant 0 <= i <= |all|
        invariant particles == all[..i] + Survivors(all[i..], deltaTime)
        invariant |pool| == Refilled(|old(pool)|, DeadCount(all[i..], deltaTime), poolSize, useObjectPooling)
        invariant Valid()
        invariant maxParticles == old(maxParticles) && isActive == old(isActive)
      {
        i := i - 1;
        RemoveDeadAt(all, i, deltaTime, |old(pool)|);
      }
      assert all[0..] == all;
    }

    /** One iteration of the removal loop, at index `k`: the particle is
        updated, and released and spliced out when it is dead. */
    method RemoveDeadAt(ghost all: seq<Particle>, k: nat, deltaTime: real, ghost pool0: nat)
      requires Valid() && k < |all|
      requires particles == all[..k + 1] + Survivors(all[k + 1..], deltaTime)
      requires |pool| == Refilled(pool0, DeadCount(all[k + 1..], deltaTime), poolSize, useObjectPooling)
      modifies this
      ensures particles == all[..k] + Survivors(all[k..], deltaTime)
      ensures |pool| == Refilled(pool0, DeadCount(all[k..], deltaTime), poolSize, useObjectPooling)
      ensures maxParticles == old(maxParticles) && isActive == old(isActive)
      ensures Valid()
    {
      RemovalStep(all, k, deltaTime, particles);
      var particle := Aged(particles[k], deltaTime);
      if !particle.isAlive {
        RefilledStep(pool0, DeadCount(all[k + 1..], deltaTime), poolSize, useObjectPooling);
        ReleaseParticle(particle);
        particles := particles[..k] + particles[k + 1..];
      } else {
        particles := particles[..k] + [particle] + particles[k + 1..];
      }
    }

    /** `clear`: every particle released, the list emptied. */
    method Clear()
      requires Valid()
      modifies this
      ensures particles == []
      ensures |pool| == Refilled(|old(pool)|, |old(particles)|, poolSize, useObjectPooling)
      ensures maxParticles == old(maxParticles) && isActive == old(isActive)
      ensures Valid()
    {
      var i := 0;
      while i < |particles|
        invariant 0 <= i <= |particles| && particles == old(particles)
        invariant |pool| == Refilled(|old(pool)|, i, poolSize, useObjectPooling)
        invariant Valid()
        invariant maxParticles == old(maxParticles) && isActive == old(isActive)
      {
        RefilledStep(|old(pool)|, i, poolSize, useObjectPooling);
        ReleaseParticle(particles[i]);
        i := i + 1;
      }
      particles := [];
    }

    /** `setMaxParticles`: the new limit, then the front trimming. */
    method SetMaxParticles(max: nat)
      requires Valid()
      modifies this
      ensures maxParticles == max
      ensures particles == old(particles)[Overflow(|old(particles)|, max)..]
      ensures |pool| == Refilled(|old(pool)|, Overflow(|old(particles)|, max), poolSize, useObjectPooling)
      ensures isActive == old(isActive)
      ensures Valid()
    {
      maxParticles := max;
      Trim();
    }

    function GetParticleCount(): nat
      reads this
    {
      |particles|
    }
  }

  /** Trimming keeps the newest particles in their order and leaves at most
      `max` of them. */
  lemma TrimKeepsNewest(ps: seq<Particle>, max: nat)
    ensures var kept := ps[Overflow(|ps|, max)..];
      && |kept| <= |ps| && |kept| <= max && (|ps| <= max ==> kept == ps)
      && forall k :: 0 <= k < |kept| ==> kept[k] == ps[|ps| - |kept| + k]
  {
  }

  /** The options an emitter uses here: its own particle limit (default
      100) and its burst size (default 0). */
  class ParticleEmitter {
    const maxParticles: int
    const burstCount: int
    var isActive: bool

    constructor(active: Option<bool>, maxParticles: Option<int>, burstCount: Option<int>)
      ensures this.maxParticles == OrDefault(maxParticles, 100) && this.burstCount == OrDefault(burstCount, 0)
      ensures isActive == (active != Some(false))
    {
      this.maxParticles := OrDefault(maxParticles, 100);
      this.burstCount := OrDefault(burstCount, 0);
      isActive := active != Some(false);
    }

    /** `emitParticle`, with the drawn life of the new particle: nothing at
        or above the emitter's limit; otherwise a particle is taken from the
        pool and added if the system has room. */
    method EmitParticle(system: ParticleSystem, life: real)
      requires system.Valid()
      modifies system
      ensures |old(system.particles)| >= maxParticles ==> system.particles == old(system.particles) && system.pool == old(system.pool)
      ensures |old(system.particles)| < maxParticles ==>
        && system.particles == (if |old(system.particles)| < system.maxParticles
                                then old(system.particles) + [Fresh().(life := life)] else old(system.particles))
        && system.pool == (if system.useObjectPooling && old(system.pool) != [] then old(system.pool)[..|old(system.pool)| - 1]
                           else old(system.pool))
      ensures system.maxParticles == old(system.maxParticles) && system.isActive == old(system.isActive)
      ensures system.Valid()
      ensures Emits(old(system.particles), old(system.pool), maxParticles, system.maxParticles, system.useObjectPooling,
                    life, system.particles, system.pool)
    {
      if system.GetParticleCount() >= maxParticles {
        return;
      }
      var particle := system.GetParticle();
      particle := particle.(life := life);
      system.AddParticle(particle);
    }

    /** `burst`: `burstCount` emissions, the `k`-th with life `lives(k)`.
        The list grows to at most the smaller of the two limits, by fresh
        particles with the first lives drawn; every emission below the
        emitter's limit takes a particle from the pool, also when the
        system is full and drops it. */
    method Burst(system: ParticleSystem, lives: nat -> real)
      requires system.Valid()
      modifies system
      ensures |system.particles| == Emitted(|old(system.particles)|, burstCount, maxParticles, system.maxParticles)
      ensures system.particles[..|old(system.particles)|] == old(system.particles)
      ensures system.particles == old(system.particles)
        + Births(lives, Emitted(|old(system.particles)|, burstCount, maxParticles, system.maxParticles) - |old(system.particles)|)
      ensures system.pool == (if system.useObjectPooling
        then Drained(old(system.pool), Drawn(|old(system.particles)|, burstCount, maxParticles, system.maxParticles))
        else old(system.pool))
      ensures system.maxParticles == old(system.maxParticles) && system.isActive == old(system.isActive)
      ensures system.Valid()
    {
      ghost var ps0, pool0 := system.particles, system.pool;
      var n, sm := |system.particles|, system.maxParticles;
      var i := 0;
      while i < burstCount
        invariant 0 <= i && (burstCount > 0 ==> i <= burstCount) && (burstCount <= 0 ==> i == 0)
        invariant system.Valid()
        invariant system.maxParticles == sm && system.isActive == old(system.isActive)
        invariant BurstAccount(ps0, pool0, i, maxParticles, sm, lives, system.useObjectPooling, system.particles, system.pool)
        decreases burstCount - i
      {
        ghost var ps, pool := system.particles, system.pool;
        EmitParticle(system, lives(i));
        BurstStep(ps0, pool0, i, maxParticles, sm, lives, system.useObjectPooling, ps, pool, system.particles, system.pool);
        i := i + 1;
      }
      BurstDone(ps0, pool0, i, burstCount, maxParticles, sm, lives, system.useObjectPooling, system.particles, system.pool);
    }
  }

  /** `emitParticle` on values: the list `ps` and pool `pool` before, `ps2`
      and `pool2` after, for an emitter limit `em` and a system limit `sm`. */
  predicate Emits(ps: seq<Particle>, pool: seq<Particle>, em: int, sm: int, pooling: bool, life: real,
                  ps2: seq<Particle>, pool2: seq<Particle>)
  {
    && (|ps| >= em ==> ps2 == ps && pool2 == pool)
    && (|ps| < em ==>
         && ps2 == (if |ps| < sm then ps + [Fresh().(life := life)] else ps)
         && pool2 == (if pooling && pool != [] then pool[..|pool| - 1] else pool))
  }

  /** After `i` emissions of a burst from the list `ps0` and the pool
      `pool0`, the list `ps` has the births so far and the pool `pool` has
      lost one particle per draw. */
  predicate BurstAccount(ps0: seq<Particle>, pool0: seq<Particle>, i: nat, em: int, sm: int, lives: nat -> real,
                         pooling: bool, ps: seq<Particle>, pool: seq<Particle>)
  {
    && ps == ps0 + Births(lives, Emitted(|ps0|, i, em, sm) - |ps0|)
    && pool == (if pooling then Drained(pool0, Drawn(|ps0|, i, em, sm)) else pool0)
  }

  /** One emission of a burst keeps the burst's account of the list and
      the pool: `ps`/`pool` before it, `ps2`/`pool2` after it, as
      `EmitParticle` leaves them. */
  lemma BurstStep(ps0: seq<Particle>, pool0: seq<Particle>, i: nat, em: int, sm: int, lives: nat -> real,
                  pooling: bool, ps: seq<Particle>, pool: seq<Particle>, ps2: seq<Particle>, pool2: seq<Particle>)
    requires BurstAccount(ps0, pool0, i, em, sm, lives, pooling, ps, pool)
    requires Emits(ps, pool, em, sm, pooling, lives(i), ps2, pool2)
    ensures BurstAccount(ps0, pool0, i + 1, em, sm, lives, pooling, ps2, pool2)
  {
    BirthsStep(ps0, i, em, sm, lives, ps, ps2);
    DrawsStep(ps0, pool0, i, em, sm, pooling, ps, pool, pool2);
  }

  /** The list half of `BurstStep`. */
  lemma BirthsStep(ps0: seq<Particle>, i: nat, em: int, sm: int, lives: nat -> real, ps: seq<Particle>, ps2: seq<Particle>)
    requires ps == ps0 + Births(lives, Emitted(|ps0|, i, em, sm) - |ps0|)
    requires |ps| >= em ==> ps2 == ps
    requires |ps| < em ==> ps2 == (if |ps| < sm then ps + [Fresh().(life := lives(i))] else ps)
    ensures ps2 == ps0 + Births(lives, Emitted(|ps0|, i + 1, em, sm) - |ps0|)
  {
    EmittedStep(|ps0|, i, em, sm);
    if Emitted(|ps0|, i, em, sm) < em && Emitted(|ps0|, i, em, sm) < sm {
      BirthsGrow(ps0, i, em, sm, lives, ps, ps2);
    }
  }

  /** An emission below both limits appends the next birth. */
  lemma BirthsGrow(ps0: seq<Particle>, i: nat, em: int, sm: int, lives: nat -> real, ps: seq<Particle>, ps2: seq<Particle>)
    requires ps == ps0 + Births(lives, Emitted(|ps0|, i, em, sm) - |ps0|)
    requires Emitted(|ps0|, i, em, sm) < em && Emitted(|ps0|, i, em, sm) < sm
    requires ps2 == ps + [Fresh().(life := lives(i))]
    ensures ps2 == ps0 + Births(lives, Emitted(|ps0|, i + 1, em, sm) - |ps0|)
  {
    EmittedStep(|ps0|, i, em, sm);
    assert ps == ps0 + Births(lives, i);
    BirthsSnoc(lives, i);
    assert ps2 == ps0 + (Births(lives, i) + [Fresh().(life := lives(i))]);
  }

  /** The pool half of `BurstStep`. */
  lemma DrawsStep(ps0: seq<Particle>, pool0: seq<Particle>, i: nat, em: int, sm: int, pooling: bool,
                  ps: seq<Particle>, pool: seq<Particle>, pool2: seq<Particle>)
    requires |ps| == Emitted(|ps0|, i, em, sm)
    requires pool == (if pooling then Drained(pool0, Drawn(|ps0|, i, em, sm)) else pool0)
    requires |ps| >= em ==> pool2 == pool
    requires |ps| < em ==> pool2 == (if pooling && pool != [] then pool[..|pool| - 1] else pool)
    ensures pool2 == (if pooling then Drained(pool0, Drawn(|ps0|, i + 1, em, sm)) else pool0)
  {
    DrawnStep(|ps0|, i, em, sm);
    DrainedStep(pool0, Drawn(|ps0|, i, em, sm));
  }

  /** When the burst's loop ends, its account is the burst's contract. */
  lemma BurstDone(ps0: seq<Particle>, pool0: seq<Particle>, i: nat, k: int, em: int, sm: int, lives: nat -> real,
                  pooling: bool, ps: seq<Particle>, pool: seq<Particle>)
    requires BurstAccount(ps0, pool0, i, em, sm, lives, pooling, ps, pool)
    requires (k > 0 ==> i == k) && (k <= 0 ==> i == 0)
    ensures |ps| == Emitted(|ps0|, k, em, sm)
    ensures ps[..|ps0|] == ps0
    ensures ps == ps0 + Births(lives, Emitted(|ps0|, k, em, sm) - |ps0|)
    ensures pool == (if pooling then Drained(pool0, Drawn(|ps0|, k, em, sm)) else pool0)
  {
    assert ps[..|ps0|] == ps0;
  }

  /** `pool` after `d` pops from its end, stopping at empty. */
  function Drained(pool: seq<Particle>, d: nat): seq<Particle> {
    pool[..if d <= |pool| then |pool| - d else 0]
  }

  lemma DrainedStep(pool: seq<Particle>, d: nat)
    ensures Drained(pool, d + 1)
      == (if Drained(pool, d) != [] then Drained(pool, d)[..|Drained(pool, d)| - 1] else Drained(pool, d))
  {
  }

  /** One more emission adds a particle exactly while the list is below
      both limits, and until then the list has grown by one per emission. */
  lemma EmittedStep(n: nat, i: nat, emitterMax: int, systemMax: int)
    ensures var e := Emitted(n, i, emitterMax, systemMax);
      && n <= e
      && Emitted(n, i + 1, emitterMax, systemMax) == (if e < emitterMax && e < systemMax then e + 1 else e)
      && (e < emitterMax && e < systemMax ==> e == n + i)
  {
  }

  /** The particles a burst adds, the `k`-th a fresh particle with life
      `lives(k)`. */
  function Births(lives: nat -> real, m: nat): (r: seq<Particle>)
    ensures |r| == m && forall k :: 0 <= k < m ==> r[k] == Fresh().(life := lives(k))
  {
    seq(m, k requires 0 <= k => Fresh().(life := lives(k)))
  }

  lemma BirthsSnoc(lives: nat -> real, m: nat)
    ensures Births(lives, m + 1) == Births(lives, m) + [Fresh().(life := lives(m))]
  {
  }

  /** How many of `k` emissions from length `n` take a particle from the
      pool: each one made while the list is below the emitter's limit. When
      the system's limit is the smaller, the list stops growing below the
      emitter's limit and every emission still draws. */
  function Drawn(n: nat, k: int, emitterMax: int, systemMax: int): (d: nat)
    ensures k <= 0 || n >= emitterMax ==> d == 0
    ensures k > 0 ==> d <= k
  {
    if k <= 0 || n >= emitterMax then 0
    else if emitterMax <= systemMax then (if k <= emitterMax - n then k else emitterMax - n)
    else k
  }

  /** One more emission draws from the pool exactly when the list is below
      the emitter's limit. */
  lemma DrawnStep(n: nat, i: nat, emitterMax: int, systemMax: int)
    ensures Drawn(n, i + 1, emitterMax, systemMax)
      == Drawn(n, i, emitterMax, systemMax) + (if Emitted(n, i, emitterMax, systemMax) < emitterMax then 1 else 0)
  {
  }

  /** The list's length after `k` emissions from length `n`: one more each
      time while below both the emitter's and the system's limit. */
  function Emitted(n: nat, k: int, emitterMax: int, systemMax: int): nat {
    var limit := if emitterMax < systemMax then emitterMax else systemMax;
    if k <= 0 || n >= limit then n else if n + k <= limit then n + k else limit
  }

  /** A burst never shrinks the list, adds at most `k`, and never takes it
      past either limit. */
  lemma EmittedBounds(n: nat, k: int, emitterMax: int, systemMax: int)
    ensures var r := Emitted(n, k, emitterMax, systemMax);
      && n <= r && (k > 0 ==> r <= n + k) && (k <= 0 ==> r == n)
      && (r > n ==> r <= emitterMax && r <= systemMax)
      && (n < emitterMax && n < systemMax && k > 0 ==> r > n)
  {
  }
}
