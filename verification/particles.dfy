/** Particles: short-lived effects whose only per-frame state is their age. */
module Particles {
  import opened Entities

  /** A particle's motion, its lifetime (zero means it never dies), the
      time it has been alive, and whether it still is. */
  datatype Particle = Particle(body: Body, lifetime: real, timeAlive: real, alive: bool)

  /** Particle.__init__: no time alive yet, and alive. */
  function NewParticle(body: Body, lifetime: real): (r: Particle)
    ensures r.alive && r.timeAlive == 0.0
    ensures r.body == body && r.lifetime == lifetime
  {
    Particle(body, lifetime, 0.0, true)
  }

  /** Particle.prepare. A zero lifetime is falsy and leaves the particle as
      it is. Otherwise the elapsed time is added and the particle dies once
      its time alive exceeds the lifetime; nothing ever revives it. The
      particle does not move: this prepare does not call Element.prepare. */
  function ParticlePrepare(p: Particle, timePassed: real): (r: Particle)
    ensures p.lifetime == 0.0 ==> r == p
    ensures p.lifetime != 0.0 ==> r.timeAlive == p.timeAlive + timePassed
    ensures p.lifetime != 0.0 ==> (r.alive <==> p.alive && r.timeAlive <= p.lifetime)
    ensures r == p.(timeAlive := r.timeAlive, alive := r.alive)
  {
    if p.lifetime == 0.0 then p
    else
      var t := p.timeAlive + timePassed;
      p.(timeAlive := t, alive := if t > p.lifetime then false else p.alive)
  }

  /** The particle after one prepare per entry of `times`, in order. */
  function Age(p: Particle, times: seq<real>): Particle
    decreases |times|
  {
    if |times| == 0 then p
    else ParticlePrepare(Age(p, times[..|times| - 1]), times[|times| - 1])
  }

  /** Total of a sequence of elapsed times. */
  function Sum(times: seq<real>): real
    decreases |times|
  {
    if |times| == 0 then 0.0 else Sum(times[..|times| - 1]) + times[|times| - 1]
  }

  /** A particle with a non-zero lifetime has aged by exactly the total
      elapsed time, and is alive exactly when it was alive at the start and
      its age never exceeded the lifetime after any frame. */
  lemma {:induction false} AgeExact(p: Particle, times: seq<real>)
    requires p.lifetime != 0.0
    ensures Age(p, times).lifetime == p.lifetime
    ensures Age(p, times).timeAlive == p.timeAlive + Sum(times)
    ensures Age(p, times).alive <==>
      p.alive && forall k | 1 <= k <= |times| :: p.timeAlive + Sum(times[..k]) <= p.lifetime
    decreases |times|
  {
    if |times| > 0 {
      var n := |times|;
      var init := times[..n - 1];
      AgeExact(p, init);
      forall k | 1 <= k <= n - 1
        ensures init[..k] == times[..k]
      {
      }
      assert times[..n] == times;
    }
  }

  /** A zero lifetime makes the particle immortal and ageless. */
  lemma {:induction false} ImmortalParticle(p: Particle, times: seq<real>)
    requires p.lifetime == 0.0
    ensures Age(p, times) == p
    decreases |times|
  {
    if |times| > 0 {
      ImmortalParticle(p, times[..|times| - 1]);
    }
  }

  /** Death is final: a particle that is not alive stays so, whatever
      times follow. */
  lemma {:induction false} DeathIsFinal(p: Particle, times: seq<real>)
    requires !p.alive
    ensures !Age(p, times).alive
    decreases |times|
  {
    if |times| > 0 {
      DeathIsFinal(p, times[..|times| - 1]);
    }
  }

  /** With non-negative elapsed times the total only grows along the way. */
  lemma {:induction false} PrefixSumBelowTotal(times: seq<real>, k: nat)
    requires forall i | 0 <= i < |times| :: times[i] >= 0.0
    requires k <= |times|
    ensures Sum(times[..k]) <= Sum(times)
    decreases |times|
  {
    if k < |times| {
      var init := times[..|times| - 1];
      assert init[..k] == times[..k];
      PrefixSumBelowTotal(init, k);
    } else {
      assert times[..k] == times;
    }
  }

  /** A fresh particle with a positive lifetime, fed non-negative frame
      times, is alive exactly while their total has not exceeded its
      lifetime. */
  lemma FreshParticleLifetime(body: Body, lifetime: real, times: seq<real>)
    requires lifetime > 0.0
    requires forall i | 0 <= i < |times| :: times[i] >= 0.0
    ensures Age(NewParticle(body, lifetime), times).alive <==> Sum(times) <= lifetime
  {
    var p := NewParticle(body, lifetime);
    AgeExact(p, times);
    if Sum(times) <= lifetime {
      forall k | 1 <= k <= |times|
        ensures p.timeAlive + Sum(times[..k]) <= p.lifetime
      {
        PrefixSumBelowTotal(times, k);
      }
    } else {
      assert |times| > 0;
      assert times[..|times|] == times;
    }
  }
}
