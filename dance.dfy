/** The pollination dance: a short-lived swirl of particles and two expanding
    rings, spawned where a carried colour meets a differently coloured structure. */
module Dances {
  import opened Numerics
  import Random

  datatype SwirlParticle = SwirlParticle(angle: real, spiral: real, radius: real, angularSpeed: real,
                                         color: Rgb, life: real, size: real)

  datatype Ring = Ring(radius: real, maxRadius: real, color: Rgb, speed: real)

  datatype ParticleView = ParticleView(x: real, y: real, color: Rgb, alpha: real, size: real)

  datatype RingView = RingView(x: real, y: real, radius: real, color: Rgb, alpha: real)

  datatype DanceView = DanceView(centerX: real, centerY: real, particles: seq<ParticleView>, rings: seq<RingView>,
                                 visitorColor: Rgb, structureColor: Rgb, alpha: real)

  const ParticleCount: nat := 40
  const MaxRingRadius: real := 90.0
  const DefaultDuration: real := 2.5

  /** Particle `i` starts at the uniform angle `2 * pi * i / 40`. */
  function SwirlAngle(i: nat): real {
    (i as real / ParticleCount as real) * 2.0 * Pi
  }

  /** Particle `i` of a fresh dance: evenly spread angles, radii from 20 growing
      by 60 * i / 40, alternating visitor and structure colours, full life, and
      the random speed and size inside their drawing ranges. */
  ghost predicate FreshParticle(p: SwirlParticle, i: nat, visitorColor: Rgb, structureColor: Rgb) {
    && p.angle == SwirlAngle(i)
    && p.spiral == i as real / ParticleCount as real
    && p.radius == 20.0 + p.spiral * 60.0
    && p.color == (if i % 2 == 0 then visitorColor else structureColor)
    && p.life == 1.0
    && 0.8 <= p.angularSpeed <= 1.5
    && 4.0 <= p.size <= 9.0
  }

  /** A fresh ring: radius 0 of at most 90, a speed drawn from [40, 60]. */
  ghost predicate FreshRing(r: Ring, color: Rgb) {
    r.radius == 0.0 && r.maxRadius == MaxRingRadius && r.color == color && 40.0 <= r.speed <= 60.0
  }

  /** The swirl particles, one per index, each drawing its angular speed and
      then its size. */
  method CreateSwirlParticles(visitorColor: Rgb, structureColor: Rgb, rng: Random.Rng)
    returns (particles: seq<SwirlParticle>)
    modifies rng
    ensures |particles| == ParticleCount
    ensures forall i :: 0 <= i < ParticleCount ==> FreshParticle(particles[i], i, visitorColor, structureColor)
  {
    particles := [];
    for i := 0 to ParticleCount
      invariant |particles| == i
      invariant forall k :: 0 <= k < i ==> FreshParticle(particles[k], k, visitorColor, structureColor)
    {
      var angle := (i as real / ParticleCount as real) * 2.0 * Pi;
      var spiral := i as real / ParticleCount as real;
      var color := if i % 2 == 0 then visitorColor else structureColor;
      var angularSpeed := rng.Uniform(0.8, 1.5);
      var size := rng.Uniform(4.0, 9.0);
      particles := particles + [SwirlParticle(angle, spiral, 20.0 + spiral * 60.0, angularSpeed, color, 1.0, size)];
    }
  }

  /** One ring per colour, visitor colour first. */
  method CreateRings(visitorColor: Rgb, structureColor: Rgb, rng: Random.Rng) returns (rings: seq<Ring>)
    modifies rng
    ensures |rings| == 2
    ensures FreshRing(rings[0], visitorColor) && FreshRing(rings[1], structureColor)
  {
    var speed0 := rng.Uniform(40.0, 60.0);
    var speed1 := rng.Uniform(40.0, 60.0);
    rings := [Ring(0.0, MaxRingRadius, visitorColor, speed0), Ring(0.0, MaxRingRadius, structureColor, speed1)];
  }

  /** One frame of a particle: it swirls, drifts outward by `20 * dt` and loses
      `dt / duration` of its life. */
  function AdvanceParticle(p: SwirlParticle, dt: real, duration: real): (q: SwirlParticle)
    requires duration != 0.0
  {
    p.(angle := p.angle + p.angularSpeed * dt * 2.0, radius := p.radius + dt * 20.0, life := p.life - dt / duration)
  }

  /** One frame of a ring: it expands by `speed * dt`. */
  function AdvanceRing(r: Ring, dt: real): Ring {
    r.(radius := r.radius + dt * r.speed)
  }

  /** How a living particle is drawn, its alpha scaled by the dance's life. */
  function ParticleViewOf(p: SwirlParticle, cx: real, cy: real, life: real, cos: real -> real, sin: real -> real): ParticleView {
    ParticleView(cx + cos(p.angle) * p.radius, cy + sin(p.angle) * p.radius, p.color, p.life * life, p.size)
  }

  /** How a ring still short of its maximum radius is drawn. */
  function RingViewOf(r: Ring, cx: real, cy: real, life: real): RingView
    requires r.maxRadius != 0.0
  {
    RingView(cx, cy, r.radius, r.color, life * (1.0 - r.radius / r.maxRadius))
  }

  /** The drawn particles: those with life left, in order. */
  function VisibleParticles(ps: seq<SwirlParticle>, cx: real, cy: real, life: real, cos: real -> real, sin: real -> real): seq<ParticleView>
    decreases |ps|
  {
    if ps == [] then []
    else
      var init := VisibleParticles(ps[..|ps| - 1], cx, cy, life, cos, sin);
      var p := ps[|ps| - 1];
      if p.life > 0.0 then init + [ParticleViewOf(p, cx, cy, life, cos, sin)] else init
  }

  predicate RingsBounded(rs: seq<Ring>) {
    forall i :: 0 <= i < |rs| ==> rs[i].maxRadius == MaxRingRadius
  }

  /** The drawn rings: those still short of their maximum radius, in order. */
  function VisibleRings(rs: seq<Ring>, cx: real, cy: real, life: real): seq<RingView>
    requires RingsBounded(rs)
    decreases |rs|
  {
    if rs == [] then []
    else
      var init := VisibleRings(rs[..|rs| - 1], cx, cy, life);
      var r := rs[|rs| - 1];
      if r.radius < r.maxRadius then init + [RingViewOf(r, cx, cy, life)] else init
  }

  class PollinationDance {
    const x: real
    const y: real
    const visitorColor: Rgb
    const structureColor: Rgb
    const duration: real
    var life: real
    var particles: seq<SwirlParticle>
    var rings: seq<Ring>

    ghost predicate Valid()
      reads this
    {
      && 0.0 < duration
      && |particles| == ParticleCount
      && |rings| == 2
      && RingsBounded(rings)
    }

    constructor (x: real, y: real, visitorColor: Rgb, structureColor: Rgb, rng: Random.Rng,
                 duration: real := DefaultDuration)
      requires 0.0 < duration
      modifies rng
      ensures this.x == x && this.y == y && this.duration == duration
      ensures this.visitorColor == visitorColor && this.structureColor == structureColor
      ensures life == 1.0
      ensures |particles| == ParticleCount
      ensures forall i :: 0 <= i < ParticleCount ==> FreshParticle(particles[i], i, visitorColor, structureColor)
      ensures |rings| == 2 && FreshRing(rings[0], visitorColor) && FreshRing(rings[1], structureColor)
      ensures Valid()
    {
      this.x := x;
      this.y := y;
      this.visitorColor := visitorColor;
      this.structureColor := structureColor;
      this.duration := duration;
      life := 1.0;
      var ps := CreateSwirlParticles(visitorColor, structureColor, rng);
      var rs := CreateRings(visitorColor, structureColor, rng);
      particles := ps;
      rings := rs;
    }

    /** One frame: the dance and every particle lose `dt / duration` of life,
        particles swirl and drift outward and the rings expand. The origin and
        the colours are constants. */
    method Update(dt: real)
      requires Valid()
      modifies this
      ensures Valid()
      ensures life == old(life) - dt / duration
      ensures |particles| == |old(particles)|
      ensures forall i :: 0 <= i < |particles| ==> particles[i] == AdvanceParticle(old(particles)[i], dt, duration)
      ensures |rings| == |old(rings)|
      ensures forall i :: 0 <= i < |rings| ==> rings[i] == AdvanceRing(old(rings)[i], dt)
    {
      life := life - dt / duration;
      var ps := particles;
      var i := 0;
      while i < |ps|
        invariant 0 <= i <= |ps| == |old(particles)|
        invariant forall k :: 0 <= k < i ==> ps[k] == AdvanceParticle(old(particles)[k], dt, duration)
        invariant forall k :: i <= k < |ps| ==> ps[k] == old(particles)[k]
      {
        var p := ps[i];
        p := p.(angle := p.angle + p.angularSpeed * dt * 2.0);
        p := p.(radius := p.radius + dt * 20.0);
        p := p.(life := p.life - dt / duration);
        ps := ps[i := p];
        i := i + 1;
      }
      particles := ps;
      var rs := rings;
      var j := 0;
      while j < |rs|
        invariant 0 <= j <= |rs| == |old(rings)|
        invariant forall k :: 0 <= k < j ==> rs[k] == AdvanceRing(old(rings)[k], dt)
        invariant forall k :: j <= k < |rs| ==> rs[k] == old(rings)[k]
      {
        rs := rs[j := rs[j].(radius := rs[j].radius + dt * rs[j].speed)];
        j := j + 1;
      }
      rings := rs;
    }

    predicate IsDead()
      reads this
    {
      life <= 0.0
    }

    /** The frame's drawing: living particles and unfinished rings, every alpha
        scaled by the dance's life. */
    method GetRenderData(cos: real -> real, sin: real -> real) returns (v: DanceView)
      requires Valid()
      ensures v.centerX == x && v.centerY == y && v.alpha == life
      ensures v.visitorColor == visitorColor && v.structureColor == structureColor
      ensures v.particles == VisibleParticles(particles, x, y, life, cos, sin)
      ensures v.rings == VisibleRings(rings, x, y, life)
    {
      var alpha := life;
      var ps: seq<ParticleView> := [];
      var i := 0;
      while i < |particles|
        invariant 0 <= i <= |particles|
        invariant ps == VisibleParticles(particles[..i], x, y, alpha, cos, sin)
      {
        assert particles[..i + 1][..i] == particles[..i];
        var p := particles[i];
        if p.life > 0.0 {
          ps := ps + [ParticleViewOf(p, x, y, alpha, cos, sin)];
        }
        i := i + 1;
      }
      assert particles[..|particles|] == particles;
      var rs: seq<RingView> := [];
      var j := 0;
      while j < |rings|
        invariant 0 <= j <= |rings|
        invariant RingsBounded(rings[..j])
        invariant rs == VisibleRings(rings[..j], x, y, alpha)
      {
        assert rings[..j + 1][..j] == rings[..j];
        var ring := rings[j];
        if ring.radius < ring.maxRadius {
          rs := rs + [RingViewOf(ring, x, y, alpha)];
        }
        j := j + 1;
      }
      assert rings[..|rings|] == rings;
      v := DanceView(x, y, ps, rs, visitorColor, structureColor, alpha);
    }
  }

  // ---- The life countdown ----

  function Sum(dts: seq<real>): real
    decreases |dts|
  {
    if dts == [] then 0.0 else dts[0] + Sum(dts[1..])
  }

  /** The life after one update per timestep in `dts`. */
  function LifeAfter(life: real, dts: seq<real>, duration: real): real
    requires duration != 0.0
    decreases |dts|
  {
    if dts == [] then life else LifeAfter(life - dts[0] / duration, dts[1..], duration)
  }

  /** The countdown is linear: after any run of updates the life has dropped by
      the elapsed time over the duration. */
  lemma {:induction false} LifeAfterIsLinear(life: real, dts: seq<real>, duration: real)
    requires duration != 0.0
    ensures LifeAfter(life, dts, duration) == life - Sum(dts) / duration
    decreases |dts|
  {
    if dts != [] {
      LifeAfterIsLinear(life - dts[0] / duration, dts[1..], duration);
      DivAdd(dts[0], Sum(dts[1..]), duration);
    }
  }

  lemma DivAdd(a: real, b: real, d: real)
    requires d != 0.0
    ensures a / d + b / d == (a + b) / d
  {
  }

  /** A fresh dance is dead exactly when the elapsed time has reached its
      duration: with the default 2.5 s, after 2.5 s its life is exactly 0. */
  lemma DeadWhenElapsed(dts: seq<real>, duration: real)
    requires 0.0 < duration
    ensures LifeAfter(1.0, dts, duration) <= 0.0 <==> Sum(dts) >= duration
    ensures Sum(dts) == duration ==> LifeAfter(1.0, dts, duration) == 0.0
  {
    LifeAfterIsLinear(1.0, dts, duration);
    var q := Sum(dts) / duration;
    assert Sum(dts) == q * duration;
    if Sum(dts) >= duration {
      assert q >= 1.0 by { DivAtLeastOne(Sum(dts), duration); }
    } else {
      assert q < 1.0 by { DivBelowOne(Sum(dts), duration); }
    }
  }

  lemma DivAtLeastOne(s: real, d: real)
    requires 0.0 < d <= s
    ensures s / d >= 1.0
  {
    var q := s / d;
    assert q * d == s;
    if q < 1.0 {
      MulBelow(q, 1.0, d);
    }
  }

  lemma DivBelowOne(s: real, d: real)
    requires 0.0 < d && s < d
    ensures s / d < 1.0
  {
    var q := s / d;
    assert q * d == s;
    if q >= 1.0 {
      MulAtLeast(q, 1.0, d);
    }
  }

  lemma MulBelow(a: real, b: real, d: real)
    requires a < b && 0.0 < d
    ensures a * d < b * d
  {
    var diff := (b - a) * d;
    assert diff > 0.0;
    assert b * d == a * d + diff;
  }

  lemma MulAtLeast(a: real, b: real, d: real)
    requires a >= b && 0.0 < d
    ensures a * d >= b * d
  {
    var diff := (a - b) * d;
    assert diff >= 0.0;
    assert a * d == b * d + diff;
  }

  /** Earlier than the duration, after some time has passed, a dance is alive
      and fading: its life lies strictly between 0 and 1. */
  lemma AliveBeforeElapsed(dts: seq<real>, duration: real)
    requires 0.0 < duration && 0.0 < Sum(dts) < duration
    ensures 0.0 < LifeAfter(1.0, dts, duration) < 1.0
  {
    LifeAfterIsLinear(1.0, dts, duration);
    DivBelowOne(Sum(dts), duration);
    var q := Sum(dts) / duration;
    assert q * duration == Sum(dts);
    if q <= 0.0 {
      MulAtLeast(0.0, q, duration);
    }
  }

  // ---- The drawing filters ----

  /** A particle is drawn exactly when it still has life, as the view of it. */
  lemma {:induction false} VisibleParticlesMembers(ps: seq<SwirlParticle>, cx: real, cy: real, life: real, cos: real -> real, sin: real -> real)
    ensures forall p :: p in ps && p.life > 0.0 ==> ParticleViewOf(p, cx, cy, life, cos, sin) in VisibleParticles(ps, cx, cy, life, cos, sin)
    ensures forall v :: v in VisibleParticles(ps, cx, cy, life, cos, sin) ==>
              exists p :: p in ps && p.life > 0.0 && v == ParticleViewOf(p, cx, cy, life, cos, sin)
    ensures |VisibleParticles(ps, cx, cy, life, cos, sin)| <= |ps|
    decreases |ps|
  {
    if ps != [] {
      var init, last := ps[..|ps| - 1], ps[|ps| - 1];
      VisibleParticlesMembers(init, cx, cy, life, cos, sin);
      assert ps == init + [last];
      var shown, shownInit := VisibleParticles(ps, cx, cy, life, cos, sin), VisibleParticles(init, cx, cy, life, cos, sin);
      assert shown == if last.life > 0.0 then shownInit + [ParticleViewOf(last, cx, cy, life, cos, sin)] else shownInit;
      forall p | p in ps && p.life > 0.0
        ensures ParticleViewOf(p, cx, cy, life, cos, sin) in shown
      {
        if p != last {
          assert p in init;
        }
      }
      forall v | v in shown
        ensures exists p :: p in ps && p.life > 0.0 && v == ParticleViewOf(p, cx, cy, life, cos, sin)
      {
        if v !in shownInit {
          assert last in ps && v == ParticleViewOf(last, cx, cy, life, cos, sin);
        }
      }
    }
  }

  /** Every drawn particle's alpha is its own life times the dance's. */
  lemma VisibleParticleAlpha(ps: seq<SwirlParticle>, cx: real, cy: real, life: real, cos: real -> real, sin: real -> real)
    requires 0.0 < life && forall p :: p in ps ==> p.life <= 1.0
    ensures forall v :: v in VisibleParticles(ps, cx, cy, life, cos, sin) ==> 0.0 < v.alpha <= life
  {
    VisibleParticlesMembers(ps, cx, cy, life, cos, sin);
    forall v | v in VisibleParticles(ps, cx, cy, life, cos, sin)
      ensures 0.0 < v.alpha <= life
    {
      var p :| p in ps && p.life > 0.0 && v == ParticleViewOf(p, cx, cy, life, cos, sin);
      assert v.alpha == p.life * life;
      ScaledAlpha(p.life, life);
    }
  }

  lemma ScaledAlpha(a: real, life: real)
    requires 0.0 < a <= 1.0 && 0.0 < life
    ensures 0.0 < a * life <= life
  {
    var al, rest := a * life, (1.0 - a) * life;
    assert al + rest == life;
    assert 0.0 <= rest;
    assert 0.0 < al;
  }

  /** A ring is drawn exactly when its radius is short of the maximum. */
  lemma {:induction false} VisibleRingsMembers(rs: seq<Ring>, cx: real, cy: real, life: real)
    requires RingsBounded(rs)
    ensures forall r :: r in rs && r.radius < r.maxRadius ==> RingViewOf(r, cx, cy, life) in VisibleRings(rs, cx, cy, life)
    ensures forall v :: v in VisibleRings(rs, cx, cy, life) ==>
              exists r :: r in rs && r.radius < r.maxRadius && v == RingViewOf(r, cx, cy, life)
    decreases |rs|
  {
    if rs != [] {
      var init, last := rs[..|rs| - 1], rs[|rs| - 1];
      assert RingsBounded(init);
      VisibleRingsMembers(init, cx, cy, life);
      assert rs == init + [last];
      var shown, shownInit := VisibleRings(rs, cx, cy, life), VisibleRings(init, cx, cy, life);
      assert shown == if last.radius < last.maxRadius then shownInit + [RingViewOf(last, cx, cy, life)] else shownInit;
      forall r | r in rs && r.radius < r.maxRadius
        ensures RingViewOf(r, cx, cy, life) in shown
      {
        if r != last {
          assert r in init;
        }
      }
      forall v | v in shown
        ensures exists r :: r in rs && r.radius < r.maxRadius && v == RingViewOf(r, cx, cy, life)
      {
        if v !in shownInit {
          assert last in rs && v == RingViewOf(last, cx, cy, life);
        }
      }
    }
  }

  /** An unfinished ring of non-negative radius fades from the dance's alpha
      towards 0 as it approaches its maximum radius. */
  lemma RingAlphaBounds(r: Ring, cx: real, cy: real, life: real)
    requires r.maxRadius == MaxRingRadius && 0.0 <= r.radius < r.maxRadius && 0.0 <= life
    ensures 0.0 <= RingViewOf(r, cx, cy, life).alpha <= life
  {
    var f := 1.0 - r.radius / r.maxRadius;
    assert 0.0 < f <= 1.0;
    var al, rest := life * f, life * (1.0 - f);
    assert al + rest == life;
    assert 0.0 <= rest && 0.0 <= al;
  }
}
