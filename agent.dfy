/** Bees, butterflies and moths: autonomous pollinators that fly from structure
    to structure, circle each one while collecting its colour, and glow and
    leave a trail like a visitor does. */
module Agents {
  import opened Numerics
  import Random
  import Structures
  import Auras
  import Trails

  /** The movement constants of a pollinator type. */
  datatype Characteristics = Characteristics(speed: real, size: real, wiggle: real, color: Rgb)

  const Bee: Characteristics := Characteristics(60.0, 35.0, 0.8, Rgb(255, 220, 60))
  const Butterfly: Characteristics := Characteristics(40.0, 40.0, 1.5, Rgb(255, 160, 200))
  const Moth: Characteristics := Characteristics(50.0, 35.0, 1.0, Rgb(180, 200, 220))

  /** The table lookup by type name; a name outside the table falls back to the bee. */
  function CharacteristicsOf(kind: string): (c: Characteristics)
    ensures c in {Bee, Butterfly, Moth}
    ensures 0.0 < c.speed && 0.0 < c.size && 0.0 < c.wiggle
  {
    if kind == "bee" then Bee
    else if kind == "butterfly" then Butterfly
    else if kind == "moth" then Moth
    else Bee
  }

  /** An unknown type behaves exactly like a bee. */
  lemma UnknownKindIsBee(kind: string)
    requires kind != "butterfly" && kind != "moth"
    ensures CharacteristicsOf(kind) == CharacteristicsOf("bee")
    ensures CharacteristicsOf(kind).speed == 60.0 && CharacteristicsOf(kind).size == 35.0
    ensures CharacteristicsOf(kind).wiggle == 0.8
  {
  }

  datatype Mode = Flying | Collecting

  /** A colour change at a structure, recorded for the host. */
  datatype PollinationEvent = PollinationEvent(x: real, y: real, oldColor: Rgb, newColor: Rgb)

  /** An agent has arrived once it is closer than 30 to its target; the squared threshold. */
  const ArrivalDistanceSq: real := 900.0
  const OrbitRadius: real := 25.0
  /** The inset of the rectangle the agent is kept in. */
  const Margin: real := 50.0
  const MinGlow: real := 0.05
  /** An agent's trail: 80 points, gated at 8, fading at 0.15 per second. */
  const AgentTrail: Trails.TrailConfig := Trails.TrailConfig(80, 8.0, 0.15)

  /** The organic sideways drift of a flying agent at clock `now`. */
  function WiggleX(now: real, wiggle: real, sin: real -> real): real {
    sin(now * 0.003) * wiggle * 20.0
  }

  function WiggleY(now: real, wiggle: real, cos: real -> real): real {
    cos(now * 0.004) * wiggle * 20.0
  }

  /** One coordinate after a flying frame: along the unit vector to the target
      at `speed * multiplier`, plus the wiggle; no move when already there. */
  function Flight(from: real, to: real, distance: real, speed: real, dt: real, multiplier: real, wiggle: real): real {
    if distance > 0.0 then from + (to - from) / distance * speed * dt * multiplier + wiggle * dt else from
  }

  /** One coordinate on the radius-25 circle around the target. */
  function Orbit(centre: real, wave: real): real {
    centre + wave * OrbitRadius
  }

  /** The colour a trail copies: the glow's colour while it is lit. */
  function Lit(g: Auras.Glow): (c: Option<Rgb>)
    ensures c.Some? <==> g.color.Some? && g.intensity > 0.0
    ensures c.Some? ==> c == g.color
  {
    if g.color.Some? && g.intensity > 0.0 then g.color else None
  }

  /** The event collecting `newColor` records: one exactly when a colour was
      carried and differs from the new one byte for byte. */
  function EventOf(carried: Option<Rgb>, x: real, y: real, newColor: Rgb, previous: Option<PollinationEvent>): (e: Option<PollinationEvent>)
    ensures carried.Some? && carried.value != newColor ==> e == Some(PollinationEvent(x, y, carried.value, newColor))
    ensures carried.None? || carried.value == newColor ==> e == previous
  {
    if carried.Some? && carried.value != newColor then Some(PollinationEvent(x, y, carried.value, newColor)) else previous
  }

  datatype TrailDotView = TrailDotView(x: real, y: real, color: Rgb, alpha: real, size: real)

  datatype GlowView = GlowView(color: Rgb, intensity: real, radius: real, pulse: real)

  datatype AgentView = AgentView(x: real, y: real, size: real, baseColor: Rgb, trail: seq<TrailDotView>, glow: Option<GlowView>)

  /** How one trail point of an agent is drawn: alpha is the life, size `3 + 2 * life`. */
  function DotView(p: Trails.TrailPoint): TrailDotView {
    TrailDotView(p.x, p.y, p.color, p.life, 3.0 + p.life * 2.0)
  }

  class AutonomousAgent {
    const id: int
    const kind: string
    const structures: seq<Structures.Structure>
    const canvasWidth: real
    const canvasHeight: real
    const speed: real
    const size: real
    const wiggle: real
    const baseColor: Rgb
    var x: real
    var y: real
    var target: Structures.Structure?
    var mode: Mode
    var stateTimer: real
    var currentColor: Option<Rgb>
    var glowIntensity: real
    var collectedTime: real
    var lastPollination: Option<PollinationEvent>
    var trail: seq<Trails.TrailPoint>
    var lastTrailPosition: Option<(real, real)>

    function Glow(): Auras.Glow
      reads this
    {
      Auras.Glow(currentColor, glowIntensity)
    }

    function TrailState(): Trails.TrailState
      reads this
    {
      Trails.TrailState(trail, lastTrailPosition)
    }

    /** A target exists exactly when there are structures and is one of them;
        the glow keeps the aura invariant; the trail is bounded and alive. */
    ghost predicate Valid()
      reads this
    {
      && (target == null <==> |structures| == 0)
      && (target != null ==> target in structures)
      && Auras.GlowValid(Glow())
      && |trail| <= AgentTrail.maxPoints
      && Trails.AllLiving(trail)
    }

    /** A missing start coordinate is drawn from 100 inside the canvas edges;
        the type fixes speed, size, wiggle and colour, and a first target is
        picked when there is one. */
    constructor (id: int, kind: string, structures: seq<Structures.Structure>, startX: Option<real>, startY: Option<real>,
                 rng: Random.Rng, canvasWidth: real := 1920.0, canvasHeight: real := 1080.0)
      modifies rng
      ensures this.id == id && this.kind == kind && this.structures == structures
      ensures this.canvasWidth == canvasWidth && this.canvasHeight == canvasHeight
      ensures Characteristics(speed, size, wiggle, baseColor) == CharacteristicsOf(kind)
      ensures startX.Some? ==> x == startX.value
      ensures startX.None? && 200.0 <= canvasWidth ==> 100.0 <= x <= canvasWidth - 100.0
      ensures startY.Some? ==> y == startY.value
      ensures startY.None? && 200.0 <= canvasHeight ==> 100.0 <= y <= canvasHeight - 100.0
      ensures Glow() == Auras.Glow(None, 0.0) && lastPollination == None
      ensures trail == [] && lastTrailPosition == None
      ensures mode == Flying
      ensures |structures| == 0 ==> target == null && stateTimer == 0.0
      ensures |structures| > 0 ==> 3.0 <= stateTimer <= 8.0
      ensures Valid()
    {
      this.id := id;
      this.kind := kind;
      this.structures := structures;
      this.canvasWidth := canvasWidth;
      this.canvasHeight := canvasHeight;
      var c := CharacteristicsOf(kind);
      speed, size, wiggle, baseColor := c.speed, c.size, c.wiggle, c.color;
      var x0, y0;
      if startX.Some? {
        x0 := startX.value;
      } else {
        x0 := rng.Uniform(100.0, canvasWidth - 100.0);
      }
      if startY.Some? {
        y0 := startY.value;
      } else {
        y0 := rng.Uniform(100.0, canvasHeight - 100.0);
      }
      x, y := x0, y0;
      target := null;
      mode := Flying;
      stateTimer := 0.0;
      currentColor := None;
      glowIntensity := 0.0;
      collectedTime := 0.0;
      lastPollination := None;
      trail := [];
      lastTrailPosition := None;
      new;
      PickNewTarget(rng);
    }

    /** With structures, fly towards a randomly chosen one with a fresh timer
        in [3, 8]; without, change nothing. */
    method PickNewTarget(rng: Random.Rng)
      modifies this`target, this`mode, this`stateTimer, rng
      ensures |structures| == 0 ==> target == old(target) && mode == old(mode) && stateTimer == old(stateTimer)
      ensures |structures| > 0 ==> target in structures && mode == Flying && 3.0 <= stateTimer <= 8.0
    {
      if |structures| == 0 {
        return;
      }
      var k := rng.Choice(|structures|);
      target := structures[k];
      mode := Flying;
      stateTimer := rng.Uniform(3.0, 8.0);
    }

    /** Takes `color` at full intensity, whatever was carried before. */
    method CollectColor(color: Rgb, now: real)
      modifies this`currentColor, this`glowIntensity, this`collectedTime
      ensures Glow() == Auras.Collected(color) && collectedTime == now
    {
      currentColor := Some(color);
      glowIntensity := 1.0;
      collectedTime := now;
    }

    /** One frame. The timer always drops by `dt`. Without structures nothing
        else happens. Otherwise a flying agent moves towards its target and
        starts collecting once it was closer than 30 at the start of the frame;
        a collecting agent circles its target and, when its timer runs out,
        collects the target's colour (recording a pollination on a colour
        change) and flies on to a new target. The position is then clamped to
        the rectangle inset by 50, the glow decays and the trail steps. */
    method Update(dt: real, now: real, speedMultiplier: real, sin: real -> real, cos: real -> real,
                  root: real -> real, decay: DecayFactor, rng: Random.Rng)
      requires Valid() && IsSqrt(root)
      modifies this, rng
      ensures Valid()
      ensures old(target) == null ==>
                && target == null && mode == old(mode) && stateTimer == old(stateTimer) - dt
                && x == old(x) && y == old(y) && Glow() == old(Glow())
                && TrailState() == old(TrailState()) && lastPollination == old(lastPollination)
      ensures old(target) != null ==> Moved(old(target), old(x), old(y), old(mode), now, speedMultiplier, dt, sin, cos, root)
      ensures old(target) != null ==> Switched(old(target), old(x), old(y), old(mode), old(stateTimer), dt)
      ensures old(target) != null ==>
                GlowedAndTrailed(old(target), old(mode), old(stateTimer), old(Glow()), old(TrailState()),
                                 old(lastPollination), old(collectedTime), dt, now, decay)
      ensures old(target) != null && 2.0 * Margin <= canvasWidth ==> Margin <= x <= canvasWidth - Margin
      ensures old(target) != null && 2.0 * Margin <= canvasHeight ==> Margin <= y <= canvasHeight - Margin
    {
      stateTimer := stateTimer - dt;
      if target == null {
        PickNewTarget(rng);
        return;
      }
      Steer(dt, now, speedMultiplier, sin, cos, root, rng);
      Fade(dt, decay);
    }

    /** The end of a frame with a target: the glow decays, then the trail steps
        with the colour the decayed glow still shows. */
    method Fade(dt: real, decay: DecayFactor)
      modifies this`currentColor, this`glowIntensity, this`trail, this`lastTrailPosition
      ensures Glow() == Auras.Decay(old(Glow()), decay, MinGlow)
      ensures TrailState() == Trails.Step(old(TrailState()), Lit(Glow()), x, y, dt, AgentTrail)
      ensures Auras.GlowValid(old(Glow())) ==> Auras.GlowValid(Glow())
      ensures |old(trail)| <= AgentTrail.maxPoints && Trails.AllLiving(old(trail)) ==>
                |trail| <= AgentTrail.maxPoints && Trails.AllLiving(trail)
    {
      DecayGlow(decay);
      StepTrail(dt);
    }

    /** The movement and the state machine of a frame with a target, ending
        with the clamp; the glow changes only by a finished collection. */
    method Steer(dt: real, now: real, speedMultiplier: real, sin: real -> real, cos: real -> real,
                 root: real -> real, rng: Random.Rng)
      requires target != null && target in structures && IsSqrt(root)
      modifies this`x, this`y, this`mode, this`stateTimer, this`target, this`currentColor, this`glowIntensity,
               this`collectedTime, this`lastPollination, rng
      ensures target != null && target in structures
      ensures Moved(old(target), old(x), old(y), old(mode), now, speedMultiplier, dt, sin, cos, root)
      ensures Switched(old(target), old(x), old(y), old(mode), old(stateTimer) + dt, dt)
      ensures var finished := old(mode) == Collecting && old(stateTimer) <= 0.0;
              && (finished ==>
                    && Glow() == Auras.Collected(old(target).color) && collectedTime == now
                    && lastPollination == EventOf(old(currentColor), old(target).x, old(target).y, old(target).color, old(lastPollination)))
              && (!finished ==>
                    Glow() == old(Glow()) && collectedTime == old(collectedTime) && lastPollination == old(lastPollination))
      ensures 2.0 * Margin <= canvasWidth ==> Margin <= x <= canvasWidth - Margin
      ensures 2.0 * Margin <= canvasHeight ==> Margin <= y <= canvasHeight - Margin
    {
      if mode == Flying {
        Fly(dt, now, speedMultiplier, sin, cos, root, rng);
      } else {
        Circle(now, sin, cos, rng);
      }
      x := Clamp(x, Margin, canvasWidth - Margin);
      y := Clamp(y, Margin, canvasHeight - Margin);
    }

    /** The flying branch: head for the target and start collecting, with a
        dwell time from [1, 2], when the target was closer than 30. */
    method Fly(dt: real, now: real, speedMultiplier: real, sin: real -> real, cos: real -> real,
               root: real -> real, rng: Random.Rng)
      requires target != null && IsSqrt(root)
      modifies this`x, this`y, this`mode, this`stateTimer, rng
      ensures x == Flight(old(x), target.x, root(DistSq(old(x), old(y), target.x, target.y)), speed, dt, speedMultiplier, WiggleX(now, wiggle, sin))
      ensures y == Flight(old(y), target.y, root(DistSq(old(x), old(y), target.x, target.y)), speed, dt, speedMultiplier, WiggleY(now, wiggle, cos))
      ensures DistSq(old(x), old(y), target.x, target.y) < ArrivalDistanceSq ==> mode == Collecting && 1.0 <= stateTimer <= 2.0
      ensures DistSq(old(x), old(y), target.x, target.y) >= ArrivalDistanceSq ==> mode == old(mode) && stateTimer == old(stateTimer)
    {
      var t := target;
      var d2 := DistSq(x, y, t.x, t.y);
      var distance := root(d2);
      var wiggleX := WiggleX(now, wiggle, sin);
      var wiggleY := WiggleY(now, wiggle, cos);
      x, y := Flight(x, t.x, distance, speed, dt, speedMultiplier, wiggleX),
              Flight(y, t.y, distance, speed, dt, speedMultiplier, wiggleY);
      SqrtBelow(root, d2, 30.0);
      if distance < 30.0 {
        mode := Collecting;
        stateTimer := rng.Uniform(1.0, 2.0);
      }
    }

    /** The collecting branch: sit on the orbit around the target; once the
        timer has run out take its colour, recording a pollination on a colour
        change, and pick the next target. */
    method Circle(now: real, sin: real -> real, cos: real -> real, rng: Random.Rng)
      requires target != null && target in structures
      modifies this`x, this`y, this`mode, this`stateTimer, this`target, this`currentColor, this`glowIntensity,
               this`collectedTime, this`lastPollination, rng
      ensures x == Orbit(old(target).x, cos(now * 0.002)) && y == Orbit(old(target).y, sin(now * 0.002))
      ensures old(stateTimer) <= 0.0 ==>
                && target in structures && mode == Flying && 3.0 <= stateTimer <= 8.0
                && Glow() == Auras.Collected(old(target).color) && collectedTime == now
                && lastPollination == EventOf(old(currentColor), old(target).x, old(target).y, old(target).color, old(lastPollination))
      ensures old(stateTimer) > 0.0 ==>
                && target == old(target) && mode == old(mode) && stateTimer == old(stateTimer)
                && Glow() == old(Glow()) && collectedTime == old(collectedTime) && lastPollination == old(lastPollination)
    {
      var t := target;
      var angle := now * 0.002;
      x, y := Orbit(t.x, cos(angle)), Orbit(t.y, sin(angle));
      if stateTimer <= 0.0 {
        var newColor := t.color;
        if currentColor.Some? {
          if currentColor.value != newColor {
            lastPollination := Some(PollinationEvent(t.x, t.y, currentColor.value, newColor));
          }
        }
        CollectColor(newColor, now);
        PickNewTarget(rng);
      }
    }

    /** The agent's own copy of the aura decay, with the 0.05 cut-off. */
    method DecayGlow(decay: DecayFactor)
      modifies this`currentColor, this`glowIntensity
      ensures Glow() == Auras.Decay(old(Glow()), decay, MinGlow)
    {
      ghost var g := Glow();
      if glowIntensity > 0.0 {
        var dimmed := glowIntensity * decay;
        glowIntensity := dimmed;
        if glowIntensity < MinGlow {
          glowIntensity := 0.0;
          currentColor := None;
        }
        assert Glow() == if dimmed < MinGlow then Auras.Glow(None, 0.0) else Auras.Glow(g.color, dimmed);
        Auras.DecayLit(g, decay, MinGlow);
      }
    }

    /** The agent's own copy of the trail update, following its glow. */
    method StepTrail(dt: real)
      modifies this`trail, this`lastTrailPosition
      ensures TrailState() == Trails.Step(old(TrailState()), Lit(Glow()), x, y, dt, AgentTrail)
      ensures |old(trail)| <= AgentTrail.maxPoints && Trails.AllLiving(old(trail)) ==>
                |trail| <= AgentTrail.maxPoints && Trails.AllLiving(trail)
    {
      ghost var s := TrailState();
      var carried := if currentColor.Some? && glowIntensity > 0.0 then currentColor else None;
      var ts := Trails.Advance(TrailState(), carried, x, y, dt, AgentTrail);
      trail, lastTrailPosition := ts.points, ts.last;
      Trails.StepKeepsInvariantIfValid(s, carried, x, y, dt, AgentTrail);
    }

    /** The position after a frame with a target, before it is drawn: flying
        moves along `Flight`, collecting sits on the orbit; either is clamped. */
    ghost predicate Moved(t: Structures.Structure, x0: real, y0: real, mode0: Mode, now: real, speedMultiplier: real,
                          dt: real, sin: real -> real, cos: real -> real, root: real -> real)
      reads this
    {
      var distance := root(DistSq(x0, y0, t.x, t.y));
      var px := if mode0 == Flying then Flight(x0, t.x, distance, speed, dt, speedMultiplier, WiggleX(now, wiggle, sin))
                else Orbit(t.x, cos(now * 0.002));
      var py := if mode0 == Flying then Flight(y0, t.y, distance, speed, dt, speedMultiplier, WiggleY(now, wiggle, cos))
                else Orbit(t.y, sin(now * 0.002));
      x == Clamp(px, Margin, canvasWidth - Margin) && y == Clamp(py, Margin, canvasHeight - Margin)
    }

    /** The state machine: flying becomes collecting, with a timer in [1, 2],
        exactly when the start-of-frame distance is below 30; collecting ends
        when the decremented timer is at most 0, with a new target and a timer
        in [3, 8]; otherwise the mode stays and the timer is only decremented. */
    ghost predicate Switched(t: Structures.Structure, x0: real, y0: real, mode0: Mode, timer0: real, dt: real)
      reads this
    {
      && (mode0 == Flying && DistSq(x0, y0, t.x, t.y) < ArrivalDistanceSq ==>
            target == t && mode == Collecting && 1.0 <= stateTimer <= 2.0)
      && (mode0 == Flying && DistSq(x0, y0, t.x, t.y) >= ArrivalDistanceSq ==>
            target == t && mode == Flying && stateTimer == timer0 - dt)
      && (mode0 == Collecting && timer0 - dt <= 0.0 ==>
            target in structures && mode == Flying && 3.0 <= stateTimer <= 8.0)
      && (mode0 == Collecting && timer0 - dt > 0.0 ==>
            target == t && mode == Collecting && stateTimer == timer0 - dt)
    }

    /** The glow after a frame: a finished collection replaces it by the
        target's colour at full intensity (and records the event on a colour
        change) before the decay step; the trail then steps with the colour
        the decayed glow still shows. */
    ghost predicate GlowedAndTrailed(t: Structures.Structure, mode0: Mode, timer0: real, glow0: Auras.Glow,
                                     trail0: Trails.TrailState, event0: Option<PollinationEvent>, collected0: real,
                                     dt: real, now: real, decay: DecayFactor)
      reads this
    {
      var finished := mode0 == Collecting && timer0 - dt <= 0.0;
      && (finished ==>
            && Glow() == Auras.Decay(Auras.Collected(t.color), decay, MinGlow)
            && collectedTime == now
            && lastPollination == EventOf(glow0.color, t.x, t.y, t.color, event0))
      && (!finished ==>
            && Glow() == Auras.Decay(glow0, decay, MinGlow)
            && collectedTime == collected0
            && lastPollination == event0)
      && TrailState() == Trails.Step(trail0, Lit(Glow()), x, y, dt, AgentTrail)
    }

    /** The frame's drawing: position, type size and colour, one dot per trail
        point in order, and the glow while it is lit, drawn at twice the size. */
    method GetRenderData(currentTime: real, sin: Wave) returns (v: AgentView)
      ensures v.x == x && v.y == y && v.size == size && v.baseColor == baseColor
      ensures |v.trail| == |trail|
      ensures forall i :: 0 <= i < |trail| ==> v.trail[i] == DotView(trail[i])
      ensures v.glow.None? <==> Lit(Glow()).None?
      ensures v.glow.Some? ==>
                && Some(v.glow.value.color) == currentColor && v.glow.value.intensity == glowIntensity
                && v.glow.value.radius == size * 2.0
                && v.glow.value.pulse == Structures.Pulse((currentTime - collectedTime) * 2.0, sin)
                && 0.9 <= v.glow.value.pulse <= 1.1
    {
      var dots: seq<TrailDotView> := [];
      var i := 0;
      while i < |trail|
        invariant 0 <= i <= |trail| && |dots| == i
        invariant forall k :: 0 <= k < i ==> dots[k] == DotView(trail[k])
      {
        var p := trail[i];
        dots := dots + [TrailDotView(p.x, p.y, p.color, p.life, 3.0 + p.life * 2.0)];
        i := i + 1;
      }
      var glow: Option<GlowView> := None;
      if currentColor.Some? && glowIntensity > 0.0 {
        var pulse := Structures.Pulse((currentTime - collectedTime) * 2.0, sin);
        glow := Some(GlowView(currentColor.value, glowIntensity, size * 2.0, pulse));
      }
      v := AgentView(x, y, size, baseColor, dots, glow);
    }
  }

  /** A living trail point of life at most 1 is drawn with alpha in (0, 1] and
      size in (3, 5]. */
  lemma DotViewBounds(p: Trails.TrailPoint)
    requires 0.0 < p.life <= Trails.MaxLife
    ensures 0.0 < DotView(p).alpha <= 1.0
    ensures 3.0 < DotView(p).size <= 5.0
  {
  }

  /** The arrival test on squares agrees with the source's test on the distance. */
  lemma ArrivalIsDistanceTest(root: real -> real, x: real, y: real, t: Structures.Structure)
    requires IsSqrt(root)
    ensures root(DistSq(x, y, t.x, t.y)) < 30.0 <==> DistSq(x, y, t.x, t.y) < ArrivalDistanceSq
  {
    SqrtBelow(root, DistSq(x, y, t.x, t.y), 30.0);
  }
}
