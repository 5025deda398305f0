/** The bioluminescent aura of a visitor: at most one carried colour whose
    intensity decays slowly and is dropped once it is too faint. */
module Auras {
  import opened Numerics
  import Structures

  /** A carried colour and its intensity; an agent carries one too. */
  datatype Glow = Glow(color: Option<Rgb>, intensity: real)

  /** The aura invariant: intensity 0 exactly when no colour is held, and the
      intensity never leaves [0, 1]. */
  predicate GlowValid(g: Glow) {
    && (g.intensity == 0.0 <==> g.color.None?)
    && 0.0 <= g.intensity <= 1.0
  }

  /** The glow of a freshly collected colour. */
  function Collected(c: Rgb): (g: Glow)
    ensures GlowValid(g) && g.color == Some(c) && g.intensity == 1.0
  {
    Glow(Some(c), 1.0)
  }

  /** One decay step: a lit glow is multiplied by the frame-normalised factor and
      snaps to "no colour, intensity 0" once it falls below `minIntensity`; an
      unlit glow is left alone. */
  function Decay(g: Glow, factor: DecayFactor, minIntensity: real): (r: Glow)
    ensures g.intensity <= 0.0 ==> r == g
    ensures 0.0 <= g.intensity ==> 0.0 <= r.intensity <= g.intensity
    ensures 0.0 < g.intensity ==>
              || (r.intensity == 0.0 && r.color.None? && g.intensity * factor < minIntensity)
              || (r.intensity == g.intensity * factor && r.intensity >= minIntensity && r.color == g.color)
    ensures GlowValid(g) ==> GlowValid(r)
  {
    if g.intensity > 0.0 then
      var i := g.intensity * factor;
      assert 0.0 < i <= g.intensity by { ScaleDown(g.intensity, factor); }
      if i < minIntensity then Glow(None, 0.0) else Glow(g.color, i)
    else
      g
  }

  /** The decay step of a lit glow, unfolded. */
  lemma DecayLit(g: Glow, factor: DecayFactor, minIntensity: real)
    requires g.intensity > 0.0
    ensures Decay(g, factor, minIntensity) ==
              if g.intensity * factor < minIntensity then Glow(None, 0.0) else Glow(g.color, g.intensity * factor)
  {
  }

  lemma ScaleDown(v: real, f: real)
    requires 0.0 < v && 0.0 < f <= 1.0
    ensures 0.0 < v * f <= v
  {
    var vf, rest := v * f, v * (1.0 - f);
    assert vf + rest == v;
    assert 0.0 <= rest;
  }

  /** The glow after a run of decay steps with no collection in between. */
  function DecayAll(g: Glow, factors: seq<DecayFactor>, minIntensity: real): Glow
    decreases |factors|
  {
    if factors == [] then g else DecayAll(Decay(g, factors[0], minIntensity), factors[1..], minIntensity)
  }

  /** Between two collections the intensity never grows, the invariant holds
      throughout, and the colour is either the one collected or gone. */
  lemma {:induction false} DecayAllNonIncreasing(g: Glow, factors: seq<DecayFactor>, minIntensity: real)
    requires GlowValid(g)
    ensures GlowValid(DecayAll(g, factors, minIntensity))
    ensures DecayAll(g, factors, minIntensity).intensity <= g.intensity
    ensures DecayAll(g, factors, minIntensity).color in {g.color, None}
    decreases |factors|
  {
    if factors != [] {
      DecayAllNonIncreasing(Decay(g, factors[0], minIntensity), factors[1..], minIntensity);
    }
  }

  /** Once the glow is out it stays out, however many steps follow. */
  lemma {:induction false} DecayAllKeepsDark(factors: seq<DecayFactor>, minIntensity: real)
    ensures DecayAll(Glow(None, 0.0), factors, minIntensity) == Glow(None, 0.0)
    decreases |factors|
  {
    if factors != [] {
      DecayAllKeepsDark(factors[1..], minIntensity);
    }
  }

  /** What the renderer receives for a lit aura. */
  datatype AuraView = AuraView(x: real, y: real, color: Rgb, intensity: real, glowRadius: real, pulse: real)

  class VisitorAura {
    const personId: int
    const glowRadius: real
    const decayRate: real
    const minIntensity: real
    var currentColor: Option<Rgb>
    var intensity: real
    var collectedTime: real

    function State(): Glow
      reads this
    {
      Glow(currentColor, intensity)
    }

    ghost predicate Valid()
      reads this
    {
      GlowValid(State())
    }

    constructor (personId: int, glowRadius: real := 18.0, decayRate: real := 0.998, minIntensity: real := 0.05)
      ensures this.personId == personId && this.glowRadius == glowRadius
      ensures this.decayRate == decayRate && this.minIntensity == minIntensity
      ensures currentColor == None && intensity == 0.0 && collectedTime == 0.0
      ensures Valid()
    {
      this.personId := personId;
      this.glowRadius := glowRadius;
      this.decayRate := decayRate;
      this.minIntensity := minIntensity;
      currentColor := None;
      intensity := 0.0;
      collectedTime := 0.0;
    }

    /** Replaces whatever was carried by `color` at full intensity; `now` is the
        wall-clock reading the source takes at this point. */
    method CollectColor(color: Rgb, now: real)
      modifies this
      ensures State() == Collected(color) && collectedTime == now
      ensures Valid()
    {
      currentColor := Some(color);
      intensity := 1.0;
      collectedTime := now;
    }

    /** One frame of decay; `factor` is the host's `decay_rate ** (dt * 60)`. */
    method Update(factor: DecayFactor)
      modifies this
      ensures State() == Decay(old(State()), factor, minIntensity)
      ensures collectedTime == old(collectedTime)
      ensures old(Valid()) ==> Valid()
      ensures old(intensity) > 0.0 ==>
                (intensity == 0.0 && currentColor == None) || intensity >= minIntensity
    {
      if intensity > 0.0 {
        intensity := intensity * factor;
        if intensity < minIntensity {
          intensity := 0.0;
          currentColor := None;
        }
      }
    }

    predicate HasColor()
      reads this
    {
      currentColor.Some? && intensity > 0.0
    }

    function GetColor(): Option<Rgb>
      reads this
    {
      currentColor
    }

    /** Nothing for an unlit aura; otherwise the visitor's position, the colour,
        its intensity, the glow radius and a pulse in [0.9, 1.1]. */
    function GetRenderData(personX: real, personY: real, now: real, sin: Wave): (r: Option<AuraView>)
      reads this
      ensures r.None? <==> !HasColor()
      ensures r.Some? ==>
                && r.value.x == personX && r.value.y == personY
                && Some(r.value.color) == currentColor && r.value.intensity == intensity
                && r.value.glowRadius == glowRadius
                && 0.9 <= r.value.pulse <= 1.1
    {
      if !HasColor() then None
      else Some(AuraView(personX, personY, currentColor.value, intensity, glowRadius,
                         Structures.Pulse((now - collectedTime) * 2.0, sin)))
    }
  }

  /** Under the invariant, "has a colour", "holds a colour" and "is lit" agree. */
  lemma HasColorIffLit(a: VisitorAura)
    requires a.Valid()
    ensures a.HasColor() <==> a.intensity > 0.0
    ensures a.HasColor() <==> a.currentColor.Some?
  {
  }
}
