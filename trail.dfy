/** The fading trail behind a colour-carrying visitor: a bounded, distance-gated
    point buffer. The same algorithm runs for the autonomous agents. */
module Trails {
  import opened Numerics
  import Auras

  datatype TrailPoint = TrailPoint(x: real, y: real, color: Rgb, life: real)

  /** The buffer and the last position at which a point was recorded. */
  datatype TrailState = TrailState(points: seq<TrailPoint>, last: Option<(real, real)>)

  datatype TrailConfig = TrailConfig(maxPoints: nat, minDistance: real, fadeRate: real)

  /** A visitor's trail unless configured otherwise: 80 points, gated at 8,
      fading at 0.15 per second. */
  const DefaultConfig: TrailConfig := TrailConfig(80, 8.0, 0.15)

  /** The life every point starts with, `max_life` in the source. */
  const MaxLife: real := 1.0

  /** The fixed rate at which a trail fades while no colour is carried. */
  const DarkFadeRate: real := 0.5

  /** Every point's life lowered by `amount`. */
  function Faded(ps: seq<TrailPoint>, amount: real): seq<TrailPoint> {
    seq(|ps|, i requires 0 <= i < |ps| => ps[i].(life := ps[i].life - amount))
  }

  /** The points whose life is positive, in their original order. */
  function Alive(ps: seq<TrailPoint>): seq<TrailPoint>
    decreases |ps|
  {
    if ps == [] then []
    else
      var init := Alive(ps[..|ps| - 1]);
      if ps[|ps| - 1].life > 0.0 then init + [ps[|ps| - 1]] else init
  }

  predicate AllLiving(ps: seq<TrailPoint>) {
    forall i :: 0 <= i < |ps| ==> ps[i].life > 0.0
  }

  /** `sqrt(dx*dx + dy*dy) > min_distance`, written with squares. */
  predicate Moved(last: (real, real), x: real, y: real, minDistance: real) {
    minDistance < 0.0 || DistSq(last.0, last.1, x, y) > minDistance * minDistance
  }

  /** Drops the oldest point when the buffer has grown past its capacity. */
  function Evict(ps: seq<TrailPoint>, maxPoints: nat): seq<TrailPoint> {
    if |ps| > maxPoints then ps[1..] else ps
  }

  /** The buffer before fading, for a visitor that carries `c`: the first sighting
      only records the position; later, a new point is appended when the visitor
      has moved far enough from the last recorded position. */
  function Grow(s: TrailState, c: Rgb, x: real, y: real, cfg: TrailConfig): TrailState {
    match s.last
    case None => TrailState(s.points, Some((x, y)))
    case Some(p) =>
      if Moved(p, x, y, cfg.minDistance) then
        TrailState(Evict(s.points + [TrailPoint(x, y, c, MaxLife)], cfg.maxPoints), Some((x, y)))
      else s
  }

  /** The buffer before fading: unchanged while no colour is carried. */
  function Grown(s: TrailState, carried: Option<Rgb>, x: real, y: real, cfg: TrailConfig): TrailState {
    match carried
    case None => s
    case Some(c) => Grow(s, c, x, y, cfg)
  }

  /** Trails fade at `fade_rate`, and at the faster dark rate while no colour is carried. */
  function FadeRate(carried: Option<Rgb>, cfg: TrailConfig): real {
    if carried.None? then DarkFadeRate else cfg.fadeRate
  }

  /** The life a point loses in one update. */
  function FadeAmount(carried: Option<Rgb>, dt: real, cfg: TrailConfig): real {
    dt * FadeRate(carried, cfg)
  }

  /** One trail update, given the colour the visitor carries (None when its aura
      is unlit). */
  function Step(s: TrailState, carried: Option<Rgb>, x: real, y: real, dt: real, cfg: TrailConfig): TrailState {
    var g := Grown(s, carried, x, y, cfg);
    TrailState(Alive(Faded(g.points, FadeAmount(carried, dt, cfg))), g.last)
  }

  /** The colour a trail copies: the aura's colour while it is lit. */
  function Carried(aura: Auras.VisitorAura): (c: Option<Rgb>)
    reads aura
    ensures c.Some? <==> aura.HasColor()
    ensures c.Some? ==> c == aura.currentColor
  {
    if aura.HasColor() then aura.currentColor else None
  }

  // ---- The two loops of an update ----

  /** The fading loop: lowers every point's life by `amount`, in place. */
  method Fade(ps: seq<TrailPoint>, amount: real) returns (faded: seq<TrailPoint>)
    ensures faded == Faded(ps, amount)
  {
    faded := ps;
    var i := 0;
    while i < |faded|
      invariant 0 <= i <= |faded| == |ps|
      invariant forall k :: 0 <= k < i ==> faded[k] == ps[k].(life := ps[k].life - amount)
      invariant forall k :: i <= k < |faded| ==> faded[k] == ps[k]
    {
      faded := faded[i := faded[i].(life := faded[i].life - amount)];
      i := i + 1;
    }
  }

  /** The rebuilding filter: keeps the points whose life is positive. */
  method Prune(ps: seq<TrailPoint>) returns (kept: seq<TrailPoint>)
    ensures kept == Alive(ps)
  {
    kept := [];
    var i := 0;
    while i < |ps|
      invariant 0 <= i <= |ps|
      invariant kept == Alive(ps[..i])
    {
      assert ps[..i + 1][..i] == ps[..i];
      if ps[i].life > 0.0 {
        kept := kept + [ps[i]];
      }
      i := i + 1;
    }
    assert ps[..|ps|] == ps;
  }

  // ---- The update algorithm ----

  /** One trail update as the source performs it: while nothing is carried,
      fade at the dark rate and prune; otherwise record the first position or
      append a point past the distance gate (evicting the oldest on overflow),
      then fade and prune. */
  method Advance(s: TrailState, carried: Option<Rgb>, x: real, y: real, dt: real, cfg: TrailConfig)
    returns (t: TrailState)
    ensures t == Step(s, carried, x, y, dt, cfg)
  {
    if carried.None? {
      var amount := dt * DarkFadeRate;
      assert amount == FadeAmount(None, dt, cfg);
      var faded := Fade(s.points, amount);
      var kept := Prune(faded);
      return TrailState(kept, s.last);
    }
    var points, last := s.points, s.last;
    if last.Some? {
      if Moved(last.value, x, y, cfg.minDistance) {
        points := points + [TrailPoint(x, y, carried.value, MaxLife)];
        last := Some((x, y));
        if |points| > cfg.maxPoints {
          points := points[1..];
        }
      }
    } else {
      last := Some((x, y));
    }
    assert TrailState(points, last) == Grown(s, carried, x, y, cfg);
    var amount := dt * cfg.fadeRate;
    assert amount == FadeAmount(carried, dt, cfg);
    var faded := Fade(points, amount);
    var kept := Prune(faded);
    t := TrailState(kept, last);
  }

  // ---- Properties of the filter ----

  lemma {:induction false} AliveAllLiving(ps: seq<TrailPoint>)
    ensures AllLiving(Alive(ps))
    decreases |ps|
  {
    if ps != [] {
      AliveAllLiving(ps[..|ps| - 1]);
    }
  }

  /** A point survives the filter exactly when it was there and still has life. */
  lemma {:induction false} AliveMembers(ps: seq<TrailPoint>)
    ensures forall p :: p in Alive(ps) <==> p in ps && p.life > 0.0
    decreases |ps|
  {
    if ps != [] {
      var init := ps[..|ps| - 1];
      AliveMembers(init);
      assert ps == init + [ps[|ps| - 1]];
    }
  }

  lemma {:induction false} AliveShorter(ps: seq<TrailPoint>)
    ensures |Alive(ps)| <= |ps|
    decreases |ps|
  {
    if ps != [] {
      AliveShorter(ps[..|ps| - 1]);
    }
  }

  /** A buffer of living points passes the filter unchanged. */
  lemma {:induction false} AliveOfLiving(ps: seq<TrailPoint>)
    requires AllLiving(ps)
    ensures Alive(ps) == ps
    decreases |ps|
  {
    if ps != [] {
      AliveOfLiving(ps[..|ps| - 1]);
    }
  }

  /** `a` is `b` with some elements left out, the rest in their order. */
  predicate Subsequence<T(==)>(a: seq<T>, b: seq<T>)
    decreases |b|
  {
    if b == [] then a == []
    else
      || (a != [] && a[|a| - 1] == b[|b| - 1] && Subsequence(a[..|a| - 1], b[..|b| - 1]))
      || Subsequence(a, b[..|b| - 1])
  }

  /** The survivors keep their insertion order. */
  lemma {:induction false} AliveIsSubsequence(ps: seq<TrailPoint>)
    ensures Subsequence(Alive(ps), ps)
    decreases |ps|
  {
    if ps != [] {
      var init := ps[..|ps| - 1];
      AliveIsSubsequence(init);
      if ps[|ps| - 1].life > 0.0 {
        assert (Alive(init) + [ps[|ps| - 1]])[..|Alive(init)|] == Alive(init);
      }
    }
  }

  // ---- Properties of one update ----

  /** The squared gate agrees with the source's test on the square root. */
  lemma MovedIsDistanceTest(root: real -> real, last: (real, real), x: real, y: real, minDistance: real)
    requires IsSqrt(root)
    ensures Moved(last, x, y, minDistance) <==> root(DistSq(last.0, last.1, x, y)) > minDistance
  {
    SqrtAbove(root, DistSq(last.0, last.1, x, y), minDistance);
  }

  /** The buffer never exceeds its capacity and holds only living points. */
  lemma StepKeepsInvariant(s: TrailState, carried: Option<Rgb>, x: real, y: real, dt: real, cfg: TrailConfig)
    requires |s.points| <= cfg.maxPoints
    ensures |Step(s, carried, x, y, dt, cfg).points| <= cfg.maxPoints
    ensures AllLiving(Step(s, carried, x, y, dt, cfg).points)
  {
    var pre, amount := Grown(s, carried, x, y, cfg).points, FadeAmount(carried, dt, cfg);
    GrownMembers(s, carried, x, y, cfg);
    AliveShorter(Faded(pre, amount));
    AliveAllLiving(Faded(pre, amount));
  }

  /** Growing adds at most the one new point, at full life. */
  lemma GrownMembers(s: TrailState, carried: Option<Rgb>, x: real, y: real, cfg: TrailConfig)
    ensures |s.points| <= cfg.maxPoints ==> |Grown(s, carried, x, y, cfg).points| <= cfg.maxPoints
    ensures forall p :: p in Grown(s, carried, x, y, cfg).points ==> p in s.points || p.life == MaxLife
  {
    if carried.Some? && s.last.Some? && Moved(s.last.value, x, y, cfg.minDistance) {
      var grown := s.points + [TrailPoint(x, y, carried.value, MaxLife)];
      assert forall p :: p in grown[1..] ==> p in grown;
    }
  }

  /** Every surviving point is an earlier point, faded by `amount`. */
  lemma FadedSurvivors(ps: seq<TrailPoint>, amount: real)
    ensures forall p :: p in Alive(Faded(ps, amount)) ==> p.life > 0.0 && p.(life := p.life + amount) in ps
  {
    AliveMembers(Faded(ps, amount));
    forall p | p in Faded(ps, amount)
      ensures p.(life := p.life + amount) in ps
    {
      var i :| 0 <= i < |Faded(ps, amount)| && Faded(ps, amount)[i] == p;
      assert p.(life := p.life + amount) == ps[i];
    }
  }

  /** Without a colour the trail only fades, at the fixed dark rate: no point is
      added and the last recorded position is kept. */
  lemma StepWithoutColour(s: TrailState, x: real, y: real, dt: real, cfg: TrailConfig)
    ensures Step(s, None, x, y, dt, cfg).last == s.last
    ensures Step(s, None, x, y, dt, cfg).points == Alive(Faded(s.points, dt * 0.5))
    ensures forall p :: p in Step(s, None, x, y, dt, cfg).points ==>
              p.life > 0.0 && p.(life := p.life + dt * 0.5) in s.points
  {
    FadedSurvivors(s.points, dt * DarkFadeRate);
  }

  /** The first sighting with a colour records the position and appends nothing. */
  lemma StepFirstSighting(s: TrailState, c: Rgb, x: real, y: real, dt: real, cfg: TrailConfig)
    requires s.last.None?
    ensures Step(s, Some(c), x, y, dt, cfg).last == Some((x, y))
    ensures forall p :: p in Step(s, Some(c), x, y, dt, cfg).points ==>
              p.life > 0.0 && p.(life := p.life + dt * cfg.fadeRate) in s.points
  {
    assert Grown(s, Some(c), x, y, cfg).points == s.points;
    assert FadeAmount(Some(c), dt, cfg) == dt * cfg.fadeRate;
    FadedSurvivors(s.points, dt * cfg.fadeRate);
  }

  /** Short of the minimum distance nothing is appended and the reference point
      stays where it was, so small moves accumulate until they clear the gate. */
  lemma StepBelowGate(s: TrailState, c: Rgb, x: real, y: real, dt: real, cfg: TrailConfig)
    requires s.last.Some? && !Moved(s.last.value, x, y, cfg.minDistance)
    ensures Step(s, Some(c), x, y, dt, cfg).last == s.last
    ensures forall p :: p in Step(s, Some(c), x, y, dt, cfg).points ==>
              p.life > 0.0 && p.(life := p.life + dt * cfg.fadeRate) in s.points
  {
    assert Grown(s, Some(c), x, y, cfg).points == s.points;
    assert FadeAmount(Some(c), dt, cfg) == dt * cfg.fadeRate;
    FadedSurvivors(s.points, dt * cfg.fadeRate);
  }

  /** Past the gate a point with the carried colour is appended at the new
      position, the oldest point is evicted if the buffer overflows, and the new
      point has already faded by `dt * fade_rate`. */
  lemma StepPastGate(s: TrailState, c: Rgb, x: real, y: real, dt: real, cfg: TrailConfig)
    requires s.last.Some? && Moved(s.last.value, x, y, cfg.minDistance)
    requires |s.points| <= cfg.maxPoints && 0 < cfg.maxPoints
    requires dt * cfg.fadeRate < MaxLife
    ensures var r := Step(s, Some(c), x, y, dt, cfg);
      && r.last == Some((x, y))
      && 0 < |r.points|
      && r.points[|r.points| - 1] == TrailPoint(x, y, c, MaxLife - dt * cfg.fadeRate)
    ensures |s.points| == cfg.maxPoints ==>
              Grow(s, c, x, y, cfg).points == s.points[1..] + [TrailPoint(x, y, c, MaxLife)]
  {
    var g := Grow(s, c, x, y, cfg);
    var added := TrailPoint(x, y, c, MaxLife);
    assert 0 < |g.points| && g.points[|g.points| - 1] == added;
    var f := Faded(g.points, dt * cfg.fadeRate);
    assert f[|f| - 1] == added.(life := MaxLife - dt * cfg.fadeRate);
  }

  /** With a non-negative timestep and fade rate, lives stay at most 1. */
  lemma StepLifeAtMostOne(s: TrailState, carried: Option<Rgb>, x: real, y: real, dt: real, cfg: TrailConfig)
    requires 0.0 <= dt && 0.0 <= cfg.fadeRate
    requires forall p :: p in s.points ==> p.life <= MaxLife
    ensures forall p :: p in Step(s, carried, x, y, dt, cfg).points ==> p.life <= MaxLife
  {
    MulNonNegative(dt, FadeRate(carried, cfg));
    GrownAtMostOne(s, carried, x, y, cfg);
    FadedAtMostOne(Grown(s, carried, x, y, cfg).points, FadeAmount(carried, dt, cfg));
  }

  lemma GrownAtMostOne(s: TrailState, carried: Option<Rgb>, x: real, y: real, cfg: TrailConfig)
    requires forall p :: p in s.points ==> p.life <= MaxLife
    ensures forall p :: p in Grown(s, carried, x, y, cfg).points ==> p.life <= MaxLife
  {
    GrownMembers(s, carried, x, y, cfg);
  }

  lemma FadedAtMostOne(ps: seq<TrailPoint>, amount: real)
    requires 0.0 <= amount
    requires forall p :: p in ps ==> p.life <= MaxLife
    ensures forall p :: p in Alive(Faded(ps, amount)) ==> p.life <= MaxLife
  {
    FadedSurvivors(ps, amount);
    forall p | p in Alive(Faded(ps, amount))
      ensures p.life <= MaxLife
    {
      assert p.(life := p.life + amount) in ps;
    }
  }

  /** What the renderer receives for one point. */
  datatype TrailPointView = TrailPointView(x: real, y: real, color: Rgb, alpha: real, size: real)

  class MovementTrail {
    const personId: int
    const aura: Auras.VisitorAura
    const maxPoints: nat
    const minDistance: real
    const fadeRate: real
    const pointSize: real
    var points: seq<TrailPoint>
    var lastPosition: Option<(real, real)>

    function Config(): TrailConfig {
      TrailConfig(maxPoints, minDistance, fadeRate)
    }

    function State(): TrailState
      reads this
    {
      TrailState(points, lastPosition)
    }

    ghost predicate Valid()
      reads this
    {
      |points| <= maxPoints && AllLiving(points)
    }

    constructor (personId: int, aura: Auras.VisitorAura, maxPoints: nat := DefaultConfig.maxPoints,
                 minDistance: real := DefaultConfig.minDistance, fadeRate: real := DefaultConfig.fadeRate,
                 pointSize: real := 6.0)
      ensures this.personId == personId && this.aura == aura
      ensures this.maxPoints == maxPoints && this.minDistance == minDistance
      ensures this.fadeRate == fadeRate && this.pointSize == pointSize
      ensures points == [] && lastPosition == None
      ensures Valid()
    {
      this.personId := personId;
      this.aura := aura;
      this.maxPoints := maxPoints;
      this.minDistance := minDistance;
      this.fadeRate := fadeRate;
      this.pointSize := pointSize;
      points := [];
      lastPosition := None;
    }

    /** One frame, following the visitor's aura. */
    method Update(personX: real, personY: real, dt: real)
      modifies this
      ensures State() == Step(old(State()), Carried(aura), personX, personY, dt, Config())
      ensures old(Valid()) ==> Valid()
    {
      ghost var s := State();
      var carried := if aura.HasColor() then aura.GetColor() else None;
      var t := Advance(State(), carried, personX, personY, dt, Config());
      points, lastPosition := t.points, t.last;
      StepKeepsInvariantIfValid(s, carried, personX, personY, dt, Config());
    }

    /** One record per point, in buffer order, with `alpha = life / max_life` and
        a size between half and all of `point_size`. */
    method GetRenderData() returns (views: seq<TrailPointView>)
      ensures |views| == |points|
      ensures forall i :: 0 <= i < |points| ==>
                && views[i].x == points[i].x && views[i].y == points[i].y
                && views[i].color == points[i].color
                && views[i].alpha == points[i].life / MaxLife
                && views[i].size == pointSize * (0.5 + views[i].alpha * 0.5)
    {
      views := [];
      var i := 0;
      while i < |points|
        invariant 0 <= i <= |points| && |views| == i
        invariant forall k :: 0 <= k < i ==>
                    && views[k].x == points[k].x && views[k].y == points[k].y
                    && views[k].color == points[k].color
                    && views[k].alpha == points[k].life / MaxLife
                    && views[k].size == pointSize * (0.5 + views[k].alpha * 0.5)
      {
        var p := points[i];
        var alpha := p.life / MaxLife;
        views := views + [TrailPointView(p.x, p.y, p.color, alpha, pointSize * (0.5 + alpha * 0.5))];
        i := i + 1;
      }
    }
  }

  lemma StepKeepsInvariantIfValid(s: TrailState, carried: Option<Rgb>, x: real, y: real, dt: real, cfg: TrailConfig)
    ensures |s.points| <= cfg.maxPoints && AllLiving(s.points) ==>
              |Step(s, carried, x, y, dt, cfg).points| <= cfg.maxPoints && AllLiving(Step(s, carried, x, y, dt, cfg).points)
  {
    if |s.points| <= cfg.maxPoints {
      StepKeepsInvariant(s, carried, x, y, dt, cfg);
    }
  }

  /** For a living point of life at most 1 the drawn alpha is in (0, 1] and the
      size between half and all of the base size. */
  lemma RenderBounds(p: TrailPoint, pointSize: real)
    requires 0.0 < p.life <= MaxLife && 0.0 <= pointSize
    ensures 0.0 < p.life / MaxLife <= 1.0
    ensures pointSize * 0.5 <= pointSize * (0.5 + p.life / MaxLife * 0.5) <= pointSize
  {
    var a := p.life / MaxLife;
    var extra := pointSize * (a * 0.5);
    var rest := pointSize * ((1.0 - a) * 0.5);
    assert pointSize * (0.5 + a * 0.5) == pointSize * 0.5 + extra;
    assert extra + rest == pointSize * 0.5;
    assert 0.0 <= extra && 0.0 <= rest;
  }
}
