/** A tree or mushroom: a fixed coloured disc with a breathing energy level. */
module Structures {
  import opened Numerics

  /** What the renderer receives for one structure. */
  datatype StructureView = StructureView(x: real, y: real, radius: real, color: Rgb, energy: real, pulse: real)

  /** The breathing level `0.3 + 0.1 * sin(0.5 * time)`; it stays in [0.2, 0.4]. */
  function Energy(time: real, sin: Wave): (e: real)
    ensures 0.2 <= e <= 0.4
  {
    assert WaveAt(sin, time * 0.5);
    0.3 + sin(time * 0.5) * 0.1
  }

  /** A pulse factor `1 + 0.1 * sin(phase)`; it stays in [0.9, 1.1]. */
  function Pulse(phase: real, sin: Wave): (p: real)
    ensures 0.9 <= p <= 1.1
  {
    assert WaveAt(sin, phase);
    1.0 + sin(phase) * 0.1
  }

  class Structure {
    const id: int
    const x: real
    const y: real
    const radius: real
    const color: Rgb
    var energy: real

    constructor (id: int, x: real, y: real, radius: real, color: Rgb)
      ensures this.id == id && this.x == x && this.y == y
      ensures this.radius == radius && this.color == color
      ensures energy == 0.3
    {
      this.id := id;
      this.x := x;
      this.y := y;
      this.radius := radius;
      this.color := color;
      energy := 0.3;
    }

    /** The breathing animation: the energy depends on the simulation time only,
        never on `dt`. */
    method Update(dt: real, time: real, sin: Wave)
      modifies this
      ensures energy == Energy(time, sin)
      ensures 0.2 <= energy <= 0.4
    {
      energy := 0.3 + sin(time * 0.5) * 0.1;
    }

    /** `sqrt(dx*dx + dy*dy) < radius`, written with squares; a point at exactly
        `radius` from the centre is outside. */
    predicate ContainsPoint(px: real, py: real) {
      0.0 < radius && DistSq(x, y, px, py) < radius * radius
    }

    function RenderData(time: real, sin: Wave): (v: StructureView)
      reads this
      ensures v.x == x && v.y == y && v.radius == radius && v.color == color
      ensures v.energy == energy
      ensures v.pulse == Pulse(time * 2.0, sin) && 0.9 <= v.pulse <= 1.1
    {
      StructureView(x, y, radius, color, energy, Pulse(time * 2.0, sin))
    }
  }

  /** The squared containment test agrees with the source's test on the square
      root of the squared distance, for every radius. */
  lemma ContainsIsDistanceTest(s: Structure, root: real -> real, px: real, py: real)
    requires IsSqrt(root)
    ensures s.ContainsPoint(px, py) <==> root(DistSq(s.x, s.y, px, py)) < s.radius
  {
    SqrtBelow(root, DistSq(s.x, s.y, px, py), s.radius);
  }

  /** A point on the rim is outside: containment is strict. */
  lemma RimIsOutside(s: Structure, px: real, py: real)
    requires DistSq(s.x, s.y, px, py) == s.radius * s.radius
    ensures !s.ContainsPoint(px, py)
  {
  }

  /** A structure with a positive radius contains its own centre. */
  lemma CentreIsInside(s: Structure)
    requires 0.0 < s.radius
    ensures s.ContainsPoint(s.x, s.y)
  {
    MulStrict(0.0, s.radius);
    assert DistSq(s.x, s.y, s.x, s.y) == 0.0;
  }
}
