/** The orchestrator: owns the structures, the mycelial network, one aura and
    one trail per present visitor, the running dances and the autonomous
    agents, advances them all once per frame and assembles the frame's drawing. */
module Pollination {
  import opened Numerics
  import Random
  import Structures
  import Auras
  import Trails
  import Dances
  import Agents
  import Mycelium

  /** One entry of the structure configuration; coordinates up to 1.0 are
      fractions of the canvas. */
  datatype StructureConfig = StructureConfig(id: int, x: real, y: real, radius: real, color: Rgb)

  /** One tracked person in a frame's input. */
  datatype Visitor = Visitor(id: int, x: real, y: real)

  /** A normalised coordinate (at most 1.0) is scaled by the canvas dimension;
      anything larger is already in pixels. */
  function Scale(v: real, dimension: real): real {
    if v <= 1.0 then v * dimension else v
  }

  /** A fraction in [0, 1] of a non-negative dimension lands on the canvas. */
  lemma ScaleOntoCanvas(v: real, dimension: real)
    requires 0.0 <= v <= 1.0 && 0.0 <= dimension
    ensures 0.0 <= Scale(v, dimension) <= dimension
  {
    MulNonNegative(v, dimension);
    MulNonNegative(1.0 - v, dimension);
    assert (1.0 - v) * dimension == dimension - v * dimension;
  }

  /** `np.array_equal` on two colours: every channel equal. */
  predicate ColorsMatch(a: Rgb, b: Rgb) {
    a.r == b.r && a.g == b.g && a.b == b.b
  }

  /** Matching colours are the same colour. */
  lemma ColorsMatchIsEquality(a: Rgb, b: Rgb)
    ensures ColorsMatch(a, b) <==> a == b
  {
  }

  function IdsOf(visitors: seq<Visitor>): set<int> {
    set v | v in visitors :: v.id
  }

  // ---- The collision pass of one visitor ----

  /** What a pollination dance is spawned for: the structure's position, the
      colour the visitor carried and the structure's colour. */
  datatype Encounter = Encounter(x: real, y: real, visitorColor: Rgb, structureColor: Rgb)

  /** One structure of the collision pass. A containing structure gives its
      colour to the visitor, after spawning a dance when the visitor shows a
      colour that does not match; any other structure changes nothing. */
  function Touch(g: Auras.Glow, s: Structures.Structure, px: real, py: real): (r: (Auras.Glow, seq<Encounter>))
    ensures !s.ContainsPoint(px, py) ==> r == (g, [])
    ensures s.ContainsPoint(px, py) ==> r.0 == Auras.Collected(s.color)
    ensures |r.1| <= 1
    ensures r.1 != [] <==>
              s.ContainsPoint(px, py) && g.color.Some? && g.intensity > 0.0 && !ColorsMatch(g.color.value, s.color)
    ensures r.1 != [] ==> r.1[0] == Encounter(s.x, s.y, g.color.value, s.color)
  {
    if !s.ContainsPoint(px, py) then (g, [])
    else
      var isDifferent := g.color.Some? && !ColorsMatch(g.color.value, s.color);
      var hasColor := g.color.Some? && g.intensity > 0.0;
      (Auras.Collected(s.color), if isDifferent && hasColor then [Encounter(s.x, s.y, g.color.value, s.color)] else [])
  }

  /** The whole pass over the structures in order, each test seeing the colour
      left by the previous ones. */
  function Collisions(g: Auras.Glow, ss: seq<Structures.Structure>, px: real, py: real): (Auras.Glow, seq<Encounter>)
    decreases |ss|
  {
    if ss == [] then (g, [])
    else
      var before := Collisions(g, ss[..|ss| - 1], px, py);
      var last := Touch(before.0, ss[|ss| - 1], px, py);
      (last.0, before.1 + last.1)
  }

  /** The last structure containing the point, if any. */
  function LastContaining(ss: seq<Structures.Structure>, px: real, py: real): (r: Option<Structures.Structure>)
    ensures r.Some? ==> r.value in ss && r.value.ContainsPoint(px, py)
    decreases |ss|
  {
    if ss == [] then None
    else if ss[|ss| - 1].ContainsPoint(px, py) then Some(ss[|ss| - 1])
    else LastContaining(ss[..|ss| - 1], px, py)
  }

  /** A dance spawned for `e`, still at full life. */
  ghost predicate SpawnedFor(d: Dances.PollinationDance, e: Encounter)
    reads d
  {
    && d.x == e.x && d.y == e.y
    && d.visitorColor == e.visitorColor && d.structureColor == e.structureColor
    && d.life == 1.0 && d.Valid()
  }

  predicate Distinct<T(==)>(s: seq<T>) {
    forall i, j :: 0 <= i < j < |s| ==> s[i] != s[j]
  }

  /** The dances that are still alive, in order. */
  function Undead(ds: seq<Dances.PollinationDance>): seq<Dances.PollinationDance>
    reads ds
    decreases |ds|
  {
    if ds == [] then []
    else
      var init := Undead(ds[..|ds| - 1]);
      if !ds[|ds| - 1].IsDead() then init + [ds[|ds| - 1]] else init
  }

  /** `v` is what a dance's own drawing gives: centred on its origin, with
      its colours, its life as alpha, and its visible particles and rings. */
  ghost predicate DanceShown(v: Dances.DanceView, d: Dances.PollinationDance, cos: real -> real, sin: real -> real)
    reads d
  {
    && v.centerX == d.x && v.centerY == d.y && v.alpha == d.life
    && v.visitorColor == d.visitorColor && v.structureColor == d.structureColor
    && v.particles == Dances.VisibleParticles(d.particles, d.x, d.y, d.life, cos, sin)
    && Dances.RingsBounded(d.rings) && v.rings == Dances.VisibleRings(d.rings, d.x, d.y, d.life)
  }

  /** `v` is what an agent's own drawing gives: its position, size and body
      colour, one dot per trail point, and its glow exactly while lit. */
  ghost predicate AgentShown(v: Agents.AgentView, a: Agents.AutonomousAgent, now: real, sin: Wave)
    reads a
  {
    && v.x == a.x && v.y == a.y && v.size == a.size && v.baseColor == a.baseColor
    && |v.trail| == |a.trail|
    && (forall i :: 0 <= i < |a.trail| ==> v.trail[i] == Agents.DotView(a.trail[i]))
    && (v.glow.None? <==> Agents.Lit(a.Glow()).None?)
    && (v.glow.Some? ==>
          && Some(v.glow.value.color) == a.currentColor && v.glow.value.intensity == a.glowIntensity
          && v.glow.value.radius == a.size * 2.0
          && v.glow.value.pulse == Structures.Pulse((now - a.collectedTime) * 2.0, sin))
  }

  /** `vs` is what a trail's own drawing gives: one record per point, in
      order, with position and colour copied, alpha the life and the size
      scaled by it. */
  ghost predicate TrailShown(vs: seq<Trails.TrailPointView>, t: Trails.MovementTrail)
    reads t
  {
    && |vs| == |t.points|
    && forall i :: 0 <= i < |t.points| ==>
         && vs[i].x == t.points[i].x && vs[i].y == t.points[i].y && vs[i].color == t.points[i].color
         && vs[i].alpha == t.points[i].life / Trails.MaxLife
         && vs[i].size == t.pointSize * (0.5 + vs[i].alpha * 0.5)
  }

  datatype Snapshot = Snapshot(
    mycelium: seq<Mycelium.ConnectionView>,
    structures: seq<Structures.StructureView>,
    visitorAuras: seq<Option<Auras.AuraView>>,
    visitorTrails: seq<seq<Trails.TrailPointView>>,
    dances: seq<Dances.DanceView>,
    agents: seq<Agents.AgentView>,
    visitors: seq<Visitor>)

  /** The visitors whose id has an aura, in input order. */
  function Known(visitors: seq<Visitor>, keys: set<int>): (r: seq<Visitor>)
    ensures forall v :: v in r <==> v in visitors && v.id in keys
    decreases |visitors|
  {
    if visitors == [] then []
    else
      var init := Known(visitors[..|visitors| - 1], keys);
      assert visitors == visitors[..|visitors| - 1] + [visitors[|visitors| - 1]];
      if visitors[|visitors| - 1].id in keys then init + [visitors[|visitors| - 1]] else init
  }

  class PollinationSystem {
    const canvasWidth: real
    const canvasHeight: real
    var time: real
    const structures: seq<Structures.Structure>
    const network: Mycelium.MycelialNetwork
    var visitorAuras: map<int, Auras.VisitorAura>
    var visitorTrails: map<int, Trails.MovementTrail>
    var dances: seq<Dances.PollinationDance>
    var agents: seq<Agents.AutonomousAgent>
    const intensity: real
    const speed: real
    /** The random source, seeded by the host. */
    const rng: Random.Rng

    ghost function AuraSet(): set<Auras.VisitorAura>
      reads this`visitorAuras
    {
      visitorAuras.Values
    }

    ghost function TrailSet(): set<Trails.MovementTrail>
      reads this`visitorTrails
    {
      visitorTrails.Values
    }

    /** The aura and the trail kept for `id`, if any. */
    ghost function Owned(id: int): set<object>
      reads this`visitorAuras, this`visitorTrails
    {
      (if id in visitorAuras then {visitorAuras[id]} else {}) + (if id in visitorTrails then {visitorTrails[id]} else {})
    }

    /** Aura and trail maps have the same keys, each trail follows the aura of
        its own id and has the default capacity of 80, and no two ids share an
        aura or a trail. */
    ghost predicate MapsValid()
      reads this`visitorAuras, this`visitorTrails
    {
      && visitorAuras.Keys == visitorTrails.Keys
      && (forall id :: id in visitorTrails ==> visitorTrails[id].aura == visitorAuras[id] && visitorTrails[id].maxPoints == 80)
      && (forall i, j :: i in visitorAuras && j in visitorAuras && i != j ==> visitorAuras[i] != visitorAuras[j])
      && (forall i, j :: i in visitorTrails && j in visitorTrails && i != j ==> visitorTrails[i] != visitorTrails[j])
    }

    ghost predicate DancesValid()
      reads this`dances, dances
    {
      Distinct(dances) && forall k :: 0 <= k < |dances| ==> dances[k].Valid()
    }

    /** Agent `k` has id `k` and shares the system's structures. */
    ghost predicate AgentsValid()
      reads this`agents, agents
    {
      forall k :: 0 <= k < |agents| ==> agents[k].id == k && agents[k].structures == structures && agents[k].Valid()
    }

    ghost predicate Valid()
      reads this, network, dances, agents
    {
      && network.structures == structures && network.Valid()
      && MapsValid() && DancesValid() && AgentsValid()
    }

    /** Structures are built from the configuration in order, normalised
        coordinates scaled to the canvas; the network is built over them and
        nothing else exists yet. */
    constructor (configs: seq<StructureConfig>, stream: nat -> Random.Unit,
                 canvasWidth: real := 1920.0, canvasHeight: real := 1080.0)
      ensures this.canvasWidth == canvasWidth && this.canvasHeight == canvasHeight
      ensures time == 0.0 && intensity == 0.7 && speed == 0.6
      ensures |structures| == |configs|
      ensures forall k :: 0 <= k < |configs| ==>
                && structures[k].id == configs[k].id
                && structures[k].x == Scale(configs[k].x, canvasWidth)
                && structures[k].y == Scale(configs[k].y, canvasHeight)
                && structures[k].radius == configs[k].radius && structures[k].color == configs[k].color
      ensures visitorAuras == map[] && visitorTrails == map[] && dances == [] && agents == []
      ensures Valid()
    {
      var r := new Random.Rng(stream);
      var ss: seq<Structures.Structure> := [];
      for k := 0 to |configs|
        invariant |ss| == k
        invariant forall j :: 0 <= j < k ==>
                    && ss[j].id == configs[j].id
                    && ss[j].x == Scale(configs[j].x, canvasWidth)
                    && ss[j].y == Scale(configs[j].y, canvasHeight)
                    && ss[j].radius == configs[j].radius && ss[j].color == configs[j].color
      {
        var c := configs[k];
        var x := if c.x <= 1.0 then c.x * canvasWidth else c.x;
        var y := if c.y <= 1.0 then c.y * canvasHeight else c.y;
        var s := new Structures.Structure(c.id, x, y, c.radius, c.color);
        ss := ss + [s];
      }
      var net := new Mycelium.MycelialNetwork(ss, r);
      this.canvasWidth := canvasWidth;
      this.canvasHeight := canvasHeight;
      time := 0.0;
      structures := ss;
      network := net;
      visitorAuras := map[];
      visitorTrails := map[];
      dances := [];
      agents := [];
      intensity := 0.7;
      speed := 0.6;
      rng := r;
    }

    /** Adds a pollinator of the given type whose id is the number of agents
        before it, so ids run 0, 1, 2, ... in order of addition. */
    method AddAutonomousAgent(kind: string) returns (agent: Agents.AutonomousAgent)
      requires AgentsValid()
      modifies this`agents, rng
      ensures fresh(agent) && agent.id == |old(agents)| && agent.kind == kind
      ensures agents == old(agents) + [agent]
      ensures agent.canvasWidth == canvasWidth && agent.canvasHeight == canvasHeight
      ensures AgentsValid()
    {
      agent := new Agents.AutonomousAgent(|agents|, kind, structures, None, None, rng, canvasWidth, canvasHeight);
      agents := agents + [agent];
    }

    /** The collision pass of one visitor against every structure, in order:
        each containing structure spawns a dance on a colour mismatch of a lit
        aura and then gives the aura its colour. The new dances are returned in
        the order they were spawned. */
    method Collide(aura: Auras.VisitorAura, px: real, py: real, now: real) returns (spawned: seq<Dances.PollinationDance>)
      modifies aura, rng
      ensures aura.State() == Collisions(old(aura.State()), structures, px, py).0
      ensures |spawned| == |Collisions(old(aura.State()), structures, px, py).1|
      ensures forall k :: 0 <= k < |spawned| ==>
                fresh(spawned[k]) && SpawnedFor(spawned[k], Collisions(old(aura.State()), structures, px, py).1[k])
      ensures forall k :: 0 <= k < |spawned| ==> fresh(spawned[k]) && spawned[k].Valid() && spawned[k].life == 1.0
      ensures Distinct(spawned)
    {
      ghost var g0 := aura.State();
      spawned := [];
      for k := 0 to |structures|
        invariant aura.State() == Collisions(g0, structures[..k], px, py).0
        invariant |spawned| == |Collisions(g0, structures[..k], px, py).1|
        invariant forall j :: 0 <= j < |spawned| ==>
                    fresh(spawned[j]) && SpawnedFor(spawned[j], Collisions(g0, structures[..k], px, py).1[j])
        invariant Distinct(spawned)
      {
        assert structures[..k + 1][..k] == structures[..k];
        ghost var before := Collisions(g0, structures[..k], px, py);
        var s := structures[k];
        if s.ContainsPoint(px, py) {
          var current := aura.GetColor();
          var isDifferent := current.Some? && !ColorsMatch(current.value, s.color);
          if isDifferent && aura.HasColor() {
            var d := new Dances.PollinationDance(s.x, s.y, current.value, s.color, rng);
            assert d !in spawned;
            spawned := spawned + [d];
          }
          aura.CollectColor(s.color, now);
        }
        assert Collisions(g0, structures[..k + 1], px, py).1 == before.1 + Touch(before.0, s, px, py).1;
      }
      assert structures[..|structures|] == structures;
    }

    /** Creates the aura and the trail of an id seen for the first time; known
        ids keep theirs. */
    method Admit(id: int) returns (aura: Auras.VisitorAura, trail: Trails.MovementTrail)
      requires MapsValid()
      modifies this`visitorAuras, this`visitorTrails
      ensures MapsValid()
      ensures visitorAuras.Keys == old(visitorAuras.Keys) + {id}
      ensures aura == visitorAuras[id] && trail == visitorTrails[id]
      ensures forall k :: k in old(visitorAuras) ==> visitorAuras[k] == old(visitorAuras[k]) && visitorTrails[k] == old(visitorTrails[k])
      ensures id !in old(visitorAuras) ==>
                && fresh(aura) && aura.State() == Auras.Glow(None, 0.0) && aura.minIntensity == 0.05
                && fresh(trail) && trail.State() == Trails.TrailState([], None) && trail.Config() == Trails.DefaultConfig
    {
      if id !in visitorAuras {
        var a := new Auras.VisitorAura(id);
        visitorAuras := visitorAuras[id := a];
      }
      if id !in visitorTrails {
        var a := visitorAuras[id];
        var t := new Trails.MovementTrail(id, a);
        visitorTrails := visitorTrails[id := t];
      }
      aura := visitorAuras[id];
      trail := visitorTrails[id];
    }

    /** One visitor's frame: an aura and a trail are created for a new id; the
        collision pass runs; then the aura decays and the trail steps with the
        colour the aura still shows. The dances the pass spawned are returned. */
    method Visit(v: Visitor, dt: real, now: real, decay: DecayFactor) returns (spawned: seq<Dances.PollinationDance>)
      requires MapsValid()
      modifies this`visitorAuras, this`visitorTrails, Owned(v.id), rng
      ensures MapsValid()
      ensures visitorAuras.Keys == old(visitorAuras.Keys) + {v.id}
      ensures forall k :: k in old(visitorAuras) ==> visitorAuras[k] == old(visitorAuras[k]) && visitorTrails[k] == old(visitorTrails[k])
      ensures v.id !in old(visitorAuras) ==> fresh(visitorAuras[v.id]) && fresh(visitorTrails[v.id])
      ensures forall k :: k in old(visitorAuras) && k != v.id ==>
                visitorAuras[k].State() == old(visitorAuras[k].State()) && visitorTrails[k].State() == old(visitorTrails[k].State())
      ensures var g0 := if v.id in old(visitorAuras) then old(visitorAuras[v.id].State()) else Auras.Glow(None, 0.0);
              var t0 := if v.id in old(visitorTrails) then old(visitorTrails[v.id].State()) else Trails.TrailState([], None);
              Met(visitorAuras[v.id], visitorTrails[v.id], g0, t0, v, dt, decay, spawned)
      ensures Distinct(spawned)
      ensures forall k :: 0 <= k < |spawned| ==> fresh(spawned[k]) && spawned[k].Valid() && spawned[k].life == 1.0
    {
      var aura, trail := Admit(v.id);
      spawned := Meet(aura, trail, v, dt, now, decay);
    }

    /** What one visitor's frame does to its aura and trail, from glow `g0` and
        trail `t0`: the collision pass in structure order, spawning `spawned`,
        then the decay step, then the trail step with the colour still shown. */
    ghost predicate Met(aura: Auras.VisitorAura, trail: Trails.MovementTrail, g0: Auras.Glow, t0: Trails.TrailState,
                        v: Visitor, dt: real, decay: DecayFactor, spawned: seq<Dances.PollinationDance>)
      reads aura, trail, spawned
    {
      var pass := Collisions(g0, structures, v.x, v.y);
      && aura.State() == Auras.Decay(pass.0, decay, aura.minIntensity)
      && trail.State() == Trails.Step(t0, Trails.Carried(aura), v.x, v.y, dt, trail.Config())
      && |spawned| == |pass.1|
      && forall k :: 0 <= k < |spawned| ==> SpawnedFor(spawned[k], pass.1[k])
    }

    /** The collision pass of a visitor followed by the end of its frame. */
    method Meet(aura: Auras.VisitorAura, trail: Trails.MovementTrail, v: Visitor, dt: real, now: real, decay: DecayFactor)
      returns (spawned: seq<Dances.PollinationDance>)
      requires trail.aura == aura
      modifies aura, trail, rng
      ensures Met(aura, trail, old(aura.State()), old(trail.State()), v, dt, decay, spawned)
      ensures forall k :: 0 <= k < |spawned| ==> fresh(spawned[k]) && spawned[k].Valid() && spawned[k].life == 1.0
      ensures Distinct(spawned)
    {
      spawned := Collide(aura, v.x, v.y, now);
      Settle(aura, trail, v, dt, decay);
    }

    /** The end of a visitor's frame: the aura decays, then the trail steps with
        the colour the decayed aura still shows. */
    static method Settle(aura: Auras.VisitorAura, trail: Trails.MovementTrail, v: Visitor, dt: real, decay: DecayFactor)
      requires trail.aura == aura
      modifies aura, trail
      ensures aura.State() == Auras.Decay(old(aura.State()), decay, aura.minIntensity)
      ensures trail.State() == Trails.Step(old(trail.State()), Trails.Carried(aura), v.x, v.y, dt, trail.Config())
    {
      aura.Update(decay);
      trail.Update(v.x, v.y, dt);
    }

    /** Drops the aura and trail of every id that is not in `active`. */
    method Retire(active: set<int>)
      requires MapsValid() && active <= visitorAuras.Keys
      modifies this`visitorAuras, this`visitorTrails
      ensures MapsValid()
      ensures visitorAuras.Keys == active && visitorTrails.Keys == active
      ensures forall id :: id in active ==> visitorAuras[id] == old(visitorAuras[id]) && visitorTrails[id] == old(visitorTrails[id])
    {
      var keys := visitorAuras.Keys;
      while keys != {}
        invariant MapsValid()
        invariant visitorAuras.Keys == active + keys
        invariant forall id :: id in visitorAuras ==> visitorAuras[id] == old(visitorAuras[id]) && visitorTrails[id] == old(visitorTrails[id])
        decreases keys
      {
        var id := Pick(keys);
        if id !in active {
          Forget(id);
        }
        keys := keys - {id};
      }
    }

    /** Forgets the aura and the trail of `id`. */
    method Forget(id: int)
      requires MapsValid()
      modifies this`visitorAuras, this`visitorTrails
      ensures MapsValid()
      ensures visitorAuras == old(visitorAuras) - {id} && visitorTrails == old(visitorTrails) - {id}
    {
      visitorAuras := visitorAuras - {id};
      visitorTrails := visitorTrails - {id};
    }

    /** Every dance steps once; then the dead ones are dropped and the survivors
        keep their order. */
    method AdvanceDances(dt: real)
      requires DancesValid()
      modifies this`dances, dances
      ensures DancesValid()
      ensures dances == Undead(old(dances))
      ensures forall d :: d in dances ==> !d.IsDead()
      ensures forall k :: 0 <= k < |old(dances)| ==> old(dances)[k].life == old(dances[k].life) - dt / old(dances)[k].duration
    {
      StepDances(dances, dt);
      var live := Survivors(dances);
      UndeadMembers(dances);
      UndeadDistinct(dances);
      forall k | 0 <= k < |live|
        ensures live[k].Valid()
      {
        assert live[k] in dances;
      }
      dances := live;
    }

    /** Every agent steps once, at the system's speed. */
    method AdvanceAgents(dt: real, now: real, sin: real -> real, cos: real -> real, root: real -> real, decay: DecayFactor)
      requires AgentsValid() && IsSqrt(root)
      modifies agents, rng
      ensures AgentsValid()
    {
      for k := 0 to |agents|
        invariant AgentsValid()
      {
        agents[k].Update(dt, now, speed, sin, cos, root, decay, rng);
      }
    }

    /** The breathing step of every structure. */
    method UpdateStructures(dt: real, sin: Wave)
      modifies structures
      ensures forall k :: 0 <= k < |structures| ==> structures[k].energy == Structures.Energy(time, sin)
    {
      for k := 0 to |structures|
        invariant forall j :: 0 <= j < k ==> structures[j].energy == Structures.Energy(time, sin)
      {
        structures[k].Update(dt, time, sin);
      }
    }

    /** One visitor's frame, with the dances its pass spawned appended to the
        system's dances. */
    method Serve(v: Visitor, dt: real, now: real, decay: DecayFactor) returns (ghost added: seq<Dances.PollinationDance>)
      requires MapsValid() && DancesValid()
      modifies this`visitorAuras, this`visitorTrails, this`dances, Owned(v.id), rng
      ensures MapsValid() && DancesValid()
      ensures visitorAuras.Keys == old(visitorAuras.Keys) + {v.id}
      ensures forall id :: id in visitorAuras ==>
                if id in old(visitorAuras) then visitorAuras[id] == old(visitorAuras[id]) && visitorTrails[id] == old(visitorTrails[id])
                else fresh(visitorAuras[id]) && fresh(visitorTrails[id])
      ensures dances == old(dances) + added
      ensures forall k :: 0 <= k < |added| ==> fresh(added[k])
    {
      label before:
      var spawned := Visit(v, dt, now, decay);
      Join@before(dances, spawned);
      dances := dances + spawned;
      added := spawned;
    }

    /** The structures breathe and then the network flows, both at the
        current time. */
    method AdvanceEnvironment(dt: real, sin: Wave) returns (ghost spawns: seq<seq<Mycelium.FlowParticle>>)
      requires network.Valid()
      modifies structures, network, rng
      ensures network.Valid()
      ensures |network.connections| == |old(network.connections)| == |spawns|
      ensures forall n :: 0 <= n < |network.connections| ==>
                && network.connections[n] == Mycelium.Stepped(old(network.connections)[n], Mycelium.Flow(time, sin), dt, spawns[n])
                && |spawns[n]| <= 1 && (forall q :: q in spawns[n] ==> Mycelium.Spawned(q))
      ensures forall k :: 0 <= k < |structures| ==> structures[k].energy == Structures.Energy(time, sin)
    {
      UpdateStructures(dt, sin);
      spawns := FlowNetwork(dt, sin);
    }

    /** The network's frame at the current time: every link steps its
        particles with the current flow and the links stay. */
    method FlowNetwork(dt: real, sin: Wave) returns (ghost spawns: seq<seq<Mycelium.FlowParticle>>)
      requires network.Valid()
      modifies network, rng
      ensures network.Valid()
      ensures |network.connections| == |old(network.connections)| == |spawns|
      ensures forall n :: 0 <= n < |network.connections| ==>
                && network.connections[n] == Mycelium.Stepped(old(network.connections)[n], Mycelium.Flow(time, sin), dt, spawns[n])
                && |spawns[n]| <= 1 && (forall q :: q in spawns[n] ==> Mycelium.Spawned(q))
    {
      spawns := network.Update(dt, time, sin, rng);
    }

    /** Every visitor of the frame in input order; the dances each pass spawns
        are appended in the order they were spawned. */
    method UpdateVisitors(visitors: seq<Visitor>, dt: real, now: real, decay: DecayFactor)
      returns (ghost spawned: seq<Dances.PollinationDance>)
      requires MapsValid() && DancesValid()
      modifies this`visitorAuras, this`visitorTrails, this`dances, AuraSet(), TrailSet(), rng
      ensures MapsValid() && DancesValid()
      ensures visitorAuras.Keys == old(visitorAuras.Keys) + IdsOf(visitors)
      ensures dances == old(dances) + spawned
      ensures forall k :: 0 <= k < |spawned| ==> fresh(spawned[k])
    {
      spawned := [];
      for i := 0 to |visitors|
        invariant MapsValid() && DancesValid()
        invariant visitorAuras.Keys == old(visitorAuras.Keys) + IdsOf(visitors[..i])
        invariant forall id :: id in visitorAuras ==>
                    if id in old(visitorAuras) then visitorAuras[id] == old(visitorAuras[id]) && visitorTrails[id] == old(visitorTrails[id])
                    else fresh(visitorAuras[id]) && fresh(visitorTrails[id])
        invariant dances == old(dances) + spawned
        invariant forall k :: 0 <= k < |spawned| ==> fresh(spawned[k])
      {
        IdsOfSnoc(visitors[..i], visitors[i]);
        assert visitors[..i + 1] == visitors[..i] + [visitors[i]];
        var added := Serve(visitors[i], dt, now, decay);
        SnocAll(old(dances), spawned, added);
        spawned := spawned + added;
      }
      assert visitors[..|visitors|] == visitors;
    }

    /** The visitor passes, then the retirement of absent ids. */
    method TendVisitors(visitors: seq<Visitor>, dt: real, now: real, decay: DecayFactor)
      returns (ghost spawned: seq<Dances.PollinationDance>)
      requires MapsValid() && DancesValid()
      modifies this`visitorAuras, this`visitorTrails, this`dances, AuraSet(), TrailSet(), rng
      ensures MapsValid() && DancesValid()
      ensures visitorAuras.Keys == IdsOf(visitors) && visitorTrails.Keys == IdsOf(visitors)
      ensures dances == old(dances) + spawned
      ensures forall k :: 0 <= k < |spawned| ==> fresh(spawned[k])
    {
      spawned := UpdateVisitors(visitors, dt, now, decay);
      Retire(IdsOf(visitors));
    }

    /** The living part of a frame: every visitor is served in input order,
        the auras and trails of absent ids are dropped, the dances, the new
        ones included, step and the dead ones go, and then the agents step. */
    method AdvanceLife(visitors: seq<Visitor>, dt: real, now: real, sin: real -> real, cos: real -> real,
                       root: real -> real, decay: DecayFactor) returns (ghost spawned: seq<Dances.PollinationDance>)
      requires MapsValid() && DancesValid() && AgentsValid() && IsSqrt(root)
      modifies this`visitorAuras, this`visitorTrails, this`dances, AuraSet(), TrailSet(), dances, agents, rng
      ensures MapsValid() && DancesValid() && AgentsValid()
      ensures visitorAuras.Keys == IdsOf(visitors) && visitorTrails.Keys == IdsOf(visitors)
      ensures forall k :: 0 <= k < |spawned| ==> fresh(spawned[k])
      ensures dances == Undead(old(dances) + spawned)
      ensures forall d :: d in dances ==> !d.IsDead()
    {
      spawned := TendVisitors(visitors, dt, now, decay);
      assert AgentsValid();
      AdvanceDances(dt);
      assert AgentsValid() && MapsValid() && visitorAuras.Keys == IdsOf(visitors);
      AdvanceAgents(dt, now, sin, cos, root, decay);
    }

    /** One frame with timestep `dt`, clock reading `now` and decay factor
        `decay_rate ** (dt * 60)`: time advances by `dt`; structures breathe;
        the network flows; each visitor in input order gets its aura and trail
        (created on first sight) and its collision pass; auras and trails of
        absent ids are dropped; dances step and the dead ones go; agents step. */
    method Update(visitors: seq<Visitor>, dt: real, now: real, sin: real -> real, cos: real -> real, root: real -> real,
                  decay: DecayFactor)
      returns (ghost spawns: seq<seq<Mycelium.FlowParticle>>, ghost spawned: seq<Dances.PollinationDance>)
      requires Valid() && IsSqrt(root) && IsWave(sin) && IsWave(cos)
      modifies this, structures, network, AuraSet(), TrailSet(), dances, agents, rng
      ensures Valid()
      ensures time == old(time) + dt
      ensures forall k :: 0 <= k < |structures| ==> structures[k].energy == Structures.Energy(time, sin)
      ensures |network.connections| == |old(network.connections)| == |spawns|
      ensures forall n :: 0 <= n < |network.connections| ==>
                network.connections[n] == Mycelium.Stepped(old(network.connections)[n], Mycelium.Flow(time, sin), dt, spawns[n])
      ensures visitorAuras.Keys == IdsOf(visitors) && visitorTrails.Keys == IdsOf(visitors)
      ensures forall k :: 0 <= k < |spawned| ==> fresh(spawned[k])
      ensures dances == Undead(old(dances) + spawned)
      ensures forall d :: d in dances ==> !d.IsDead()
      ensures agents == old(agents)
    {
      time := time + dt;
      var wave: Wave := sin;
      spawns := AdvanceEnvironment(dt, wave);
      spawned := AdvanceLife(visitors, dt, now, sin, cos, root, decay);
    }

    method StructureViews(sin: Wave) returns (views: seq<Structures.StructureView>)
      ensures |views| == |structures|
      ensures forall k :: 0 <= k < |structures| ==> views[k] == structures[k].RenderData(time, sin)
    {
      views := [];
      for k := 0 to |structures|
        invariant |views| == k
        invariant forall j :: 0 <= j < k ==> views[j] == structures[j].RenderData(time, sin)
      {
        views := views + [structures[k].RenderData(time, sin)];
      }
    }

    /** The aura and the trail of each input visitor whose id is known, in
        input order. */
    method VisitorViews(visitors: seq<Visitor>, now: real, sin: Wave)
      returns (auraViews: seq<Option<Auras.AuraView>>, trailViews: seq<seq<Trails.TrailPointView>>)
      requires MapsValid()
      ensures |auraViews| == |trailViews| == |Known(visitors, visitorAuras.Keys)|
      ensures var known := Known(visitors, visitorAuras.Keys);
              forall k :: 0 <= k < |known| ==>
                && auraViews[k] == visitorAuras[known[k].id].GetRenderData(known[k].x, known[k].y, now, sin)
                && TrailShown(trailViews[k], visitorTrails[known[k].id])
    {
      var known := Known(visitors, visitorAuras.Keys);
      auraViews, trailViews := [], [];
      for k := 0 to |known|
        invariant |auraViews| == k && |trailViews| == k
        invariant forall j :: 0 <= j < k ==>
                    && auraViews[j] == visitorAuras[known[j].id].GetRenderData(known[j].x, known[j].y, now, sin)
                    && TrailShown(trailViews[j], visitorTrails[known[j].id])
      {
        var v := known[k];
        auraViews := auraViews + [visitorAuras[v.id].GetRenderData(v.x, v.y, now, sin)];
        var points := visitorTrails[v.id].GetRenderData();
        trailViews := trailViews + [points];
      }
    }

    method DanceViews(cos: real -> real, sin: real -> real) returns (views: seq<Dances.DanceView>)
      requires DancesValid()
      ensures |views| == |dances|
      ensures forall k :: 0 <= k < |dances| ==> DanceShown(views[k], dances[k], cos, sin)
    {
      views := [];
      for k := 0 to |dances|
        invariant |views| == k
        invariant forall j :: 0 <= j < k ==> DanceShown(views[j], dances[j], cos, sin)
      {
        var view := dances[k].GetRenderData(cos, sin);
        views := views + [view];
      }
    }

    method AgentViews(now: real, sin: Wave) returns (views: seq<Agents.AgentView>)
      ensures |views| == |agents|
      ensures forall k :: 0 <= k < |agents| ==> AgentShown(views[k], agents[k], now, sin)
    {
      views := [];
      for k := 0 to |agents|
        invariant |views| == k
        invariant forall j :: 0 <= j < k ==> AgentShown(views[j], agents[j], now, sin)
      {
        var view := agents[k].GetRenderData(now, sin);
        views := views + [view];
      }
    }

    /** The frame's drawing: the network, every structure, the aura and trail of
        each input visitor that has one (all of them after an update), every
        dance, every agent, and the input passed through. */
    method GetRenderData(visitors: seq<Visitor>, now: real, sin: Wave, cos: Wave) returns (snap: Snapshot)
      requires Valid()
      ensures snap.visitors == visitors
      ensures |snap.structures| == |structures| && |snap.dances| == |dances| && |snap.agents| == |agents|
      ensures |snap.mycelium| == |network.connections|
      ensures |snap.visitorAuras| == |snap.visitorTrails| == |Known(visitors, visitorAuras.Keys)|
      ensures IdsOf(visitors) <= visitorAuras.Keys ==> |snap.visitorAuras| == |snap.visitorTrails| == |visitors|
      ensures forall k :: 0 <= k < |structures| ==> snap.structures[k] == structures[k].RenderData(time, sin)
      ensures forall n :: 0 <= n < |network.connections| ==> snap.mycelium[n] == Mycelium.ViewOf(structures, network.connections[n])
      ensures var known := Known(visitors, visitorAuras.Keys);
              forall k :: 0 <= k < |known| ==>
                && snap.visitorAuras[k] == visitorAuras[known[k].id].GetRenderData(known[k].x, known[k].y, now, sin)
                && TrailShown(snap.visitorTrails[k], visitorTrails[known[k].id])
      ensures forall k :: 0 <= k < |dances| ==> DanceShown(snap.dances[k], dances[k], cos, sin)
      ensures forall k :: 0 <= k < |agents| ==> AgentShown(snap.agents[k], agents[k], now, sin)
    {
      var mycelium := network.GetRenderData();
      var structureViews := StructureViews(sin);
      var auraViews, trailViews := VisitorViews(visitors, now, sin);
      if IdsOf(visitors) <= visitorAuras.Keys {
        KnownAll(visitors, visitorAuras.Keys);
      }
      var danceViews := DanceViews(cos, sin);
      var agentViews := AgentViews(now, sin);
      snap := Snapshot(mycelium, structureViews, auraViews, trailViews, danceViews, agentViews, visitors);
    }
  }

  /** Every dance of `ds` steps once. */
  method StepDances(ds: seq<Dances.PollinationDance>, dt: real)
    requires Distinct(ds) && forall k :: 0 <= k < |ds| ==> ds[k].Valid()
    modifies ds
    ensures forall k :: 0 <= k < |ds| ==> ds[k].Valid() && ds[k].life == old(ds[k].life) - dt / ds[k].duration
  {
    for k := 0 to |ds|
      invariant forall j :: 0 <= j < |ds| ==> ds[j].Valid()
      invariant forall j :: 0 <= j < k ==> ds[j].life == old(ds[j].life) - dt / ds[j].duration
      invariant forall j :: k <= j < |ds| ==> ds[j].life == old(ds[j].life)
    {
      ds[k].Update(dt);
    }
  }

  /** `[d for d in ds if not d.is_dead()]`. */
  method Survivors(ds: seq<Dances.PollinationDance>) returns (live: seq<Dances.PollinationDance>)
    ensures live == Undead(ds)
  {
    live := [];
    for k := 0 to |ds|
      invariant live == Undead(ds[..k])
    {
      assert ds[..k + 1][..k] == ds[..k];
      if !ds[k].IsDead() {
        live := live + [ds[k]];
      }
    }
    assert ds[..|ds|] == ds;
  }

  /** Some member of a non-empty set of ids; which one is left open, as the
      iteration order of a dictionary's keys is. */
  method Pick(keys: set<int>) returns (id: int)
    requires keys != {}
    ensures id in keys
  {
    HasMember(keys);
    id :| id in keys;
  }

  lemma HasMember(keys: set<int>)
    requires keys != {}
    ensures exists k :: k in keys
  {
    if forall k :: k !in keys {
      assert false;
    }
  }

  /** Appending fresh, distinct, valid dances keeps the list distinct and valid. */
  twostate lemma Join(ds: seq<Dances.PollinationDance>, new added: seq<Dances.PollinationDance>)
    requires Distinct(ds) && Distinct(added)
    requires forall k :: 0 <= k < |ds| ==> ds[k].Valid() && old(allocated(ds[k]))
    requires forall k :: 0 <= k < |added| ==> fresh(added[k]) && added[k].Valid()
    ensures Distinct(ds + added)
    ensures forall k :: 0 <= k < |ds + added| ==> (ds + added)[k].Valid()
  {
    forall i, j | 0 <= i < j < |ds + added|
      ensures (ds + added)[i] != (ds + added)[j]
    {
      if i < |ds| && |ds| <= j {
        assert old(allocated(ds[i])) && fresh(added[j - |ds|]);
      }
    }
  }

  lemma {:induction false} UndeadMembers(ds: seq<Dances.PollinationDance>)
    ensures forall d :: d in Undead(ds) <==> d in ds && !d.IsDead()
    decreases |ds|
  {
    if ds != [] {
      UndeadMembers(ds[..|ds| - 1]);
      assert ds == ds[..|ds| - 1] + [ds[|ds| - 1]];
    }
  }

  lemma {:induction false} UndeadDistinct(ds: seq<Dances.PollinationDance>)
    requires Distinct(ds)
    ensures Distinct(Undead(ds))
    decreases |ds|
  {
    if ds != [] {
      var init := ds[..|ds| - 1];
      UndeadDistinct(init);
      UndeadMembers(init);
      assert ds[|ds| - 1] !in init;
    }
  }

  /** The survivors keep their order. */
  lemma {:induction false} UndeadIsSubsequence(ds: seq<Dances.PollinationDance>)
    ensures Trails.Subsequence(Undead(ds), ds)
    decreases |ds|
  {
    if ds != [] {
      var init := ds[..|ds| - 1];
      UndeadIsSubsequence(init);
      if !ds[|ds| - 1].IsDead() {
        assert (Undead(init) + [ds[|ds| - 1]])[..|Undead(init)|] == Undead(init);
      }
    }
  }

  lemma SnocAll<T>(a: seq<T>, b: seq<T>, c: seq<T>)
    ensures (a + b) + c == a + (b + c)
  {
  }

  lemma IdsOfSnoc(visitors: seq<Visitor>, v: Visitor)
    ensures IdsOf(visitors + [v]) == IdsOf(visitors) + {v.id}
  {
    assert forall w :: w in visitors + [v] <==> w in visitors || w == v;
  }

  /** After an update every input visitor has an aura, so all of them are drawn,
      in input order. */
  lemma {:induction false} KnownAll(visitors: seq<Visitor>, keys: set<int>)
    requires IdsOf(visitors) <= keys
    ensures Known(visitors, keys) == visitors
    decreases |visitors|
  {
    if visitors != [] {
      var init := visitors[..|visitors| - 1];
      assert visitors == init + [visitors[|visitors| - 1]];
      IdsOfSnoc(init, visitors[|visitors| - 1]);
      KnownAll(init, keys);
    }
  }

  // ---- Properties of the collision pass ----

  /** After the pass the visitor carries, at full intensity, the colour of the
      last structure containing it; with none, the glow is untouched. */
  lemma {:induction false} CollisionsKeepLastColour(g: Auras.Glow, ss: seq<Structures.Structure>, px: real, py: real)
    ensures LastContaining(ss, px, py).None? ==> Collisions(g, ss, px, py).0 == g
    ensures LastContaining(ss, px, py).Some? ==>
              Collisions(g, ss, px, py).0 == Auras.Collected(LastContaining(ss, px, py).value.color)
    decreases |ss|
  {
    if ss != [] {
      CollisionsKeepLastColour(g, ss[..|ss| - 1], px, py);
    }
  }

  /** Every dance of the pass pairs two different colours at a structure
      containing the visitor. */
  lemma {:induction false} EncountersAreMismatches(g: Auras.Glow, ss: seq<Structures.Structure>, px: real, py: real)
    ensures forall e :: e in Collisions(g, ss, px, py).1 ==>
              e.visitorColor != e.structureColor &&
              exists s :: s in ss && s.ContainsPoint(px, py) && e.x == s.x && e.y == s.y && e.structureColor == s.color
    decreases |ss|
  {
    if ss != [] {
      var init := ss[..|ss| - 1];
      EncountersAreMismatches(g, init, px, py);
      var before := Collisions(g, init, px, py);
      var last := ss[|ss| - 1];
      forall e | e in Collisions(g, ss, px, py).1
        ensures e.visitorColor != e.structureColor
        ensures exists s :: s in ss && s.ContainsPoint(px, py) && e.x == s.x && e.y == s.y && e.structureColor == s.color
      {
        if e in before.1 {
          var w :| w in init && w.ContainsPoint(px, py) && e.x == w.x && e.y == w.y && e.structureColor == w.color;
          assert w in ss;
        } else {
          assert e in Touch(before.0, last, px, py).1;
          assert last in ss;
        }
      }
    }
  }

  /** Touching structures of the colour already carried never spawns a dance. */
  lemma {:induction false} SameColourNeverDances(c: Rgb, intensity: real, ss: seq<Structures.Structure>, px: real, py: real)
    requires forall s :: s in ss && s.ContainsPoint(px, py) ==> s.color == c
    ensures Collisions(Auras.Glow(Some(c), intensity), ss, px, py).1 == []
    ensures Collisions(Auras.Glow(Some(c), intensity), ss, px, py).0.color == Some(c)
    decreases |ss|
  {
    if ss != [] {
      var init := ss[..|ss| - 1];
      assert forall s :: s in init ==> s in ss;
      SameColourNeverDances(c, intensity, init, px, py);
      var before := Collisions(Auras.Glow(Some(c), intensity), init, px, py);
      assert ss[|ss| - 1] in ss;
    }
  }

  /** With two overlapping structures, the second test sees the colour the first
      one just gave: the visitor carrying `c` into red-then-blue spawns a dance
      at red (if `c` is not red) and then one at blue, carrying red. */
  lemma OverlapUsesJustCollected(g: Auras.Glow, s1: Structures.Structure, s2: Structures.Structure, px: real, py: real)
    requires s1.ContainsPoint(px, py) && s2.ContainsPoint(px, py)
    ensures Collisions(g, [s1, s2], px, py).1 ==
              Touch(g, s1, px, py).1 + (if s1.color != s2.color then [Encounter(s2.x, s2.y, s1.color, s2.color)] else [])
    ensures Collisions(g, [s1, s2], px, py).0 == Auras.Collected(s2.color)
  {
    assert [s1, s2][..1] == [s1];
    assert [s1][..0] == [];
    var t1 := Touch(g, s1, px, py);
    var first := Collisions(g, [s1], px, py);
    assert Collisions(g, [s1][..0], px, py) == (g, []);
    assert first.0 == t1.0 == Auras.Collected(s1.color);
    assert first.1 == [] + t1.1 == t1.1;
    ColorsMatchIsEquality(s1.color, s2.color);
  }
}
