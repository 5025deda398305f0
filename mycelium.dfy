/** The mycelial network: background links between nearby structures, built once
    by nearest-neighbour selection, along which short-lived particles flow. */
module Mycelium {
  import opened Numerics
  import Random
  import Structures

  /** Structures closer than 2000 are candidates; the squared threshold. */
  const MaxDistanceSq: real := 4000000.0
  const BaseFlow: real := 0.2
  const ParticleLife: real := 3.0
  /** Progress per second along a link. */
  const FlowSpeed: real := 0.2
  /** Expected particle spawns per second on each link. */
  const SpawnRate: real := 0.5

  /** A structure near structure `i`: its index and squared distance. */
  datatype Candidate = Candidate(index: nat, distSq: real)

  datatype FlowParticle = FlowParticle(progress: real, direction: real, life: real)

  /** A link from structure `from` to structure `to`, by index in the structure list. */
  datatype Connection = Connection(from: nat, to: nat, flow: real, particles: seq<FlowParticle>)

  function PairDistSq(ss: seq<Structures.Structure>, i: nat, j: nat): real
    requires i < |ss| && j < |ss|
  {
    DistSq(ss[i].x, ss[i].y, ss[j].x, ss[j].y)
  }

  // ---- Choosing the links ----

  /** The candidates of structure `i` among the first `u` structures: the later
      ones closer than 2000, in index order. */
  function Nearby(ss: seq<Structures.Structure>, i: nat, u: nat): seq<Candidate>
    requires i < |ss| && u <= |ss|
    decreases u
  {
    if u == 0 then []
    else
      var init := Nearby(ss, i, u - 1);
      var j := u - 1;
      if i < j && PairDistSq(ss, i, j) < MaxDistanceSq then init + [Candidate(j, PairDistSq(ss, i, j))] else init
  }

  predicate IncreasingIndices(s: seq<Candidate>) {
    forall a, b :: 0 <= a < b < |s| ==> s[a].index < s[b].index
  }

  /** `c` placed before the first candidate that is strictly farther: inserting
      the candidates one by one in list order keeps equal distances in that order. */
  function Insert(s: seq<Candidate>, c: Candidate): seq<Candidate>
    decreases |s|
  {
    if s == [] then [c]
    else if c.distSq < s[0].distSq then [c] + s
    else [s[0]] + Insert(s[1..], c)
  }

  /** The stable sort by distance that `list.sort(key=distance)` performs. */
  function SortByDistance(s: seq<Candidate>): seq<Candidate>
    decreases |s|
  {
    if s == [] then [] else Insert(SortByDistance(s[..|s| - 1]), s[|s| - 1])
  }

  predicate Sorted(s: seq<Candidate>) {
    forall a, b :: 0 <= a < b < |s| ==> s[a].distSq <= s[b].distSq
  }

  /** Ascending distance, equal distances by ascending index. */
  predicate Before(x: Candidate, y: Candidate) {
    x.distSq < y.distSq || (x.distSq == y.distSq && x.index < y.index)
  }

  predicate LexSorted(s: seq<Candidate>) {
    forall a, b :: 0 <= a < b < |s| ==> Before(s[a], s[b])
  }

  function Min(a: nat, b: nat): nat {
    if a < b then a else b
  }

  /** The first `count` candidates of `s` as links from `i`, with the initial flow. */
  function Links(i: nat, s: seq<Candidate>, count: nat): seq<Connection>
    requires count <= |s|
  {
    seq(count, k requires 0 <= k < count => Connection(i, s[k].index, BaseFlow, []))
  }

  /** The links of structure `i` for a branching draw `k`: none without
      candidates, else the `min(k, |candidates|)` nearest. */
  function Chosen(ss: seq<Structures.Structure>, i: nat, k: nat): seq<Connection>
    requires i < |ss|
  {
    var s := SortByDistance(Nearby(ss, i, |ss|));
    if |s| > 0 then Links(i, s, Min(k, |s|)) else []
  }

  /** The links of the first `u` structures, `ks[i]` being structure `i`'s draw. */
  function Network(ss: seq<Structures.Structure>, ks: seq<nat>, u: nat): seq<Connection>
    requires u <= |ss| && u <= |ks|
    decreases u
  {
    if u == 0 then [] else Network(ss, ks, u - 1) + Chosen(ss, u - 1, ks[u - 1])
  }

  // ---- The construction loops ----

  /** The inner loop of the insertion: scan past every candidate that is not
      strictly farther, then splice `c` in. */
  method InsertCandidate(s: seq<Candidate>, c: Candidate) returns (r: seq<Candidate>)
    ensures r == Insert(s, c)
  {
    var p := 0;
    while p < |s| && !(c.distSq < s[p].distSq)
      invariant 0 <= p <= |s|
      invariant Insert(s, c) == s[..p] + Insert(s[p..], c)
    {
      InsertPast(s, c, p);
      p := p + 1;
    }
    InsertHere(s, c, p);
    r := s[..p] + [c] + s[p..];
  }

  /** Scanning past a candidate that is not strictly farther. */
  lemma InsertPast(s: seq<Candidate>, c: Candidate, p: nat)
    requires p < |s| && !(c.distSq < s[p].distSq)
    ensures s[..p] + Insert(s[p..], c) == s[..p + 1] + Insert(s[p + 1..], c)
  {
    assert s[p..][1..] == s[p + 1..];
    assert Insert(s[p..], c) == [s[p]] + Insert(s[p + 1..], c);
    assert s[..p + 1] == s[..p] + [s[p]];
  }

  /** At the end or before a strictly farther candidate, `c` goes right there. */
  lemma InsertHere(s: seq<Candidate>, c: Candidate, p: nat)
    requires p <= |s| && (p == |s| || c.distSq < s[p].distSq)
    ensures s[..p] + Insert(s[p..], c) == s[..p] + [c] + s[p..]
  {
    assert Insert(s[p..], c) == [c] + s[p..];
  }

  /** The sort of the candidate list. */
  method SortCandidates(s: seq<Candidate>) returns (sorted: seq<Candidate>)
    ensures sorted == SortByDistance(s)
  {
    sorted := [];
    for i := 0 to |s|
      invariant sorted == SortByDistance(s[..i])
    {
      assert s[..i + 1][..i] == s[..i];
      sorted := InsertCandidate(sorted, s[i]);
    }
    assert s[..|s|] == s;
  }

  /** The candidates of structure `i`: the loop over every `j`, skipping `j <= i`. */
  method FindNearby(ss: seq<Structures.Structure>, i: nat) returns (nearby: seq<Candidate>)
    requires i < |ss|
    ensures nearby == Nearby(ss, i, |ss|)
  {
    nearby := [];
    for j := 0 to |ss|
      invariant nearby == Nearby(ss, i, j)
    {
      if i < j {
        var d2 := DistSq(ss[i].x, ss[i].y, ss[j].x, ss[j].y);
        if d2 < MaxDistanceSq {
          nearby := nearby + [Candidate(j, d2)];
        }
      }
    }
  }

  /** The links of structure `i`: its candidates sorted by distance and, when
      there are any, a branching factor `k` drawn from {2, 3} and that many
      nearest links (fewer if there are fewer candidates). Without candidates
      nothing is drawn and `k` is reported as 2. */
  method ConnectStructure(ss: seq<Structures.Structure>, i: nat, rng: Random.Rng)
    returns (links: seq<Connection>, ghost k: nat)
    requires i < |ss|
    modifies rng
    ensures 2 <= k <= 3
    ensures links == Chosen(ss, i, k)
  {
    var nearby := FindNearby(ss, i);
    var sorted := SortCandidates(nearby);
    SortPermutes(nearby);
    links := [];
    k := 2;
    if |nearby| > 0 {
      var draw := rng.RandInt(2, 3);
      k := draw;
      links := TakeLinks(i, sorted, Min(draw, |nearby|));
    }
  }

  /** The loop over the first `count` candidates, one link each. */
  method TakeLinks(i: nat, sorted: seq<Candidate>, count: nat) returns (links: seq<Connection>)
    requires count <= |sorted|
    ensures links == Links(i, sorted, count)
  {
    links := [];
    for n := 0 to count
      invariant links == Links(i, sorted, n)
    {
      links := links + [Connection(i, sorted[n].index, BaseFlow, [])];
    }
  }

  /** The whole network, structure by structure; `ks` reports the draws. */
  method CreateConnections(ss: seq<Structures.Structure>, rng: Random.Rng)
    returns (conns: seq<Connection>, ghost ks: seq<nat>)
    modifies rng
    ensures |ks| == |ss| && forall i :: 0 <= i < |ks| ==> 2 <= ks[i] <= 3
    ensures conns == Network(ss, ks, |ss|)
    ensures AllFresh(ss, |ss|, conns)
  {
    conns := [];
    ks := [];
    for i := 0 to |ss|
      invariant |ks| == i && forall k :: 0 <= k < i ==> 2 <= ks[k] <= 3
      invariant conns == Network(ss, ks, i)
      invariant AllFresh(ss, i, conns)
    {
      var links, k := ConnectStructure(ss, i, rng);
      NetworkSnoc(ss, ks, k);
      FreshSnoc(ss, i, k, conns);
      conns := conns + links;
      ks := ks + [k];
    }
  }

  // ---- Flow ----

  /** The gentle flow variation `0.2 + 0.1 * sin(0.3 * time)`, within [0.1, 0.3]. */
  function Flow(time: real, sin: Wave): (f: real)
    ensures 0.1 <= f <= 0.3
  {
    assert WaveAt(sin, time * 0.3);
    BaseFlow + sin(time * 0.3) * 0.1
  }

  /** A freshly spawned particle: at one end of the link, heading either way,
      with three seconds of life. */
  predicate Spawned(p: FlowParticle) {
    (p.progress == 0.0 || p.progress == 1.0) && (p.direction == -1.0 || p.direction == 1.0) && p.life == ParticleLife
  }

  function Advance(p: FlowParticle, dt: real): FlowParticle {
    p.(progress := p.progress + p.direction * dt * FlowSpeed, life := p.life - dt)
  }

  function Advanced(ps: seq<FlowParticle>, dt: real): seq<FlowParticle> {
    seq(|ps|, k requires 0 <= k < |ps| => Advance(ps[k], dt))
  }

  predicate OnLink(p: FlowParticle) {
    p.life > 0.0 && 0.0 <= p.progress <= 1.0
  }

  /** The particles still alive and on their link, in order. */
  function Flowing(ps: seq<FlowParticle>): seq<FlowParticle>
    decreases |ps|
  {
    if ps == [] then []
    else
      var init := Flowing(ps[..|ps| - 1]);
      if OnLink(ps[|ps| - 1]) then init + [ps[|ps| - 1]] else init
  }

  /** One frame of a link: the new flow, the spawned particles (if any) appended,
      every particle advanced, and the finished ones dropped. */
  function Stepped(c: Connection, flow: real, dt: real, spawn: seq<FlowParticle>): Connection {
    c.(flow := flow, particles := Flowing(Advanced(c.particles + spawn, dt)))
  }

  /** The frame of one link as the source performs it. */
  method StepConnection(c: Connection, flow: real, dt: real, rng: Random.Rng)
    returns (d: Connection, ghost spawn: seq<FlowParticle>)
    modifies rng
    ensures d == Stepped(c, flow, dt, spawn)
    ensures |spawn| <= 1 && forall q :: q in spawn ==> Spawned(q)
  {
    var ps := c.particles;
    spawn := [];
    var u := rng.Random();
    if u < dt * SpawnRate {
      var end := rng.Choice(2);
      var way := rng.Choice(2);
      var p := FlowParticle(if end == 0 then 0.0 else 1.0, if way == 0 then -1.0 else 1.0, ParticleLife);
      ps := ps + [p];
      spawn := [p];
    }
    ghost var all := ps;
    assert all == c.particles + spawn;
    var i := 0;
    while i < |ps|
      invariant 0 <= i <= |ps| == |all|
      invariant forall k :: 0 <= k < i ==> ps[k] == Advance(all[k], dt)
      invariant forall k :: i <= k < |ps| ==> ps[k] == all[k]
    {
      var p := ps[i];
      p := p.(progress := p.progress + p.direction * dt * FlowSpeed);
      p := p.(life := p.life - dt);
      ps := ps[i := p];
      i := i + 1;
    }
    assert ps == Advanced(all, dt);
    var kept: seq<FlowParticle> := [];
    for j := 0 to |ps|
      invariant kept == Flowing(ps[..j])
    {
      assert ps[..j + 1][..j] == ps[..j];
      if ps[j].life > 0.0 && 0.0 <= ps[j].progress <= 1.0 {
        kept := kept + [ps[j]];
      }
    }
    assert ps[..|ps|] == ps;
    d := c.(flow := flow, particles := kept);
  }

  // ---- Drawing ----

  datatype Line = Line(x1: real, y1: real, x2: real, y2: real, flow: real)

  datatype FlowDot = FlowDot(x: real, y: real, alpha: real)

  datatype ConnectionView = ConnectionView(line: Line, particles: seq<FlowDot>)

  function Lerp(a: real, b: real, t: real): real {
    a + (b - a) * t
  }

  /** A particle drawn at its progress between the two ends, alpha its share of
      the initial life. */
  function DotOf(a: Structures.Structure, b: Structures.Structure, p: FlowParticle): FlowDot {
    FlowDot(Lerp(a.x, b.x, p.progress), Lerp(a.y, b.y, p.progress), p.life / ParticleLife)
  }

  function ViewOf(ss: seq<Structures.Structure>, c: Connection): ConnectionView
    requires c.from < |ss| && c.to < |ss|
  {
    var a, b := ss[c.from], ss[c.to];
    ConnectionView(Line(a.x, a.y, b.x, b.y, c.flow),
                   seq(|c.particles|, k requires 0 <= k < |c.particles| => DotOf(a, b, c.particles[k])))
  }

  predicate WellFormed(ss: seq<Structures.Structure>, cs: seq<Connection>) {
    forall n :: 0 <= n < |cs| ==> cs[n].from < cs[n].to < |ss|
  }

  predicate AllOnLink(ps: seq<FlowParticle>) {
    forall k :: 0 <= k < |ps| ==> OnLink(ps[k])
  }

  class MycelialNetwork {
    const structures: seq<Structures.Structure>
    var connections: seq<Connection>

    ghost predicate Valid()
      reads this
    {
      && WellFormed(structures, connections)
      && forall n :: 0 <= n < |connections| ==> AllOnLink(connections[n].particles)
    }

    constructor (structures: seq<Structures.Structure>, rng: Random.Rng)
      modifies rng
      ensures this.structures == structures
      ensures exists ks: seq<nat> ::
                && |ks| == |structures| && (forall i :: 0 <= i < |ks| ==> 2 <= ks[i] <= 3)
                && connections == Network(structures, ks, |structures|)
      ensures Valid()
    {
      this.structures := structures;
      var conns, ks := CreateConnections(structures, rng);
      connections := conns;
      new;
      forall n | 0 <= n < |connections|
        ensures connections[n].from < connections[n].to < |structures| && AllOnLink(connections[n].particles)
      {
        assert Fresh(structures, |structures|, connections[n]);
      }
    }

    /** One frame: every link gets the new flow, at most one new particle, and
        its particles advanced and pruned; the links themselves stay. `spawns`
        reports the particles spawned on each link. */
    method Update(dt: real, time: real, sin: Wave, rng: Random.Rng) returns (ghost spawns: seq<seq<FlowParticle>>)
      requires Valid()
      modifies this, rng
      ensures Valid()
      ensures |connections| == |old(connections)| == |spawns|
      ensures forall n :: 0 <= n < |connections| ==>
                && connections[n] == Stepped(old(connections)[n], Flow(time, sin), dt, spawns[n])
                && |spawns[n]| <= 1 && (forall q :: q in spawns[n] ==> Spawned(q))
    {
      var flow := BaseFlow + sin(time * 0.3) * 0.1;
      var cs := connections;
      spawns := [];
      var i := 0;
      while i < |cs|
        invariant 0 <= i <= |cs| == |old(connections)| && |spawns| == i
        invariant forall n :: 0 <= n < i ==>
                    && cs[n] == Stepped(old(connections)[n], Flow(time, sin), dt, spawns[n])
                    && |spawns[n]| <= 1 && (forall q :: q in spawns[n] ==> Spawned(q))
        invariant forall n :: i <= n < |cs| ==> cs[n] == old(connections)[n]
      {
        var d, spawn := StepConnection(cs[i], flow, dt, rng);
        cs := cs[i := d];
        spawns := spawns + [spawn];
        i := i + 1;
      }
      connections := cs;
      forall n | 0 <= n < |connections|
        ensures connections[n].from < connections[n].to < |structures| && AllOnLink(connections[n].particles)
      {
        var c := old(connections)[n];
        FlowingOnLink(Advanced(c.particles + spawns[n], dt));
      }
    }

    /** One view per link, in order: the line between the two structures and
        each particle at its progress along it. */
    method GetRenderData() returns (views: seq<ConnectionView>)
      requires Valid()
      ensures |views| == |connections|
      ensures forall n :: 0 <= n < |connections| ==> views[n] == ViewOf(structures, connections[n])
    {
      views := [];
      for n := 0 to |connections|
        invariant |views| == n
        invariant forall m :: 0 <= m < n ==> views[m] == ViewOf(structures, connections[m])
      {
        var c := connections[n];
        var a, b := structures[c.from], structures[c.to];
        var dots: seq<FlowDot> := [];
        for k := 0 to |c.particles|
          invariant |dots| == k
          invariant forall m :: 0 <= m < k ==> dots[m] == DotOf(a, b, c.particles[m])
        {
          var p := c.particles[k];
          dots := dots + [FlowDot(a.x + (b.x - a.x) * p.progress, a.y + (b.y - a.y) * p.progress, p.life / ParticleLife)];
        }
        views := views + [ConnectionView(Line(a.x, a.y, b.x, b.y, c.flow), dots)];
      }
    }
  }

  // ---- Properties of the construction ----

  lemma {:induction false} NetworkPrefix(ss: seq<Structures.Structure>, ks: seq<nat>, ks': seq<nat>, u: nat)
    requires u <= |ss| && u <= |ks| && u <= |ks'|
    requires ks[..u] == ks'[..u]
    ensures Network(ss, ks, u) == Network(ss, ks', u)
    decreases u
  {
    if u > 0 {
      assert ks[..u - 1] == ks[..u][..u - 1] && ks'[..u - 1] == ks'[..u][..u - 1];
      assert ks[u - 1] == ks[..u][u - 1];
      NetworkPrefix(ss, ks, ks', u - 1);
    }
  }

  /** The squared candidate test agrees with the source's test on the square
      root of the squared distance. */
  lemma NearbyIsDistanceTest(root: real -> real, ss: seq<Structures.Structure>, i: nat, j: nat)
    requires IsSqrt(root) && i < |ss| && j < |ss|
    ensures root(PairDistSq(ss, i, j)) < 2000.0 <==> PairDistSq(ss, i, j) < MaxDistanceSq
  {
    SqrtBelow(root, PairDistSq(ss, i, j), 2000.0);
  }

  /** The candidates of `i` are exactly the later structures closer than 2000,
      each with its squared distance, in increasing index order. */
  lemma {:induction false} NearbyMembers(ss: seq<Structures.Structure>, i: nat, u: nat)
    requires i < |ss| && u <= |ss|
    ensures forall c :: c in Nearby(ss, i, u) <==>
              i < c.index < u && c.distSq == PairDistSq(ss, i, c.index) && c.distSq < MaxDistanceSq
    ensures IncreasingIndices(Nearby(ss, i, u))
    decreases u
  {
    if u > 0 {
      NearbyMembers(ss, i, u - 1);
      var init := Nearby(ss, i, u - 1);
      forall a | 0 <= a < |init|
        ensures init[a].index < u - 1
      {
        assert init[a] in init;
      }
    }
  }

  lemma {:induction false} InsertMultiset(s: seq<Candidate>, c: Candidate)
    ensures multiset(Insert(s, c)) == multiset(s) + multiset{c}
    ensures |Insert(s, c)| == |s| + 1
    decreases |s|
  {
    if s != [] && !(c.distSq < s[0].distSq) {
      InsertMultiset(s[1..], c);
      assert s == [s[0]] + s[1..];
    }
  }

  /** Sorting permutes the candidates. */
  lemma {:induction false} SortPermutes(s: seq<Candidate>)
    ensures multiset(SortByDistance(s)) == multiset(s)
    ensures |SortByDistance(s)| == |s|
    decreases |s|
  {
    if s != [] {
      var init := s[..|s| - 1];
      SortPermutes(init);
      InsertMultiset(SortByDistance(init), s[|s| - 1]);
      assert s == init + [s[|s| - 1]];
    }
  }

  lemma {:induction false} InsertKeepsSorted(s: seq<Candidate>, c: Candidate)
    requires Sorted(s)
    ensures Sorted(Insert(s, c))
    decreases |s|
  {
    if s != [] && !(c.distSq < s[0].distSq) {
      var rest := Insert(s[1..], c);
      InsertKeepsSorted(s[1..], c);
      InsertMultiset(s[1..], c);
      forall m | 0 <= m < |rest|
        ensures s[0].distSq <= rest[m].distSq
      {
        assert rest[m] in multiset(rest);
        if rest[m] != c {
          assert rest[m] in s[1..];
        }
      }
      ConsSorted(s[0], rest);
    }
  }

  lemma ConsSorted(x: Candidate, rest: seq<Candidate>)
    requires Sorted(rest) && forall m :: 0 <= m < |rest| ==> x.distSq <= rest[m].distSq
    ensures Sorted([x] + rest)
  {
    forall a, b | 0 <= a < b < |[x] + rest|
      ensures ([x] + rest)[a].distSq <= ([x] + rest)[b].distSq
    {
      assert ([x] + rest)[b] == rest[b - 1];
      if a > 0 {
        assert ([x] + rest)[a] == rest[a - 1];
      }
    }
  }

  /** Sorting yields ascending distances. */
  lemma {:induction false} SortIsSorted(s: seq<Candidate>)
    ensures Sorted(SortByDistance(s))
    decreases |s|
  {
    if s != [] {
      SortIsSorted(s[..|s| - 1]);
      InsertKeepsSorted(SortByDistance(s[..|s| - 1]), s[|s| - 1]);
    }
  }

  lemma {:induction false} InsertKeepsLex(s: seq<Candidate>, c: Candidate)
    requires LexSorted(s) && forall x :: x in s ==> x.index < c.index
    ensures LexSorted(Insert(s, c))
    decreases |s|
  {
    if s != [] {
      if c.distSq < s[0].distSq {
        forall m | 0 <= m < |s|
          ensures Before(c, s[m])
        {
          if m > 0 {
            assert Before(s[0], s[m]);
          }
        }
      } else {
        var rest := Insert(s[1..], c);
        InsertKeepsLex(s[1..], c);
        InsertMultiset(s[1..], c);
        assert s[0] in s;
        forall m | 0 <= m < |rest|
          ensures Before(s[0], rest[m])
        {
          assert rest[m] in multiset(rest);
          if rest[m] != c {
            assert rest[m] in s[1..];
            var w :| 1 <= w < |s| && s[w] == rest[m];
            assert Before(s[0], s[w]);
          }
        }
      }
    }
  }

  /** Sorting candidates listed in index order is stable: equal distances keep
      ascending index order, so the result is fully determined. */
  lemma {:induction false} SortIsStable(s: seq<Candidate>)
    requires IncreasingIndices(s)
    ensures LexSorted(SortByDistance(s))
    decreases |s|
  {
    if s != [] {
      var init, last := s[..|s| - 1], s[|s| - 1];
      SortIsStable(init);
      SortPermutes(init);
      forall x | x in SortByDistance(init)
        ensures x.index < last.index
      {
        assert x in multiset(init);
        var w :| 0 <= w < |init| && init[w] == x;
      }
      InsertKeepsLex(SortByDistance(init), last);
    }
  }

  /** A link as the construction makes them: from one of the first `u`
      structures to a later one closer than 2000, with flow 0.2 and no
      particles. */
  predicate Fresh(ss: seq<Structures.Structure>, u: nat, c: Connection) {
    && c.from < u && c.from < c.to < |ss| && PairDistSq(ss, c.from, c.to) < MaxDistanceSq
    && c.flow == BaseFlow && c.particles == []
  }

  predicate AllFresh(ss: seq<Structures.Structure>, u: nat, cs: seq<Connection>) {
    forall n :: 0 <= n < |cs| ==> Fresh(ss, u, cs[n])
  }

  /** The links of one structure go from it to one of its candidates. */
  lemma ChosenMembers(ss: seq<Structures.Structure>, i: nat, k: nat)
    requires i < |ss|
    ensures AllFresh(ss, i + 1, Chosen(ss, i, k))
  {
    var n := Nearby(ss, i, |ss|);
    var s := SortByDistance(n);
    var links := Chosen(ss, i, k);
    NearbyMembers(ss, i, |ss|);
    SortPermutes(n);
    forall m | 0 <= m < |links|
      ensures Fresh(ss, i + 1, links[m])
    {
      assert links[m] == Connection(i, s[m].index, BaseFlow, []);
      assert s[m] in multiset(n);
      assert s[m] in n;
    }
  }

  /** One more structure's links extend the network. */
  lemma NetworkSnoc(ss: seq<Structures.Structure>, ks: seq<nat>, k: nat)
    requires |ks| < |ss|
    ensures Network(ss, ks + [k], |ks| + 1) == Network(ss, ks, |ks|) + Chosen(ss, |ks|, k)
  {
    NetworkPrefix(ss, ks, ks + [k], |ks|);
    assert (ks + [k])[|ks|] == k;
  }

  lemma FreshSnoc(ss: seq<Structures.Structure>, i: nat, k: nat, init: seq<Connection>)
    requires i < |ss| && AllFresh(ss, i, init)
    ensures AllFresh(ss, i + 1, init + Chosen(ss, i, k))
  {
    ChosenMembers(ss, i, k);
    FreshConcat(ss, i + 1, init, Chosen(ss, i, k));
  }

  lemma FreshConcat(ss: seq<Structures.Structure>, u: nat, init: seq<Connection>, links: seq<Connection>)
    requires u > 0 && AllFresh(ss, u - 1, init) && AllFresh(ss, u, links)
    ensures AllFresh(ss, u, init + links)
  {
    forall n | 0 <= n < |init + links|
      ensures Fresh(ss, u, (init + links)[n])
    {
      if n < |init| {
        assert (init + links)[n] == init[n];
      } else {
        assert (init + links)[n] == links[n - |init|];
      }
    }
  }

  /** Structure `i` gets no link without candidates and otherwise exactly
      `min(k, |candidates|)`, to its nearest candidates in ascending distance:
      no unchosen candidate is nearer than a chosen one, and ties go to the
      lower index. */
  lemma ChosenAreNearest(ss: seq<Structures.Structure>, i: nat, k: nat)
    requires i < |ss|
    ensures var n := Nearby(ss, i, |ss|);
            var s := SortByDistance(n);
            var links := Chosen(ss, i, k);
            && |s| == |n|
            && |links| == (if |n| == 0 then 0 else Min(k, |n|))
            && (forall a :: 0 <= a < |links| ==> links[a].from == i && links[a].to == s[a].index)
            && (forall a, b :: 0 <= a < |links| <= b < |s| ==> Before(s[a], s[b]))
            && (forall a, b :: 0 <= a < b < |links| ==> s[a].distSq <= s[b].distSq)
  {
    var n := Nearby(ss, i, |ss|);
    var s := SortByDistance(n);
    assert |s| == |n| by {
      SortPermutes(n);
    }
    assert LexSorted(s) by {
      NearbyMembers(ss, i, |ss|);
      SortIsStable(n);
    }
  }

  /** Without a pair of structures there is no link. */
  lemma NoPairNoLinks(ss: seq<Structures.Structure>, ks: seq<nat>)
    requires |ss| <= 1 && |ks| == |ss|
    ensures Network(ss, ks, |ss|) == []
  {
    if |ss| == 1 {
      assert Nearby(ss, 0, 1) == [];
    }
  }

  /** Sorting by squared distance is sorting by distance: the order of
      `math.sqrt` distances the source sorts by is the same. */
  lemma SortedByDistance(s: seq<Candidate>, root: real -> real)
    requires IsSqrt(root) && forall a :: 0 <= a < |s| ==> 0.0 <= s[a].distSq
    requires Sorted(s)
    ensures forall a, b :: 0 <= a < b < |s| ==> root(s[a].distSq) <= root(s[b].distSq)
  {
    forall a, b | 0 <= a < b < |s|
      ensures root(s[a].distSq) <= root(s[b].distSq)
    {
      SqrtMonotone(root, s[a].distSq, s[b].distSq);
    }
  }

  // ---- Properties of the flow ----

  /** After a frame every particle is alive and on its link, in order, and at
      most the spawned one was added. */
  lemma {:induction false} FlowingOnLink(ps: seq<FlowParticle>)
    ensures AllOnLink(Flowing(ps))
    ensures |Flowing(ps)| <= |ps|
    ensures forall p :: p in Flowing(ps) <==> p in ps && OnLink(p)
    decreases |ps|
  {
    if ps != [] {
      FlowingOnLink(ps[..|ps| - 1]);
      assert ps == ps[..|ps| - 1] + [ps[|ps| - 1]];
    }
  }

  /** A link's frame keeps its ends, adds at most one particle, and leaves only
      particles that are alive and on the link. */
  lemma SteppedBounds(c: Connection, flow: real, dt: real, spawn: seq<FlowParticle>)
    requires |spawn| <= 1
    ensures Stepped(c, flow, dt, spawn).from == c.from && Stepped(c, flow, dt, spawn).to == c.to
    ensures |Stepped(c, flow, dt, spawn).particles| <= |c.particles| + 1
    ensures AllOnLink(Stepped(c, flow, dt, spawn).particles)
  {
    FlowingOnLink(Advanced(c.particles + spawn, dt));
  }

  /** Each surviving particle moved by `direction * 0.2 * dt` and lost `dt` of life. */
  lemma SteppedParticles(c: Connection, flow: real, dt: real, spawn: seq<FlowParticle>)
    ensures forall p :: p in Stepped(c, flow, dt, spawn).particles ==>
              exists q :: q in c.particles + spawn && p == Advance(q, dt)
  {
    var all := c.particles + spawn;
    FlowingOnLink(Advanced(all, dt));
    forall p | p in Stepped(c, flow, dt, spawn).particles
      ensures exists q :: q in all && p == Advance(q, dt)
    {
      var k :| 0 <= k < |Advanced(all, dt)| && Advanced(all, dt)[k] == p;
      assert all[k] in all;
    }
  }

  /** A particle on its link is drawn on the segment between the two ends, with
      alpha in (0, 1] while its life is at most the initial three seconds. */
  lemma DotOnSegment(a: Structures.Structure, b: Structures.Structure, p: FlowParticle)
    requires OnLink(p) && p.life <= ParticleLife
    ensures a.x <= b.x ==> a.x <= DotOf(a, b, p).x <= b.x
    ensures b.x <= a.x ==> b.x <= DotOf(a, b, p).x <= a.x
    ensures a.y <= b.y ==> a.y <= DotOf(a, b, p).y <= b.y
    ensures b.y <= a.y ==> b.y <= DotOf(a, b, p).y <= a.y
    ensures 0.0 < DotOf(a, b, p).alpha <= 1.0
  {
    LerpBetween(a.x, b.x, p.progress);
    LerpBetween(a.y, b.y, p.progress);
  }

  lemma LerpBetween(a: real, b: real, t: real)
    requires 0.0 <= t <= 1.0
    ensures a <= b ==> a <= Lerp(a, b, t) <= b
    ensures b <= a ==> b <= Lerp(a, b, t) <= a
  {
    var d := b - a;
    var w, rest := d * t, d * (1.0 - t);
    assert w + rest == d;
    if a <= b {
      assert 0.0 <= w && 0.0 <= rest;
    } else {
      assert w <= 0.0 && rest <= 0.0;
    }
  }
}
