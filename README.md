# Pollination core, modelled in Dafny

This project models the frame-stepped pollination simulation in `core/` and proves properties of that model. Visitors walk among glowing trees and mushrooms (structures):

- Touching a structure gives the visitor's aura that structure's colour.
- Carrying a colour onto a structure of a different colour spawns a pollination dance, a short-lived swirl of particles and two rings.
- While a visitor carries a colour, a fading trail of points follows them.
- Autonomous bees, butterflies and moths fly between structures, collect colours and leave trails of their own.
- A mycelial network, built once, links each structure to its nearest neighbours, and particles flow along those links.

The project has one module per core file, plus two shared modules:

- `Numerics`: colour bytes, `Option`, squared distances and the abstract sine, cosine, square root and decay factor.
- `Random`: an explicit random stream.

The model keeps the source's form:

- Each stateful entity is a `class` whose methods change its fields.
- Every loop of the source is a `while`/`for` loop with invariants.
- Each such method is proved against a specification function on values:
  - `Auras.Decay` for the aura and agent glow;
  - `Trails.Step` for the visitor and agent trails;
  - `Mycelium.Chosen`/`Mycelium.Network` for the link construction;
  - `Mycelium.Stepped` for a link's frame;
  - `Dances.VisibleParticles`/`Dances.VisibleRings` for a dance's drawing;
  - `Pollination.Collisions` for a visitor's collision pass;
  - `Pollination.Undead` for the pruning of dances.
- The properties the simulation promises are lemmas about these functions.

Numerics:

- Coordinates, lives and intensities are `real`.
- `math.sqrt` comparisons are squared comparisons. Lemmas show that each one agrees with the source's test for any function satisfying `Numerics.IsSqrt`.
- `math.sin` and `math.cos` are parameters known only to lie in [-1, 1] (`Numerics.Wave`).
- The decay factor `decay_rate ** (dt * 60)` is a parameter in (0, 1] (`Numerics.DecayFactor`).
- Wall-clock readings (`time.time()`) are parameters.
- `random.random()` is the next value of an injected stream (`Random.Rng`). `uniform`, `randint` and `choice` are derived from it and proved to stay in their ranges.

## Model

| member | source | states |
|---|---|---|
| Structures.Energy | core/structure.py:28-30 | the breathing level `0.3 + 0.1 sin(0.5 t)` always lies in [0.2, 0.4] |
| Structures.Pulse | core/structure.py:41 | a pulse factor `1 + 0.1 sin(phase)` always lies in [0.9, 1.1] |
| Structures.Structure.constructor | core/structure.py:11-26 | id, position, radius and colour are stored as given; energy starts at 0.3 |
| Structures.Structure.Update | core/structure.py:28-30 | energy becomes `Energy(time)`: it ignores `dt` and stays in [0.2, 0.4] |
| Structures.Structure.RenderData | core/structure.py:39-49 | position, radius, colour and energy pass through unchanged; the pulse is `Pulse(2 t)`, within [0.9, 1.1] |
| Structures.ContainsIsDistanceTest | core/structure.py:32-37 | the squared containment test holds exactly when `sqrt(dx² + dy²) < radius`, for every radius |
| Structures.RimIsOutside | core/structure.py:32-37 | a point at exactly `radius` from the centre is not contained |
| Structures.CentreIsInside | core/structure.py:32-37 | a structure with a positive radius contains its own centre |
| Auras.Collected | core/aura.py:35-45 | a collected colour is held at intensity exactly 1.0 and satisfies the aura invariant |
| Auras.Decay | core/aura.py:47-63 | an unlit glow is unchanged; a lit glow becomes either "no colour, intensity 0" (when the product falls below the threshold) or the product (at least the threshold, colour kept); the intensity never grows; the invariant intensity = 0 ⇔ no colour is preserved |
| Auras.DecayAllNonIncreasing | core/aura.py:54-63 | over any run of decay steps without a collection, the invariant holds, the intensity does not grow, and the colour is the collected one or gone |
| Auras.DecayAllKeepsDark | core/aura.py:54 | decaying an unlit aura any number of times leaves it unlit |
| Auras.VisitorAura.constructor | core/aura.py:15-33 | a fresh aura has no colour, intensity 0, the default radius, rate and threshold, and satisfies the invariant |
| Auras.VisitorAura.CollectColor | core/aura.py:35-45 | the colour is replaced at intensity 1.0 whatever the prior state, with the collection time recorded |
| Auras.VisitorAura.Update | core/aura.py:47-63 | the new state is `Decay` of the old one: the invariant is kept, and a lit aura ends either dark or at least `min_intensity` |
| Auras.VisitorAura.GetRenderData | core/aura.py:77-103 | the result is absent exactly when `has_color()` is false; otherwise it carries the visitor's position, the colour, intensity and glow radius, plus a pulse in [0.9, 1.1] |
| Auras.HasColorIffLit | core/aura.py:65-67 | under the invariant, `has_color()` holds exactly when the intensity is positive, and exactly when a colour is held |
| Trails.Carried | core/trail.py:47-65 | a trail copies a colour exactly when its aura `has_color()`, and then it is the aura's colour |
| Trails.Fade | core/trail.py:80-83 | the fading loop lowers every point's life by the same amount and changes nothing else |
| Trails.Prune | core/trail.py:85-86 | the rebuilding filter yields exactly the points with positive life, in order |
| Trails.Advance | core/trail.py:37-86 | the update algorithm with its early return, distance gate, eviction and first-sighting branch computes `Step` |
| Trails.AliveAllLiving | core/trail.py:85-86 | every point left by the filter has positive life |
| Trails.AliveMembers | core/trail.py:85-86 | a point survives exactly when it was in the buffer with positive life |
| Trails.AliveShorter | core/trail.py:85-86 | filtering never lengthens the buffer |
| Trails.AliveOfLiving | core/trail.py:85-86 | a buffer of living points passes the filter unchanged |
| Trails.AliveIsSubsequence | core/trail.py:85-86 | the survivors keep their insertion order |
| Trails.MovedIsDistanceTest | core/trail.py:55-60 | the squared gate holds exactly when `sqrt(dx² + dy²) > min_distance` |
| Trails.StepKeepsInvariant | core/trail.py:73-86 | after any update the buffer holds at most `max_points` points, all with positive life |
| Trails.GrownMembers | core/trail.py:55-78 | before fading, the buffer stays within capacity and gains at most the one new point, at life 1.0 |
| Trails.FadedSurvivors | core/trail.py:80-86 | every surviving point is an earlier point whose life dropped by the fade amount, and is still positive |
| Trails.StepWithoutColour | core/trail.py:46-52 | with no colour, the last position is untouched, no point is added, and every point fades by `0.5 dt` and is pruned |
| Trails.StepFirstSighting | core/trail.py:76-78 | the first sighting with a colour records the position and appends nothing |
| Trails.StepBelowGate | core/trail.py:55-60 | short of the gate, nothing is appended and the last position stays, so small moves accumulate |
| Trails.StepPastGate | core/trail.py:60-82 | past the gate, a point with the aura's colour is appended at the new position and the last position moves there; a full buffer loses its oldest point; the new point has already faded to `1 - dt * fade_rate` |
| Trails.StepLifeAtMostOne | core/trail.py:62-86 | with non-negative `dt` and fade rate, every life stays at most 1 |
| Trails.MovementTrail.constructor | core/trail.py:14-35 | an empty buffer, no last position, the given settings, and the invariant |
| Trails.MovementTrail.Update | core/trail.py:37-86 | the new buffer and last position are `Step` of the old ones with the aura's colour; the capacity and liveness invariant is kept |
| Trails.MovementTrail.GetRenderData | core/trail.py:88-108 | one record per point, in order, with position and colour copied, `alpha = life / max_life` and `size = point_size (0.5 + 0.5 alpha)` |
| Trails.RenderBounds | core/trail.py:95-106 | for a living point, the alpha lies in (0, 1] and the size between half of `point_size` and all of it |
| Dances.CreateSwirlParticles | core/dance.py:38-60 | exactly 40 particles: particle i has angle `2π i/40`, spiral `i/40`, radius `20 + 60 i/40`, the visitor colour when i is even and the structure colour when odd, life 1.0, angular speed in [0.8, 1.5] and size in [4, 9] |
| Dances.CreateRings | core/dance.py:62-77 | exactly two rings at radius 0 with maximum 90, the visitor colour first, each with a speed in [40, 60] |
| Dances.PollinationDance.constructor | core/dance.py:15-36 | origin, colours and duration are stored; life 1.0; the 40 particles and 2 rings above |
| Dances.PollinationDance.Update | core/dance.py:79-96 | life drops by `dt/duration`; every particle swirls, gains `20 dt` of radius and loses `dt/duration` of life; every ring grows by `speed dt`; origin, colours and counts are unchanged |
| Dances.PollinationDance.GetRenderData | core/dance.py:102-147 | the view is centred on the origin with alpha = life and both colours, and holds the drawn particles and rings as given by the filters |
| Dances.LifeAfterIsLinear | core/dance.py:86 | after any run of updates, life has dropped by the total elapsed time over the duration |
| Dances.DeadWhenElapsed | core/dance.py:98-100 | a fresh dance is dead exactly when the elapsed time has reached its duration; at exactly the duration its life is 0 |
| Dances.AliveBeforeElapsed | core/dance.py:98-100 | strictly between 0 and the duration of elapsed time, the life lies strictly between 0 and 1 |
| Dances.VisibleParticlesMembers | core/dance.py:113-124 | a particle is drawn exactly when its life is positive, never more particles than exist |
| Dances.VisibleParticleAlpha | core/dance.py:122 | for a living dance, every drawn particle's alpha `p.life * life` lies in (0, life] |
| Dances.VisibleRingsMembers | core/dance.py:128-137 | a ring is drawn exactly when its radius is below its maximum |
| Dances.RingAlphaBounds | core/dance.py:129-130 | an unfinished ring's alpha `life (1 - radius/max_radius)` lies in [0, life] |
| Agents.CharacteristicsOf | core/agent.py:59-71 | every type name gets one of the three constant sets, all with positive speed, size and wiggle |
| Agents.UnknownKindIsBee | core/agent.py:67 | a type outside the table behaves as a bee: speed 60, size 35, wiggle 0.8 |
| Agents.Lit | core/agent.py:160 | the trail follows a colour exactly when one is held at positive intensity |
| Agents.EventOf | core/agent.py:131-142 | a pollination event is recorded exactly when a colour was carried and differs byte for byte from the target's; otherwise the previous event stays |
| Agents.AutonomousAgent.constructor | core/agent.py:16-57 | a missing start coordinate is drawn from 100 inside the canvas edges; the type fixes the characteristics; no glow, no trail, flying; with structures a target is picked and its timer is in [3, 8], without them there is no target |
| Agents.AutonomousAgent.PickNewTarget | core/agent.py:73-79 | without structures nothing changes; otherwise the target is one of them, the mode is flying and the timer is in [3, 8] |
| Agents.AutonomousAgent.CollectColor | core/agent.py:81-85 | the colour is replaced at intensity 1.0 whatever was carried |
| Agents.AutonomousAgent.Update | core/agent.py:87-191 | without a target, only the timer drops by `dt`; with one, the position follows the flight or the orbit and is clamped to the 50-inset rectangle, the mode switches as the state machine says, and the glow and trail step; the invariant holds |
| Agents.AutonomousAgent.Fade | core/agent.py:151-191 | the glow decays like an aura with threshold 0.05; the trail then steps with the decayed glow's colour, within 80 points and alive |
| Agents.AutonomousAgent.Steer | core/agent.py:102-149 | the move is made from the start-of-frame distance; a glow change only comes from a finished collection; the position ends in the inset rectangle |
| Agents.AutonomousAgent.Fly | core/agent.py:107-119 | the agent moves along the unit vector at `speed * multiplier`, plus the wiggle; it starts collecting, with a timer in [1, 2], exactly when the start-of-frame distance is below 30 |
| Agents.AutonomousAgent.Circle | core/agent.py:121-145 | the agent sits on the radius-25 orbit; once the timer has run out it collects the target's colour, records an event on a colour change and flies to a new target with a timer in [3, 8]; otherwise nothing else changes |
| Agents.AutonomousAgent.DecayGlow | core/agent.py:151-157 | the agent's glow follows `Decay` with the 0.05 threshold |
| Agents.AutonomousAgent.StepTrail | core/agent.py:159-191 | the agent's trail follows `Step` with capacity 80, gate 8 and fade 0.15, or 0.5 without a colour; it stays within 80 points and alive |
| Agents.AutonomousAgent.GetRenderData | core/agent.py:193-223 | position, size and base colour; one dot per trail point, in order; the glow is present exactly when lit, at twice the size, with the pulse `1 + 0.1 sin(2 (now - collected_time))`, within [0.9, 1.1] |
| Agents.DotViewBounds | core/agent.py:196-203 | a living trail point is drawn with alpha in (0, 1] and size in (3, 5] |
| Agents.ArrivalIsDistanceTest | core/agent.py:105-117 | the squared arrival test holds exactly when `sqrt(dx² + dy²) < 30` |
| Random.Rng.Random | core/mycelium.py:68 | `random.random()` is the next value of the stream, a real in [0, 1); each draw consumes one value |
| Random.Rng.Uniform | core/dance.py:54 | `random.uniform(lo, hi)` is `lo + (hi - lo) u` for the next stream value `u`, and lies between the two bounds |
| Random.Rng.RandInt | core/mycelium.py:48 | `random.randint(lo, hi)` lies in [lo, hi], both ends included |
| Random.Rng.Choice | core/agent.py:77 | the index `random.choice` picks from a non-empty sequence is within it |
| Random.ScaledIndex | core/agent.py:77 | `floor(u n)` for `u` in [0, 1) is an index below `n`, the bucket of [0, 1) that `u` falls in |
| Numerics.Clamp | core/agent.py:148-149 | `max(lo, min(hi, v))` lies in [lo, hi] when lo ≤ hi, and leaves a value already inside unchanged |
| Mycelium.FindNearby | core/mycelium.py:30-41 | the inner loop over `j`, skipping `j <= i`, collects exactly `Nearby` |
| Mycelium.InsertCandidate | core/mycelium.py:44 | one insertion of the stable sort: the candidate goes before the first one strictly farther |
| Mycelium.SortCandidates | core/mycelium.py:44 | the sort loop computes `SortByDistance` |
| Mycelium.TakeLinks | core/mycelium.py:49-57 | the link loop yields one link, with flow 0.2 and no particles, per chosen candidate, in order |
| Mycelium.ConnectStructure | core/mycelium.py:30-57 | structure i's links are `Chosen(i, k)` for a branching draw k in {2, 3} |
| Mycelium.CreateConnections | core/mycelium.py:25-59 | the whole list is `Network` for draws each in {2, 3}; every link goes from i to some j > i at distance below 2000, with flow 0.2 and no particles |
| Mycelium.NearbyIsDistanceTest | core/mycelium.py:38-41 | the squared candidate test holds exactly when `sqrt(dx² + dy²) < 2000` |
| Mycelium.NearbyMembers | core/mycelium.py:30-41 | the candidates of i are exactly the later structures closer than 2000, each with its squared distance, in increasing index order |
| Mycelium.SortPermutes | core/mycelium.py:44 | sorting permutes the candidates |
| Mycelium.SortIsSorted | core/mycelium.py:44 | sorting yields ascending distances |
| Mycelium.SortIsStable | core/mycelium.py:44 | candidates listed in index order come out with ties in index order |
| Mycelium.SortedByDistance | core/mycelium.py:38-44 | ascending squared distances are ascending `sqrt` distances |
| Mycelium.ChosenMembers | core/mycelium.py:30-57 | each link of structure i goes from i to a later structure closer than 2000, with flow 0.2 and no particles |
| Mycelium.ChosenAreNearest | core/mycelium.py:43-57 | no link without candidates, otherwise exactly `min(k, |nearby|)` links, to the nearest candidates in ascending distance: no unchosen candidate is nearer than a chosen one, and ties go to the lower index |
| Mycelium.NoPairNoLinks | core/mycelium.py:25-59 | zero or one structure gives no links |
| Mycelium.MycelialNetwork.constructor | core/mycelium.py:15-23 | the links are `Network` for some branching draws, each in {2, 3}; the network is well formed, with no self-links or reversed duplicates, and has no particles |
| Mycelium.Flow | core/mycelium.py:65 | the flow `0.2 + 0.1 sin(0.3 t)` lies in [0.1, 0.3] |
| Mycelium.StepConnection | core/mycelium.py:63-81 | one link's frame is `Stepped`, with at most one spawned particle, at an end, heading either way, with life 3 |
| Mycelium.MycelialNetwork.Update | core/mycelium.py:61-81 | the links stay, in number and order; each link gets the new flow and its frame, spawning at most one particle; the network stays valid |
| Mycelium.FlowingOnLink | core/mycelium.py:81 | after the filter every particle is alive with progress in [0, 1]; a particle stays exactly when it is on its link |
| Mycelium.SteppedBounds | core/mycelium.py:67-81 | a link's frame keeps its ends, adds at most one particle and leaves only particles on the link |
| Mycelium.SteppedParticles | core/mycelium.py:75-78 | each surviving particle is an earlier or spawned one whose progress moved by `direction * 0.2 * dt` and whose life dropped by `dt` |
| Mycelium.MycelialNetwork.GetRenderData | core/mycelium.py:83-113 | one view per link, in order: the line between its structures with its flow, and each particle at its progress |
| Mycelium.DotOnSegment | core/mycelium.py:99-106 | a particle on its link is drawn on the segment between the two ends, with alpha `life / 3` in (0, 1] |
| Pollination.ScaleOntoCanvas | core/system.py:37-41 | a normalised coordinate in [0, 1] lands on the canvas |
| Pollination.ColorsMatchIsEquality | core/system.py:72-74 | channel-wise equality is colour equality |
| Pollination.Touch | core/system.py:120-138 | a structure that does not contain the visitor changes nothing; a containing one gives its colour at full intensity and spawns one dance exactly when the visitor shows a colour that differs |
| Pollination.Known | core/system.py:172-179 | exactly the visitors whose id has an aura, in input order |
| Pollination.PollinationSystem.constructor | core/system.py:20-58 | structures are built in configuration order, coordinates up to 1.0 scaled by the canvas; the clock starts at 0; intensity is 0.7 and speed 0.6; there are no visitors, dances or agents; the network is built and valid |
| Pollination.PollinationSystem.AddAutonomousAgent | core/system.py:60-70 | the new agent's id is the prior agent count, and it is appended, so ids run 0..n-1 in order |
| Pollination.PollinationSystem.Collide | core/system.py:120-138 | the aura ends in the pass's final glow; the spawned dances are fresh, at full life, and match the pass's encounters one for one, in order |
| Pollination.PollinationSystem.Admit | core/system.py:110-118 | an unseen id gets a fresh unlit aura and an empty trail with the default settings (80 points, gate 8, fade 0.15); known ids keep theirs |
| Pollination.PollinationSystem.Visit | core/system.py:104-142 | a visitor's frame: admission, the collision pass, the aura's decay, and the trail step with the colour still shown; every other visitor's aura and trail keep their state |
| Pollination.PollinationSystem.Meet | core/system.py:120-142 | the collision pass followed by the aura's decay and then the trail step |
| Pollination.PollinationSystem.Settle | core/system.py:140-142 | the aura decays, then the trail steps with the decayed aura's colour |
| Pollination.PollinationSystem.Retire | core/system.py:144-148 | both key sets become exactly the active ids; the kept entries are unchanged |
| Pollination.PollinationSystem.Forget | core/system.py:147-148 | both entries of the id are removed |
| Pollination.PollinationSystem.AdvanceDances | core/system.py:150-153 | every dance steps once; the list becomes the surviving dances in order, and none of them is dead |
| Pollination.PollinationSystem.AdvanceAgents | core/system.py:155-157 | every agent steps; ids and the agent invariant are kept |
| Pollination.PollinationSystem.UpdateStructures | core/system.py:96-98 | every structure's energy becomes `Energy(time)` |
| Pollination.PollinationSystem.Serve | core/system.py:104-142 | one visitor's frame, with its new dances appended to the system's dances |
| Pollination.PollinationSystem.AdvanceEnvironment | core/system.py:96-101 | every structure's energy becomes `Energy(time)`; every link of the network is `Stepped` with `Flow(time)`, at most one particle spawned, and the links are kept in number and order |
| Pollination.PollinationSystem.FlowNetwork | core/system.py:100-101 | every link is `Stepped` with `Flow(time)`, at most one particle spawned, and the links are kept in number and order |
| Pollination.PollinationSystem.UpdateVisitors | core/system.py:104-142 | every visitor is served in input order; the key sets gain exactly the input ids; new dances are appended |
| Pollination.PollinationSystem.TendVisitors | core/system.py:104-148 | after the passes and the retirement, both key sets are exactly the input ids; the new dances are fresh and appended |
| Pollination.PollinationSystem.AdvanceLife | core/system.py:104-157 | key sets are the input ids; dances are the survivors, in order, of the old and new ones, none dead; the agents' invariant is kept |
| Pollination.PollinationSystem.Update | core/system.py:76-160 | time advances by exactly `dt`; all energies are `Energy(time)`; every link of the network is `Stepped` with `Flow(time)`; both key sets equal the input ids; the dances are the survivors, in order, of the old ones followed by the new ones, and none is dead; the agent list is unchanged; the system invariant is kept |
| Pollination.PollinationSystem.StructureViews | core/system.py:171 | one view per structure, in order |
| Pollination.PollinationSystem.VisitorViews | core/system.py:172-179 | one entry per visitor with an aura, in input order: that visitor's aura view, and its trail drawn one record per point with position and colour copied, `alpha = life / max_life` and the scaled size |
| Pollination.PollinationSystem.DanceViews | core/system.py:180 | one view per dance, in order: centred on its origin, with its two colours, its life as alpha, and exactly its visible particles and unfinished rings |
| Pollination.PollinationSystem.AgentViews | core/system.py:181 | one view per agent, in order: its position, size and body colour, one dot per trail point, and its glow exactly while lit, with radius twice the size and pulse `1 + 0.1 sin(2 (now - collected_time))` |
| Pollination.PollinationSystem.GetRenderData | core/system.py:162-183 | the input is passed through; one entry per link, structure, dance and agent; each structure entry is its `RenderData` and each link entry its `ViewOf`, in order; the aura and trail lists have one entry per known visitor, in input order, each aura entry that visitor's aura view and each trail entry its trail's records; each dance entry is that dance's drawing (visible particles and rings) and each agent entry that agent's drawing (dots and glow); one entry per input visitor once every input id is known |
| Pollination.StepDances | core/system.py:151-152 | every dance loses `dt/duration` of life and stays valid |
| Pollination.Survivors | core/system.py:153 | the rebuilt list is `Undead` |
| Pollination.Pick | core/system.py:145 | some key of a non-empty key set |
| Pollination.UndeadMembers | core/system.py:153 | a dance survives exactly when it was there and is not dead |
| Pollination.UndeadIsSubsequence | core/system.py:153 | the survivors keep their order |
| Pollination.KnownAll | core/system.py:172-179 | once every input id has an aura, every visitor is drawn, in input order |
| Pollination.CollisionsKeepLastColour | core/system.py:121-138 | after the pass, the aura holds the colour of the last containing structure at intensity 1.0; with no containing structure it is untouched |
| Pollination.EncountersAreMismatches | core/system.py:121-135 | every dance of a pass pairs two different colours at a structure that contains the visitor |
| Pollination.SameColourNeverDances | core/system.py:121-135 | touching only structures of the carried colour never spawns a dance |
| Pollination.OverlapUsesJustCollected | core/system.py:121-138 | with two overlapping structures, the second test sees the colour the first one gave |

## Left out

- The wall-clock path of `update` (`dt` is None) and every `time.time()` reading: `dt` and the clock are parameters.
- The values of `math.sqrt`, `math.sin`, `math.cos` and `**`: the model knows only
  - that the root is the non-negative square root;
  - that the waves lie in [-1, 1];
  - that the decay factor lies in (0, 1].
- Floating-point rounding: all arithmetic is on exact reals.
- `np.uint8` conversion of colours: colours are triples of bytes already, and comparison is exact.
- Python's global random generator: it is an injected stream of reals in [0, 1). Draws are ordered as in the source, but the generator's own algorithm is not modelled.
- `VisitorAura.get_intensity` is a plain read of the `intensity` field.
- The trail point fields `max_life`, which is always 1.0 (the constant `Trails.MaxLife`), and `time`, which is never read.
- `Dances.PollinationDance.constructor` requires a positive duration. With duration 0 the source would raise a division error on the first update, and no caller passes one.
- `Pollination.PollinationSystem.Valid` does not include the invariant of each aura and trail. `Auras.VisitorAura.Update` and `Trails.MovementTrail.Update` preserve it separately.
- `Pollination.PollinationSystem.Update` does not return the snapshot. A caller follows it with `GetRenderData`, which is what `update` does on its last line, core/system.py:160.
- `Pollination.PollinationSystem.Update` does not restate the per-visitor collision and trail results of `Visit`, nor each agent's frame. It only states that the new dances are fresh and that the agent list and the agents' invariant are kept.
- `Pollination.PollinationSystem.TendVisitors` states only the key sets and that the new dances are fresh. `Visit` states each visitor's collision and trail results.
- `Pollination.PollinationSystem.AdvanceLife` states only the key sets, the surviving dances and the agents' invariant. Each agent's frame is stated by `Agents.AutonomousAgent.Update`.
- `Pollination.PollinationSystem.Serve` states only that the new dances are fresh. `Visit` states that they match the pass's encounters.
- `Pollination.PollinationSystem.UpdateVisitors` states only that the new dances are fresh. `Visit` states that they match the pass's encounters.
- `Pollination.PollinationSystem.AdvanceAgents` states only the agents' invariant and ids, not each agent's frame. That is stated by `Agents.AutonomousAgent.Update`.
- `Pollination.PollinationSystem.Retire`: the order in which dictionary keys are visited is left open (`Pick`), since the result does not depend on it.
- The system's flow value is computed once per frame, not once per link. `sin` is a function, so every link gets the same value either way.
- The sort in `_create_connections` is modelled as a stable insertion sort on squared distance. `Mycelium.SortedByDistance` shows that this order is the order by distance, and `list.sort` is stable.
- Agents' pollination events are recorded (`Agents.EventOf`) but no dance is created for them, because `PollinationSystem.update` never reads `last_pollination`.

Facts about the code that the model follows:

- Dance particles are laid out at uniform angles `2π i / 40` (core/dance.py:44).
- A dance always has exactly 40 particles (core/dance.py:41).
- Agent pollination events are recorded but never turned into dances by the system (core/agent.py:137-142, core/system.py:155-157).
- Each structure links only to later structures in the list, `j > i` (core/mycelium.py:34-35).
- The aura decay rate defaults to 0.998 (core/aura.py:15).
