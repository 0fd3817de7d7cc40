/**
  The cluster field as an event-sourced state machine (cluster_field.rs, journal.rs).
  `Apply` is replay of one delta; `Step` is one live operation, which changes the field and
  appends the deltas it emits. Random draws and hash-map iteration orders are part of the
  operation, so every run of the program is a sequence of `Op` values.
 */
module FieldModel {
  import opened Basics
  import opened Cells

  /** The change threshold of `adjust_link_score` (`f32::EPSILON`). */
  const EPSILON: real := 0.00000011920929
  const MIN_SCORE: real := 0.2
  const MAX_SCORE: real := 3.0

  datatype Edge = Edge(from: NodeId, to: NodeId)

  type CellMap = map<NodeId, NodeCell>
  type Scores = map<Edge, real>

  datatype Field = Field(cells: CellMap, scores: Scores, nextId: NodeId, nowMs: nat)

  const EMPTY: Field := Field(map[], map[], 1, 0)

  // ---- Link tracking ------------------------------------------------------

  function Score(scores: Scores, e: Edge): real {
    if e in scores then scores[e] else 1.0
  }

  function Register(scores: Scores, e: Edge): Scores {
    if e in scores then scores else scores[e := 1.0]
  }

  function OutEdges(c: NodeCell): set<Edge> {
    set to | to in c.links :: Edge(c.id, to)
  }

  function Edges(cells: CellMap): set<Edge> {
    set a, b | a in cells && b in cells[a].links :: Edge(a, b)
  }

  /** Registers every listed edge that is not tracked yet; tracked scores stay. */
  function Track(scores: Scores, edges: set<Edge>): Scores {
    map e | e in scores.Keys + edges :: Score(scores, e)
  }

  function Purge(scores: Scores, id: NodeId): Scores {
    map e | e in scores && e.from != id && e.to != id :: scores[e]
  }

  function PurgeAll(scores: Scores, ids: seq<NodeId>): Scores {
    if ids == [] then scores else PurgeAll(Purge(scores, ids[0]), ids[1..])
  }

  function Attach(f: Field, c: NodeCell): Field {
    f.(cells := f.cells[c.id := c], scores := Track(f.scores, OutEdges(c)))
  }

  function AddLink(f: Field, from: NodeId, to: NodeId): Field {
    if from in f.cells && to !in f.cells[from].links then
      var c := f.cells[from];
      f.(cells := f.cells[from := c.(links := c.links + {to})], scores := Register(f.scores, Edge(from, to)))
    else f
  }

  // ---- Deltas -------------------------------------------------------------

  datatype CellSnapshot = CellSnapshot(
    id: NodeId,
    seedAffinity: real,
    seedMetabolism: real,
    corePattern: string,
    state: NodeState,
    links: set<NodeId>,
    metabolism: real,
    affinity: real,
    lastResponseMs: nat,
    energy: real,
    salience: real,
    adrenoTag: bool,
    lastRecallMs: nat)

  function Snapshot(c: NodeCell): CellSnapshot {
    CellSnapshot(c.id, c.seed.affinity, c.seed.baseMetabolism, c.seed.corePattern, c.state, c.links, c.metabolism,
                 c.affinity, c.lastResponseMs, c.energy, c.salience, c.adrenoTag, c.lastRecallMs)
  }

  function ToNode(s: CellSnapshot): NodeCell {
    FromSeed(s.id, SeedParams(s.seedAffinity, s.seedMetabolism, s.corePattern)).(
      links := s.links, metabolism := s.metabolism, affinity := s.affinity, lastResponseMs := s.lastResponseMs,
      energy := s.energy, state := s.state, salience := s.salience, adrenoTag := s.adrenoTag,
      lastRecallMs := s.lastRecallMs)
  }

  /** `EventDelta`; `OtherDelta` stands for the kinds that touch nothing modelled here. */
  datatype EventDelta =
    | TickDelta(nowMs: nat)
    | SpawnDelta(cell: CellSnapshot)
    | DivideDelta(parent: NodeId, child: CellSnapshot)
    | SleepDelta(id: NodeId)
    | DeadDelta(id: NodeId)
    | LinkDelta(from: NodeId, to: NodeId)
    | UnlinkDelta(from: NodeId, to: NodeId)
    | AffinityDelta(id: NodeId, affinity: real)
    | EnergyDelta(id: NodeId, energy: real, metabolism: real, state: NodeState, lastResponseMs: nat)
    | DreamStrengthenDelta(from: NodeId, to: NodeId, score: real)
    | DreamWeakenDelta(from: NodeId, to: NodeId, score: real)
    | DreamPruneDelta(from: NodeId, to: NodeId)
    | DreamRewireDelta(from: NodeId, to: NodeId)
    | SyncAlignDelta(from: NodeId, to: NodeId, score: real)
    | OtherDelta

  function EnergyOf(c: NodeCell): EventDelta {
    EnergyDelta(c.id, c.energy, c.metabolism, c.state, c.lastResponseMs)
  }

  function Revive(f: Field, s: CellSnapshot): Field {
    Attach(f, ToNode(s)).(nextId := Max(f.nextId, s.id + 1))
  }

  /** `apply_delta`, one branch for each kind of delta. */
  function Apply(f: Field, d: EventDelta): Field {
    match d
    case TickDelta(now) => f.(nowMs := now)
    case SpawnDelta(s) => Revive(f, s)
    case DivideDelta(parent, s) => Revive(AddLink(f, parent, s.id), s)
    case SleepDelta(id) =>
      if id in f.cells then f.(cells := f.cells[id := f.cells[id].(state := Sleep)]) else f
    case DeadDelta(id) =>
      var cells := f.cells - {id};
      f.(cells := cells, scores := Purge(Track(f.scores, Edges(cells)), id))
    case LinkDelta(from, to) => AddLink(f, from, to)
    case UnlinkDelta(from, to) =>
      if from in f.cells && to in f.cells[from].links then DropLink(f, from, to) else f
    case AffinityDelta(id, a) =>
      if id in f.cells then
        var c := f.cells[id];
        f.(cells := f.cells[id := c.(affinity := a, seed := c.seed.(affinity := a))])
      else f
    case EnergyDelta(id, energy, metabolism, state, last) =>
      if id in f.cells then
        f.(cells := f.cells[id := f.cells[id].(energy := energy, metabolism := metabolism, state := state,
                                               lastResponseMs := last)])
      else f
    case DreamStrengthenDelta(from, to, score) => f.(scores := f.scores[Edge(from, to) := score])
    case DreamWeakenDelta(from, to, score) => f.(scores := f.scores[Edge(from, to) := score])
    case DreamPruneDelta(from, to) =>
      if from in f.cells then DropLink(f, from, to) else f.(scores := f.scores - {Edge(from, to)})
    case DreamRewireDelta(from, to) => AddLink(f, from, to)
    case SyncAlignDelta(from, to, score) => f.(scores := f.scores[Edge(from, to) := score])
    case OtherDelta => f
  }

  function DropLink(f: Field, from: NodeId, to: NodeId): Field
    requires from in f.cells
  {
    var c := f.cells[from];
    f.(cells := f.cells[from := c.(links := c.links - {to})], scores := f.scores - {Edge(from, to)})
  }

  /** The field recovery builds from an empty one by applying the log in order. */
  function Replay(log: seq<EventDelta>): Field {
    if log == [] then EMPTY else Apply(Replay(log[..|log| - 1]), log[|log| - 1])
  }

  // ---- Live operations ----------------------------------------------------

  /** A field together with everything it has journalled. */
  datatype Sys = Sys(f: Field, log: seq<EventDelta>)

  const INITIAL: Sys := Sys(EMPTY, [])

  /** `add_root` and `perform_spawn_seed`: a new cell grown from seed parameters. */
  function AddCell(s: Sys, seed: SeedParams): Sys {
    var c := FromSeed(s.f.nextId, seed);
    Sys(Attach(s.f, c).(nextId := s.f.nextId + 1), s.log + [SpawnDelta(Snapshot(c))])
  }

  function Bud(f: Field, seed: SeedParams, energy: real): NodeCell {
    FromSeed(f.nextId, seed.(corePattern := seed.corePattern + ":bud" + Decimal(f.nextId))).(
      energy := energy, lastResponseMs := f.nowMs)
  }

  /** Links each listed cell to the new one, in the order the cells are visited. */
  function LinkTo(s: Sys, sources: seq<NodeId>, id: NodeId): Sys
    decreases |sources|
  {
    if sources == [] then s
    else LinkTo(Sys(AddLink(s.f, sources[0], id), s.log + [LinkDelta(sources[0], id)]), sources[1..], id)
  }

  const MAX_INJECT_CELLS: nat := 64

  /** `inject_seed_variation`; `sources` are the cells whose coin toss adds a link to the bud. */
  function Inject(s: Sys, seed: SeedParams, energy: real, sources: seq<NodeId>): Sys {
    if |s.f.cells| > MAX_INJECT_CELLS then s
    else
      var c := Bud(s.f, seed, energy);
      LinkTo(Sys(Attach(s.f, c).(nextId := s.f.nextId + 1), s.log + [SpawnDelta(Snapshot(c))]), sources, c.id)
  }

  /** Harmony settings and the active hormone, read once by `tick_all`. */
  datatype TickEnv = TickEnv(metabolismScale: real, sleepDelta: real, alpha: real, hormone: Option<real>)

  function SleepShift(c: NodeCell, env: TickEnv): real {
    if c.adrenoTag && env.hormone.Some? then Clamp(env.sleepDelta - 0.2 * env.hormone.value, -0.4, 0.2)
    else env.sleepDelta
  }

  /** `tick_all` in progress: children waiting to be attached and cells that died. */
  datatype Pass = Pass(f: Field, log: seq<EventDelta>, born: seq<(NodeId, NodeCell)>, doomed: seq<NodeId>)

  function Metabolise(p: Pass, id: NodeId, dtMs: nat, env: TickEnv): Pass
    requires id in p.f.cells
  {
    var prior := p.f.cells[id];
    var c := DriftAffinity(TickCell(prior, dtMs, env.metabolismScale, SleepShift(prior, env)), env.alpha);
    p.(f := p.f.(cells := p.f.cells[id := c]), log := p.log + [EnergyOf(c)])
  }

  function Named(child: NodeCell, id: NodeId, nowMs: nat): NodeCell {
    child.(id := id, seed := child.seed.(corePattern := child.seed.corePattern + ":n" + Decimal(id)),
           lastResponseMs := nowMs)
  }

  function Divide(p: Pass, id: NodeId, variation: real): Pass
    requires id in p.f.cells
  {
    var prior := p.f.cells[id];
    if Divides(prior) then
      var c := Halved(prior);
      var child := Named(Offspring(prior, variation), p.f.nextId, p.f.nowMs);
      Pass(p.f.(cells := p.f.cells[id := c], nextId := p.f.nextId + 1),
           p.log + [AffinityDelta(id, c.affinity), EnergyOf(c)], p.born + [(id, child)], p.doomed)
    else p
  }

  function Graft(p: Pass, parent: NodeId, child: NodeCell): Pass {
    var linked := AddLink(p.f, parent, child.id);
    var note := if linked == p.f then [] else [LinkDelta(parent, child.id)];
    p.(f := Attach(linked, child), log := p.log + note + [DivideDelta(parent, Snapshot(child))])
  }

  function Cull(p: Pass, id: NodeId, env: TickEnv): Pass
    requires id in p.f.cells
  {
    var prior := p.f.cells[id];
    var c := SleepOrDie(prior, p.f.nowMs, SleepShift(prior, env));
    var dozes := if !prior.state.Sleep? && c.state.Sleep? then [SleepDelta(id)] else [];
    var dies := if c.state.Dead? && !prior.state.Dead? then [DeadDelta(id)] else [];
    Pass(p.f.(cells := p.f.cells[id := c]), p.log + dozes + dies + [EnergyOf(c)], p.born,
         p.doomed + if dies == [] then [] else [id])
  }

  function MetaboliseAll(p: Pass, ids: seq<NodeId>, dtMs: nat, env: TickEnv): (r: Pass)
    requires forall id :: id in ids ==> id in p.f.cells
    ensures r.f.cells.Keys == p.f.cells.Keys
    decreases |ids|
  {
    if ids == [] then p else MetaboliseAll(Metabolise(p, ids[0], dtMs, env), ids[1..], dtMs, env)
  }

  function DivideAll(p: Pass, ids: seq<NodeId>, variation: map<NodeId, real>): (r: Pass)
    requires forall id :: id in ids ==> id in p.f.cells && id in variation
    ensures r.f.cells.Keys == p.f.cells.Keys
    decreases |ids|
  {
    if ids == [] then p else DivideAll(Divide(p, ids[0], variation[ids[0]]), ids[1..], variation)
  }

  function GraftAll(p: Pass, born: seq<(NodeId, NodeCell)>): (r: Pass)
    ensures p.f.cells.Keys <= r.f.cells.Keys
    decreases |born|
  {
    if born == [] then p else GraftAll(Graft(p, born[0].0, born[0].1), born[1..])
  }

  function CullAll(p: Pass, ids: seq<NodeId>, env: TickEnv): (r: Pass)
    requires forall id :: id in ids ==> id in p.f.cells
    ensures r.f.cells.Keys == p.f.cells.Keys
    decreases |ids|
  {
    if ids == [] then p else CullAll(Cull(p, ids[0], env), ids[1..], env)
  }

  function Living(cells: CellMap): CellMap {
    map id | id in cells && !cells[id].state.Dead? :: cells[id]
  }

  /** Deaths take effect once for the whole tick: drop, rebuild, then purge each dead id. */
  function Bury(p: Pass): Sys {
    var cells := Living(p.f.cells);
    var scores := if p.doomed != [] || |cells| != |p.f.cells| then Track(p.f.scores, Edges(cells)) else p.f.scores;
    Sys(p.f.(cells := cells, scores := PurgeAll(scores, p.doomed)), p.log)
  }

  /** `tick_all`: metabolise, divide, attach the children, cull, bury. */
  function TickAll(s: Sys, dtMs: nat, env: TickEnv, order: seq<NodeId>, variation: map<NodeId, real>): Sys
    requires Enumerates(order, s.f.cells.Keys) && variation.Keys == s.f.cells.Keys
  {
    var now := SatAdd(s.f.nowMs, dtMs);
    var p0 := Pass(s.f.(nowMs := now), s.log + [TickDelta(now)], [], []);
    var p1 := MetaboliseAll(p0, order, dtMs, env);
    var p2 := DivideAll(p1, order, variation);
    var p3 := GraftAll(p2, p2.born);
    Bury(CullAll(p3, order, env))
  }

  function Trimmed(f: Field, naps: set<NodeId>, kills: set<NodeId>): CellMap {
    map id | id in f.cells :: TrimCell(f.cells[id], f.nowMs, id in naps, id in kills)
  }

  predicate IsVictim(c: NodeCell) {
    !Protected(c) && (c.energy <= 0.1 || c.state.Dead?)
  }

  function Victims(cells: CellMap): set<NodeId> {
    set id | id in cells && IsVictim(cells[id])
  }

  predicate Survives(c: NodeCell) {
    if Protected(c) then !c.state.Dead? else c.energy > 0.1 && !c.state.Dead?
  }

  function Survivors(cells: CellMap): CellMap {
    map id | id in cells && Survives(cells[id]) :: cells[id]
  }

  function BuryEach(s: Sys, victims: seq<NodeId>): Sys
    decreases |victims|
  {
    if victims == [] then s
    else BuryEach(Sys(s.f.(scores := Purge(s.f.scores, victims[0])), s.log + [DeadDelta(victims[0])]), victims[1..])
  }

  /** `trim_low_energy`; `naps` and `kills` are the coin tosses, `order` the visit order of the victims. */
  function Trim(s: Sys, naps: set<NodeId>, kills: set<NodeId>, order: seq<NodeId>): Sys {
    var cells := Survivors(Trimmed(s.f, naps, kills));
    var scores := if |cells| != |s.f.cells| then Track(s.f.scores, Edges(cells)) else s.f.scores;
    BuryEach(Sys(s.f.(cells := cells, scores := scores), s.log), order)
  }

  datatype Cause = Strengthen | Weaken | Align

  function ScoreDelta(why: Cause, e: Edge, score: real): EventDelta {
    match why
    case Strengthen => DreamStrengthenDelta(e.from, e.to, score)
    case Weaken => DreamWeakenDelta(e.from, e.to, score)
    case Align => SyncAlignDelta(e.from, e.to, score)
  }

  predicate Linked(f: Field, e: Edge) {
    e.from in f.cells && e.to in f.cells[e.from].links
  }

  function Adjusted(f: Field, e: Edge, step: real): real {
    Clamp(Score(f.scores, e) + step, MIN_SCORE, MAX_SCORE)
  }

  /** Whether `adjust_link_score` reports a change, and so whether its caller journals it. */
  predicate AdjustReports(f: Field, e: Edge, step: real) {
    Linked(f, e) && Abs(Adjusted(f, e, step) - Score(f.scores, e)) > EPSILON
  }

  /** `adjust_link_score` followed by the caller's journal entry when a change was reported. */
  function Adjust(s: Sys, e: Edge, step: real, why: Cause): Sys {
    if !Linked(s.f, e) then s
    else
      var score := Adjusted(s.f, e, step);
      Sys(s.f.(scores := s.f.scores[e := score]),
          if AdjustReports(s.f, e, step) then s.log + [ScoreDelta(why, e, score)] else s.log)
  }

  /** `prune_link` followed by `emit_dream_prune` when a link was removed. */
  function Prune(s: Sys, e: Edge): Sys {
    if !Linked(s.f, e) then s
    else Sys(DropLink(s.f, e.from, e.to), s.log + [UnlinkDelta(e.from, e.to), DreamPruneDelta(e.from, e.to)])
  }

  predicate Lonely(f: Field, id: NodeId) {
    id in f.cells && f.cells[id].links == {}
  }

  function Distance(f: Field, id: NodeId, other: NodeId): real
    requires id in f.cells && other in f.cells
  {
    Abs(f.cells[other].affinity - f.cells[id].affinity)
  }

  /** A candidate `rewire_lonely` may keep: no other cell is strictly closer in affinity. */
  predicate Nearest(f: Field, id: NodeId, target: NodeId)
    requires id in f.cells
  {
    target in f.cells && target != id &&
    forall o :: o in f.cells && o != id ==> Distance(f, id, target) <= Distance(f, id, o)
  }

  /** `rewire_lonely` on a lonely cell with its chosen target. */
  function Rewire(s: Sys, id: NodeId, target: NodeId): Sys {
    Sys(AddLink(s.f, id, target), s.log + [LinkDelta(id, target), DreamRewireDelta(id, target)])
  }

  /** Cells change without gaining, losing or renaming any: ingest, wake, awaken, drift, alignment. */
  predicate SameCells(before: CellMap, after: CellMap) {
    before.Keys == after.Keys &&
    forall id :: id in before ==>
      SameShape(before[id], after[id]) && (before[id].state.Dead? <==> after[id].state.Dead?)
  }

  function Announce(f: Field, log: seq<EventDelta>, ids: seq<NodeId>): seq<EventDelta>
    requires forall id :: id in ids ==> id in f.cells
    decreases |ids|
  {
    if ids == [] then log else Announce(f, log + [EnergyOf(f.cells[ids[0]])], ids[1..])
  }

  /** The cells become `cells`, and only those in `told` are journalled. */
  function Touch(s: Sys, cells: CellMap, told: seq<NodeId>): Sys
    requires forall id :: id in told ==> id in cells
  {
    var f := s.f.(cells := cells);
    Sys(f, Announce(f, s.log, told))
  }

  // ---- Runs ---------------------------------------------------------------

  datatype Op =
    | AddOp(seed: SeedParams)
    | InjectOp(seed: SeedParams, energy: real, sources: seq<NodeId>)
    | TickOp(dtMs: nat, env: TickEnv, order: seq<NodeId>, variation: map<NodeId, real>)
    | TrimOp(naps: set<NodeId>, kills: set<NodeId>, order: seq<NodeId>)
    | AdjustOp(edge: Edge, step: real, why: Cause)
    | PruneOp(edge: Edge)
    | RewireOp(id: NodeId, target: NodeId)
    | TouchOp(cells: CellMap, told: seq<NodeId>)
    | RestartOp

  /** What the code itself guarantees about the choices in an operation. */
  predicate Enabled(f: Field, op: Op) {
    match op
    case AddOp(_) => true
    case InjectOp(_, _, sources) => Distinct(sources) && forall id :: id in sources ==> id in f.cells
    case TickOp(_, _, order, variation) => Enumerates(order, f.cells.Keys) && variation.Keys == f.cells.Keys
    case TrimOp(naps, kills, order) => Enumerates(order, Victims(Trimmed(f, naps, kills)))
    case AdjustOp(_, step, _) => Abs(step) > EPSILON
    case PruneOp(_) => true
    case RewireOp(id, target) => Lonely(f, id) && Nearest(f, id, target)
    case TouchOp(cells, told) => SameCells(f.cells, cells) && forall id :: id in told ==> id in f.cells
    case RestartOp => true
  }

  /** One live operation; `RestartOp` throws the memory away and recovers it from the log. */
  function Step(s: Sys, op: Op): Sys
    requires Enabled(s.f, op)
  {
    match op
    case AddOp(seed) => AddCell(s, seed)
    case InjectOp(seed, energy, sources) => Inject(s, seed, energy, sources)
    case TickOp(dtMs, env, order, variation) => TickAll(s, dtMs, env, order, variation)
    case TrimOp(naps, kills, order) => Trim(s, naps, kills, order)
    case AdjustOp(edge, step, why) => Adjust(s, edge, step, why)
    case PruneOp(edge) => Prune(s, edge)
    case RewireOp(id, target) => Rewire(s, id, target)
    case TouchOp(cells, told) => Touch(s, cells, told)
    case RestartOp => s.(f := Replay(s.log))
  }

  /** `trace` is a run: it starts empty and each state follows from the last by the listed operation. */
  predicate IsRun(trace: seq<Sys>, ops: seq<Op>) {
    |trace| == |ops| + 1 && trace[0] == INITIAL &&
    forall i :: 0 <= i < |ops| ==> Enabled(trace[i].f, ops[i]) && trace[i + 1] == Step(trace[i], ops[i])
  }
}
