/** Cells and their per-cell life cycle (node_cell.rs, seed.rs, types.rs). `f32` is `real`. */
module Cells {
  import opened Basics

  type NodeId = nat

  datatype NodeState = Active | Idle | Sleep | Dead

  datatype ImpulseKind = Query | Write | Affect

  datatype Impulse = Impulse(kind: ImpulseKind, pattern: string, strength: real, ttlMs: nat, tags: seq<string>)

  datatype SeedParams = SeedParams(affinity: real, baseMetabolism: real, corePattern: string)

  datatype NodeCell = NodeCell(
    id: NodeId,
    seed: SeedParams,
    state: NodeState,
    links: set<NodeId>,
    metabolism: real,
    affinity: real,
    lastResponseMs: nat,
    energy: real,
    salience: real,
    adrenoTag: bool,
    lastRecallMs: nat)

  // ---- Tokens -------------------------------------------------------------

  predicate IsSeparator(c: char) {
    c == '/' || c == ':' || c == '.'
  }

  function Flush(word: string): seq<string> {
    if word == "" then [] else [word]
  }

  /** Splits on separators, drops empty pieces, lower-cases; `word` is the piece being read. */
  function SplitTokens(input: string, word: string): seq<string> {
    if input == "" then Flush(word)
    else if IsSeparator(input[0]) then Flush(word) + SplitTokens(input[1..], "")
    else SplitTokens(input[1..], word + [LowerChar(input[0])])
  }

  function Tokenize(input: string): seq<string> {
    SplitTokens(input, "")
  }

  // ---- One cell -----------------------------------------------------------

  function FromSeed(id: NodeId, seed: SeedParams): NodeCell {
    NodeCell(id, seed, Active, {}, seed.baseMetabolism, seed.affinity, 0, 0.6, 0.0, false, 0)
  }

  function BumpSalience(c: NodeCell, step: real): NodeCell {
    c.(salience := Clamp(c.salience + step, 0.0, 1.0))
  }

  function LowerAll(words: seq<string>): seq<string> {
    seq(|words|, i requires 0 <= i < |words| => Lower(words[i]))
  }

  predicate SharesToken(core: string, words: seq<string>) {
    exists t :: t in words && t in Tokenize(core)
  }

  function PatternMatch(affinity: real, core: string, imp: Impulse): Option<real> {
    if SharesToken(core, Tokenize(imp.pattern) + LowerAll(imp.tags)) then Some(1.0)
    else
      var closeness := 1.0 - Abs(affinity - imp.strength);
      if closeness > 0.45 then Some(closeness) else None
  }

  const AFFECT_PREFIX := "affect/"

  /** The matched part of `NodeCell::ingest`: state change, recall, salience and energy. */
  function Absorb(c: NodeCell, imp: Impulse, score: real, nowMs: nat): (r: NodeCell)
    ensures SameShape(r, c) && (r.state.Dead? ==> c.state.Dead?)
  {
    var felt :=
      if imp.kind.Affect? && AFFECT_PREFIX <= imp.pattern && score >= 0.6
      then BumpSalience(c, 0.15 * imp.strength) else c;
    match imp.kind
    case Query =>
      var woken := if felt.state.Sleep? && imp.strength > 0.6 then felt.(state := Idle) else felt;
      var recalled :=
        if score >= 0.6 then
          var r := woken.(lastRecallMs := nowMs);
          if r.adrenoTag then BumpSalience(r, 0.05) else r
        else woken;
      recalled.(energy := Clamp(recalled.energy + -0.05 * imp.strength, 0.0, 1.0))
    case Write =>
      felt.(state := Active, energy := Clamp(felt.energy + 0.08 * imp.strength, 0.0, 1.0))
    case Affect =>
      var state := if imp.strength > 0.8 then Active else if imp.strength < 0.3 then Idle else felt.state;
      felt.(state := state, energy := Clamp(felt.energy + 0.05 * (imp.strength - 0.4), 0.0, 1.0))
  }

  datatype Ingested = Ingested(cell: NodeCell, responded: bool)

  function Ingest(c: NodeCell, imp: Impulse, nowMs: nat): (r: Ingested)
    ensures SameShape(r.cell, c) && (r.cell.state.Dead? <==> c.state.Dead?)
  {
    if c.state.Dead? then Ingested(c, false)
    else
      match PatternMatch(c.affinity, c.seed.corePattern, imp)
      case None => Ingested(c.(energy := Clamp(c.energy - 0.01, 0.0, 1.0)), false)
      case Some(score) => Ingested(Absorb(c, imp, score, nowMs), true)
  }

  function TickCell(c: NodeCell, dtMs: nat, metabolismScale: real, sleepShift: real): NodeCell {
    if c.state.Dead? then c
    else
      var target := c.seed.baseMetabolism * Clamp(metabolismScale, 0.5, 1.5);
      var metabolism := c.metabolism + (target - c.metabolism) * 0.05;
      var energy := Clamp(c.energy - metabolism * (dtMs as real) * 0.0003, 0.0, 1.0);
      var shift := Clamp(sleepShift, -0.2, 0.2);
      var s1 := if energy < Clamp(0.2 - shift, 0.05, 0.45) && c.state.Active? then Idle else c.state;
      var s2 := if energy > Clamp(0.6 - shift, 0.35, 0.95) && s1.Idle? then Active else s1;
      var s3 := if s2.Sleep? && energy > Clamp(0.5 - shift, 0.2, 0.85) then Idle else s2;
      c.(metabolism := metabolism, energy := energy, state := s3)
  }

  function DriftAffinity(c: NodeCell, drive: real): NodeCell {
    c.(affinity := c.affinity + (c.seed.affinity - c.affinity) * Clamp(drive * 0.05, 0.0, 0.25))
  }

  predicate Divides(c: NodeCell) {
    c.state.Active? && c.energy > 0.8
  }

  /** The parent after a division. */
  function Halved(c: NodeCell): NodeCell {
    c.(energy := c.energy * 0.55)
  }

  /** The child before `tick_all` names it; `variation` is the random affinity step. */
  function Offspring(c: NodeCell, variation: real): NodeCell {
    var affinity := Clamp(c.affinity + variation, 0.0, 1.0);
    NodeCell(0, c.seed.(affinity := affinity), Idle, {}, (c.metabolism + c.seed.baseMetabolism) / 2.0,
             affinity, c.lastResponseMs, 0.45, Clamp(c.salience * 0.5, 0.0, 1.0), c.adrenoTag, c.lastRecallMs)
  }

  /** The state `maybe_sleep_or_die` leaves; it reports a death exactly when this is `Dead`. */
  function SleepOrDie(c: NodeCell, nowMs: nat, sleepShift: real): NodeCell {
    if c.state.Dead? then c
    else
      var idleFor := SatSub(nowMs, c.lastResponseMs);
      var threshold := Clamp(0.15 - Clamp(sleepShift, -0.2, 0.2), 0.01, 0.3);
      var dozed := if c.energy < threshold && idleFor > 3_000 then c.(state := Sleep) else c;
      if dozed.energy < 0.05 && idleFor > 6_000 then dozed.(state := Dead) else dozed
  }

  predicate Protected(c: NodeCell) {
    c.adrenoTag || c.salience >= 0.7
  }

  /** What `trim_low_energy`'s first loop does to one cell; the two flags are its coin tosses. */
  function TrimCell(c: NodeCell, nowMs: nat, nap: bool, kill: bool): NodeCell {
    if Protected(c) then c
    else if c.salience < 0.2 && SatSub(nowMs, c.lastRecallMs) > 60_000 && nap then
      var dozed := if c.state.Active? then c.(state := Sleep) else c;
      if dozed.energy < 0.05 && kill then dozed.(state := Dead) else dozed
    else c
  }

  /** The cell keeps its identity: what replay restores after every operation. */
  predicate SameShape(a: NodeCell, b: NodeCell) {
    a.id == b.id && a.seed.corePattern == b.seed.corePattern && a.links == b.links
  }

  /** The vital signs that `EnergyDelta` carries: what replay restores at every tick. */
  predicate SameVitals(a: NodeCell, b: NodeCell) {
    a.energy == b.energy && a.metabolism == b.metabolism && a.state == b.state &&
    a.lastResponseMs == b.lastResponseMs
  }
}
