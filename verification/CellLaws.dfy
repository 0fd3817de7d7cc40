/**
  What the operations on the field do to a single cell, in numbers: a tick, an impulse, a division
  and a trim (node_cell.rs and its callers in cluster_field.rs).
 */
module CellLaws {
  import opened Basics
  import opened Cells
  import opened FieldModel
  import opened FieldInvariant
  import opened LiveField

  // ---- One tick, cell by cell ---------------------------------------------

  function Metabolised(c: NodeCell, dtMs: nat, env: TickEnv): NodeCell {
    DriftAffinity(TickCell(c, dtMs, env.metabolismScale, SleepShift(c, env)), env.alpha)
  }

  function Split(c: NodeCell): NodeCell {
    if Divides(c) then Halved(c) else c
  }

  /** What a whole tick makes of one cell, links aside. */
  function Ticked(c: NodeCell, dtMs: nat, env: TickEnv, nowMs: nat): NodeCell {
    var d := Split(Metabolised(c, dtMs, env));
    SleepOrDie(d, nowMs, SleepShift(d, env))
  }

  lemma {:induction false} MetaboliseEach(p: Pass, ids: seq<NodeId>, dtMs: nat, env: TickEnv, id: NodeId)
    requires Distinct(ids) && (forall o :: o in ids ==> o in p.f.cells) && id in p.f.cells
    ensures var q := MetaboliseAll(p, ids, dtMs, env);
            q.f == p.f.(cells := q.f.cells) && q.born == p.born &&
            q.f.cells[id] == if id in ids then Metabolised(p.f.cells[id], dtMs, env) else p.f.cells[id]
    decreases |ids|
  {
    hide Metabolised;
    if ids != [] {
      MetaboliseEach(Metabolise(p, ids[0], dtMs, env), ids[1..], dtMs, env, id);
      assert Metabolise(p, ids[0], dtMs, env).f.cells[ids[0]] == Metabolised(p.f.cells[ids[0]], dtMs, env) by {
        OneMetabolised(p, ids[0], dtMs, env);
      }
      assert ids[0] !in ids[1..];
    }
  }

  lemma OneMetabolised(p: Pass, id: NodeId, dtMs: nat, env: TickEnv)
    requires id in p.f.cells
    ensures Metabolise(p, id, dtMs, env).f.cells == p.f.cells[id := Metabolised(p.f.cells[id], dtMs, env)]
  {
  }

  /** The children of a dividing loop are numbered from the next id on. */
  ghost predicate BornFrom(born: seq<(NodeId, NodeCell)>, lo: NodeId) {
    forall b :: b in born ==> b.1.id >= lo
  }

  lemma {:induction false} DivideEach(p: Pass, ids: seq<NodeId>, variation: map<NodeId, real>, id: NodeId, lo: NodeId)
    requires Distinct(ids) && (forall o :: o in ids ==> o in p.f.cells && o in variation) && id in p.f.cells
    requires BornFrom(p.born, lo) && lo <= p.f.nextId
    ensures var q := DivideAll(p, ids, variation);
            q.f.nowMs == p.f.nowMs && BornFrom(q.born, lo) && q.f.cells.Keys == p.f.cells.Keys &&
            q.f.cells[id] == if id in ids then Split(p.f.cells[id]) else p.f.cells[id]
    decreases |ids|
  {
    if ids != [] {
      var q := Divide(p, ids[0], variation[ids[0]]);
      hide Offspring;
      DivideEach(q, ids[1..], variation, id, lo);
      assert ids[0] !in ids[1..];
    }
  }

  lemma {:induction false} GraftEach(p: Pass, born: seq<(NodeId, NodeCell)>, id: NodeId, lo: NodeId)
    requires BornFrom(born, lo) && id in p.f.cells && id < lo
    ensures var q := GraftAll(p, born);
            q.f.nowMs == p.f.nowMs && id in q.f.cells &&
            q.f.cells[id] == p.f.cells[id].(links := q.f.cells[id].links)
    decreases |born|
  {
    if born != [] {
      var q := Graft(p, born[0].0, born[0].1);
      assert q.f.cells[id] == p.f.cells[id].(links := q.f.cells[id].links) && q.f.nowMs == p.f.nowMs by {
        hide Track, Register;
        assert born[0] in born;
      }
      hide Graft;
      GraftEach(q, born[1..], id, lo);
    }
  }

  lemma {:induction false} CullEach(p: Pass, ids: seq<NodeId>, env: TickEnv, id: NodeId)
    requires Distinct(ids) && (forall o :: o in ids ==> o in p.f.cells) && id in p.f.cells
    ensures var q := CullAll(p, ids, env);
            var c := p.f.cells[id];
            q.f.cells[id] == if id in ids then SleepOrDie(c, p.f.nowMs, SleepShift(c, env)) else c
    decreases |ids|
  {
    hide SleepOrDie;
    if ids != [] {
      CullEach(Cull(p, ids[0], env), ids[1..], env, id);
      assert ids[0] !in ids[1..];
    }
  }

  /**
    A whole tick, cell by cell: whatever the visit order, an old cell is gone exactly if it died, and
    otherwise is what the four per-cell steps make of it, links aside.
   */
  lemma TickOutcome(s: Sys, dtMs: nat, env: TickEnv, order: seq<NodeId>, variation: map<NodeId, real>, id: NodeId)
    requires Enumerates(order, s.f.cells.Keys) && variation.Keys == s.f.cells.Keys
    requires id in s.f.cells && id < s.f.nextId
    ensures var t := TickAll(s, dtMs, env, order, variation).f;
            var c := Ticked(s.f.cells[id], dtMs, env, SatAdd(s.f.nowMs, dtMs));
            (id in t.cells <==> !c.state.Dead?) &&
            (id in t.cells ==> t.cells[id] == c.(links := t.cells[id].links))
  {
    var now := SatAdd(s.f.nowMs, dtMs);
    var p0 := Pass(s.f.(nowMs := now), s.log + [TickDelta(now)], [], []);
    var p1 := MetaboliseAll(p0, order, dtMs, env);
    var p2 := DivideAll(p1, order, variation);
    var p3 := GraftAll(p2, p2.born);
    var p4 := CullAll(p3, order, env);
    MetaboliseEach(p0, order, dtMs, env, id);
    DivideEach(p1, order, variation, id, s.f.nextId);
    GraftEach(p2, p2.born, id, s.f.nextId);
    CullEach(p3, order, env, id);
    BuryEachCell(p4, id);
    SameShift(p2.f.cells[id], p3.f.cells[id], now, env);
    hide Metabolised, Split, SleepOrDie, SleepShift, MetaboliseAll, DivideAll, GraftAll, CullAll, Bury;
  }

  lemma BuryEachCell(p: Pass, id: NodeId)
    requires id in p.f.cells
    ensures var t := Bury(p).f;
            (id in t.cells <==> !p.f.cells[id].state.Dead?) && (id in t.cells ==> t.cells[id] == p.f.cells[id])
  {
  }

  lemma SameShift(a: NodeCell, b: NodeCell, nowMs: nat, env: TickEnv)
    requires b == a.(links := b.links)
    ensures SleepOrDie(b, nowMs, SleepShift(b, env)) == SleepOrDie(a, nowMs, SleepShift(a, env)).(links := b.links)
  {
  }

  // ---- Energy and metabolism ----------------------------------------------

  /** Between two values, whichever is larger. */
  predicate Between(x: real, a: real, b: real) {
    a <= x <= b || b <= x <= a
  }

  /** An ordinary living cell. */
  predicate Healthy(c: NodeCell) {
    0.0 <= c.energy <= 1.0 && c.metabolism >= 0.0 && c.seed.baseMetabolism >= 0.0 && !c.state.Dead?
  }

  /** What a tick leaves of the energy: each millisecond takes 0.0003 of the metabolism, as long as there is any. */
  function Remaining(energy: real, metabolism: real, dtMs: nat): real {
    var left := energy - metabolism * (dtMs as real) * 0.0003;
    if left < 0.0 then 0.0 else left
  }

  lemma DecayIsPositive(metabolism: real, dtMs: nat)
    requires metabolism >= 0.0
    ensures metabolism * (dtMs as real) * 0.0003 >= 0.0
  {
  }

  /** The metabolism that a cell drifts towards. */
  function Base(c: NodeCell, env: TickEnv): real {
    var scale := env.metabolismScale;
    c.seed.baseMetabolism * (if scale < 0.5 then 0.5 else if scale > 1.5 then 1.5 else scale)
  }

  /** One twentieth of the way from the metabolism to the scaled base. */
  function Settled(metabolism: real, base: real): real {
    0.95 * metabolism + 0.05 * base
  }

  lemma MetabolismDrifts(c: NodeCell, dtMs: nat, env: TickEnv)
    requires Healthy(c)
    ensures var m := Metabolised(c, dtMs, env).metabolism;
            m == Settled(c.metabolism, Base(c, env)) && Between(m, c.metabolism, Base(c, env)) && m >= 0.0
  {
    assert Base(c, env) >= 0.0;
  }

  /**
    A tick costs energy. A surviving cell ends with no more energy than before: with exactly what the
    decay at its new metabolism left of it, or, if that is above 0.8 and the cell is active, with 55%
    of that. The metabolism lies between the old one and the scaled base. Affinity never jumps
    past the seed's, and nothing but links changes beside these and the state.
   */
  lemma TickDecays(s: Sys, dtMs: nat, env: TickEnv, order: seq<NodeId>, variation: map<NodeId, real>, id: NodeId)
    requires Enumerates(order, s.f.cells.Keys) && variation.Keys == s.f.cells.Keys
    requires id in s.f.cells && id < s.f.nextId && Healthy(s.f.cells[id])
    requires id in TickAll(s, dtMs, env, order, variation).f.cells
    ensures var c, d := s.f.cells[id], TickAll(s, dtMs, env, order, variation).f.cells[id];
            var left := Remaining(c.energy, d.metabolism, dtMs);
            0.0 <= d.energy <= c.energy &&
            d.metabolism == Settled(c.metabolism, Base(c, env)) && Between(d.metabolism, c.metabolism, Base(c, env)) &&
            (left <= 0.8 ==> d.energy == left) &&
            (left > 0.8 && d.state.Active? ==> d.energy == left * 0.55) &&
            (left > 0.8 && !d.state.Active? ==> d.energy == left) &&
            Between(d.affinity, c.affinity, c.seed.affinity) &&
            d == c.(energy := d.energy, metabolism := d.metabolism, affinity := d.affinity, state := d.state,
                    links := d.links)
  {
    hide TickAll, Metabolised, Ticked, DriftAffinity, Clamp, Remaining, Settled, Base;
    var c := s.f.cells[id];
    var now := SatAdd(s.f.nowMs, dtMs);
    var d := TickAll(s, dtMs, env, order, variation).f.cells[id];
    assert d == Ticked(c, dtMs, env, now).(links := d.links) by {
      TickOutcome(s, dtMs, env, order, variation, id);
    }
    MetabolismDrifts(c, dtMs, env);
    TickedEnergy(c, dtMs, env, now);
    AffinityStaysBetween(c, env.alpha);
  }

  lemma TickedEnergy(c: NodeCell, dtMs: nat, env: TickEnv, nowMs: nat)
    requires Healthy(c) && Metabolised(c, dtMs, env).metabolism >= 0.0
    ensures var m, d := Metabolised(c, dtMs, env), Ticked(c, dtMs, env, nowMs);
            var left := Remaining(c.energy, m.metabolism, dtMs);
            m.energy == left && 0.0 <= d.energy <= c.energy && d.metabolism == m.metabolism &&
            (left <= 0.8 ==> d.energy == left) &&
            (left > 0.8 && d.state.Active? ==> d.energy == left * 0.55) &&
            (left > 0.8 && !d.state.Active? ==> d.energy == left) &&
            d.affinity == DriftAffinity(c, env.alpha).affinity &&
            d == c.(energy := d.energy, metabolism := d.metabolism, affinity := d.affinity, state := d.state)
  {
    DecayIsPositive(Metabolised(c, dtMs, env).metabolism, dtMs);
  }

  /** Between the two ends of a step of `t` parts of the way. */
  lemma StepStaysBetween(a: real, b: real, t: real, step: real)
    requires 0.0 <= t <= 1.0 && step == (b - a) * t
    ensures Between(a + step, a, b)
  {
    Shrinks(b - a, t, step);
    StepBetween(a, b, step);
  }

  lemma StepBetween(a: real, b: real, step: real)
    requires if b - a >= 0.0 then 0.0 <= step <= b - a else b - a <= step <= 0.0
    ensures Between(a + step, a, b)
  {
  }

  lemma Shrinks(x: real, t: real, part: real)
    requires 0.0 <= t <= 1.0 && part == x * t
    ensures if x >= 0.0 then 0.0 <= part <= x else x <= part <= 0.0
  {
    var rest := x * (1.0 - t);
    assert rest == x - part;
    SignKept(x, t, part);
    SignKept(x, 1.0 - t, rest);
  }

  lemma SignKept(x: real, y: real, p: real)
    requires y >= 0.0 && p == x * y
    ensures if x >= 0.0 then p >= 0.0 else p <= 0.0
  {
  }

  lemma AffinityStaysBetween(c: NodeCell, drive: real)
    ensures Between(DriftAffinity(c, drive).affinity, c.affinity, c.seed.affinity)
  {
    var t := Clamp(drive * 0.05, 0.0, 0.25);
    var step := (c.seed.affinity - c.affinity) * t;
    assert DriftAffinity(c, drive).affinity == c.affinity + step;
    StepStaysBetween(c.affinity, c.seed.affinity, t, step);
    hide *;
  }

  /** The affinity closes 5% of its gap to the seed's for each unit of drive, a quarter at most. */
  lemma AffinityDrifts(c: NodeCell, drive: real)
    ensures c.seed.affinity - DriftAffinity(c, drive).affinity
            == (c.seed.affinity - c.affinity)
               * (if drive < 0.0 then 1.0 else if drive > 5.0 then 0.75 else 1.0 - drive * 0.05)
  {
    var gap, t := c.seed.affinity - c.affinity, Clamp(drive * 0.05, 0.0, 0.25);
    assert gap * (1.0 - t) == gap - gap * t;
  }

  // ---- States -------------------------------------------------------------

  /**
    The state after a tick, for every sleep shift. `k` is the shift, lowered for a tagged cell by a
    fifth of the hormone level and held within 0.2 of zero. Death needs less than 0.05 energy and
    more than six idle seconds, sleep little energy and more than three. Otherwise an active cell
    below 0.2 - k becomes idle, an idle one above 0.6 - k active, a sleeping one above 0.5 - k idle,
    and the rest stay: the outer bounds on the two waking thresholds are never reached.
   */
  lemma TickStates(s: Sys, dtMs: nat, env: TickEnv, order: seq<NodeId>, variation: map<NodeId, real>, id: NodeId)
    requires Enumerates(order, s.f.cells.Keys) && variation.Keys == s.f.cells.Keys
    requires id in s.f.cells && id < s.f.nextId && Healthy(s.f.cells[id])
    ensures var c, t := s.f.cells[id], TickAll(s, dtMs, env, order, variation).f;
            var left := Remaining(c.energy, Settled(c.metabolism, Base(c, env)), dtMs);
            var idleFor := SatSub(SatAdd(s.f.nowMs, dtMs), c.lastResponseMs);
            var k := Held(c, env);
            (id !in t.cells <==> left < 0.05 && idleFor > 6_000) &&
            (id in t.cells ==> t.cells[id].state == NextState(c.state, left, idleFor, k))
  {
    hide TickAll, Metabolised, Ticked, Between, DriftAffinity, Clamp, Held, Remaining, Settled, Base;
    var c := s.f.cells[id];
    var now := SatAdd(s.f.nowMs, dtMs);
    TickOutcome(s, dtMs, env, order, variation, id);
    MetabolismDrifts(c, dtMs, env);
    TickedEnergy(c, dtMs, env, now);
    TickedState(c, dtMs, env, now);
  }

  /** The sleep shift of a cell in effect. */
  function Held(c: NodeCell, env: TickEnv): (k: real)
    ensures -0.2 <= k <= 0.2
    ensures -0.2 <= env.sleepDelta <= 0.2 && (!c.adrenoTag || env.hormone.None?) ==> k == env.sleepDelta
  {
    var shift := if c.adrenoTag && env.hormone.Some? then env.sleepDelta - 0.2 * env.hormone.value else env.sleepDelta;
    if shift < -0.2 then -0.2 else if shift > 0.2 then 0.2 else shift
  }

  function NextState(state: NodeState, energy: real, idleMs: nat, k: real): NodeState {
    var dozy := if k > 0.14 then 0.01 else if k < -0.15 then 0.3 else 0.15 - k;
    if energy < dozy && idleMs > 3_000 then Sleep
    else
      match state
      case Active => if energy < 0.05 || energy < 0.2 - k then Idle else Active
      case Idle => if energy > 0.6 - k then Active else Idle
      case Sleep => if energy > 0.5 - k then Idle else Sleep
      case Dead => Dead
  }

  lemma TickedState(c: NodeCell, dtMs: nat, env: TickEnv, nowMs: nat)
    requires Healthy(c)
    ensures var left, idleFor := Metabolised(c, dtMs, env).energy, SatSub(nowMs, c.lastResponseMs);
            var d := Ticked(c, dtMs, env, nowMs);
            (d.state.Dead? <==> left < 0.05 && idleFor > 6_000) &&
            (!d.state.Dead? ==> d.state == NextState(c.state, left, idleFor, Held(c, env)))
  {
  }

  // ---- One impulse, cell by cell ------------------------------------------

  /** A token of the cell's own pattern occurs in the impulse: in its pattern, or as a tag in any case. */
  predicate Shares(c: NodeCell, imp: Impulse) {
    exists t :: t in Tokenize(c.seed.corePattern) &&
      (t in Tokenize(imp.pattern) || exists i :: 0 <= i < |imp.tags| && t == Lower(imp.tags[i]))
  }

  /** How far the strength is from the cell's affinity. */
  function Gap(c: NodeCell, imp: Impulse): real {
    if imp.strength < c.affinity then c.affinity - imp.strength else imp.strength - c.affinity
  }

  /** Who responds, and what recalls: a shared token or an affinity near enough. */
  predicate Hears(c: NodeCell, imp: Impulse) {
    Shares(c, imp) || Gap(c, imp) < 0.55
  }

  predicate Recalls(c: NodeCell, imp: Impulse) {
    Shares(c, imp) || Gap(c, imp) <= 0.4
  }

  /** A cell that responds. */
  predicate Responds(c: NodeCell, imp: Impulse) {
    !c.state.Dead? && Hears(c, imp)
  }

  /** The value `x` moved by `step` and held in the unit interval. */
  function Moved(x: real, step: real): real {
    if x + step < 0.0 then 0.0 else if x + step > 1.0 then 1.0 else x + step
  }

  lemma MatchMeans(c: NodeCell, imp: Impulse)
    ensures var m := PatternMatch(c.affinity, c.seed.corePattern, imp);
            (m.Some? <==> Hears(c, imp)) && (m.Some? ==> (m.value >= 0.6 <==> Recalls(c, imp)))
  {
    var words := Tokenize(imp.pattern) + LowerAll(imp.tags);
    forall t
      ensures t in words <==>
              t in Tokenize(imp.pattern) || exists i :: 0 <= i < |imp.tags| && t == Lower(imp.tags[i])
    {
      LoweredAre(imp.tags, t);
    }
  }

  lemma LoweredAre(words: seq<string>, t: string)
    ensures t in LowerAll(words) <==> exists i :: 0 <= i < |words| && t == Lower(words[i])
  {
    if i :| 0 <= i < |words| && t == Lower(words[i]) {
      assert LowerAll(words)[i] == t;
    }
  }

  /**
    Routing an impulse to the cells `top` journals exactly those of them that hear it, and changes
    no other cell. A dead cell stays as it is, a living one that hears nothing pays 0.01 energy, and
    one that responds keeps everything but state, energy, salience and the two time stamps.
   */
  lemma ImpulseOutcome(cells: CellMap, top: seq<NodeId>, imp: Impulse, nowMs: nat, id: NodeId)
    requires id in cells && forall o :: o in top ==> o in cells
    ensures var c, d := cells[id], Stirred(cells, top, imp, nowMs)[id];
            (id in Responders(cells, top, imp, nowMs) <==> id in top && !c.state.Dead? && Hears(c, imp)) &&
            (id !in top || c.state.Dead? ==> d == c) &&
            (id in top && !c.state.Dead? && !Hears(c, imp) ==> d == c.(energy := Moved(c.energy, -0.01))) &&
            (id in top && !c.state.Dead? && Hears(c, imp) ==>
              d == c.(state := d.state, energy := d.energy, salience := d.salience, lastResponseMs := nowMs,
                      lastRecallMs := d.lastRecallMs))
  {
    MatchMeans(cells[id], imp);
    RespondersAre(cells, top, imp, nowMs, id);
    AfterImpulseKeeps(cells[id], imp, nowMs);
    hide Tokenize, PatternMatch, Hears, Absorb, AfterImpulse;
  }

  lemma AfterImpulseKeeps(c: NodeCell, imp: Impulse, nowMs: nat)
    ensures var d := AfterImpulse(c, imp, nowMs);
            if Responds(c, imp) then
              d == c.(state := d.state, energy := d.energy, salience := d.salience, lastResponseMs := nowMs,
                      lastRecallMs := d.lastRecallMs)
            else d == if c.state.Dead? then c else c.(energy := Moved(c.energy, -0.01))
  {
    MatchMeans(c, imp);
    hide Hears, PatternMatch;
  }


  lemma {:induction false} RespondersAre(cells: CellMap, top: seq<NodeId>, imp: Impulse, nowMs: nat, id: NodeId)
    requires id in cells && forall o :: o in top ==> o in cells
    ensures id in Responders(cells, top, imp, nowMs) <==> id in top && Ingest(cells[id], imp, nowMs).responded
    decreases |top|
  {
    hide Ingest;
    if top != [] {
      RespondersAre(cells, top[1..], imp, nowMs, id);
    }
  }

  /**
    A query costs energy in proportion to its strength, wakes a sleeper when it is strong, and stamps
    the recall of a close match, which a tagged cell also feels.
   */
  lemma QueryOutcome(c: NodeCell, imp: Impulse, nowMs: nat)
    requires Responds(c, imp) && imp.kind.Query?
    ensures var d := AfterImpulse(c, imp, nowMs);
            d.energy == Moved(c.energy, -0.05 * imp.strength) &&
            d.state == (if c.state.Sleep? && imp.strength > 0.6 then Idle else c.state) &&
            d.lastRecallMs == (if Recalls(c, imp) then nowMs else c.lastRecallMs) &&
            d.salience == if Recalls(c, imp) && c.adrenoTag then Moved(c.salience, 0.05) else c.salience
  {
    MatchMeans(c, imp);
    hide Hears, Recalls, PatternMatch;
  }

  /** A write gives energy in proportion to its strength and makes the cell active. */
  lemma WriteOutcome(c: NodeCell, imp: Impulse, nowMs: nat)
    requires Responds(c, imp) && imp.kind.Write?
    ensures var d := AfterImpulse(c, imp, nowMs);
            d.energy == Moved(c.energy, 0.08 * imp.strength) && d.state == Active &&
            d.salience == c.salience && d.lastRecallMs == c.lastRecallMs
  {
    MatchMeans(c, imp);
    hide Hears, PatternMatch;
  }

  /**
    A feeling gives energy above strength 0.4 and takes it below, makes the cell active when strong
    and idle when weak, and raises the salience of a close match by 15% of its strength when its
    pattern is marked as a feeling.
   */
  lemma AffectOutcome(c: NodeCell, imp: Impulse, nowMs: nat)
    requires Responds(c, imp) && imp.kind.Affect?
    ensures var d := AfterImpulse(c, imp, nowMs);
            d.energy == Moved(c.energy, 0.05 * (imp.strength - 0.4)) && d.lastRecallMs == c.lastRecallMs &&
            d.state == (if imp.strength > 0.8 then Active else if imp.strength < 0.3 then Idle else c.state) &&
            d.salience ==
              if Recalls(c, imp) && |imp.pattern| >= 7 && imp.pattern[..7] == "affect/"
              then Moved(c.salience, 0.15 * imp.strength) else c.salience
  {
    MatchMeans(c, imp);
    hide Hears, Recalls, PatternMatch;
  }

  // ---- Who is picked ------------------------------------------------------

  /** How lively a cell is. */
  function Rank(c: NodeCell): nat {
    match c.state
    case Active => 3
    case Idle => 2
    case Sleep => 1
    case Dead => 0
  }

  /** The closeness as scored: from 0.6 on it counts times the affinity scale. */
  function Lift(gap: real, scale: real): real {
    if gap < 0.4 then (1.0 - gap) * Clamp(scale, 0.5, 1.5) else 1.0 - gap
  }

  /** The bonus of each state, the least lively first. */
  const BONUS: seq<real> := [-1.0, -0.4, 0.0, 0.2]

  /** The score of a cell in numbers: its closeness as scored, plus the bonus of its state. */
  lemma ScoreMeans(c: NodeCell, imp: Impulse, scale: real)
    ensures ScoreCell(c, imp, scale) == Lift(Gap(c, imp), scale) + BONUS[Rank(c)]
  {
    assert 1.0 - Abs(c.affinity - imp.strength) == 1.0 - Gap(c, imp);
  }

  /** The active hormone raises the scale of a tagged cell by a quarter of its level, and of no other. */
  lemma ScaleMeans(c: NodeCell, mood: Mood)
    ensures var level := if mood.hormone.Some? then mood.hormone.value else 0.0;
            AffinityScale(c, mood) - mood.affinityScale == if c.adrenoTag then level / 4.0 * mood.affinityScale else 0.0
  {
  }

  lemma Stretches(x: real, y: real, k: real)
    requires x >= y && k >= 1.0
    ensures x * k >= y * k && (x > y ==> x * k > y * k) && (x >= 0.0 ==> x * k >= x)
  {
    assert (x - y) * k == x * k - y * k;
    assert x * (k - 1.0) == x * k - x;
  }

  /** The closeness as scored falls with the gap. */
  lemma LiftFalls(near: real, far: real, scale: real)
    requires near <= far && scale >= 1.0
    ensures Lift(near, scale) >= Lift(far, scale) && (near < far ==> Lift(near, scale) > Lift(far, scale))
  {
    var x, y, k := 1.0 - near, 1.0 - far, Clamp(scale, 0.5, 1.5);
    Stretches(x, y, k);
    LiftIs(near, scale, k, x * k);
    LiftIs(far, scale, k, y * k);
    hide *;
  }

  lemma LiftIs(gap: real, scale: real, k: real, product: real)
    requires k == Clamp(scale, 0.5, 1.5) && product == (1.0 - gap) * k
    ensures Lift(gap, scale) == if gap < 0.4 then product else 1.0 - gap
  {
  }

  /** Of two cells in the same state the closer one scores higher, and of two equally close the livelier. */
  predicate RanksRight(a: NodeCell, b: NodeCell, imp: Impulse, scale: real) {
    (Gap(a, imp) <= Gap(b, imp) && Rank(a) >= Rank(b) ==> ScoreCell(a, imp, scale) >= ScoreCell(b, imp, scale)) &&
    (Gap(a, imp) < Gap(b, imp) && Rank(a) >= Rank(b) ==> ScoreCell(a, imp, scale) > ScoreCell(b, imp, scale)) &&
    (Gap(a, imp) <= Gap(b, imp) && Rank(a) > Rank(b) ==> ScoreCell(a, imp, scale) > ScoreCell(b, imp, scale))
  }

  lemma CloserScoresHigher(a: NodeCell, b: NodeCell, imp: Impulse, scale: real)
    requires scale >= 1.0
    ensures RanksRight(a, b, imp, scale)
  {
    ScoreMeans(a, imp, scale);
    ScoreMeans(b, imp, scale);
    if Gap(a, imp) <= Gap(b, imp) {
      LiftFalls(Gap(a, imp), Gap(b, imp), scale);
    }
    hide Lift, ScoreCell, Gap;
  }

  /** Below 1.0 the scale turns the order around at closeness 0.6. */
  lemma LowScaleInverts(scale: real) returns (a: NodeCell, b: NodeCell, imp: Impulse)
    requires scale < 1.0
    ensures !RanksRight(a, b, imp, scale)
  {
    var k := Clamp(scale, 0.5, 1.5);
    imp := Impulse(Query, "", 0.0, 0, []);
    a := FromSeed(1, SeedParams(0.4 - 0.3 * (1.0 - k), 1.0, ""));
    b := FromSeed(2, SeedParams(0.4, 1.0, ""));
    var x := 0.6 + 0.3 * (1.0 - k);
    assert x * k == 0.6 - (1.0 - k) * (0.6 - 0.3 * k);
  }

  /** Scores follow closeness and liveliness exactly when the scale is at least 1.0. */
  lemma RanksRightIff(scale: real)
    ensures (forall a, b, imp :: RanksRight(a, b, imp, scale)) <==> scale >= 1.0
  {
    if scale >= 1.0 {
      forall a, b, imp ensures RanksRight(a, b, imp, scale) {
        CloserScoresHigher(a, b, imp, scale);
      }
    } else {
      var a, b, imp := LowScaleInverts(scale);
    }
  }

  /**
    Who takes an impulse in: without route bias and at a scale of at least 1.0, no candidate that is
    left out is both closer than a picked one and no less lively.
   */
  lemma PickedAreBest(cells: CellMap, pool: set<NodeId>, top: seq<NodeId>, imp: Impulse, mood: Mood, id: NodeId,
                      o: NodeId)
    requires pool <= cells.Keys && TopThree(top, pool, RouteScores(cells, imp, mood))
    requires mood.routeBias == map[] && mood.hormone.None? && mood.affinityScale >= 1.0
    requires id in top && o in pool && o !in top
    ensures !(Gap(cells[o], imp) < Gap(cells[id], imp) && Rank(cells[o]) >= Rank(cells[id]))
    ensures !(Gap(cells[o], imp) <= Gap(cells[id], imp) && Rank(cells[o]) > Rank(cells[id]))
  {
    CloserScoresHigher(cells[o], cells[id], imp, mood.affinityScale);
    NoBias(Tokenize(imp.pattern), id);
    NoBias(Tokenize(imp.pattern), o);
    hide ScoreCell, Gap, Rank, BestBias, Tokenize;
  }

  lemma NoBias(tokens: seq<string>, id: NodeId)
    ensures BestBias(map[], tokens, id) == 1.0
  {
  }

  // ---- New cells ----------------------------------------------------------

  /** A child as its parent stood when it divided: rested at energy 0.45, half as salient, named after both. */
  predicate ChildOf(child: NodeCell, parent: NodeCell, nowMs: nat) {
    child.seed.corePattern == parent.seed.corePattern + ":n" + Decimal(child.id) &&
    child.seed.baseMetabolism == parent.seed.baseMetabolism &&
    child.metabolism == 0.5 * parent.metabolism + 0.5 * parent.seed.baseMetabolism &&
    0.0 <= child.affinity <= 1.0 && child.seed.affinity == child.affinity &&
    child.energy == 0.45 && child.state.Idle? && child.links == {} && child.lastResponseMs == nowMs &&
    (0.0 <= parent.salience <= 1.0 ==> child.salience == 0.5 * parent.salience) &&
    child.adrenoTag == parent.adrenoTag && child.lastRecallMs == parent.lastRecallMs
  }

  /** The children of cells listed in `ids`, numbered upwards from `lo` to below `hi`. */
  ghost predicate Births(born: seq<(NodeId, NodeCell)>, ids: set<NodeId>, cells: CellMap, lo: NodeId, hi: NodeId,
                         nowMs: nat)
  {
    (forall b :: b in born ==>
      b.0 in ids && b.0 in cells && lo <= b.1.id < hi && cells[b.0].state.Active? && cells[b.0].energy > 0.8 &&
      ChildOf(b.1, cells[b.0], nowMs)) &&
    (forall i, j :: 0 <= i < j < |born| ==> born[i].1.id < born[j].1.id)
  }

  lemma {:induction false} DivideBirths(p: Pass, ids: seq<NodeId>, variation: map<NodeId, real>, cells: CellMap,
                                        lo: NodeId)
    requires Distinct(ids) && (forall o :: o in ids ==> o in p.f.cells && o in variation && o in cells)
    requires forall o :: o in ids ==> p.f.cells[o] == cells[o]
    requires Births(p.born, cells.Keys, cells, lo, p.f.nextId, p.f.nowMs) && lo <= p.f.nextId
    ensures var q := DivideAll(p, ids, variation);
            Births(q.born, cells.Keys, cells, lo, q.f.nextId, p.f.nowMs) && q.f.nowMs == p.f.nowMs
    decreases |ids|
  {
    if ids != [] {
      var q := Divide(p, ids[0], variation[ids[0]]);
      OneBirth(p, ids[0], variation[ids[0]], cells, lo);
      assert ids[0] !in ids[1..];
      assert forall o :: o in ids[1..] ==> q.f.cells[o] == cells[o];
      hide Births, Divide;
      DivideBirths(q, ids[1..], variation, cells, lo);
    }
  }

  lemma OneBirth(p: Pass, id: NodeId, variation: real, cells: CellMap, lo: NodeId)
    requires id in p.f.cells && id in cells && p.f.cells[id] == cells[id]
    requires Births(p.born, cells.Keys, cells, lo, p.f.nextId, p.f.nowMs) && lo <= p.f.nextId
    ensures var q := Divide(p, id, variation);
            Births(q.born, cells.Keys, cells, lo, q.f.nextId, p.f.nowMs) && q.f.nowMs == p.f.nowMs &&
            lo <= q.f.nextId && q.f.cells.Keys == p.f.cells.Keys &&
            forall o :: o in p.f.cells && o != id ==> q.f.cells[o] == p.f.cells[o]
  {
    if Divides(cells[id]) {
      var child := Named(Offspring(cells[id], variation), p.f.nextId, p.f.nowMs);
      assert ChildOf(child, cells[id], p.f.nowMs);
      hide ChildOf, Offspring, Named, Halved, Divides;
    }
  }

  lemma {:induction false} GraftLeaves(p: Pass, born: seq<(NodeId, NodeCell)>, id: NodeId)
    requires id in p.f.cells && forall b :: b in born ==> b.0 != id && b.1.id != id
    ensures GraftAll(p, born).f.cells[id] == p.f.cells[id]
    decreases |born|
  {
    if born != [] {
      assert born[0] in born;
      GraftLeaves(Graft(p, born[0].0, born[0].1), born[1..], id);
    }
  }

  lemma {:induction false} GraftBirths(p: Pass, born: seq<(NodeId, NodeCell)>, id: NodeId)
    requires id !in p.f.cells && id in GraftAll(p, born).f.cells
    requires forall i, j :: 0 <= i < j < |born| ==> born[i].1.id < born[j].1.id
    requires forall b, d :: b in born && d in born ==> b.0 != d.1.id
    ensures exists b :: b in born && b.1.id == id && GraftAll(p, born).f.cells[id] == b.1
    decreases |born|
  {
    if born != [] {
      var q := Graft(p, born[0].0, born[0].1);
      assert born[0] in born;
      if born[0].1.id == id {
        forall b | b in born[1..] ensures b.0 != id && b.1.id != id {
          assert b in born;
        }
        GraftLeaves(q, born[1..], id);
      } else {
        GraftBirths(q, born[1..], id);
      }
    }
  }

  /**
    Every new cell after a tick is the child of an old one that was active with more than 0.8 energy
    once it had metabolised. Its id is fresh.
   */
  lemma TickBirths(s: Sys, dtMs: nat, env: TickEnv, order: seq<NodeId>, variation: map<NodeId, real>, id: NodeId)
    returns (parent: NodeId, grown: NodeCell)
    requires Enumerates(order, s.f.cells.Keys) && variation.Keys == s.f.cells.Keys
    requires forall o :: o in s.f.cells ==> o < s.f.nextId
    requires id !in s.f.cells && id in TickAll(s, dtMs, env, order, variation).f.cells
    ensures parent in s.f.cells && grown.state.Active? && grown.energy > 0.8 && id >= s.f.nextId
    ensures grown == s.f.cells[parent].(energy := grown.energy, metabolism := grown.metabolism,
                                        affinity := grown.affinity, state := Active)
    ensures ChildOf(TickAll(s, dtMs, env, order, variation).f.cells[id], grown, SatAdd(s.f.nowMs, dtMs))
  {
    var now := SatAdd(s.f.nowMs, dtMs);
    var p0 := Pass(s.f.(nowMs := now), s.log + [TickDelta(now)], [], []);
    var p1 := MetaboliseAll(p0, order, dtMs, env);
    MetabolisedAll(p0, order, dtMs, env);
    var p2 := DivideAll(p1, order, variation);
    var p4 := CullAll(GraftAll(p2, p2.born), order, env);
    assert TickAll(s, dtMs, env, order, variation) == Bury(p4);
    hide TickAll, Metabolised, MetaboliseAll, DivideAll, GraftAll, CullAll, Bury, ChildOf;
    parent := BornLast(p1, order, variation, env, id, s.f.nextId);
    grown := p1.f.cells[parent];
    MetaboliseEach(p0, order, dtMs, env, parent);
    MetabolisedKeeps(s.f.cells[parent], dtMs, env);
  }

  /** The part of a tick after metabolism: what is new then was born in it. */
  lemma BornLast(p1: Pass, order: seq<NodeId>, variation: map<NodeId, real>, env: TickEnv, id: NodeId, lo: NodeId)
    returns (parent: NodeId)
    requires Enumerates(order, p1.f.cells.Keys) && variation.Keys == p1.f.cells.Keys && p1.born == []
    requires (forall o :: o in p1.f.cells ==> o < lo) && p1.f.nextId == lo && id !in p1.f.cells
    requires var p2 := DivideAll(p1, order, variation); id in Bury(CullAll(GraftAll(p2, p2.born), order, env)).f.cells
    ensures parent in p1.f.cells && p1.f.cells[parent].state.Active? && p1.f.cells[parent].energy > 0.8 && id >= lo
    ensures var p2 := DivideAll(p1, order, variation);
            ChildOf(Bury(CullAll(GraftAll(p2, p2.born), order, env)).f.cells[id], p1.f.cells[parent], p1.f.nowMs)
  {
    var p2 := DivideAll(p1, order, variation);
    DivideBirths(p1, order, variation, p1.f.cells, lo);
    var p3 := GraftAll(p2, p2.born);
    var p4 := CullAll(p3, order, env);
    BuriedWas(p4, id);
    GraftBirths(p2, p2.born, id);
    var b :| b in p2.born && b.1.id == id && p3.f.cells[id] == b.1;
    parent := b.0;
    CullEach(p3, order, env, id);
    BuryEachCell(p4, id);
    hide DivideAll, GraftAll, CullAll, Bury, ChildOf;
  }

  lemma MetabolisedAll(p: Pass, ids: seq<NodeId>, dtMs: nat, env: TickEnv)
    requires Distinct(ids) && forall o :: o in ids ==> o in p.f.cells
    ensures var q := MetaboliseAll(p, ids, dtMs, env);
            q.f == p.f.(cells := q.f.cells) && q.born == p.born
  {
    if id :| id in p.f.cells {
      MetaboliseEach(p, ids, dtMs, env, id);
    }
  }

  lemma BuriedWas(p: Pass, id: NodeId)
    requires id in Bury(p).f.cells
    ensures id in p.f.cells
  {
  }

  lemma MetabolisedKeeps(c: NodeCell, dtMs: nat, env: TickEnv)
    ensures var d := Metabolised(c, dtMs, env);
            d == c.(energy := d.energy, metabolism := d.metabolism, affinity := d.affinity, state := d.state)
  {
  }

  /** What is known of a cell grown from seed parameters: affinity and metabolism of the seed, energy 0.6. */
  lemma AddedCell(s: Sys, seed: SeedParams)
    ensures var id, t := s.f.nextId, AddCell(s, seed);
            id in t.f.cells && t.f.nextId == id + 1 && t.f.cells - {id} == s.f.cells - {id} &&
            t.f.cells[id] == NodeCell(id, seed, Active, {}, seed.baseMetabolism, seed.affinity, 0, 0.6, 0.0, false, 0)
  {
  }

  // ---- A trim, cell by cell -----------------------------------------------

  /**
    A trim removes a cell exactly when it is dead, or neither tagged nor at salience 0.7 and left with
    at most 0.1 energy: the tosses that kill decide nothing. A survivor at most falls asleep, and only
    an unprotected active one of salience below 0.2 that recalled nothing for a minute.
   */
  lemma TrimOutcome(s: Sys, naps: set<NodeId>, kills: set<NodeId>, order: seq<NodeId>, id: NodeId)
    ensures var t := Trim(s, naps, kills, order).f;
            (id in t.cells ==> id in s.f.cells) &&
            (id in s.f.cells ==>
              var c := s.f.cells[id];
              (id in t.cells <==> !c.state.Dead? && (c.adrenoTag || c.salience >= 0.7 || c.energy > 0.1))) &&
            (id in t.cells ==>
              var c := s.f.cells[id];
              var drowsy := !c.adrenoTag && c.salience < 0.2 && SatSub(s.f.nowMs, c.lastRecallMs) > 60_000;
              t.cells[id] == c.(state := if drowsy && c.state.Active? && id in naps then Sleep else c.state))
  {
    BuryEachKeepsCells(Sys(Trim(s, naps, kills, []).f, s.log), order);
  }

  lemma {:induction false} BuryEachKeepsCells(s: Sys, victims: seq<NodeId>)
    ensures BuryEach(s, victims).f.cells == s.f.cells
    decreases |victims|
  {
    if victims != [] {
      BuryEachKeepsCells(Sys(s.f.(scores := Purge(s.f.scores, victims[0])), s.log + [DeadDelta(victims[0])]),
                         victims[1..]);
    }
  }

  // ---- The affinity a recovery restores -----------------------------------

  /** The affinity one delta journals for the cell, and the one it gives the cell's seed. */
  function Journalled(d: EventDelta, id: NodeId): Option<(real, real)> {
    match d
    case SpawnDelta(snap) => if snap.id == id then Some((snap.affinity, snap.seedAffinity)) else None
    case DivideDelta(_, snap) => if snap.id == id then Some((snap.affinity, snap.seedAffinity)) else None
    case AffinityDelta(o, affinity) => if o == id then Some((affinity, affinity)) else None
    case _ => None
  }

  /** Entry `i` journals the cell's affinity and its seed's, and no later entry journals one. */
  predicate LastAt(log: seq<EventDelta>, id: NodeId, i: nat, c: NodeCell) {
    i < |log| && Journalled(log[i], id) == Some((c.affinity, c.seed.affinity)) &&
    forall j :: i < j < |log| ==> Journalled(log[j], id).None?
  }

  /** Every cell that recovery brings back has the affinity journalled last for it, from any log. */
  lemma {:induction false} RecoveredAffinity(log: seq<EventDelta>, id: NodeId)
    requires id in Replay(log).cells
    ensures exists i :: LastAt(log, id, i, Replay(log).cells[id])
  {
    var before, d := log[..|log| - 1], log[|log| - 1];
    if Journalled(d, id).Some? {
      assert LastAt(log, id, |log| - 1, Replay(log).cells[id]);
    } else {
      ApplyKeepsAffinity(Replay(before), d, id);
      RecoveredAffinity(before, id);
      var i :| LastAt(before, id, i, Replay(before).cells[id]);
      assert LastAt(log, id, i, Replay(log).cells[id]);
    }
  }

  lemma ApplyKeepsAffinity(f: Field, d: EventDelta, id: NodeId)
    requires id in Apply(f, d).cells && Journalled(d, id).None?
    ensures id in f.cells && Apply(f, d).cells[id].affinity == f.cells[id].affinity
    ensures Apply(f, d).cells[id].seed.affinity == f.cells[id].seed.affinity
  {
  }

  // ---- Alignment of a group -----------------------------------------------

  /** A group's centroid lies within any bounds on its live members' affinities. */
  lemma CentroidWithin(cells: CellMap, nodes: seq<NodeId>, lo: real, hi: real)
    requires forall id :: id in nodes && id in cells ==> lo <= cells[id].affinity <= hi
    requires exists id :: id in nodes && id in cells
    ensures lo <= Centroid(cells, nodes) <= hi
  {
    SumWithin(cells, nodes, lo, hi);
    SomeLive(cells, nodes);
    var n, sum := CountLive(cells, nodes) as real, SumAffinity(cells, nodes);
    QuotientWithin(sum, n, lo, hi);
  }

  lemma QuotientWithin(sum: real, n: real, lo: real, hi: real)
    requires n > 0.0 && n * lo <= sum <= n * hi
    ensures lo <= sum / n <= hi
  {
    var q := sum / n;
    assert q * n == sum;
    NotNegative(n, q - lo);
    NotNegative(n, hi - q);
  }

  lemma NotNegative(n: real, y: real)
    requires n > 0.0 && n * y >= 0.0
    ensures y >= 0.0
  {
  }

  lemma {:induction false} SumWithin(cells: CellMap, nodes: seq<NodeId>, lo: real, hi: real)
    requires forall id :: id in nodes && id in cells ==> lo <= cells[id].affinity <= hi
    ensures Times(CountLive(cells, nodes), lo) <= SumAffinity(cells, nodes) <= Times(CountLive(cells, nodes), hi)
  {
    hide Times;
    if nodes == [] {
      NoTimes(lo);
      NoTimes(hi);
    } else {
      SumWithin(cells, nodes[1..], lo, hi);
      MoreTimes(CountLive(cells, nodes[1..]), lo);
      MoreTimes(CountLive(cells, nodes[1..]), hi);
    }
  }

  function Times(n: nat, x: real): real {
    n as real * x
  }

  lemma NoTimes(x: real)
    ensures Times(0, x) == 0.0
  {
  }

  lemma MoreTimes(n: nat, x: real)
    ensures Times(n + 1, x) == Times(n, x) + x
  {
  }

  lemma {:induction false} SomeLive(cells: CellMap, nodes: seq<NodeId>)
    requires exists id :: id in nodes && id in cells
    ensures CountLive(cells, nodes) > 0
  {
    if nodes[0] !in cells {
      SomeLive(cells, nodes[1..]);
    }
  }

  /** Aligning a cell closes 8% of its gap to the centroid, unless the gap is at most 0.002. */
  lemma AlignmentCloses(c: NodeCell, centroid: real, weight: real)
    requires 0.0 <= c.affinity <= 1.0 && 0.0 <= centroid <= 1.0
    ensures var d, gap := AlignCell(c, centroid, weight), centroid - c.affinity;
            d == c.(affinity := d.affinity, metabolism := d.metabolism) &&
            centroid - d.affinity == if -0.002 <= gap <= 0.002 then gap else 0.92 * gap
  {
  }

  /**
    A cell that is neither salient nor tagged also changes its metabolism by a twentieth of the weight:
    down if the centroid is below its affinity, and up otherwise.
   */
  lemma AlignmentPaces(c: NodeCell, centroid: real, weight: real)
    ensures var m := AlignCell(c, centroid, weight).metabolism;
            (c.salience >= 0.6 || c.adrenoTag ==> m == c.metabolism) &&
            (c.salience < 0.6 && !c.adrenoTag && centroid < c.affinity ==>
              m == Clamp(c.metabolism * (1.0 - weight * 0.05), 0.05, 5.0)) &&
            (c.salience < 0.6 && !c.adrenoTag && centroid >= c.affinity ==>
              m == Clamp(c.metabolism * (1.0 + weight * 0.05), 0.05, 5.0))
  {
    assert centroid - c.affinity < 0.0 <==> centroid < c.affinity;
    hide Clamp;
  }

  /** A cell that a lonely one may be linked to: no other cell has an affinity closer to its own. */
  lemma NearestMeans(f: Field, id: NodeId, target: NodeId, o: NodeId)
    requires id in f.cells && Nearest(f, id, target) && o in f.cells && o != id
    ensures target in f.cells && target != id &&
            var gap := f.cells[target].affinity - f.cells[id].affinity;
            var other := f.cells[o].affinity - f.cells[id].affinity;
            -other <= gap <= other || other <= gap <= -other
  {
    assert Distance(f, id, target) <= Distance(f, id, o);
  }

  // ---- Tokens -------------------------------------------------------------

  /** A separator splits a pattern for good: the pieces on both sides are read on their own. */
  lemma SeparatorSplits(a: string, sep: char, b: string)
    requires sep == '/' || sep == ':' || sep == '.'
    ensures Tokenize(a + [sep] + b) == Tokenize(a) + Tokenize(b)
  {
    SplitAt(a, sep, b, "");
  }

  lemma {:induction false} SplitAt(a: string, sep: char, b: string, word: string)
    requires IsSeparator(sep)
    ensures SplitTokens(a + [sep] + b, word) == SplitTokens(a, word) + SplitTokens(b, "")
    decreases |a|
  {
    if a == "" {
      assert ([sep] + b)[1..] == b && a + [sep] + b == [sep] + b;
    } else {
      assert (a + [sep] + b)[1..] == a[1..] + [sep] + b;
      SplitAt(a[1..], sep, b, if IsSeparator(a[0]) then "" else word + [LowerChar(a[0])]);
    }
  }

  /** A piece without separators is one token, in lower case, and nothing at all if it is empty. */
  lemma WordIsToken(word: string)
    requires '/' !in word && ':' !in word && '.' !in word
    ensures Tokenize(word) == if word == "" then [] else [Lower(word)]
  {
    WordGrows(word, "");
    assert "" + Lower(word) == Lower(word);
  }

  lemma {:induction false} WordGrows(input: string, word: string)
    requires '/' !in input && ':' !in input && '.' !in input
    ensures SplitTokens(input, word) == Flush(word + Lower(input))
    decreases |input|
  {
    if input == "" {
      assert word + Lower(input) == word;
    } else {
      var longer := word + [LowerChar(input[0])];
      WordGrows(input[1..], longer);
      assert longer + Lower(input[1..]) == word + Lower(input);
    }
  }
}
