/** One dream cycle over the live field: budget, protection and no double adjustment (dream_engine.rs). */
module DreamEngine {
  import opened Basics
  import opened Cells
  import opened FieldModel
  import opened FieldInvariant
  import opened LiveField
  import opened Sorting
  import opened Synchrony

  datatype DreamConfig = DreamConfig(
    strengthenTopPct: real,
    weakenBottomPct: real,
    protectSalience: real,
    adrenoProtect: bool,
    maxOpsPerCycle: nat)

  datatype DreamReport = DreamReport(strengthened: nat, weakened: nat, pruned: nat, protected: nat, rewired: nat)

  function Ops(r: DreamReport): nat {
    r.strengthened + r.weakened + r.pruned + r.rewired
  }

  const STRENGTHEN_STEP: real := 0.15
  const WEAKEN_STEP: real := -0.2
  const PRUNE_AT: real := 0.25

  predicate Shielded(cells: CellMap, id: NodeId, cfg: DreamConfig) {
    id in cells && (cells[id].salience >= cfg.protectSalience || (cfg.adrenoProtect && cells[id].adrenoTag))
  }

  predicate ShouldProtect(cells: CellMap, u: NodeId, v: NodeId, cfg: DreamConfig) {
    Shielded(cells, u, cfg) || Shielded(cells, v, cfg)
  }

  function PickDirection(cells: CellMap, a: NodeId, b: NodeId): Option<Edge> {
    if a in cells && b in cells[a].links then Some(Edge(a, b))
    else if b in cells && a in cells[b].links then Some(Edge(b, a))
    else None
  }

  /** `round()` and `clamp` of a share of the pairs. */
  function ShareOf(total: nat, pct: real): (n: nat)
    ensures n <= total
  {
    var rounded := ((total as real) * pct + 0.5).Floor;
    if rounded < 0 then 0 else if rounded > total then total else rounded
  }

  function Rarest(p: PairStat): real {
    p.freq
  }

  function MostFrequent(p: PairStat): real {
    -p.freq
  }

  // ---- What a cycle may do to the field -----------------------------------

  /** An unordered pair of nodes. */
  function Key(e: Edge): (NodeId, NodeId) {
    if e.from < e.to then (e.from, e.to) else (e.to, e.from)
  }

  type Touched = set<(NodeId, NodeId)>

  /** What protection means: a known cell is fair game only below the salience limit, and untagged if tags count. */
  ghost predicate Free(cells: CellMap, id: NodeId, cfg: DreamConfig) {
    id in cells ==> cells[id].salience < cfg.protectSalience && (cfg.adrenoProtect ==> !cells[id].adrenoTag)
  }

  ghost predicate BothFree(cells: CellMap, u: NodeId, v: NodeId, cfg: DreamConfig) {
    Free(cells, u, cfg) && Free(cells, v, cfg)
  }

  lemma ProtectMeans(cells: CellMap, u: NodeId, v: NodeId, cfg: DreamConfig)
    ensures ShouldProtect(cells, u, v, cfg) <==> !BothFree(cells, u, v, cfg)
  {
  }

  /** The unprotected pairs among the entries. */
  ghost function Eligible(cells: CellMap, entries: seq<PairStat>, cfg: DreamConfig): Touched {
    set p | p in entries && BothFree(cells, p.u, p.v, cfg) :: (p.u, p.v)
  }

  function Weakened(score: real): real {
    Clamp(score + WEAKEN_STEP, MIN_SCORE, MAX_SCORE)
  }

  ghost predicate Intact(was: Field, now: Field, e: Edge) {
    Linked(now, e) && Score(now.scores, e) == Score(was.scores, e)
  }

  /** Weakening a link at this score really moves it, and to where it is pruned. */
  predicate Due(score: real) {
    Weakened(score) <= PRUNE_AT && Abs(Weakened(score) - score) > EPSILON
  }

  /** Lowered once: still linked at the lower score, or pruned when that was due and perhaps rewired afresh. */
  ghost predicate Lowered(was: Field, now: Field, e: Edge) {
    var prior, after := Score(was.scores, e), Score(now.scores, e);
    if Linked(now, e) then after == Weakened(prior) || (Due(prior) && after == 1.0) else Due(prior)
  }

  /** A link of this cycle that was lowered in it. */
  ghost predicate NewAndLowered(was: Field, now: Field, e: Edge) {
    !Linked(was, e) && Linked(now, e) && Score(now.scores, e) == Weakened(1.0)
  }

  /**
    What becomes of a link. A pair in `up` had its picked direction raised once. A pair in `down`
    had one direction lowered once: the one picked before the cycle, unless the cycle itself linked
    the direction that is tried first. Every other link is intact, and a link that is new starts at 1.0.
   */
  ghost predicate EdgeFate(was: Field, now: Field, up: Touched, down: Touched, e: Edge) {
    var k := Key(e);
    var first := Edge(k.0, k.1);
    if !Linked(was, e) then
      Linked(now, e) ==> Score(now.scores, e) == 1.0 || (k in down && NewAndLowered(was, now, e))
    else if k in up then
      if PickDirection(was.cells, k.0, k.1) == Some(e)
      then Linked(now, e) && Score(now.scores, e) == Adjusted(was, e, STRENGTHEN_STEP)
      else Intact(was, now, e)
    else if k in down then
      if PickDirection(was.cells, k.0, k.1) == Some(e)
      then Lowered(was, now, e) || (Intact(was, now, e) && NewAndLowered(was, now, first))
      else Intact(was, now, e)
    else Intact(was, now, e)
  }

  /** A cell rewired by the cycle: an end of a lowered pair, left with one link, to a nearest cell. */
  ghost predicate Rewired(was: Field, links: set<NodeId>, down: Touched, id: NodeId)
    requires id in was.cells
  {
    (exists k :: k in down && (id == k.0 || id == k.1)) && exists t :: links == {t} && Nearest(was, id, t)
  }

  /** Cells keep everything but links; one gains a link only by being rewired, and never if protected. */
  ghost predicate CellFate(was: Field, now: Field, cfg: DreamConfig, down: Touched, id: NodeId) {
    (id in was.cells <==> id in now.cells) &&
    (id in was.cells ==>
      now.cells[id] == was.cells[id].(links := now.cells[id].links) &&
      (now.cells[id].links <= was.cells[id].links ||
       (Free(was.cells, id, cfg) && Rewired(was, now.cells[id].links, down, id))))
  }

  /** A link that stayed and whose score really moved is not left where it should be pruned. */
  ghost predicate Tidy(was: Field, now: Field, e: Edge) {
    Linked(was, e) && Linked(now, e) && Abs(Score(now.scores, e) - Score(was.scores, e)) > EPSILON ==>
      Score(now.scores, e) > PRUNE_AT
  }

  /** The link just lowered, whose pruning is still to be decided. */
  ghost predicate Pending(was: Field, now: Field, down: Touched, e: Edge) {
    Linked(now, e) && Key(e) in down && (Linked(was, e) ==> Abs(Score(now.scores, e) - Score(was.scores, e)) > EPSILON)
  }

  /** No touched pair has a protected member. */
  ghost predicate Spared(was: Field, cfg: DreamConfig, touched: Touched) {
    forall k :: k in touched ==> BothFree(was.cells, k.0, k.1, cfg)
  }

  ghost predicate Dreaming(was: Field, now: Field, cfg: DreamConfig, up: Touched, down: Touched, pending: Option<Edge>)
  {
    Spared(was, cfg, up + down) && up !! down &&
    (forall e :: EdgeFate(was, now, up, down, e)) && (forall id :: CellFate(was, now, cfg, down, id)) &&
    (forall e :: pending != Some(e) ==> Tidy(was, now, e)) &&
    (pending.Some? ==> Pending(was, now, down, pending.value))
  }

  ghost predicate Dreamt(was: Field, now: Field, cfg: DreamConfig, up: Touched, down: Touched) {
    Dreaming(was, now, cfg, up, down, None)
  }

  lemma SameShield(was: Field, now: Field, cfg: DreamConfig, up: Touched, down: Touched, u: NodeId, v: NodeId)
    requires Dreamt(was, now, cfg, up, down)
    ensures ShouldProtect(now.cells, u, v, cfg) <==> !BothFree(was.cells, u, v, cfg)
  {
    assert CellFate(was, now, cfg, down, u) && CellFate(was, now, cfg, down, v);
  }

  /** The field with one score changed, or none. */
  ghost function Rescored(now: Field, e: Option<Edge>, step: real): Field {
    if e.None? then now else now.(scores := now.scores[e.value := Adjusted(now, e.value, step)])
  }

  /** Raising the picked direction of a pair that is touched for the first time. */
  lemma RaiseKeeps(was: Field, now: Field, cfg: DreamConfig, up: Touched, u: NodeId, v: NodeId)
    requires Dreamt(was, now, cfg, up, {}) && now.cells == was.cells && u < v && (u, v) !in up
    requires BothFree(was.cells, u, v, cfg) && EdgesOk(now.cells, now.scores)
    ensures Dreamt(was, Rescored(now, PickDirection(was.cells, u, v), STRENGTHEN_STEP), cfg, up + {(u, v)}, {})
    ensures var e := PickDirection(was.cells, u, v);
            e.Some? ==> Score(now.scores, e.value) == Score(was.scores, e.value)
  {
    var e := PickDirection(was.cells, u, v);
    var after := Rescored(now, e, STRENGTHEN_STEP);
    var more := up + {(u, v)};
    assert e.Some? ==> EdgeFate(was, now, up, {}, e.value);
    forall o ensures EdgeFate(was, after, more, {}, o) && Tidy(was, after, o) {
      assert EdgeFate(was, now, up, {}, o) && Tidy(was, now, o) && EdgeOk(now.cells, now.scores, o);
    }
    forall id ensures CellFate(was, after, cfg, {}, id) {
      assert CellFate(was, now, cfg, {}, id);
    }
  }

  /**
    The score that the weakening of a lowered pair started from, if one of its directions was
    linked: the direction tried first, which the cycle itself may have linked, before the other.
   */
  ghost function Target(was: Field, now: Field, k: (NodeId, NodeId)): Option<real> {
    var e, back := Edge(k.0, k.1), Edge(k.1, k.0);
    if Linked(was, e) then Some(Score(was.scores, e))
    else if NewAndLowered(was, now, e) then Some(1.0)
    else if Linked(was, back) then Some(Score(was.scores, back))
    else if NewAndLowered(was, now, back) then Some(1.0)
    else None
  }

  /** The weakening really moved the score, and so counts as an operation. */
  ghost predicate Weakens(was: Field, now: Field, k: (NodeId, NodeId)) {
    var t := Target(was, now, k);
    t.Some? && Abs(Weakened(t.value) - t.value) > EPSILON
  }

  /** It moved to where the link is pruned. */
  ghost predicate Prunes(was: Field, now: Field, k: (NodeId, NodeId)) {
    var t := Target(was, now, k);
    t.Some? && Due(t.value)
  }

  ghost predicate SameTargets(was: Field, before: Field, now: Field, down: Touched) {
    forall k :: k in down ==> Target(was, before, k) == Target(was, now, k)
  }

  lemma LowerTargets(was: Field, now: Field, cfg: DreamConfig, up: Touched, down: Touched, u: NodeId, v: NodeId)
    requires Dreamt(was, now, cfg, up, down) && u < v && (u, v) !in up && (u, v) !in down
    requires forall k :: k in down ==> k.0 < k.1
    ensures var e := PickDirection(now.cells, u, v);
            var after := Rescored(now, e, WEAKEN_STEP);
            SameTargets(was, now, after, down) &&
            Target(was, after, (u, v)) == if e.None? then None else Some(Score(now.scores, e.value))
  {
    assert EdgeFate(was, now, up, down, Edge(u, v)) && EdgeFate(was, now, up, down, Edge(v, u));
  }

  lemma PruneTargets(was: Field, now: Field, cfg: DreamConfig, up: Touched, down: Touched, e: Edge)
    requires Dreaming(was, now, cfg, up, down, Some(e)) && Score(now.scores, e) <= PRUNE_AT
    ensures SameTargets(was, now, DropLink(now, e.from, e.to), down)
  {
    assert EdgeFate(was, now, up, down, e);
  }

  lemma RewireTargets(was: Field, now: Field, down: Touched, id: NodeId, target: NodeId)
    requires Lonely(now, id) && EdgesOk(now.cells, now.scores)
    ensures SameTargets(was, now, AddLink(now, id, target), down)
  {
    assert EdgeOk(now.cells, now.scores, Edge(id, target));
  }

  lemma LowerEdge(was: Field, now: Field, cfg: DreamConfig, up: Touched, down: Touched, u: NodeId, v: NodeId, o: Edge)
    requires Dreamt(was, now, cfg, up, down) && u < v && (u, v) !in up && (u, v) !in down
    ensures EdgeFate(was, Rescored(now, PickDirection(now.cells, u, v), WEAKEN_STEP), up, down + {(u, v)}, o)
  {
    assert EdgeFate(was, now, up, down, Edge(u, v)) && EdgeFate(was, now, up, down, Edge(v, u));
    assert EdgeFate(was, now, up, down, o);
    assert Key(o) == (u, v) ==> o == Edge(u, v) || o == Edge(v, u);
  }

  /** Lowering the direction picked now, if any, of a pair that is touched for the first time. */
  lemma LowerKeeps(was: Field, now: Field, cfg: DreamConfig, up: Touched, down: Touched, u: NodeId, v: NodeId)
    requires Dreamt(was, now, cfg, up, down) && u < v && (u, v) !in up && (u, v) !in down
    requires BothFree(was.cells, u, v, cfg)
    ensures var e := PickDirection(now.cells, u, v);
            var changed := e.Some? && AdjustReports(now, e.value, WEAKEN_STEP);
            Dreaming(was, Rescored(now, e, WEAKEN_STEP), cfg, up, down + {(u, v)}, if changed then e else None)
  {
    var e := PickDirection(now.cells, u, v);
    var after := Rescored(now, e, WEAKEN_STEP);
    var more := down + {(u, v)};
    assert e.Some? ==> EdgeFate(was, now, up, down, e.value);
    forall o ensures EdgeFate(was, after, up, more, o) {
      LowerEdge(was, now, cfg, up, down, u, v, o);
    }
    forall o | !(e == Some(o) && AdjustReports(now, o, WEAKEN_STEP)) ensures Tidy(was, after, o) {
      assert EdgeFate(was, now, up, down, o) && Tidy(was, now, o);
    }
    forall id ensures CellFate(was, after, cfg, more, id) {
      assert CellFate(was, now, cfg, down, id);
    }
  }

  /** A link at 0.25 or below that the cycle just lowered may go. */
  lemma PruneKeeps(was: Field, now: Field, cfg: DreamConfig, up: Touched, down: Touched, e: Edge)
    requires Dreaming(was, now, cfg, up, down, Some(e)) && Score(now.scores, e) <= PRUNE_AT
    ensures Dreamt(was, DropLink(now, e.from, e.to), cfg, up, down)
  {
    var after := DropLink(now, e.from, e.to);
    assert EdgeFate(was, now, up, down, e);
    assert Linked(was, e);
    forall o ensures EdgeFate(was, after, up, down, o) {
      assert EdgeFate(was, now, up, down, o) && EdgeFate(was, now, up, down, Edge(Key(o).0, Key(o).1));
    }
    forall o ensures Tidy(was, after, o) {
      assert o != e ==> Tidy(was, now, o);
    }
    forall id ensures CellFate(was, after, cfg, down, id) {
      assert CellFate(was, now, cfg, down, id);
    }
  }

  /** A lowered link above 0.25 stays. */
  lemma KeepAbove(was: Field, now: Field, cfg: DreamConfig, up: Touched, down: Touched, e: Edge)
    requires Dreaming(was, now, cfg, up, down, Some(e)) && Score(now.scores, e) > PRUNE_AT
    ensures Dreamt(was, now, cfg, up, down)
  {
    forall o ensures Tidy(was, now, o) {
      assert o != e ==> Tidy(was, now, o);
    }
  }

  /** A lonely, unshielded cell gets one link: if that link existed before, its pair was lowered. */
  lemma RewireKeeps(was: Field, now: Field, cfg: DreamConfig, up: Touched, down: Touched, id: NodeId, target: NodeId)
    requires Dreamt(was, now, cfg, up, down) && Lonely(now, id) && Free(was.cells, id, cfg) &&
             Nearest(now, id, target)
    requires EdgesOk(now.cells, now.scores) && exists k :: k in down && (id == k.0 || id == k.1)
    ensures Dreamt(was, AddLink(now, id, target), cfg, up, down)
  {
    var after := AddLink(now, id, target);
    forall o ensures EdgeFate(was, after, up, down, o) && Tidy(was, after, o) {
      assert EdgeFate(was, now, up, down, o) && Tidy(was, now, o) && EdgeOk(now.cells, now.scores, o);
    }
    forall o ensures CellFate(was, after, cfg, down, o) {
      assert CellFate(was, now, cfg, down, o);
      if o == id {
        NearestBefore(was, now, cfg, up, down, id, target);
      }
    }
  }

  /** Affinities do not move in a cycle, so nearest now was nearest before. */
  lemma NearestBefore(was: Field, now: Field, cfg: DreamConfig, up: Touched, down: Touched, id: NodeId, target: NodeId)
    requires Dreamt(was, now, cfg, up, down) && id in now.cells && Nearest(now, id, target)
    ensures id in was.cells && Nearest(was, id, target)
  {
    assert CellFate(was, now, cfg, down, id) && CellFate(was, now, cfg, down, target);
    forall o | o in was.cells && o != id ensures Distance(was, id, target) <= Distance(was, id, o) {
      assert CellFate(was, now, cfg, down, o);
    }
  }

  lemma NothingYet(f: Field, cfg: DreamConfig)
    ensures Dreamt(f, f, cfg, {}, {})
  {
    forall e ensures EdgeFate(f, f, {}, {}, e) && Tidy(f, f, e) {}
    forall id ensures CellFate(f, f, cfg, {}, id) {}
  }

  // ---- The loops ----------------------------------------------------------

  /** Operations done and left make up the budget, or it is spent with one operation over. */
  ghost predicate InBudget(report: DreamReport, left: nat, budget: nat) {
    Ops(report) + left == budget || (left == 0 && Ops(report) == budget + 1)
  }

  ghost predicate Pairwise(pairs: seq<PairStat>) {
    (forall p :: p in pairs ==> p.u < p.v) &&
    forall i, j :: 0 <= i < j < |pairs| ==> (pairs[i].u, pairs[i].v) != (pairs[j].u, pairs[j].v)
  }

  /** Whether raising the pair's picked direction is an operation that counts. */
  predicate RaiseMoves(was: Field, k: (NodeId, NodeId)) {
    var e := PickDirection(was.cells, k.0, k.1);
    e.Some? && AdjustReports(was, e.value, STRENGTHEN_STEP)
  }

  ghost function Moved(was: Field, up: Touched): Touched {
    set k | k in up && RaiseMoves(was, k)
  }

  ghost function WeakenedPairs(was: Field, now: Field, down: Touched): Touched {
    set k | k in down && Weakens(was, now, k)
  }

  ghost function PrunedPairs(was: Field, now: Field, down: Touched): Touched {
    set k | k in down && Prunes(was, now, k)
  }

  /** The report counts the lowered pairs that really moved and those that were due; rewirings follow prunings. */
  ghost predicate Tallied(report: DreamReport, was: Field, now: Field, down: Touched) {
    report.weakened == |WeakenedPairs(was, now, down)| && report.pruned == |PrunedPairs(was, now, down)| &&
    report.rewired <= 2 * report.pruned && forall k :: k in down ==> k.0 < k.1
  }

  lemma TalliedGrows(report: DreamReport, was: Field, before: Field, now: Field, down: Touched, k: (NodeId, NodeId),
                     rewired: nat)
    requires Tallied(report, was, before, down) && SameTargets(was, before, now, down) && k !in down && k.0 < k.1
    requires rewired <= if Prunes(was, now, k) then 2 else 0
    ensures var more := report.(weakened := report.weakened + if Weakens(was, now, k) then 1 else 0,
                                pruned := report.pruned + if Prunes(was, now, k) then 1 else 0,
                                rewired := report.rewired + rewired);
            Tallied(more, was, now, down + {k})
  {
    hide Weakens, Prunes, SameTargets, WeakenedPairs, PrunedPairs;
    MorePairs(was, before, now, down, k);
    OneMore(WeakenedPairs(was, before, down), k, Weakens(was, now, k));
    OneMore(PrunedPairs(was, before, down), k, Prunes(was, now, k));
  }

  lemma MorePairs(was: Field, before: Field, now: Field, down: Touched, k: (NodeId, NodeId))
    requires SameTargets(was, before, now, down) && k !in down
    ensures k !in WeakenedPairs(was, before, down) && k !in PrunedPairs(was, before, down)
    ensures WeakenedPairs(was, now, down + {k}) ==
            WeakenedPairs(was, before, down) + if Weakens(was, now, k) then {k} else {}
    ensures PrunedPairs(was, now, down + {k}) ==
            PrunedPairs(was, before, down) + if Prunes(was, now, k) then {k} else {}
  {
    hide Target;
  }

  lemma OneMore(s: Touched, k: (NodeId, NodeId), yes: bool)
    requires k !in s
    ensures |s + if yes then {k} else {}| == |s| + if yes then 1 else 0
  {
    assert !yes ==> s + {} == s;
  }

  lemma SameTargetsTrans(was: Field, a: Field, b: Field, c: Field, down: Touched, more: Touched)
    requires SameTargets(was, a, b, down) && SameTargets(was, b, c, more) && down <= more
    ensures SameTargets(was, a, c, down)
    ensures forall k :: k in more ==> Weakens(was, b, k) == Weakens(was, c, k) && Prunes(was, b, k) == Prunes(was, c, k)
  {
  }

  /** Strengthen the direction in which the pair is linked, if any. */
  method RaisePair(field: ClusterField, entry: PairStat, cfg: DreamConfig, ghost was: Field, ghost up: Touched)
    returns (changed: bool)
    requires field.Valid() && Dreamt(was, field.F(), cfg, up, {}) && field.cells == was.cells && entry.u < entry.v
    requires (entry.u, entry.v) !in up && BothFree(was.cells, entry.u, entry.v, cfg)
    modifies field
    ensures field.Valid() && Dreamt(was, field.F(), cfg, up + {(entry.u, entry.v)}, {}) && field.cells == was.cells
    ensures changed == RaiseMoves(was, (entry.u, entry.v))
  {
    ScoresAreOk(field);
    hide Dreamt, Consistent, IndexOk, EdgesOk;
    RaiseKeeps(was, field.F(), cfg, up, entry.u, entry.v);
    var direction := PickDirection(field.cells, entry.u, entry.v);
    if direction.None? {
      return false;
    }
    changed := field.AdjustAndReport(direction.value, STRENGTHEN_STEP, Strengthen);
  }

  /** The first loop: the most frequent pairs, until the budget is spent. */
  method StrengthenTop(field: ClusterField, top: seq<PairStat>, cfg: DreamConfig, ghost was: Field)
    returns (report: DreamReport, left: nat, touched: Touched, ghost n: nat)
    requires field.Valid() && field.F() == was && forall p :: p in top ==> p.u < p.v
    modifies field
    ensures field.Valid() && Dreamt(was, field.F(), cfg, touched, {}) && InBudget(report, left, cfg.maxOpsPerCycle)
    ensures n <= |top| && touched == Eligible(was.cells, top[..n], cfg) && (n == |top| || left == 0)
    ensures report.strengthened == |Moved(was, touched)| && report.weakened == report.pruned == report.rewired == 0
  {
    hide Dreamt, Consistent, IndexOk, RaiseMoves;
    report, left, touched, n := DreamReport(0, 0, 0, 0, 0), cfg.maxOpsPerCycle, {}, 0;
    NothingYet(was, cfg);
    for i := 0 to |top|
      invariant field.Valid() && Dreamt(was, field.F(), cfg, touched, {}) && field.cells == was.cells
      invariant InBudget(report, left, cfg.maxOpsPerCycle)
      invariant n == i && touched == Eligible(was.cells, top[..i], cfg)
      invariant report.strengthened == |Moved(was, touched)| && report.weakened == report.pruned == report.rewired == 0
    {
      var entry := top[i];
      if left == 0 {
        break;
      }
      assert top[..i + 1] == top[..i] + [entry];
      n := n + 1;
      if ShouldProtect(field.cells, entry.u, entry.v, cfg) {
        report := report.(protected := report.protected + 1);
        continue;
      }
      if (entry.u, entry.v) !in touched {
        var changed := RaisePair(field, entry, cfg, was, touched);
        MovedGrows(was, touched, (entry.u, entry.v));
        touched := touched + {(entry.u, entry.v)};
        if changed {
          left := left - 1;
          report := report.(strengthened := report.strengthened + 1);
        }
      }
    }
  }

  /** The second loop's sets after some entries: lowered are the eligible ones that the first loop did not touch. */
  ghost predicate Reached(cells: CellMap, entries: seq<PairStat>, cfg: DreamConfig, up: Touched, down: Touched,
                          touched: Touched)
  {
    down == Eligible(cells, entries, cfg) - up && touched == up + down
  }

  lemma NoneReached(was: Field, now: Field, cfg: DreamConfig, up: Touched, report: DreamReport)
    requires report.weakened == report.pruned == report.rewired == 0
    ensures Reached(was.cells, [], cfg, up, {}, up) && Tallied(report, was, now, {})
  {
    assert WeakenedPairs(was, now, {}) == {} == PrunedPairs(was, now, {});
  }

  lemma ReachedMeans(cells: CellMap, entries: seq<PairStat>, cfg: DreamConfig, up: Touched, down: Touched,
                     touched: Touched)
    requires Reached(cells, entries, cfg, up, down, touched)
    ensures down == Eligible(cells, entries, cfg) - up
  {
  }

  lemma ReachedGrows(cells: CellMap, entries: seq<PairStat>, p: PairStat, cfg: DreamConfig, up: Touched, down: Touched,
                     touched: Touched)
    requires Reached(cells, entries, cfg, up, down, touched)
    ensures var anew := BothFree(cells, p.u, p.v, cfg) && (p.u, p.v) !in touched;
            var more := if anew then {(p.u, p.v)} else {};
            (anew ==> (p.u, p.v) !in up + down) && Reached(cells, entries + [p], cfg, up, down + more, touched + more)
    ensures down + {} == down && touched + {} == touched
  {
    EligibleGrows(cells, entries, p, cfg);
    hide Eligible, BothFree;
  }

  lemma EligibleGrows(cells: CellMap, entries: seq<PairStat>, p: PairStat, cfg: DreamConfig)
    ensures Eligible(cells, entries + [p], cfg) ==
            Eligible(cells, entries, cfg) + if BothFree(cells, p.u, p.v, cfg) then {(p.u, p.v)} else {}
  {
    hide BothFree;
    var more := entries + [p];
    assert forall q :: q in more <==> q in entries || q == p;
    assert p in more;
  }

  /** A protected pair is counted apart from the operations. */
  method Sheltered(report: DreamReport, budget: nat, left: nat, ghost was: Field, ghost now: Field, ghost down: Touched)
    returns (r: DreamReport)
    requires InBudget(report, left, budget) && Tallied(report, was, now, down)
    ensures r == report.(protected := report.protected + 1) && InBudget(r, left, budget) && Tallied(r, was, now, down)
  {
    r := report.(protected := report.protected + 1);
  }

  lemma MovedGrows(was: Field, up: Touched, k: (NodeId, NodeId))
    requires k !in up
    ensures |Moved(was, up + {k})| == |Moved(was, up)| + if RaiseMoves(was, k) then 1 else 0
  {
    hide RaiseMoves;
    assert Moved(was, up + {k}) == Moved(was, up) + if RaiseMoves(was, k) then {k} else {};
  }

  lemma ScoresAreOk(field: ClusterField)
    requires field.Valid()
    ensures EdgesOk(field.cells, field.linkScores)
  {
  }

  /** Weaken the direction in which the pair is linked, if any. */
  method LowerPair(field: ClusterField, entry: PairStat, cfg: DreamConfig, ghost was: Field, ghost up: Touched,
                   ghost down: Touched)
    returns (changed: bool, edge: Edge)
    requires field.Valid() && Dreamt(was, field.F(), cfg, up, down) && entry.u < entry.v
    requires (entry.u, entry.v) !in up + down && BothFree(was.cells, entry.u, entry.v, cfg)
    requires forall k :: k in down ==> k.0 < k.1
    modifies field
    ensures var more := down + {(entry.u, entry.v)};
            field.Valid() && Dreaming(was, field.F(), cfg, up, more, if changed then Some(edge) else None)
    ensures var k := (entry.u, entry.v);
            SameTargets(was, old(field.F()), field.F(), down) && changed == Weakens(was, field.F(), k) &&
            (changed ==> (Score(field.linkScores, edge) <= PRUNE_AT <==> Prunes(was, field.F(), k)))
  {
    hide Dreamt, Dreaming, Consistent, IndexOk, Target, SameTargets;
    var direction := PickDirection(field.cells, entry.u, entry.v);
    LowerKeeps(was, field.F(), cfg, up, down, entry.u, entry.v);
    LowerTargets(was, field.F(), cfg, up, down, entry.u, entry.v);
    if direction.None? {
      return false, Edge(entry.u, entry.v);
    }
    edge := direction.value;
    changed := field.AdjustAndReport(edge, WEAKEN_STEP, Weaken);
  }

  /** After a weakening: prune at 0.25 or below, then rewire whichever end became lonely. */
  method PruneWeak(field: ClusterField, edge: Edge, ops: nat, cfg: DreamConfig, ghost was: Field, ghost up: Touched,
                   ghost down: Touched)
    returns (pruned: nat, rewired: nat, left: nat)
    requires field.Valid() && Dreaming(was, field.F(), cfg, up, down, Some(edge))
    modifies field
    ensures field.Valid() && Dreamt(was, field.F(), cfg, up, down)
    ensures pruned == if Score(old(field.linkScores), edge) <= PRUNE_AT then 1 else 0
    ensures pruned + rewired + left == ops || (left == 0 && pruned + rewired == ops + 1)
    ensures rewired <= 2 * pruned && SameTargets(was, old(field.F()), field.F(), down)
  {
    assert Pending(was, field.F(), down, edge);
    hide Dreamt, Dreaming, Consistent, IndexOk, Target;
    pruned, rewired, left := 0, 0, ops;
    if Score(field.linkScores, edge) > PRUNE_AT {
      KeepAbove(was, field.F(), cfg, up, down, edge);
      return;
    }
    PruneKeeps(was, field.F(), cfg, up, down, edge);
    PruneTargets(was, field.F(), cfg, up, down, edge);
    var done := field.PruneLink(edge);
    pruned, left := 1, if ops > 0 then ops - 1 else 0;
    if left == 0 {
      return;
    }
    var a := RewireEnd(field, edge.from, cfg, was, up, down, edge);
    var b := RewireEnd(field, edge.to, cfg, was, up, down, edge);
    rewired := a + b;
    left := if left < rewired then 0 else left - rewired;
  }

  method RewireEnd(field: ClusterField, id: NodeId, cfg: DreamConfig, ghost was: Field, ghost up: Touched,
                   ghost down: Touched, ghost edge: Edge)
    returns (rewired: nat)
    requires field.Valid() && Dreamt(was, field.F(), cfg, up, down)
    requires Key(edge) in down && (id == edge.from || id == edge.to)
    modifies field
    ensures field.Valid() && Dreamt(was, field.F(), cfg, up, down)
    ensures rewired == if Lonely(old(field.F()), id) && old(field.cells).Keys != {id} then 1 else 0
    ensures SameTargets(was, old(field.F()), field.F(), down)
  {
    ScoresAreOk(field);
    assert Free(was.cells, id, cfg) by {
      assert Key(edge) in up + down;
    }
    hide IndexOk, Dreamt, Dreaming, Consistent, EdgesOk, Target;
    ghost var now := field.F();
    var target;
    rewired, target := field.RewireLonely(id);
    if rewired == 1 {
      RewireTargets(was, now, down, id, target);
      RewireKeeps(was, now, cfg, up, down, id, target);
    }
  }

  lemma PairsAreOrdered(report: DreamReport, was: Field, now: Field, down: Touched)
    requires Tallied(report, was, now, down)
    ensures forall k :: k in down ==> k.0 < k.1
  {
  }

  lemma NotWeakened(was: Field, now: Field, k: (NodeId, NodeId))
    ensures Prunes(was, now, k) ==> Weakens(was, now, k)
  {
  }

  /** One pair of the second loop: weaken, prune, rewire, and the report of it. */
  method WeakenPair(field: ClusterField, entry: PairStat, cfg: DreamConfig, start: DreamReport, ops: nat,
                    ghost was: Field, ghost up: Touched, ghost down: Touched)
    returns (report: DreamReport, left: nat)
    requires field.Valid() && Dreamt(was, field.F(), cfg, up, down) && entry.u < entry.v
    requires (entry.u, entry.v) !in up + down && BothFree(was.cells, entry.u, entry.v, cfg)
    requires ops > 0 && InBudget(start, ops, cfg.maxOpsPerCycle) && Tallied(start, was, field.F(), down)
    modifies field
    ensures field.Valid() && Dreamt(was, field.F(), cfg, up, down + {(entry.u, entry.v)})
    ensures InBudget(report, left, cfg.maxOpsPerCycle) && report.strengthened == start.strengthened
    ensures Tallied(report, was, field.F(), down + {(entry.u, entry.v)})
  {
    ghost var k, before := (entry.u, entry.v), field.F();
    PairsAreOrdered(start, was, before, down);
    hide Dreaming, Consistent, IndexOk, ShouldProtect, Tallied, SameTargets, Weakens, Prunes;
    report, left := start, ops;
    var changed, edge := LowerPair(field, entry, cfg, was, up, down);
    ghost var mid := field.F();
    if !changed {
      NotWeakened(was, mid, k);
      TalliedGrows(start, was, before, mid, down, k, 0);
    } else {
      var pruned, rewired;
      pruned, rewired, left := PruneWeak(field, edge, left - 1, cfg, was, up, down + {(entry.u, entry.v)});
      SameTargetsTrans(was, before, mid, field.F(), down, down + {k});
      TalliedGrows(start, was, before, field.F(), down, k, rewired);
      report := report.(weakened := report.weakened + 1, pruned := report.pruned + pruned,
                        rewired := report.rewired + rewired);
    }
  }

  /** The second loop: the rarest pairs not strengthened, until the budget is spent. */
  method WeakenBottom(field: ClusterField, bottom: seq<PairStat>, cfg: DreamConfig, start: DreamReport, ops: nat,
                      up: Touched, ghost was: Field)
    returns (report: DreamReport, left: nat, ghost down: Touched, ghost m: nat)
    requires field.Valid() && Dreamt(was, field.F(), cfg, up, {}) && InBudget(start, ops, cfg.maxOpsPerCycle)
    requires start.weakened == start.pruned == start.rewired == 0 && forall p :: p in bottom ==> p.u < p.v
    modifies field
    ensures field.Valid() && Dreamt(was, field.F(), cfg, up, down) && InBudget(report, left, cfg.maxOpsPerCycle)
    ensures m <= |bottom| && down == Eligible(was.cells, bottom[..m], cfg) - up && (m == |bottom| || left == 0)
    ensures report.strengthened == start.strengthened && Tallied(report, was, field.F(), down)
  {
    NoneReached(was, field.F(), cfg, up, start);
    hide Dreamt, Consistent, IndexOk, InBudget, Eligible, ShouldProtect, Tallied, Reached;
    report, down, left, m := start, {}, ops, 0;
    var touched := up;
    for i := 0 to |bottom|
      invariant field.Valid() && Dreamt(was, field.F(), cfg, up, down) && InBudget(report, left, cfg.maxOpsPerCycle)
      invariant m == i && Reached(was.cells, bottom[..i], cfg, up, down, touched)
      invariant report.strengthened == start.strengthened && Tallied(report, was, field.F(), down)
    {
      var entry := bottom[i];
      if left == 0 {
        break;
      }
      SameShield(was, field.F(), cfg, up, down, entry.u, entry.v);
      assert bottom[..i + 1] == bottom[..i] + [entry];
      ReachedGrows(was.cells, bottom[..i], entry, cfg, up, down, touched);
      m := m + 1;
      if ShouldProtect(field.cells, entry.u, entry.v, cfg) {
        report := Sheltered(report, cfg.maxOpsPerCycle, left, was, field.F(), down);
        continue;
      }
      if (entry.u, entry.v) !in touched {
        report, left := WeakenPair(field, entry, cfg, report, left, was, up, down);
        touched, down := touched + {(entry.u, entry.v)}, down + {(entry.u, entry.v)};
      }
    }
    ReachedMeans(was.cells, bottom[..m], cfg, up, down, touched);
  }

  /** The pairs of the first loop and of the second, as the two sorts order them. */
  function Top(pairs: seq<PairStat>, cfg: DreamConfig): seq<PairStat> {
    SortSorts(MostFrequent, pairs);
    SortBy(MostFrequent, pairs)[..ShareOf(|pairs|, cfg.strengthenTopPct)]
  }

  function Bottom(pairs: seq<PairStat>, cfg: DreamConfig): seq<PairStat> {
    var ranked := SortBy(MostFrequent, pairs);
    SortSorts(MostFrequent, pairs);
    SortSorts(Rarest, ranked);
    SortBy(Rarest, ranked)[..ShareOf(|pairs|, cfg.weakenBottomPct)]
  }

  lemma FromPairs(pairs: seq<PairStat>, cfg: DreamConfig)
    requires Pairwise(pairs)
    ensures (forall p :: p in Top(pairs, cfg) ==> p.u < p.v) && (forall p :: p in Bottom(pairs, cfg) ==> p.u < p.v)
  {
    hide SortBy, ShareOf;
    var ranked := SortBy(MostFrequent, pairs);
    SortSorts(MostFrequent, pairs);
    SortSorts(Rarest, ranked);
    SameElements(pairs, ranked);
    SameElements(ranked, SortBy(Rarest, ranked));
  }

  lemma BudgetMeans(report: DreamReport, left: nat, budget: nat)
    requires InBudget(report, left, budget)
    ensures Ops(report) <= budget + 1 && (Ops(report) < budget ==> left > 0)
  {
  }

  lemma NothingDone(f: Field, cfg: DreamConfig)
    ensures Dreamt(f, f, cfg, {}, {}) && Tallied(DreamReport(0, 0, 0, 0, 0), f, f, {}) && |Moved(f, {})| == 0
    ensures Eligible(f.cells, [], cfg) == {} && Ops(DreamReport(0, 0, 0, 0, 0)) == 0
  {
    NothingYet(f, cfg);
    NoneReached(f, f, cfg, {}, DreamReport(0, 0, 0, 0, 0));
    assert Moved(f, {}) == {};
  }

  /**
    `run_dream` over the recent pairs. At most one operation over the budget; exactly the unshielded
    top pairs are raised and the unshielded bottom pairs lowered, each once, as far as the budget
    goes, and the field stays journalled.
   */
  method RunDream(field: ClusterField, cfg: DreamConfig, pairs: seq<PairStat>)
    returns (report: DreamReport, ghost up: Touched, ghost down: Touched, ghost n: nat, ghost m: nat)
    requires field.Valid() && Pairwise(pairs)
    modifies field
    ensures field.Valid() && Dreamt(old(field.F()), field.F(), cfg, up, down)
    ensures Ops(report) <= cfg.maxOpsPerCycle + 1 && (cfg.maxOpsPerCycle == 0 ==> Ops(report) == 0)
    ensures n <= |Top(pairs, cfg)| && up == Eligible(old(field.cells), Top(pairs, cfg)[..n], cfg)
    ensures m <= |Bottom(pairs, cfg)| && down == Eligible(old(field.cells), Bottom(pairs, cfg)[..m], cfg) - up
    ensures Ops(report) < cfg.maxOpsPerCycle ==> n == |Top(pairs, cfg)| && m == |Bottom(pairs, cfg)|
    ensures report.strengthened == |Moved(old(field.F()), up)| && Tallied(report, old(field.F()), field.F(), down)
  {
    hide Dreamt, Dreaming, Consistent, IndexOk, Top, Bottom, Tallied, Moved, Eligible, InBudget, Ops;
    if cfg.maxOpsPerCycle == 0 {
      NothingDone(field.F(), cfg);
      report, up, down, n, m := DreamReport(0, 0, 0, 0, 0), {}, {}, 0, 0;
      assert Top(pairs, cfg)[..0] == [] == Bottom(pairs, cfg)[..0] && down - up == down;
      return;
    }
    report, up, down, n, m := DreamLoops(field, cfg, pairs);
  }

  method DreamLoops(field: ClusterField, cfg: DreamConfig, pairs: seq<PairStat>)
    returns (report: DreamReport, ghost up: Touched, ghost down: Touched, ghost n: nat, ghost m: nat)
    requires field.Valid() && Pairwise(pairs)
    modifies field
    ensures field.Valid() && Dreamt(old(field.F()), field.F(), cfg, up, down)
    ensures Ops(report) <= cfg.maxOpsPerCycle + 1
    ensures n <= |Top(pairs, cfg)| && up == Eligible(old(field.cells), Top(pairs, cfg)[..n], cfg)
    ensures m <= |Bottom(pairs, cfg)| && down == Eligible(old(field.cells), Bottom(pairs, cfg)[..m], cfg) - up
    ensures Ops(report) < cfg.maxOpsPerCycle ==> n == |Top(pairs, cfg)| && m == |Bottom(pairs, cfg)|
    ensures report.strengthened == |Moved(old(field.F()), up)| && Tallied(report, old(field.F()), field.F(), down)
  {
    hide Dreamt, Dreaming, Consistent, IndexOk, Top, Bottom, Tallied, Moved, Eligible, InBudget, Ops;
    ghost var was := field.F();
    FromPairs(pairs, cfg);
    var left, touched;
    report, left, touched, n := StrengthenTop(field, Top(pairs, cfg), cfg, was);
    up := touched;
    report, left, down, m := WeakenRest(field, Bottom(pairs, cfg), cfg, report, left, touched, was);
    BudgetMeans(report, left, cfg.maxOpsPerCycle);
  }

  /** The second loop, if there is budget and a pair left for it. */
  method WeakenRest(field: ClusterField, bottom: seq<PairStat>, cfg: DreamConfig, start: DreamReport, ops: nat,
                    up: Touched, ghost was: Field)
    returns (report: DreamReport, left: nat, ghost down: Touched, ghost m: nat)
    requires field.Valid() && Dreamt(was, field.F(), cfg, up, {}) && InBudget(start, ops, cfg.maxOpsPerCycle)
    requires start.weakened == start.pruned == start.rewired == 0 && forall p :: p in bottom ==> p.u < p.v
    modifies field
    ensures field.Valid() && Dreamt(was, field.F(), cfg, up, down) && InBudget(report, left, cfg.maxOpsPerCycle)
    ensures m <= |bottom| && down == Eligible(was.cells, bottom[..m], cfg) - up && (m == |bottom| || left == 0)
    ensures report.strengthened == start.strengthened && Tallied(report, was, field.F(), down)
    ensures ops == 0 ==> left == 0
  {
    NoneReached(was, field.F(), cfg, up, start);
    assert bottom[..0] == [] && Eligible(was.cells, [], cfg) == {} && {} - up == {};
    hide *;
    report, left, down, m := start, ops, {}, 0;
    if left > 0 && bottom != [] {
      report, left, down, m := WeakenBottom(field, bottom, cfg, start, ops, up, was);
    }
  }

  /** A raised pair: the link in the direction tried first, or else the other, gains 0.15 up to 3.0, once. */
  lemma RaisedExactlyOnce(was: Field, now: Field, cfg: DreamConfig, up: Touched, down: Touched, k: (NodeId, NodeId))
    requires Dreamt(was, now, cfg, up, down) && k in up && k.0 < k.1
    ensures var e, back := Edge(k.0, k.1), Edge(k.1, k.0);
            (Linked(was, e) ==> Linked(now, e) && RaisedFrom(Score(was.scores, e), Score(now.scores, e))) &&
            (Linked(was, e) && Linked(was, back) ==> Intact(was, now, back)) &&
            (!Linked(was, e) && Linked(was, back) ==>
              Linked(now, back) && RaisedFrom(Score(was.scores, back), Score(now.scores, back)))
  {
    assert EdgeFate(was, now, up, down, Edge(k.0, k.1)) && EdgeFate(was, now, up, down, Edge(k.1, k.0));
  }

  ghost predicate RaisedFrom(prior: real, after: real) {
    0.2 <= prior <= 3.0 ==> after == if prior > 2.85 then 3.0 else prior + 0.15
  }

  /**
    A link lowered from this score: 0.2 lower above 0.45, at the floor if it was within EPSILON of it,
    and otherwise pruned, so gone or rewired at 1.0.
   */
  ghost predicate LoweredFrom(prior: real, now: Field, e: Edge) {
    0.2 <= prior <= 3.0 ==>
      if prior > 0.45 then Linked(now, e) && Score(now.scores, e) == prior - 0.2
      else if prior <= 0.2 + EPSILON then Linked(now, e) && Score(now.scores, e) == 0.2
      else Linked(now, e) ==> Score(now.scores, e) == 1.0
  }

  /**
    What a cycle does to a lowered pair that was linked in the direction tried first: that link is
    lowered once, and the link in the other direction is intact.
   */
  lemma LoweredExactlyOnce(was: Field, now: Field, cfg: DreamConfig, up: Touched, down: Touched, k: (NodeId, NodeId))
    requires Dreamt(was, now, cfg, up, down) && k in down && k.0 < k.1 && Linked(was, Edge(k.0, k.1))
    ensures LoweredFrom(Score(was.scores, Edge(k.0, k.1)), now, Edge(k.0, k.1))
    ensures Linked(was, Edge(k.1, k.0)) ==> Intact(was, now, Edge(k.1, k.0))
  {
    var e, back := Edge(k.0, k.1), Edge(k.1, k.0);
    assert EdgeFate(was, now, up, down, e) && EdgeFate(was, now, up, down, back) && Tidy(was, now, e);
  }

  /** The same for a pair linked only in the other direction, unless the cycle linked the first one and lowered that. */
  lemma LoweredBackwards(was: Field, now: Field, cfg: DreamConfig, up: Touched, down: Touched, k: (NodeId, NodeId))
    requires Dreamt(was, now, cfg, up, down) && k in down && k.0 < k.1
    requires !Linked(was, Edge(k.0, k.1)) && Linked(was, Edge(k.1, k.0)) && !NewAndLowered(was, now, Edge(k.0, k.1))
    ensures LoweredFrom(Score(was.scores, Edge(k.1, k.0)), now, Edge(k.1, k.0))
  {
    var e := Edge(k.1, k.0);
    assert EdgeFate(was, now, up, down, e) && Tidy(was, now, e);
  }

  /** A cell gains a link only by losing all it had: it is then left with one, to a nearest cell, never if shielded. */
  lemma GainMeansRewired(was: Field, now: Field, cfg: DreamConfig, up: Touched, down: Touched, e: Edge)
    requires Dreamt(was, now, cfg, up, down) && Linked(now, e) && !Linked(was, e)
    ensures Free(was.cells, e.from, cfg) && now.cells[e.from].links == {e.to}
    ensures e.from in was.cells && Nearest(was, e.from, e.to)
    ensures Score(now.scores, e) == 1.0 || (Key(e) in down && Score(now.scores, e) == 0.8)
  {
    assert EdgeFate(was, now, up, down, e) && CellFate(was, now, cfg, down, e.from);
  }

  /**
    What a cycle leaves alone. A cell at the salience limit, or tagged where tags count, keeps every
    existing link in either direction at its score and gains no outgoing link, and none of its pairs
    is raised or lowered.
   */
  lemma ProtectedUntouched(was: Field, now: Field, cfg: DreamConfig, up: Touched, down: Touched, id: NodeId, e: Edge)
    requires Dreamt(was, now, cfg, up, down) && id in was.cells && (id == e.from || id == e.to)
    requires was.cells[id].salience >= cfg.protectSalience || (cfg.adrenoProtect && was.cells[id].adrenoTag)
    ensures Linked(was, e) ==> Linked(now, e) && Score(now.scores, e) == Score(was.scores, e)
    ensures id in now.cells && now.cells[id].links == was.cells[id].links
    ensures Key(e) !in up && Key(e) !in down
  {
    assert EdgeFate(was, now, up, down, e) && CellFate(was, now, cfg, down, id);
    assert Key(e) !in up + down;
    forall to | to in was.cells[id].links ensures to in now.cells[id].links {
      assert EdgeFate(was, now, up, down, Edge(id, to)) && Key(Edge(id, to)) !in up + down;
    }
  }

  /** A pair among the entries is eligible exactly if each end that is a cell is below the limit and untagged. */
  lemma EligibleIff(cells: CellMap, entries: seq<PairStat>, cfg: DreamConfig, p: PairStat)
    requires p in entries
    ensures (p.u, p.v) in Eligible(cells, entries, cfg) <==>
            forall id :: id in cells && (id == p.u || id == p.v) ==>
              cells[id].salience < cfg.protectSalience && !(cfg.adrenoProtect && cells[id].adrenoTag)
  {
  }

  // ---- Which pairs the loops visit ----------------------------------------

  /** The share is the nearest whole number of pairs, within the pairs there are. */
  lemma ShareMeans(total: nat, pct: real)
    requires 0.0 <= pct <= 1.0
    ensures var share := (total as real) * pct;
            share - 0.5 <= ShareOf(total, pct) as real <= share + 0.5
  {
    assert 0.0 <= (total as real) * pct <= total as real by {
      assert (total as real) * (1.0 - pct) >= 0.0;
    }
  }

  /** The first loop visits the most frequent pairs, the most frequent first. */
  lemma TopMeans(pairs: seq<PairStat>, cfg: DreamConfig)
    ensures var top := Top(pairs, cfg);
            |top| == ShareOf(|pairs|, cfg.strengthenTopPct) &&
            (forall p :: p in top ==> p in pairs) &&
            (forall i, j :: 0 <= i < j < |top| ==> top[i].freq >= top[j].freq) &&
            (forall p, o :: p in top && o in pairs && o !in top ==> p.freq >= o.freq)
  {
    hide SortBy, ShareOf;
    SortSorts(MostFrequent, pairs);
    FrontMeans(MostFrequent, pairs, SortBy(MostFrequent, pairs), ShareOf(|pairs|, cfg.strengthenTopPct));
  }

  /** The second loop visits the rarest pairs, the rarest first. */
  lemma BottomMeans(pairs: seq<PairStat>, cfg: DreamConfig)
    ensures var bottom := Bottom(pairs, cfg);
            |bottom| == ShareOf(|pairs|, cfg.weakenBottomPct) &&
            (forall p :: p in bottom ==> p in pairs) &&
            (forall i, j :: 0 <= i < j < |bottom| ==> bottom[i].freq <= bottom[j].freq) &&
            (forall p, o :: p in bottom && o in pairs && o !in bottom ==> p.freq <= o.freq)
  {
    hide SortBy, ShareOf;
    var ranked := SortBy(MostFrequent, pairs);
    SortSorts(MostFrequent, pairs);
    SortSorts(Rarest, ranked);
    SameElements(pairs, ranked);
    FrontMeans(Rarest, ranked, SortBy(Rarest, ranked), ShareOf(|pairs|, cfg.weakenBottomPct));
  }

  lemma FrontMeans(key: PairStat -> real, pairs: seq<PairStat>, sorted: seq<PairStat>, n: nat)
    requires Sorted(key, sorted) && multiset(sorted) == multiset(pairs) && n <= |sorted|
    ensures forall p :: p in sorted[..n] ==> p in pairs
    ensures forall i, j :: 0 <= i < j < n ==> key(sorted[i]) <= key(sorted[j])
    ensures forall p, o :: p in sorted[..n] && o in pairs && o !in sorted[..n] ==> key(p) <= key(o)
  {
    SameElements(pairs, sorted);
    forall p, o | p in sorted[..n] && o in pairs && o !in sorted[..n] ensures key(p) <= key(o) {
      var i :| 0 <= i < n && sorted[i] == p;
      var j :| 0 <= j < |sorted| && sorted[j] == o;
      assert j < n ==> sorted[..n][j] == o;
    }
  }
}
