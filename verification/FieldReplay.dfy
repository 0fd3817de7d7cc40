/** Replay refinement: folding the journal gives back the live field, for every run. */
module FieldReplay {
  import opened Basics
  import opened Cells
  import opened FieldModel
  import opened FieldInvariant

  ghost predicate PassTwins(p: Pass, bound: NodeId, gone: set<NodeId>) {
    Twins(Replay(p.log), p.f, bound, gone)
  }

  // ---- tick_all -----------------------------------------------------------

  lemma {:induction false} MetaboliseAllTwins(p: Pass, ids: seq<NodeId>, dtMs: nat, env: TickEnv, bound: NodeId)
    requires PassTwins(p, bound, {}) && forall id :: id in ids ==> id in p.f.cells
    ensures var q := MetaboliseAll(p, ids, dtMs, env);
            PassTwins(q, bound, {}) && q.born == p.born && q.doomed == p.doomed &&
            q.f.nextId == p.f.nextId && q.f.nowMs == p.f.nowMs
    decreases |ids|
  {
    if ids != [] {
      var q := Metabolise(p, ids[0], dtMs, env);
      var c := q.f.cells[ids[0]];
      TwinsHave(Replay(p.log), p.f, bound, {}, ids[0]);
      ReplaySnoc(p.log, EnergyOf(c));
      EnergyKeepsTwins(Replay(p.log), p.f, bound, {}, c);
      MetaboliseAllTwins(q, ids[1..], dtMs, env, bound);
    }
  }

  /** Children waiting to be attached: consecutive new ids, no links, parents among `keys`. */
  ghost predicate BornOk(born: seq<(NodeId, NodeCell)>, bound: NodeId, keys: set<NodeId>) {
    forall i :: 0 <= i < |born| ==>
      born[i].0 in keys && born[i].1.id == bound + i && born[i].1.links == {} && !born[i].1.state.Dead?
  }

  lemma DivideTwins(p: Pass, id: NodeId, variation: real, bound: NodeId)
    requires PassTwins(p, bound, {}) && id in p.f.cells
    requires BornOk(p.born, bound, p.f.cells.Keys) && p.f.nextId == bound + |p.born|
    ensures var q := Divide(p, id, variation);
            PassTwins(q, bound, {}) && q.doomed == p.doomed && q.f.cells.Keys == p.f.cells.Keys &&
            BornOk(q.born, bound, q.f.cells.Keys) && q.f.nextId == bound + |q.born| && q.f.nowMs == p.f.nowMs
  {
    var r := Replay(p.log);
    TwinsHave(r, p.f, bound, {}, id);
    var prior := p.f.cells[id];
    if Divides(prior) {
      var c := Halved(prior);
      var d := AffinityDelta(id, c.affinity);
      ReplaySnoc(p.log, d);
      ReplaySnoc(p.log + [d], EnergyOf(c));
      assert p.log + [d, EnergyOf(c)] == p.log + [d] + [EnergyOf(c)];
      ReshapeKeepsTwins(r, p.f, bound, {}, Apply(r, d).cells[id], prior);
      assert p.f.cells[id := prior] == p.f.cells;
      EnergyKeepsTwins(Apply(r, d), p.f, bound, {}, c);
    }
  }

  lemma {:induction false} DivideAllTwins(p: Pass, ids: seq<NodeId>, variation: map<NodeId, real>, bound: NodeId)
    requires PassTwins(p, bound, {}) && forall id :: id in ids ==> id in p.f.cells && id in variation
    requires BornOk(p.born, bound, p.f.cells.Keys) && p.f.nextId == bound + |p.born|
    ensures var q := DivideAll(p, ids, variation);
            PassTwins(q, bound, {}) && q.doomed == p.doomed && q.f.nowMs == p.f.nowMs &&
            BornOk(q.born, bound, q.f.cells.Keys) && q.f.nextId == bound + |q.born|
    decreases |ids|
  {
    if ids != [] {
      DivideTwins(p, ids[0], variation[ids[0]], bound);
      DivideAllTwins(Divide(p, ids[0], variation[ids[0]]), ids[1..], variation, bound);
    }
  }

  lemma GraftTwins(p: Pass, parent: NodeId, child: NodeCell, bound: NodeId, pending: set<NodeId>)
    requires PassTwins(p, bound, {}) && Settled(Replay(p.log), p.f, pending)
    requires parent in p.f.cells && child.id == bound && child.links == {} && !child.state.Dead?
    ensures var q := Graft(p, parent, child);
            PassTwins(q, bound + 1, {}) && Settled(Replay(q.log), q.f, pending) &&
            q.doomed == p.doomed && q.f.nextId == p.f.nextId && q.f.nowMs == p.f.nowMs &&
            p.f.cells.Keys <= q.f.cells.Keys
  {
    hide Replay;
    var r := Replay(p.log);
    var d, d' := LinkDelta(parent, bound), DivideDelta(parent, Snapshot(child));
    assert CellOk(p.f.cells, bound, {}, parent);
    assert AddLink(p.f, parent, bound).cells[parent].links != p.f.cells[parent].links;
    ReplaySnoc(p.log, d);
    ReplaySnoc(p.log + [d], d');
    // Attaching first and linking second gives the same field and keeps ids below the bound throughout.
    SpawnKeepsTwins(r, p.f, bound, child);
    LinkKeepsTwins(Apply(r, SpawnDelta(Snapshot(child))), Attach(p.f, child), bound + 1, parent, bound);
    TwinsHave(r, p.f, bound, {}, parent);
    AttachAfterLink(p.f, parent, child, bound);
    AttachAfterLink(r, parent, child, bound);
    assert ToNode(Snapshot(child)) == child;
  }

  lemma AttachAfterLink(f: Field, parent: NodeId, child: NodeCell, bound: NodeId)
    requires CellsOk(f.cells, bound, {}) && EdgesOk(f.cells, f.scores) && parent in f.cells
    requires child.id == bound && child.links == {}
    ensures Attach(AddLink(f, parent, bound), child) == AddLink(Attach(f, child), parent, bound)
    ensures Attach(AddLink(f, parent, bound), child).cells.Keys == f.cells.Keys + {bound}
  {
    assert CellOk(f.cells, bound, {}, parent) && CellOk(f.cells, bound, {}, bound);
    assert OutEdges(child) == {};
    assert Track(f.scores, {}) == f.scores;
    var linked := AddLink(f, parent, bound);
    assert Track(linked.scores, {}) == linked.scores;
    assert Attach(linked, child).cells == AddLink(Attach(f, child), parent, bound).cells;
  }

  lemma BornRest(born: seq<(NodeId, NodeCell)>, bound: NodeId, keys: set<NodeId>, more: set<NodeId>)
    requires born != [] && BornOk(born, bound, keys) && keys <= more
    ensures BornOk(born[1..], bound + 1, more)
  {
  }

  lemma {:induction false} GraftAllTwins(p: Pass, born: seq<(NodeId, NodeCell)>, bound: NodeId, pending: set<NodeId>)
    requires PassTwins(p, bound, {}) && BornOk(born, bound, p.f.cells.Keys) && Settled(Replay(p.log), p.f, pending)
    ensures var q := GraftAll(p, born);
            PassTwins(q, bound + |born|, {}) && Settled(Replay(q.log), q.f, pending) &&
            q.doomed == p.doomed && q.f.nextId == p.f.nextId && q.f.nowMs == p.f.nowMs
    decreases |born|
  {
    hide Graft, Replay;
    if born != [] {
      var q := Graft(p, born[0].0, born[0].1);
      GraftTwins(p, born[0].0, born[0].1, bound, pending);
      BornRest(born, bound, p.f.cells.Keys, q.f.cells.Keys);
      GraftAllTwins(q, born[1..], bound + 1, pending);
    }
  }

  lemma CullTwins(p: Pass, id: NodeId, env: TickEnv, bound: NodeId, pending: set<NodeId>)
    requires PassTwins(p, bound, Elems(p.doomed)) && Settled(Replay(p.log), p.f, pending + {id})
    requires id in p.f.cells && id !in p.doomed
    ensures var q := Cull(p, id, env);
            PassTwins(q, bound, Elems(q.doomed)) && Settled(Replay(q.log), q.f, pending) &&
            q.f.nextId == p.f.nextId && q.f.nowMs == p.f.nowMs &&
            q.f.cells.Keys == p.f.cells.Keys && Elems(q.doomed) <= Elems(p.doomed) + {id}
  {
    hide Replay;
    var r, gone := Replay(p.log), Elems(p.doomed);
    TwinsHave(r, p.f, bound, gone, id);
    var prior := p.f.cells[id];
    var c := SleepOrDie(prior, p.f.nowMs, SleepShift(prior, env));
    var q := Cull(p, id, env);
    if c.state.Dead? {
      assert q.log == p.log + [DeadDelta(id)] + [EnergyOf(c)];
      ReplaySnoc(p.log, DeadDelta(id));
      ReplaySnoc(p.log + [DeadDelta(id)], EnergyOf(c));
      DeathKeepsTwins(r, p.f, bound, gone, c);
      assert Elems(q.doomed) == gone + {id};
    } else if !prior.state.Sleep? && c.state.Sleep? {
      assert q.doomed == p.doomed;
      assert q.log == p.log + [SleepDelta(id)] + [EnergyOf(c)];
      ReplaySnoc(p.log, SleepDelta(id));
      ReplaySnoc(p.log + [SleepDelta(id)], EnergyOf(c));
      SleepKeepsTwins(r, p.f, bound, gone, id);
      EnergyKeepsTwins(Apply(r, SleepDelta(id)), p.f, bound, gone, c);
    } else {
      assert q.doomed == p.doomed;
      assert q.log == p.log + [EnergyOf(c)];
      ReplaySnoc(p.log, EnergyOf(c));
      EnergyKeepsTwins(r, p.f, bound, gone, c);
    }
  }

  lemma {:induction false} CullAllTwins(p: Pass, ids: seq<NodeId>, env: TickEnv, bound: NodeId)
    requires PassTwins(p, bound, Elems(p.doomed)) && Settled(Replay(p.log), p.f, Elems(ids))
    requires Distinct(ids) && forall id :: id in ids ==> id in p.f.cells && id !in p.doomed
    ensures var q := CullAll(p, ids, env);
            PassTwins(q, bound, Elems(q.doomed)) && Settled(Replay(q.log), q.f, {}) &&
            q.f.nextId == p.f.nextId && q.f.nowMs == p.f.nowMs
    decreases |ids|
  {
    hide Cull, Replay, Twins;
    if ids == [] {
      assert Elems(ids) == {};
    } else {
      var q := Cull(p, ids[0], env);
      assert Elems(ids) == Elems(ids[1..]) + {ids[0]};
      CullTwins(p, ids[0], env, bound, Elems(ids[1..]));
      forall id | id in ids[1..] ensures id in q.f.cells && id !in q.doomed {
        assert id != ids[0];
        assert id !in Elems(q.doomed);
      }
      CullAllTwins(q, ids[1..], env, bound);
    }
  }

  lemma {:induction false} PurgeAllScores(scores: Scores, ids: seq<NodeId>)
    ensures forall e :: e in PurgeAll(scores, ids) <==> e in scores && e.from !in ids && e.to !in ids
    ensures forall e :: e in PurgeAll(scores, ids) ==> PurgeAll(scores, ids)[e] == scores[e]
    decreases |ids|
  {
    if ids != [] {
      PurgeAllScores(Purge(scores, ids[0]), ids[1..]);
    }
  }

  /** Burying the dead in one batch gives what the replay reached one death at a time. */
  lemma BuryAgrees(p: Pass)
    requires PassTwins(p, p.f.nextId, Elems(p.doomed))
    ensures Consistent(Bury(p))
    ensures forall id :: id in Bury(p).f.cells ==> id in p.f.cells && Bury(p).f.cells[id] == p.f.cells[id]
  {
    var r, f, gone := Replay(p.log), Bury(p).f, Elems(p.doomed);
    var tracked := if p.doomed != [] || |Living(p.f.cells)| != |p.f.cells|
                   then Track(p.f.scores, Edges(Living(p.f.cells)))
                   else p.f.scores;
    PurgeAllScores(tracked, p.doomed);
    forall id ensures CellOk(f.cells, f.nextId, {}, id) && ShapeAgrees(r.cells, f.cells, {}, id) {
      assert CellOk(p.f.cells, f.nextId, gone, id) && ShapeAgrees(r.cells, p.f.cells, gone, id);
    }
    forall e ensures EdgeOk(f.cells, f.scores, e) {
      assert EdgeOk(p.f.cells, p.f.scores, e);
      assert CellOk(p.f.cells, f.nextId, gone, e.from) && CellOk(p.f.cells, f.nextId, gone, e.to);
    }
    forall e ensures ScoreAgrees(r.scores, f.scores, {}, e) {
      assert ScoreAgrees(r.scores, p.f.scores, gone, e);
    }
  }

  /** The growing half of a tick: everything up to the attached children. */
  function Grown(s: Sys, dtMs: nat, env: TickEnv, order: seq<NodeId>, variation: map<NodeId, real>): (p: Pass)
    requires Enumerates(order, s.f.cells.Keys) && variation.Keys == s.f.cells.Keys
    ensures s.f.cells.Keys <= p.f.cells.Keys
    ensures TickAll(s, dtMs, env, order, variation) == Bury(CullAll(p, order, env))
  {
    var now := SatAdd(s.f.nowMs, dtMs);
    var p0 := Pass(s.f.(nowMs := now), s.log + [TickDelta(now)], [], []);
    var p2 := DivideAll(MetaboliseAll(p0, order, dtMs, env), order, variation);
    GraftAll(p2, p2.born)
  }

  lemma GrownTwins(s: Sys, dtMs: nat, env: TickEnv, order: seq<NodeId>, variation: map<NodeId, real>)
    requires Consistent(s) && Enumerates(order, s.f.cells.Keys) && variation.Keys == s.f.cells.Keys
    ensures var p := Grown(s, dtMs, env, order, variation);
            PassTwins(p, p.f.nextId, {}) && p.doomed == [] && Settled(Replay(p.log), p.f, s.f.cells.Keys)
  {
    hide MetaboliseAll, DivideAll, GraftAll, Replay;
    var bound := s.f.nextId;
    var now := SatAdd(s.f.nowMs, dtMs);
    var p0 := Pass(s.f.(nowMs := now), s.log + [TickDelta(now)], [], []);
    ReplaySnoc(s.log, TickDelta(now));
    MetaboliseAllTwins(p0, order, dtMs, env, bound);
    var p1 := MetaboliseAll(p0, order, dtMs, env);
    DivideAllTwins(p1, order, variation, bound);
    var p2 := DivideAll(p1, order, variation);
    assert Settled(Replay(p2.log), p2.f, p2.f.cells.Keys);
    GraftAllTwins(p2, p2.born, bound, p2.f.cells.Keys);
  }

  /** After a tick the replay agrees, and every surviving cell has its live vital signs again. */
  lemma TickAgrees(s: Sys, dtMs: nat, env: TickEnv, order: seq<NodeId>, variation: map<NodeId, real>)
    requires Consistent(s) && Enumerates(order, s.f.cells.Keys) && variation.Keys == s.f.cells.Keys
    ensures var t := TickAll(s, dtMs, env, order, variation);
            Consistent(t) && Settled(Replay(t.log), t.f, {})
  {
    var p := Grown(s, dtMs, env, order, variation);
    GrownTwins(s, dtMs, env, order, variation);
    assert Elems(p.doomed) == {} && Elems(order) == s.f.cells.Keys;
    CullAllTwins(p, order, env, p.f.nextId);
    BuryAgrees(CullAll(p, order, env));
  }

  // ---- The other operations ----------------------------------------------

  lemma AddAgrees(s: Sys, c: NodeCell)
    requires Consistent(s) && c.id == s.f.nextId && c.links == {} && !c.state.Dead?
    ensures Consistent(Sys(Attach(s.f, c).(nextId := s.f.nextId + 1), s.log + [SpawnDelta(Snapshot(c))]))
  {
    ReplaySnoc(s.log, SpawnDelta(Snapshot(c)));
    SpawnKeepsTwins(Replay(s.log), s.f, s.f.nextId, c);
  }

  lemma {:induction false} LinkToAgrees(s: Sys, sources: seq<NodeId>, id: NodeId)
    requires Consistent(s) && id < s.f.nextId && forall x :: x in sources ==> x in s.f.cells
    ensures Consistent(LinkTo(s, sources, id))
    decreases |sources|
  {
    hide Replay;
    if sources != [] {
      ReplaySnoc(s.log, LinkDelta(sources[0], id));
      LinkKeepsTwins(Replay(s.log), s.f, s.f.nextId, sources[0], id);
      LinkToAgrees(Sys(AddLink(s.f, sources[0], id), s.log + [LinkDelta(sources[0], id)]), sources[1..], id);
    }
  }

  lemma InjectAgrees(s: Sys, seed: SeedParams, energy: real, sources: seq<NodeId>)
    requires Consistent(s) && forall id :: id in sources ==> id in s.f.cells
    ensures Consistent(Inject(s, seed, energy, sources))
  {
    hide Replay, Twins, Settled;
    if |s.f.cells| <= MAX_INJECT_CELLS {
      var c := Bud(s.f, seed, energy);
      AddAgrees(s, c);
      LinkToAgrees(Sys(Attach(s.f, c).(nextId := s.f.nextId + 1), s.log + [SpawnDelta(Snapshot(c))]), sources, c.id);
    }
  }

  /** Cells and scores of a trimmed field while the victims in `todo` are not purged yet. */
  ghost predicate TrimTwins(r: Field, f: Field, todo: set<NodeId>) {
    r.nextId == f.nextId && r.nowMs == f.nowMs &&
    CellsOk(r.cells, r.nextId, {}) && EdgesOk(r.cells, r.scores) && CellsOk(f.cells, f.nextId, {}) &&
    f.cells.Keys !! todo &&
    (forall id :: ShapeAgrees(f.cells, r.cells, todo, id)) &&
    (forall e: Edge :: e.from !in todo && e.to !in todo ==> EdgeOk(f.cells, f.scores, e)) &&
    ScoresAgree(r.scores, f.scores, {})
  }

  lemma {:induction false} BuryEachAgrees(s: Sys, victims: seq<NodeId>)
    requires Distinct(victims) && TrimTwins(Replay(s.log), s.f, Elems(victims))
    ensures TrimTwins(Replay(BuryEach(s, victims).log), BuryEach(s, victims).f, {})
    decreases |victims|
  {
    hide Replay;
    if victims == [] {
      assert Elems(victims) == {};
    } else {
      var id, r := victims[0], Replay(s.log);
      var t := Sys(s.f.(scores := Purge(s.f.scores, id)), s.log + [DeadDelta(id)]);
      ReplaySnoc(s.log, DeadDelta(id));
      BurialKeeps(r, r.nextId, id);
      BurialStep(r, s.f, id, Elems(victims), Elems(victims[1..]));
      BuryEachAgrees(t, victims[1..]);
    }
  }

  lemma BurialStep(r: Field, f: Field, id: NodeId, todo: set<NodeId>, rest: set<NodeId>)
    requires TrimTwins(r, f, todo) && id in todo && rest == todo - {id}
    ensures TrimTwins(Apply(r, DeadDelta(id)), f.(scores := Purge(f.scores, id)), rest)
  {
    BurialKeeps(r, r.nextId, id);
    var r', scores := Apply(r, DeadDelta(id)), Purge(f.scores, id);
    forall o ensures ShapeAgrees(f.cells, r'.cells, rest, o) {
      assert ShapeAgrees(f.cells, r.cells, todo, o);
    }
    forall e: Edge | e.from !in rest && e.to !in rest ensures EdgeOk(f.cells, scores, e) {
      if e.from != id && e.to != id {
        assert EdgeOk(f.cells, f.scores, e);
      }
    }
    forall e ensures ScoreAgrees(r'.scores, scores, {}, e) {
      assert ScoreAgrees(r.scores, f.scores, {}, e);
    }
  }

  lemma TrimStarts(s: Sys, naps: set<NodeId>, kills: set<NodeId>)
    requires Consistent(s)
    ensures var cells := Survivors(Trimmed(s.f, naps, kills));
            var scores := if |cells| != |s.f.cells| then Track(s.f.scores, Edges(cells)) else s.f.scores;
            TrimTwins(Replay(s.log), s.f.(cells := cells, scores := scores), Victims(Trimmed(s.f, naps, kills)))
  {
    hide Replay;
    var r := Replay(s.log);
    var trimmed := Trimmed(s.f, naps, kills);
    var cells, todo := Survivors(trimmed), Victims(trimmed);
    var scores := if |cells| != |s.f.cells| then Track(s.f.scores, Edges(cells)) else s.f.scores;
    forall id ensures CellOk(cells, s.f.nextId, {}, id) && ShapeAgrees(cells, r.cells, todo, id) {
      assert CellOk(s.f.cells, s.f.nextId, {}, id) && ShapeAgrees(r.cells, s.f.cells, {}, id);
    }
    forall e: Edge | e.from !in todo && e.to !in todo ensures EdgeOk(cells, scores, e) {
      assert EdgeOk(s.f.cells, s.f.scores, e);
      assert CellOk(s.f.cells, s.f.nextId, {}, e.from) && CellOk(s.f.cells, s.f.nextId, {}, e.to);
    }
    forall e ensures ScoreAgrees(r.scores, scores, {}, e) {
      assert ScoreAgrees(r.scores, s.f.scores, {}, e);
    }
  }

  lemma TrimAgrees(s: Sys, naps: set<NodeId>, kills: set<NodeId>, order: seq<NodeId>)
    requires Consistent(s) && Enumerates(order, Victims(Trimmed(s.f, naps, kills)))
    ensures Consistent(Trim(s, naps, kills, order))
  {
    hide Replay, Trimmed, Survivors, Victims, Track, Edges;
    var cells := Survivors(Trimmed(s.f, naps, kills));
    var scores := if |cells| != |s.f.cells| then Track(s.f.scores, Edges(cells)) else s.f.scores;
    var t := Sys(s.f.(cells := cells, scores := scores), s.log);
    TrimStarts(s, naps, kills);
    assert Elems(order) == Victims(Trimmed(s.f, naps, kills));
    BuryEachAgrees(t, order);
    var u := BuryEach(t, order);
    var r := Replay(u.log);
    forall id ensures ShapeAgrees(r.cells, u.f.cells, {}, id) {
      assert ShapeAgrees(u.f.cells, r.cells, {}, id);
    }
  }

  /** A journalled score is exact; an unreported one was clamped by at most EPSILON. */
  lemma AdjustAgrees(s: Sys, e: Edge, step: real, why: Cause)
    requires Consistent(s) && Abs(step) > EPSILON
    ensures Consistent(Adjust(s, e, step, why))
  {
    hide Replay;
    var t, r := Adjust(s, e, step, why), Replay(s.log);
    var score := Adjusted(s.f, e, step);
    assert EdgeOk(s.f.cells, s.f.scores, e) && ScoreAgrees(r.scores, s.f.scores, {}, e);
    if Linked(s.f, e) {
      ReplaySnoc(s.log, ScoreDelta(why, e, score));
      var r' := Replay(t.log);
      assert ShapeAgrees(r.cells, s.f.cells, {}, e.from);
      forall o ensures EdgeOk(s.f.cells, t.f.scores, o) && EdgeOk(r.cells, r'.scores, o) {
        assert EdgeOk(s.f.cells, s.f.scores, o) && EdgeOk(r.cells, r.scores, o);
      }
      forall o ensures ScoreAgrees(r'.scores, t.f.scores, {}, o) {
        assert ScoreAgrees(r.scores, s.f.scores, {}, o);
      }
    }
  }

  lemma PruneAgrees(s: Sys, e: Edge)
    requires Consistent(s)
    ensures Consistent(Prune(s, e))
  {
    hide Replay;
    if Linked(s.f, e) {
      var d, d' := UnlinkDelta(e.from, e.to), DreamPruneDelta(e.from, e.to);
      ReplaySnoc(s.log, d);
      ReplaySnoc(s.log + [d], d');
      assert s.log + [d, d'] == s.log + [d] + [d'];
      DropKeepsTwins(Replay(s.log), s.f, s.f.nextId, e);
    }
  }

  lemma DropKeeps(f: Field, bound: NodeId, e: Edge)
    requires CellsOk(f.cells, bound, {}) && EdgesOk(f.cells, f.scores) && e.from in f.cells
    ensures var f' := DropLink(f, e.from, e.to); CellsOk(f'.cells, bound, {}) && EdgesOk(f'.cells, f'.scores)
  {
    var f' := DropLink(f, e.from, e.to);
    forall id ensures CellOk(f'.cells, bound, {}, id) {
      assert CellOk(f.cells, bound, {}, id);
    }
    forall o ensures EdgeOk(f'.cells, f'.scores, o) {
      assert EdgeOk(f.cells, f.scores, o);
    }
  }

  lemma DropKeepsTwins(r: Field, f: Field, bound: NodeId, e: Edge)
    requires Twins(r, f, bound, {}) && Linked(f, e)
    ensures var r' := Apply(Apply(r, UnlinkDelta(e.from, e.to)), DreamPruneDelta(e.from, e.to));
            Twins(r', DropLink(f, e.from, e.to), bound, {})
  {
    TwinsHave(r, f, bound, {}, e.from);
    var r', f' := DropLink(r, e.from, e.to), DropLink(f, e.from, e.to);
    assert r'.cells[e.from].links - {e.to} == r'.cells[e.from].links;
    assert r'.scores - {e} == r'.scores;
    assert r'.cells[e.from := r'.cells[e.from]] == r'.cells;
    DropKeeps(r, bound, e);
    DropKeeps(f, bound, e);
    forall id ensures ShapeAgrees(r'.cells, f'.cells, {}, id) {
      assert ShapeAgrees(r.cells, f.cells, {}, id);
    }
    forall o ensures ScoreAgrees(r'.scores, f'.scores, {}, o) {
      assert ScoreAgrees(r.scores, f.scores, {}, o);
    }
  }

  lemma RewireAgrees(s: Sys, id: NodeId, target: NodeId)
    requires Consistent(s) && id in s.f.cells && target in s.f.cells
    ensures Consistent(Rewire(s, id, target))
  {
    hide Replay;
    var d, d' := LinkDelta(id, target), DreamRewireDelta(id, target);
    ReplaySnoc(s.log, d);
    ReplaySnoc(s.log + [d], d');
    assert s.log + [d, d'] == s.log + [d] + [d'];
    TwinsHave(Replay(s.log), s.f, s.f.nextId, {}, id);
    TwinsHave(Replay(s.log), s.f, s.f.nextId, {}, target);
    LinkKeepsTwins(Replay(s.log), s.f, s.f.nextId, id, target);
  }

  lemma {:induction false} AnnounceAgrees(f: Field, log: seq<EventDelta>, ids: seq<NodeId>)
    requires Agrees(Replay(log), f) && forall id :: id in ids ==> id in f.cells
    ensures Agrees(Replay(Announce(f, log, ids)), f)
    decreases |ids|
  {
    hide Replay;
    if ids != [] {
      var c := f.cells[ids[0]];
      TwinsHave(Replay(log), f, f.nextId, {}, ids[0]);
      ReplaySnoc(log, EnergyOf(c));
      EnergyKeepsTwins(Replay(log), f, f.nextId, {}, c);
      assert f.cells[c.id := c] == f.cells;
      AnnounceAgrees(f, log + [EnergyOf(c)], ids[1..]);
    }
  }

  lemma TouchAgrees(s: Sys, cells: CellMap, told: seq<NodeId>)
    requires Consistent(s) && SameCells(s.f.cells, cells) && forall id :: id in told ==> id in cells
    ensures Consistent(Touch(s, cells, told))
  {
    hide Replay;
    var r := Replay(s.log);
    forall id ensures CellOk(cells, s.f.nextId, {}, id) && ShapeAgrees(r.cells, cells, {}, id) {
      assert CellOk(s.f.cells, s.f.nextId, {}, id) && ShapeAgrees(r.cells, s.f.cells, {}, id);
    }
    forall e ensures EdgeOk(cells, s.f.scores, e) {
      assert EdgeOk(s.f.cells, s.f.scores, e);
    }
    AnnounceAgrees(s.f.(cells := cells), s.log, told);
  }

  // ---- Runs ---------------------------------------------------------------

  lemma StepAgrees(s: Sys, op: Op)
    requires Consistent(s) && Enabled(s.f, op)
    ensures Consistent(Step(s, op))
    ensures op.TickOp? || op.RestartOp? ==> Settled(Replay(Step(s, op).log), Step(s, op).f, {})
  {
    hide Replay;
    match op {
      case AddOp(seed) => AddAgrees(s, FromSeed(s.f.nextId, seed));
      case InjectOp(seed, energy, sources) => InjectAgrees(s, seed, energy, sources);
      case TickOp(dtMs, env, order, variation) => TickAgrees(s, dtMs, env, order, variation);
      case TrimOp(naps, kills, order) => TrimAgrees(s, naps, kills, order);
      case AdjustOp(edge, step, why) => AdjustAgrees(s, edge, step, why);
      case PruneOp(edge) => PruneAgrees(s, edge);
      case RewireOp(id, target) => RewireAgrees(s, id, target);
      case TouchOp(cells, told) => TouchAgrees(s, cells, told);
      case RestartOp => RestartAgrees(s);
    }
  }

  lemma RestartAgrees(s: Sys)
    requires Consistent(s)
    ensures Consistent(s.(f := Replay(s.log)))
  {
    hide Replay;
    var r := Replay(s.log);
    forall id ensures ShapeAgrees(r.cells, r.cells, {}, id) {}
    forall e ensures ScoreAgrees(r.scores, r.scores, {}, e) {}
  }

  /**
    Replay refinement. At every point of every run, restarts included, folding the journal gives a
    field with the same ids, patterns, links, next id and clock and, up to the EPSILON change test,
    the same score for every pair; right after a tick it also has the same vital signs.
   */
  lemma {:induction false} RunAgrees(trace: seq<Sys>, ops: seq<Op>, i: nat)
    requires IsRun(trace, ops) && i < |trace|
    ensures Agrees(Replay(trace[i].log), trace[i].f)
    ensures i > 0 && ops[i - 1].TickOp? ==> Settled(Replay(trace[i].log), trace[i].f, {})
  {
    if i == 0 {
      forall id ensures CellOk(EMPTY.cells, EMPTY.nextId, {}, id) && ShapeAgrees(EMPTY.cells, EMPTY.cells, {}, id) {}
      forall e ensures EdgeOk(EMPTY.cells, EMPTY.scores, e) && ScoreAgrees(EMPTY.scores, EMPTY.scores, {}, e) {}
    } else {
      RunAgrees(trace, ops, i - 1);
      StepAgrees(trace[i - 1], ops[i - 1]);
    }
  }

  /** Link graph consistency: what `WellFormed` says, at every point of every run. */
  lemma RunWellFormed(trace: seq<Sys>, ops: seq<Op>, i: nat)
    requires IsRun(trace, ops) && i < |trace|
    ensures var f := trace[i].f;
            (forall id :: id in f.cells ==> f.cells[id].id == id && id < f.nextId && !f.cells[id].state.Dead?) &&
            (forall a, b :: a in f.cells && b in f.cells[a].links ==> b < f.nextId) &&
            (forall e :: e in f.scores ==> Linked(f, e) && MIN_SCORE <= f.scores[e] <= MAX_SCORE) &&
            (forall a, b :: a in f.cells && b in f.cells[a].links && b in f.cells ==> Edge(a, b) in f.scores)
  {
    hide Replay;
    RunAgrees(trace, ops, i);
    var f := trace[i].f;
    forall id | id in f.cells
      ensures f.cells[id].id == id && id < f.nextId && !f.cells[id].state.Dead? &&
              forall b :: b in f.cells[id].links ==> b < f.nextId
    {
      assert CellOk(f.cells, f.nextId, {}, id);
    }
    forall e | e in f.scores ensures Linked(f, e) && MIN_SCORE <= f.scores[e] <= MAX_SCORE {
      assert EdgeOk(f.cells, f.scores, e);
    }
    forall a, b | a in f.cells && b in f.cells[a].links && b in f.cells ensures Edge(a, b) in f.scores {
      assert EdgeOk(f.cells, f.scores, Edge(a, b));
    }
  }

  // ---- Snapshots ----------------------------------------------------------

  /** A field rebuilt from a snapshot: the cells come back, the scores are registered afresh. */
  function Restored(f: Field): Field {
    var cells := map id | id in f.cells :: ToNode(Snapshot(f.cells[id]));
    f.(cells := cells, scores := Track(map[], Edges(cells)))
  }

  /** A snapshot carries every cell exactly but no link score: scores survive only if all are at 1.0. */
  lemma RestoreAgrees(f: Field)
    requires WellFormed(f)
    ensures Restored(f).cells == f.cells && Restored(f).nextId == f.nextId && Restored(f).nowMs == f.nowMs
    ensures WellFormed(Restored(f))
    ensures ScoresAgree(Restored(f).scores, f.scores, {}) <==> forall e :: e in f.scores ==> f.scores[e] == 1.0
  {
    var r := Restored(f);
    assert forall id :: id in f.cells ==> ToNode(Snapshot(f.cells[id])) == f.cells[id];
    assert r.cells == f.cells;
    forall e ensures EdgeOk(r.cells, r.scores, e) {
      assert EdgeOk(f.cells, f.scores, e);
    }
    forall e ensures Score(r.scores, e) == 1.0 {}
    if ScoresAgree(r.scores, f.scores, {}) {
      forall e | e in f.scores ensures f.scores[e] == 1.0 {
        assert ScoreAgrees(r.scores, f.scores, {}, e);
      }
    } else if forall e :: e in f.scores ==> f.scores[e] == 1.0 {
      forall e ensures ScoreAgrees(r.scores, f.scores, {}, e) {}
    }
  }

  /** A reachable field whose snapshot loses a score: two roots, one link, one strengthening. */
  lemma RestoreForgets(seed: SeedParams) returns (trace: seq<Sys>, ops: seq<Op>)
    ensures IsRun(trace, ops)
    ensures var f := trace[|ops|].f;
            Score(f.scores, Edge(1, 2)) == 1.15 && Score(Restored(f).scores, Edge(1, 2)) == 1.0
  {
    var s1 := AddCell(INITIAL, seed);
    var s2 := AddCell(s1, seed);
    var s3 := Rewire(s2, 1, 2);
    var s4 := Adjust(s3, Edge(1, 2), 0.15, Strengthen);
    FourSteps(seed, s1, s2, s3, s4);
    hide *;
    trace, ops := StartRun();
    trace, ops := NextStep(trace, ops, INITIAL, AddOp(seed));
    trace, ops := NextStep(trace, ops, s1, AddOp(seed));
    trace, ops := NextStep(trace, ops, s2, RewireOp(1, 2));
    trace, ops := NextStep(trace, ops, s3, AdjustOp(Edge(1, 2), 0.15, Strengthen));
  }

  lemma StartRun() returns (trace: seq<Sys>, ops: seq<Op>)
    ensures IsRun(trace, ops) && |trace| == |ops| + 1 && trace[|ops|] == INITIAL
  {
    trace, ops := [INITIAL], [];
  }

  lemma NextStep(before: seq<Sys>, done: seq<Op>, s: Sys, op: Op) returns (trace: seq<Sys>, ops: seq<Op>)
    requires IsRun(before, done) && |before| == |done| + 1 && before[|done|] == s && Enabled(s.f, op)
    ensures IsRun(trace, ops) && |trace| == |ops| + 1 && trace[|ops|] == Step(s, op)
  {
    hide Enabled, Step;
    trace, ops := before + [Step(s, op)], done + [op];
  }

  lemma FourSteps(seed: SeedParams, s1: Sys, s2: Sys, s3: Sys, s4: Sys)
    requires s1 == AddCell(INITIAL, seed) && s2 == AddCell(s1, seed) && s3 == Rewire(s2, 1, 2)
    requires s4 == Adjust(s3, Edge(1, 2), 0.15, Strengthen)
    ensures Enabled(INITIAL.f, AddOp(seed)) && s1 == Step(INITIAL, AddOp(seed))
    ensures Enabled(s1.f, AddOp(seed)) && s2 == Step(s1, AddOp(seed))
    ensures Enabled(s2.f, RewireOp(1, 2)) && s3 == Step(s2, RewireOp(1, 2))
    ensures var op := AdjustOp(Edge(1, 2), 0.15, Strengthen); Enabled(s3.f, op) && s4 == Step(s3, op)
    ensures Score(s4.f.scores, Edge(1, 2)) == 1.15 && Score(Restored(s4.f).scores, Edge(1, 2)) == 1.0
  {
    assert s2.f.cells.Keys == {1, 2};
  }
}
