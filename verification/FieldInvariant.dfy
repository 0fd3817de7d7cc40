/** What every reachable field satisfies, and the relation between a live field and its replay. */
module FieldInvariant {
  import opened Basics
  import opened Cells
  import opened FieldModel

  /** A cell is stored under its own id; ids and links are below `bound`; exactly `gone` are dead. */
  ghost predicate CellOk(cells: CellMap, bound: NodeId, gone: set<NodeId>, id: NodeId) {
    (id in gone ==> id in cells) &&
    (id in cells ==>
      cells[id].id == id && id < bound && (cells[id].state.Dead? <==> id in gone) &&
      forall to :: to in cells[id].links ==> to < bound)
  }

  ghost predicate CellsOk(cells: CellMap, bound: NodeId, gone: set<NodeId>) {
    forall id :: CellOk(cells, bound, gone, id)
  }

  /** A tracked edge is a current link with a score in range; a link between two cells is tracked. */
  ghost predicate EdgeOk(cells: CellMap, scores: Scores, e: Edge) {
    (e in scores ==> e.from in cells && e.to in cells[e.from].links && MIN_SCORE <= scores[e] <= MAX_SCORE) &&
    (e.from in cells && e.to in cells[e.from].links && e.to in cells ==> e in scores)
  }

  ghost predicate EdgesOk(cells: CellMap, scores: Scores) {
    forall e :: EdgeOk(cells, scores, e)
  }

  ghost predicate WellFormed(f: Field) {
    CellsOk(f.cells, f.nextId, {}) && EdgesOk(f.cells, f.scores)
  }

  /** Equal, or the live score was clamped by at most EPSILON without a journal entry. */
  ghost predicate Close(replayed: real, live: real) {
    replayed == live || ((live == MIN_SCORE || live == MAX_SCORE) && Abs(replayed - live) <= EPSILON)
  }

  ghost predicate ScoreAgrees(replayed: Scores, live: Scores, gone: set<NodeId>, e: Edge) {
    if e.from in gone || e.to in gone then Score(replayed, e) == 1.0
    else Close(Score(replayed, e), Score(live, e))
  }

  ghost predicate ScoresAgree(replayed: Scores, live: Scores, gone: set<NodeId>) {
    forall e :: ScoreAgrees(replayed, live, gone, e)
  }

  ghost predicate ShapeAgrees(replayed: CellMap, live: CellMap, gone: set<NodeId>, id: NodeId) {
    (id in replayed <==> id in live && id !in gone) &&
    (id in replayed ==> SameShape(replayed[id], live[id]))
  }

  ghost predicate ShapesAgree(replayed: CellMap, live: CellMap, gone: set<NodeId>) {
    forall id :: ShapeAgrees(replayed, live, gone, id)
  }

  /** Live field and replay are both sound below `bound` and agree, the replay having buried `gone`. */
  ghost predicate Twins(r: Field, f: Field, bound: NodeId, gone: set<NodeId>) {
    r.nextId == bound && r.nowMs == f.nowMs &&
    CellsOk(f.cells, bound, gone) && CellsOk(r.cells, bound, {}) && ShapesAgree(r.cells, f.cells, gone) &&
    EdgesOk(f.cells, f.scores) && EdgesOk(r.cells, r.scores) && ScoresAgree(r.scores, f.scores, gone)
  }

  /** Replay `r` reproduces the live field `f`: ids, patterns, links, next id, clock and scores. */
  ghost predicate Agrees(r: Field, f: Field) {
    Twins(r, f, f.nextId, {})
  }

  /** Replay also reproduces the vital signs of every cell that is not `pending`. */
  ghost predicate Settled(r: Field, f: Field, pending: set<NodeId>) {
    forall id :: id in r.cells && id in f.cells && id !in pending ==> SameVitals(r.cells[id], f.cells[id])
  }

  ghost predicate Consistent(s: Sys) {
    Agrees(Replay(s.log), s.f)
  }

  lemma ReplaySnoc(log: seq<EventDelta>, d: EventDelta)
    ensures Replay(log + [d]) == Apply(Replay(log), d)
  {
    assert (log + [d])[..|log|] == log;
  }

  // ---- Single deltas ------------------------------------------------------

  /** Replacing one cell by one of the same shape keeps a side of the relation. */
  lemma ReshapeKeeps(f: Field, bound: NodeId, gone: set<NodeId>, c: NodeCell)
    requires CellsOk(f.cells, bound, gone) && EdgesOk(f.cells, f.scores)
    requires c.id in f.cells && c.id !in gone && SameShape(c, f.cells[c.id])
    ensures CellsOk(f.cells[c.id := c], bound, if c.state.Dead? then gone + {c.id} else gone)
    ensures EdgesOk(f.cells[c.id := c], f.scores)
  {
    var cells := f.cells[c.id := c];
    var dead := if c.state.Dead? then gone + {c.id} else gone;
    forall id ensures CellOk(cells, bound, dead, id) {
      assert CellOk(f.cells, bound, gone, id);
    }
    forall e ensures EdgeOk(cells, f.scores, e) {
      assert EdgeOk(f.cells, f.scores, e);
    }
  }

  lemma ReshapeKeepsTwins(r: Field, f: Field, bound: NodeId, gone: set<NodeId>, rc: NodeCell, c: NodeCell)
    requires Twins(r, f, bound, gone)
    requires c.id in r.cells && c.id in f.cells && rc.id == c.id && SameShape(rc, c) && SameShape(c, f.cells[c.id])
    requires !rc.state.Dead? && !c.state.Dead?
    ensures Twins(r.(cells := r.cells[c.id := rc]), f.(cells := f.cells[c.id := c]), bound, gone)
  {
    assert ShapeAgrees(r.cells, f.cells, gone, c.id);
    ReshapeKeeps(r, bound, {}, rc);
    ReshapeKeeps(f, bound, gone, c);
    var theirs, ours := r.cells[c.id := rc], f.cells[c.id := c];
    forall id ensures ShapeAgrees(theirs, ours, gone, id) {
      assert ShapeAgrees(r.cells, f.cells, gone, id);
    }
  }

  lemma TwinsHave(r: Field, f: Field, bound: NodeId, gone: set<NodeId>, id: NodeId)
    requires Twins(r, f, bound, gone) && id in f.cells && id !in gone
    ensures id in r.cells && SameShape(r.cells[id], f.cells[id])
    ensures f.cells[id].id == id && r.cells[id].id == id && id < bound
    ensures !f.cells[id].state.Dead? && !r.cells[id].state.Dead?
  {
    assert ShapeAgrees(r.cells, f.cells, gone, id) && CellOk(f.cells, bound, gone, id) &&
           CellOk(r.cells, bound, {}, id);
  }

  /** Journalled vital signs reach the replay; nothing else moves. */
  lemma EnergyKeepsTwins(r: Field, f: Field, bound: NodeId, gone: set<NodeId>, c: NodeCell)
    requires Twins(r, f, bound, gone)
    requires c.id in f.cells && c.id !in gone && SameShape(c, f.cells[c.id]) && !c.state.Dead?
    ensures Twins(Apply(r, EnergyOf(c)), f.(cells := f.cells[c.id := c]), bound, gone)
    ensures c.id in r.cells && SameVitals(Apply(r, EnergyOf(c)).cells[c.id], c)
    ensures forall o :: o in r.cells && o != c.id ==> Apply(r, EnergyOf(c)).cells[o] == r.cells[o]
  {
    TwinsHave(r, f, bound, gone, c.id);
    ReshapeKeepsTwins(r, f, bound, gone, Apply(r, EnergyOf(c)).cells[c.id], c);
  }

  lemma SleepKeepsTwins(r: Field, f: Field, bound: NodeId, gone: set<NodeId>, id: NodeId)
    requires Twins(r, f, bound, gone) && id in f.cells && id !in gone
    ensures Twins(Apply(r, SleepDelta(id)), f, bound, gone)
    ensures forall o :: o in r.cells && o != id ==> Apply(r, SleepDelta(id)).cells[o] == r.cells[o]
  {
    TwinsHave(r, f, bound, gone, id);
    ReshapeKeepsTwins(r, f, bound, gone, r.cells[id].(state := Sleep), f.cells[id]);
    assert f.cells[id := f.cells[id]] == f.cells;
  }

  /** One burial in the replay: the id disappears, tracking is rebuilt and purged. */
  lemma BurialKeeps(r: Field, bound: NodeId, id: NodeId)
    requires CellsOk(r.cells, bound, {}) && EdgesOk(r.cells, r.scores)
    ensures var r' := Apply(r, DeadDelta(id));
            CellsOk(r'.cells, bound, {}) && EdgesOk(r'.cells, r'.scores) &&
            forall e :: Score(r'.scores, e) == if e.from == id || e.to == id then 1.0 else Score(r.scores, e)
  {
    var r' := Apply(r, DeadDelta(id));
    forall o ensures CellOk(r'.cells, bound, {}, o) {
      assert CellOk(r.cells, bound, {}, o);
    }
    forall e ensures EdgeOk(r'.cells, r'.scores, e) {
      assert EdgeOk(r.cells, r.scores, e);
    }
  }

  /** A death takes effect in the replay at once, in the live field only when the tick ends. */
  lemma DeathKeepsTwins(r: Field, f: Field, bound: NodeId, gone: set<NodeId>, c: NodeCell)
    requires Twins(r, f, bound, gone)
    requires c.id in f.cells && c.id !in gone && SameShape(c, f.cells[c.id]) && c.state.Dead?
    ensures var r' := Apply(Apply(r, DeadDelta(c.id)), EnergyOf(c));
            Twins(r', f.(cells := f.cells[c.id := c]), bound, gone + {c.id}) && r'.cells == r.cells - {c.id}
  {
    var r' := Apply(r, DeadDelta(c.id));
    assert Apply(r', EnergyOf(c)) == r';
    BurialKeeps(r, bound, c.id);
    ReshapeKeeps(f, bound, gone, c);
    var cells, dead := f.cells[c.id := c], gone + {c.id};
    forall id ensures ShapeAgrees(r'.cells, cells, dead, id) {
      assert ShapeAgrees(r.cells, f.cells, gone, id);
    }
    forall e ensures ScoreAgrees(r'.scores, f.scores, dead, e) {
      assert ScoreAgrees(r.scores, f.scores, gone, e);
    }
  }

  /** A linkless cell with a new id keeps a field sound. */
  lemma AttachKeeps(f: Field, bound: NodeId, c: NodeCell)
    requires CellsOk(f.cells, bound, {}) && EdgesOk(f.cells, f.scores)
    requires c.id == bound && c.links == {} && !c.state.Dead?
    ensures CellsOk(f.cells[c.id := c], bound + 1, {}) && EdgesOk(f.cells[c.id := c], f.scores)
    ensures c.id !in f.cells && Attach(f, c) == f.(cells := f.cells[c.id := c])
  {
    var next := bound + 1;
    assert OutEdges(c) == {};
    assert Track(f.scores, OutEdges(c)) == f.scores;
    assert CellOk(f.cells, bound, {}, c.id);
    var cells := f.cells[c.id := c];
    forall id ensures CellOk(cells, next, {}, id) {
      assert CellOk(f.cells, bound, {}, id);
    }
    forall e ensures EdgeOk(cells, f.scores, e) {
      assert EdgeOk(f.cells, f.scores, e) && CellOk(f.cells, bound, {}, e.from);
    }
  }

  lemma SpawnKeepsTwins(r: Field, f: Field, bound: NodeId, c: NodeCell)
    requires Twins(r, f, bound, {})
    requires c.id == bound && c.links == {} && !c.state.Dead?
    ensures Twins(Apply(r, SpawnDelta(Snapshot(c))), Attach(f, c), bound + 1, {})
    ensures Apply(r, SpawnDelta(Snapshot(c))).cells == r.cells[c.id := c]
    ensures Attach(f, c).cells == f.cells[c.id := c]
  {
    assert ToNode(Snapshot(c)) == c;
    AttachKeeps(r, bound, c);
    AttachKeeps(f, bound, c);
    var theirs, ours := r.cells[c.id := c], f.cells[c.id := c];
    forall id ensures ShapeAgrees(theirs, ours, {}, id) {
      assert ShapeAgrees(r.cells, f.cells, {}, id);
    }
  }

  lemma LinkKeeps(f: Field, bound: NodeId, from: NodeId, to: NodeId)
    requires CellsOk(f.cells, bound, {}) && EdgesOk(f.cells, f.scores) && to < bound
    ensures var f' := AddLink(f, from, to); CellsOk(f'.cells, bound, {}) && EdgesOk(f'.cells, f'.scores)
  {
    var f' := AddLink(f, from, to);
    forall id ensures CellOk(f'.cells, bound, {}, id) {
      assert CellOk(f.cells, bound, {}, id);
    }
    forall e ensures EdgeOk(f'.cells, f'.scores, e) {
      assert EdgeOk(f.cells, f.scores, e);
    }
  }

  lemma LinkKeepsTwins(r: Field, f: Field, bound: NodeId, from: NodeId, to: NodeId)
    requires Twins(r, f, bound, {}) && from in f.cells && to < bound
    ensures Twins(Apply(r, LinkDelta(from, to)), AddLink(f, from, to), bound, {})
  {
    var r', f' := AddLink(r, from, to), AddLink(f, from, to);
    LinkKeeps(r, bound, from, to);
    LinkKeeps(f, bound, from, to);
    assert ShapeAgrees(r.cells, f.cells, {}, from);
    forall id ensures ShapeAgrees(r'.cells, f'.cells, {}, id) {
      assert ShapeAgrees(r.cells, f.cells, {}, id);
    }
    forall e ensures ScoreAgrees(r'.scores, f'.scores, {}, e) {
      assert ScoreAgrees(r.scores, f.scores, {}, e);
    }
  }
}
