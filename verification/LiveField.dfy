/**
  The cluster field as the program runs it: an object updated in place, with the inverted token
  index that the state machine of FieldModel leaves out. Every operation is proved to be the
  corresponding step of that machine and to keep the index equal to a scan of the cells.
 */
module LiveField {
  import opened Basics
  import opened Cells
  import opened FieldModel
  import opened FieldInvariant
  import FieldReplay

  type Index = map<string, seq<NodeId>>

  /** How often `id` stands in the index under `token`. */
  function Listed(index: Index, token: string, id: NodeId): nat {
    if token in index then multiset(index[token])[id] else 0
  }

  /** How often `token` occurs in the pattern of the live cell `id`. */
  function Occurs(cells: CellMap, token: string, id: NodeId): nat {
    if id in cells then multiset(Tokenize(cells[id].seed.corePattern))[token] else 0
  }

  ghost predicate IndexOk(index: Index, cells: CellMap) {
    forall token, id :: Listed(index, token, id) == Occurs(cells, token, id)
  }

  /** The cells a brute-force scan finds for a list of tokens. */
  function Scan(cells: CellMap, tokens: seq<string>): set<NodeId> {
    set id | id in cells && SharesToken(cells[id].seed.corePattern, tokens)
  }

  /** The cells an impulse may reach: those the scan finds, or all if it finds none. */
  function Pool(cells: CellMap, tokens: seq<string>): (r: set<NodeId>)
    ensures r <= cells.Keys
  {
    if Scan(cells, tokens) == {} then cells.Keys else Scan(cells, tokens)
  }

  function Without(ids: seq<NodeId>, id: NodeId): (r: seq<NodeId>)
    ensures multiset(r) == multiset(ids)[id := 0]
  {
    if ids == [] then []
    else
      assert ids == [ids[0]] + ids[1..];
      if ids[0] == id then Without(ids[1..], id) else [ids[0]] + Without(ids[1..], id)
  }

  function EdgesFrom(cells: CellMap, ids: set<NodeId>): set<Edge> {
    set a, b | a in ids && a in cells && b in cells[a].links :: Edge(a, b)
  }

  lemma IndexReshape(index: Index, cells: CellMap, id: NodeId, c: NodeCell)
    requires IndexOk(index, cells) && id in cells && c.seed.corePattern == cells[id].seed.corePattern
    ensures IndexOk(index, cells[id := c])
  {
    var after := cells[id := c];
    forall token, o ensures Listed(index, token, o) == Occurs(after, token, o) {
      assert Occurs(after, token, o) == Occurs(cells, token, o);
    }
  }

  lemma TrimmedKeys(f: Field, naps: set<NodeId>, kills: set<NodeId>)
    ensures Trimmed(f, naps, kills).Keys == f.cells.Keys && |Trimmed(f, naps, kills)| == |f.cells|
  {
    assert Trimmed(f, naps, kills).Keys == f.cells.Keys;
  }

  lemma LivingAll(cells: CellMap)
    requires |Living(cells)| == |cells|
    ensures Living(cells) == cells
  {
    SubmapWhole(Living(cells), cells);
  }

  lemma SubmapWhole(part: CellMap, whole: CellMap)
    requires part.Keys <= whole.Keys && |part| == |whole| && forall id :: id in part ==> part[id] == whole[id]
    ensures part == whole
  {
    forall id | id in whole ensures id in part {
      if id !in part {
        CardinalityOfSubset(part.Keys, whole.Keys - {id});
      }
    }
  }

  lemma {:induction false} CardinalityOfSubset(a: set<NodeId>, b: set<NodeId>)
    requires a <= b
    ensures |a| <= |b|
  {
    if a != {} {
      var x :| x in a;
      CardinalityOfSubset(a - {x}, b - {x});
    }
  }

  function Push(index: Index, token: string, id: NodeId): Index {
    index[token := (if token in index then index[token] else []) + [id]]
  }

  /** `id` is listed once for each of `tokens`, and every other id as before. */
  ghost predicate Relisted(before: Index, after: Index, id: NodeId, tokens: seq<string>) {
    forall t, o :: Listed(after, t, o) == if o == id then multiset(tokens)[t] else Listed(before, t, o)
  }

  lemma PushRelists(before: Index, after: Index, id: NodeId, tokens: seq<string>, token: string)
    requires Relisted(before, after, id, tokens)
    ensures Relisted(before, Push(after, token, id), id, tokens + [token])
  {
    var pushed, more := Push(after, token, id), tokens + [token];
    forall t, o ensures Listed(pushed, t, o) == if o == id then multiset(more)[t] else Listed(before, t, o) {
      assert Listed(after, t, o) == if o == id then multiset(tokens)[t] else Listed(before, t, o);
    }
  }

  function EdgesTo(id: NodeId, targets: set<NodeId>): set<Edge> {
    set to | to in targets :: Edge(id, to)
  }

  lemma NoneTracked(scores: Scores, id: NodeId)
    ensures Track(scores, EdgesTo(id, {})) == scores
  {
  }

  lemma TrackOneMore(scores: Scores, id: NodeId, done: set<NodeId>, to: NodeId)
    ensures Register(Track(scores, EdgesTo(id, done)), Edge(id, to)) == Track(scores, EdgesTo(id, done + {to}))
  {
    assert EdgesTo(id, done + {to}) == EdgesTo(id, done) + {Edge(id, to)};
  }

  lemma EdgesOfCell(cells: CellMap, id: NodeId)
    requires id in cells
    ensures EdgesTo(id, cells[id].links) == EdgesFrom(cells, {id})
  {
  }

  lemma TrackTwice(scores: Scores, a: set<Edge>, b: set<Edge>)
    ensures Track(Track(scores, a), b) == Track(scores, a + b)
  {
  }

  /** Cells outside `todo` are listed as their patterns say; those in `todo` not at all. */
  ghost predicate PartlyIndexed(index: Index, cells: CellMap, todo: set<NodeId>) {
    forall t, o :: Listed(index, t, o) == if o in todo then 0 else Occurs(cells, t, o)
  }

  lemma RelistIndexes(before: Index, after: Index, cells: CellMap, todo: set<NodeId>, id: NodeId)
    requires PartlyIndexed(before, cells, todo) && id in cells
    requires Relisted(before, after, id, Tokenize(cells[id].seed.corePattern))
    ensures PartlyIndexed(after, cells, todo - {id})
  {
    var rest := todo - {id};
    forall t, o ensures Listed(after, t, o) == if o in rest then 0 else Occurs(cells, t, o) {
      assert Listed(before, t, o) == if o in todo then 0 else Occurs(cells, t, o);
    }
  }

  class ClusterField {
    var cells: CellMap
    var index: Index
    var linkScores: Scores
    var nextId: NodeId
    var nowMs: nat
    var journal: seq<EventDelta>

    ghost function F(): Field
      reads this
    {
      Field(cells, linkScores, nextId, nowMs)
    }

    ghost function State(): Sys
      reads this
    {
      Sys(F(), journal)
    }

    /** The index equals a scan, and the journal replays to this field. */
    ghost predicate Valid()
      reads this
    {
      IndexOk(index, cells) && Consistent(State())
    }

    constructor ()
      ensures Valid() && State() == INITIAL
    {
      cells, index, linkScores, nextId, nowMs, journal := map[], map[], map[], 1, 0, [];
      new;
      FieldReplay.RunAgrees([INITIAL], [], 0);
    }

    method Emit(d: EventDelta)
      modifies this`journal
      ensures journal == old(journal) + [d]
    {
      journal := journal + [d];
    }

    method EmitAll(events: seq<EventDelta>)
      modifies this`journal
      ensures journal == old(journal) + events
    {
      for i := 0 to |events|
        invariant journal == old(journal) + events[..i]
      {
        Emit(events[i]);
        assert events[..i + 1] == events[..i] + [events[i]];
      }
      assert events[..|events|] == events;
    }

    // ---- Index and link tracking -----------------------------------------

    /** The `retain` half of `update_index_for`. */
    method DropFromIndex(id: NodeId)
      modifies this`index
      ensures index.Keys == old(index).Keys
      ensures forall token :: token in index ==> index[token] == Without(old(index)[token], id)
    {
      var todo := index.Keys;
      while todo != {}
        invariant todo <= index.Keys == old(index).Keys
        invariant forall token :: token in todo ==> index[token] == old(index)[token]
        invariant forall token :: token in index && token !in todo ==> index[token] == Without(old(index)[token], id)
        decreases |todo|
      {
        var token :| token in todo;
        index := index[token := Without(index[token], id)];
        todo := todo - {token};
      }
    }

    /** `update_index_for`: afterwards a cell `id` is listed as its pattern says; other ids are untouched. */
    method UpdateIndexFor(id: NodeId)
      modifies this`index
      ensures id in cells ==> Relisted(old(index), index, id, Tokenize(cells[id].seed.corePattern))
      ensures id !in cells ==> index == old(index)
    {
      if id !in cells {
        return;
      }
      DropFromIndex(id);
      var tokens := Tokenize(cells[id].seed.corePattern);
      assert Relisted(old(index), index, id, tokens[..0]);
      for i := 0 to |tokens|
        invariant Relisted(old(index), index, id, tokens[..i])
      {
        PushRelists(old(index), index, id, tokens[..i], tokens[i]);
        index := Push(index, tokens[i], id);
        assert tokens[..i + 1] == tokens[..i] + [tokens[i]];
      }
      assert tokens[..|tokens|] == tokens;
    }

    method RegisterLink(from: NodeId, to: NodeId)
      modifies this`linkScores
      ensures linkScores == Register(old(linkScores), Edge(from, to))
    {
      if Edge(from, to) !in linkScores {
        linkScores := linkScores[Edge(from, to) := 1.0];
      }
    }

    method EnsureLinkTracking(id: NodeId)
      modifies this`linkScores
      ensures linkScores == Track(old(linkScores), EdgesFrom(cells, {id}))
    {
      if id !in cells {
        assert EdgesFrom(cells, {id}) == {} && Track(linkScores, {}) == linkScores;
        return;
      }
      var todo := cells[id].links;
      ghost var done: set<NodeId> := {};
      NoneTracked(linkScores, id);
      hide Track, EdgesTo, EdgesFrom;
      while todo != {}
        invariant todo + done == cells[id].links && linkScores == Track(old(linkScores), EdgesTo(id, done))
        decreases |todo|
      {
        var to :| to in todo;
        TrackOneMore(old(linkScores), id, done, to);
        RegisterLink(id, to);
        todo, done := todo - {to}, done + {to};
      }
      EdgesOfCell(cells, id);
    }

    /** `attach_cell`. */
    method AttachCell(c: NodeCell)
      requires IndexOk(index, cells)
      modifies this`cells, this`index, this`linkScores
      ensures F() == Attach(old(F()), c) && IndexOk(index, cells)
    {
      cells := cells[c.id := c];
      UpdateIndexFor(c.id);
      forall token, o ensures Listed(index, token, o) == Occurs(cells, token, o) {
        assert Listed(old(index), token, o) == Occurs(old(cells), token, o);
        assert Listed(index, token, o) ==
          if o == c.id then multiset(Tokenize(c.seed.corePattern))[token] else Listed(old(index), token, o);
      }
      EnsureLinkTracking(c.id);
      assert EdgesFrom(cells, {c.id}) == OutEdges(c);
    }

    /** `rebuild_index`: whatever the index was, it now equals a scan, and every link is tracked. */
    method RebuildIndex()
      modifies this`index, this`linkScores
      ensures IndexOk(index, cells) && linkScores == Track(old(linkScores), Edges(cells))
    {
      index := map[];
      var todo := cells.Keys;
      assert Track(linkScores, EdgesFrom(cells, cells.Keys - todo)) == linkScores;
      while todo != {}
        invariant todo <= cells.Keys && PartlyIndexed(index, cells, todo)
        invariant linkScores == Track(old(linkScores), EdgesFrom(cells, cells.Keys - todo))
        decreases |todo|
      {
        var id :| id in todo;
        ghost var before, done := index, EdgesFrom(cells, cells.Keys - todo);
        UpdateIndexFor(id);
        RelistIndexes(before, index, cells, todo, id);
        EnsureLinkTracking(id);
        TrackTwice(old(linkScores), done, EdgesFrom(cells, {id}));
        todo := todo - {id};
        assert done + EdgesFrom(cells, {id}) == EdgesFrom(cells, cells.Keys - todo);
      }
      assert EdgesFrom(cells, cells.Keys - {}) == Edges(cells);
    }

    method PurgeTrackingFor(id: NodeId)
      modifies this`linkScores
      ensures linkScores == Purge(old(linkScores), id)
    {
      linkScores := map e | e in linkScores && e.from != id && e.to != id :: linkScores[e];
    }

    method PurgeTrackingForAll(ids: seq<NodeId>)
      modifies this`linkScores
      ensures linkScores == PurgeAll(old(linkScores), ids)
    {
      for i := 0 to |ids|
        invariant PurgeAll(linkScores, ids[i..]) == PurgeAll(old(linkScores), ids)
      {
        PurgeTrackingFor(ids[i]);
        assert ids[i..][1..] == ids[i + 1..];
      }
    }

    // ---- Growth ----------------------------------------------------------

    /** `add_root`; `perform_spawn_seed` differs only in how the seed parameters are made. */
    method AddRoot(seed: SeedParams) returns (id: NodeId)
      requires Valid()
      modifies this
      ensures Valid() && State() == Step(old(State()), AddOp(seed))
      ensures id == old(nextId) && id !in old(cells) && id in cells
    {
      FieldReplay.StepAgrees(State(), AddOp(seed));
      id := nextId;
      assert CellOk(cells, nextId, {}, id);
      nextId := nextId + 1;
      var cell := FromSeed(id, seed);
      AttachCell(cell);
      Emit(SpawnDelta(Snapshot(cells[id])));
    }

    /** `inject_seed_variation`. */
    method InjectSeedVariation(seed: SeedParams, energy: real, sources: seq<NodeId>)
      requires Valid() && Distinct(sources) && forall id :: id in sources ==> id in cells
      modifies this
      ensures Valid() && State() == Step(old(State()), InjectOp(seed, energy, sources))
    {
      ghost var op := InjectOp(seed, energy, sources);
      FieldReplay.StepAgrees(State(), op);
      if |cells| > MAX_INJECT_CELLS {
        return;
      }
      var cell := FromSeed(nextId, seed.(corePattern := seed.corePattern + ":bud" + Decimal(nextId))).(
        energy := energy, lastResponseMs := nowMs);
      var id := cell.id;
      nextId := nextId + 1;
      AttachCell(cell);
      Emit(SpawnDelta(Snapshot(cell)));
      for i := 0 to |sources|
        invariant old(cells).Keys <= cells.Keys
        invariant IndexOk(index, cells) && LinkTo(State(), sources[i..], id) == Step(old(State()), op)
      {
        AddLinkTo(sources[i], id);
        assert sources[i..][1..] == sources[i + 1..];
      }
    }

    method AddLinkTo(from: NodeId, to: NodeId)
      requires from in cells && IndexOk(index, cells)
      modifies this`cells, this`linkScores, this`journal
      ensures F() == AddLink(old(F()), from, to) && journal == old(journal) + [LinkDelta(from, to)]
      ensures IndexOk(index, cells)
    {
      var c := cells[from];
      if to !in c.links {
        IndexReshape(index, cells, from, c.(links := c.links + {to}));
        cells := cells[from := c.(links := c.links + {to})];
        RegisterLink(from, to);
      }
      Emit(LinkDelta(from, to));
    }

    // ---- tick_all --------------------------------------------------------

    method MetaboliseCells(order: seq<NodeId>, dtMs: nat, env: TickEnv) returns (pending: seq<EventDelta>)
      requires IndexOk(index, cells) && forall id :: id in order ==> id in cells
      modifies this`cells
      ensures IndexOk(index, cells)
      ensures Pass(F(), journal + pending, [], []) == MetaboliseAll(Pass(old(F()), journal, [], []), order, dtMs, env)
    {
      pending := [];
      assert order[0..] == order && journal + pending == journal;
      for i := 0 to |order|
        invariant IndexOk(index, cells) && cells.Keys == old(cells).Keys
        invariant MetaboliseAll(Pass(F(), journal + pending, [], []), order[i..], dtMs, env) ==
                  MetaboliseAll(Pass(old(F()), journal, [], []), order, dtMs, env)
      {
        var id := order[i];
        var cell := TickCell(cells[id], dtMs, env.metabolismScale, SleepShift(cells[id], env));
        cell := DriftAffinity(cell, env.alpha);
        IndexReshape(index, cells, id, cell);
        assert journal + (pending + [EnergyOf(cell)]) == journal + pending + [EnergyOf(cell)];
        assert order[i..][1..] == order[i + 1..];
        cells := cells[id := cell];
        pending := pending + [EnergyOf(cell)];
      }
    }

    method DivideCells(sofar: seq<EventDelta>, order: seq<NodeId>, variation: map<NodeId, real>)
      returns (pending: seq<EventDelta>, born: seq<(NodeId, NodeCell)>)
      requires IndexOk(index, cells) && forall id :: id in order ==> id in cells && id in variation
      modifies this`cells, this`nextId
      ensures IndexOk(index, cells)
      ensures Pass(F(), journal + pending, born, []) ==
              DivideAll(Pass(old(F()), journal + sofar, [], []), order, variation)
    {
      hide IndexOk, Divide;
      pending, born := sofar, [];
      assert order[0..] == order;
      for i := 0 to |order|
        invariant IndexOk(index, cells) && cells.Keys == old(cells).Keys
        invariant DivideAll(Pass(F(), journal + pending, born, []), order[i..], variation) ==
                  DivideAll(Pass(old(F()), journal + sofar, [], []), order, variation)
      {
        var told, children := DivideCell(order[i], variation[order[i]], Pass(F(), journal + pending, born, []));
        assert order[i..][1..] == order[i + 1..];
        assert journal + (pending + told) == journal + pending + told;
        pending, born := pending + told, born + children;
      }
    }

    method DivideCell(id: NodeId, variation: real, ghost p: Pass)
      returns (told: seq<EventDelta>, children: seq<(NodeId, NodeCell)>)
      requires IndexOk(index, cells) && id in cells && p.f == F()
      modifies this`cells, this`nextId
      ensures IndexOk(index, cells) && cells.Keys == old(cells).Keys
      ensures Pass(F(), p.log + told, p.born + children, p.doomed) == Divide(p, id, variation)
    {
      hide IndexOk, Offspring, Named;
      var cell := cells[id];
      told, children := [], [];
      if Divides(cell) {
        var child := Named(Offspring(cell, variation), nextId, nowMs);
        var parent := Halved(cell);
        IndexReshape(index, cells, id, parent);
        nextId := nextId + 1;
        cells := cells[id := parent];
        told, children := [AffinityDelta(id, parent.affinity), EnergyOf(parent)], [(id, child)];
      }
    }

    method GraftCells(sofar: seq<EventDelta>, born: seq<(NodeId, NodeCell)>) returns (pending: seq<EventDelta>)
      requires IndexOk(index, cells)
      modifies this`cells, this`index, this`linkScores
      ensures IndexOk(index, cells)
      ensures Pass(F(), journal + pending, born, []) == GraftAll(Pass(old(F()), journal + sofar, born, []), born)
    {
      pending := sofar;
      for i := 0 to |born|
        invariant IndexOk(index, cells)
        invariant GraftAll(Pass(F(), journal + pending, born, []), born[i..]) ==
                  GraftAll(Pass(old(F()), journal + sofar, born, []), born)
      {
        var more := GraftCell(born[i].0, born[i].1, journal + pending, born);
        assert journal + (pending + more) == journal + pending + more;
        assert born[i..][1..] == born[i + 1..];
        pending := pending + more;
      }
    }

    method GraftCell(parent: NodeId, child: NodeCell, ghost log: seq<EventDelta>, ghost born: seq<(NodeId, NodeCell)>)
      returns (more: seq<EventDelta>)
      requires IndexOk(index, cells)
      modifies this`cells, this`index, this`linkScores
      ensures IndexOk(index, cells)
      ensures Pass(F(), log + more, born, []) == Graft(Pass(old(F()), log, born, []), parent, child)
    {
      more := [];
      if parent in cells && child.id !in cells[parent].links {
        var c := cells[parent].(links := cells[parent].links + {child.id});
        IndexReshape(index, cells, parent, c);
        cells := cells[parent := c];
        RegisterLink(parent, child.id);
        more := [LinkDelta(parent, child.id)];
        assert F().cells[parent] != old(F()).cells[parent];
      }
      AttachCell(child);
      assert log + (more + [DivideDelta(parent, Snapshot(child))]) ==
               log + more + [DivideDelta(parent, Snapshot(child))];
      more := more + [DivideDelta(parent, Snapshot(child))];
    }

    method CullCells(sofar: seq<EventDelta>, order: seq<NodeId>, env: TickEnv, ghost born: seq<(NodeId, NodeCell)>)
      returns (pending: seq<EventDelta>, doomed: seq<NodeId>)
      requires IndexOk(index, cells) && forall id :: id in order ==> id in cells
      modifies this`cells
      ensures IndexOk(index, cells)
      ensures Pass(F(), journal + pending, born, doomed) ==
                CullAll(Pass(old(F()), journal + sofar, born, []), order, env)
    {
      hide Cull, IndexOk;
      pending, doomed := sofar, [];
      assert order[0..] == order;
      for i := 0 to |order|
        invariant IndexOk(index, cells) && cells.Keys == old(cells).Keys
        invariant CullAll(Pass(F(), journal + pending, born, doomed), order[i..], env) ==
                  CullAll(Pass(old(F()), journal + sofar, born, []), order, env)
      {
        var more, died := CullCell(order[i], env, Pass(F(), journal + pending, born, doomed));
        assert journal + (pending + more) == journal + pending + more;
        pending := pending + more;
        doomed := doomed + if died then [order[i]] else [];
        assert order[i..][1..] == order[i + 1..];
      }
    }

    method CullCell(id: NodeId, env: TickEnv, ghost p: Pass) returns (more: seq<EventDelta>, died: bool)
      requires IndexOk(index, cells) && id in cells && p.f == F()
      modifies this`cells
      ensures IndexOk(index, cells) && cells.Keys == old(cells).Keys
      ensures Pass(F(), p.log + more, p.born, p.doomed + if died then [id] else []) == Cull(p, id, env)
    {
      var prior := cells[id];
      var cell := SleepOrDie(prior, nowMs, SleepShift(prior, env));
      IndexReshape(index, cells, id, cell);
      cells := cells[id := cell];
      more := [];
      if prior.state != Sleep && cell.state == Sleep {
        more := more + [SleepDelta(id)];
      }
      died := cell.state == Dead && prior.state != Dead;
      if died {
        more := more + [DeadDelta(id)];
      }
      more := more + [EnergyOf(cell)];
    }

    /** The end of `tick_all`: drop the dead, rebuild once if any died, purge, journal the events. */
    method BuryCells(pending: seq<EventDelta>, doomed: seq<NodeId>, ghost born: seq<(NodeId, NodeCell)>)
      requires IndexOk(index, cells)
      modifies this
      ensures IndexOk(index, cells) && State() == Bury(Pass(old(F()), old(journal) + pending, born, doomed))
    {
      var before := |cells|;
      if |Living(cells)| == |cells| {
        LivingAll(cells);
      }
      cells := Living(cells);
      if doomed != [] || |cells| != before {
        RebuildIndex();
      }
      PurgeTrackingForAll(doomed);
      EmitAll(pending);
    }

    method TickAll(dtMs: nat, env: TickEnv, order: seq<NodeId>, variation: map<NodeId, real>)
      requires Valid() && Enumerates(order, cells.Keys) && variation.Keys == cells.Keys
      modifies this
      ensures Valid() && State() == Step(old(State()), TickOp(dtMs, env, order, variation))
      ensures Settled(Replay(journal), F(), {})
    {
      hide MetaboliseAll, DivideAll, GraftAll, CullAll, Bury, Replay;
      FieldReplay.StepAgrees(State(), TickOp(dtMs, env, order, variation));
      nowMs := SatAdd(nowMs, dtMs);
      Emit(TickDelta(nowMs));
      var pending := MetaboliseCells(order, dtMs, env);
      var born;
      pending, born := DivideCells(pending, order, variation);
      pending := GraftCells(pending, born);
      var doomed;
      pending, doomed := CullCells(pending, order, env, born);
      BuryCells(pending, doomed, born);
    }

    // ---- trim_low_energy -------------------------------------------------

    /** The first loop of `trim_low_energy`: cells fall asleep or die, nothing is journalled. */
    method TrimCells(naps: set<NodeId>, kills: set<NodeId>)
      requires IndexOk(index, cells)
      modifies this`cells
      ensures cells == Trimmed(old(F()), naps, kills) && IndexOk(index, cells)
    {
      var todo := cells.Keys;
      while todo != {}
        invariant todo <= cells.Keys == old(cells).Keys && IndexOk(index, cells)
        invariant forall id :: id in cells ==>
          cells[id] == if id in todo then old(cells)[id]
                       else TrimCell(old(cells)[id], nowMs, id in naps, id in kills)
        decreases |todo|
      {
        var id :| id in todo;
        var c := TrimCell(cells[id], nowMs, id in naps, id in kills);
        IndexReshape(index, cells, id, c);
        cells := cells[id := c];
        todo := todo - {id};
      }
    }

    method TrimLowEnergy(naps: set<NodeId>, kills: set<NodeId>, order: seq<NodeId>)
      requires Valid() && Enumerates(order, Victims(Trimmed(F(), naps, kills)))
      modifies this
      ensures Valid() && State() == Step(old(State()), TrimOp(naps, kills, order))
    {
      hide Replay, Trimmed;
      FieldReplay.StepAgrees(State(), TrimOp(naps, kills, order));
      var before := |cells|;
      ghost var keys := cells.Keys;
      TrimCells(naps, kills);
      TrimmedKeys(old(F()), naps, kills);
      if |Survivors(cells)| == |cells| {
        SubmapWhole(Survivors(cells), cells);
      }
      cells := Survivors(cells);
      if |cells| != before {
        RebuildIndex();
      }
      for i := 0 to |order|
        invariant IndexOk(index, cells) &&
                  BuryEach(State(), order[i..]) == Step(old(State()), TrimOp(naps, kills, order))
      {
        Emit(DeadDelta(order[i]));
        PurgeTrackingFor(order[i]);
        assert order[i..][1..] == order[i + 1..];
      }
    }

    // ---- Links -----------------------------------------------------------

    /** `adjust_link_score`: clamp, and report whether the score moved by more than EPSILON. */
    method AdjustLinkScore(e: Edge, step: real) returns (changed: bool)
      modifies this`linkScores
      ensures changed == AdjustReports(old(F()), e, step)
      ensures linkScores ==
                if Linked(F(), e) then old(linkScores)[e := Adjusted(old(F()), e, step)] else old(linkScores)
    {
      if e.from !in cells || e.to !in cells[e.from].links {
        return false;
      }
      RegisterLink(e.from, e.to);
      var updated := Clamp(linkScores[e] + step, MIN_SCORE, MAX_SCORE);
      changed := Abs(updated - linkScores[e]) > EPSILON;
      linkScores := linkScores[e := updated];
    }

    /** Adjust and journal the new score if it changed, as the dream and sync cycles do. */
    method AdjustAndReport(e: Edge, step: real, why: Cause) returns (changed: bool)
      requires Valid() && Abs(step) > EPSILON
      modifies this`linkScores, this`journal
      ensures Valid() && State() == Step(old(State()), AdjustOp(e, step, why))
      ensures changed == AdjustReports(old(F()), e, step)
    {
      hide Replay;
      FieldReplay.StepAgrees(State(), AdjustOp(e, step, why));
      changed := AdjustLinkScore(e, step);
      if changed {
        Emit(ScoreDelta(why, e, linkScores[e]));
      }
    }

    /** `prune_link` with the dream engine's journal entry. */
    method PruneLink(e: Edge) returns (pruned: bool)
      requires Valid()
      modifies this`cells, this`linkScores, this`journal
      ensures Valid() && State() == Step(old(State()), PruneOp(e)) && pruned == Linked(old(F()), e)
    {
      hide Replay;
      FieldReplay.StepAgrees(State(), PruneOp(e));
      if e.from !in cells || e.to !in cells[e.from].links {
        return false;
      }
      var c := cells[e.from].(links := cells[e.from].links - {e.to});
      IndexReshape(index, cells, e.from, c);
      cells := cells[e.from := c];
      linkScores := linkScores - {e};
      Emit(UnlinkDelta(e.from, e.to));
      Emit(DreamPruneDelta(e.from, e.to));
      assert journal == old(journal) + [UnlinkDelta(e.from, e.to), DreamPruneDelta(e.from, e.to)];
      return true;
    }

    /** The search loop of `rewire_lonely`: some cell other than `id` that no cell beats in affinity. */
    method FindNearest(id: NodeId) returns (best: Option<NodeId>)
      requires id in cells
      ensures best.None? <==> cells.Keys == {id}
      ensures best.Some? ==> Nearest(F(), id, best.value)
    {
      best := None;
      var todo := cells.Keys - {id};
      while todo != {}
        invariant todo <= cells.Keys - {id}
        invariant best.None? <==> todo == cells.Keys - {id}
        invariant best.Some? ==> best.value in cells && best.value != id && best.value !in todo
        invariant best.Some? ==>
          forall o :: o in cells && o != id && o !in todo ==> Distance(F(), id, best.value) <= Distance(F(), id, o)
        decreases |todo|
      {
        var o :| o in todo;
        todo := todo - {o};
        var distance := Abs(cells[o].affinity - cells[id].affinity);
        if best.None? || distance < Abs(cells[best.value].affinity - cells[id].affinity) {
          best := Some(o);
        }
      }
    }

    /** `rewire_lonely`: a cell without links is linked to a nearest other cell, if there is one. */
    method RewireLonely(id: NodeId) returns (rewired: nat, target: NodeId)
      requires Valid()
      modifies this`cells, this`linkScores, this`journal
      ensures Valid() && rewired == if Lonely(old(F()), id) && old(cells).Keys != {id} then 1 else 0
      ensures rewired == 0 ==> State() == old(State())
      ensures rewired == 1 ==> Nearest(old(F()), id, target) && State() == Step(old(State()), RewireOp(id, target))
    {
      hide Replay;
      if id !in cells || cells[id].links != {} {
        return 0, id;
      }
      var best := FindNearest(id);
      if best.None? {
        return 0, id;
      }
      target := best.value;
      FieldReplay.StepAgrees(State(), RewireOp(id, target));
      AddLinkTo(id, target);
      Emit(DreamRewireDelta(id, target));
      assert journal == old(journal) + [LinkDelta(id, target), DreamRewireDelta(id, target)];
      return 1, target;
    }

    // ---- route_impulse ---------------------------------------------------

    /** The candidates of `route_impulse`, read from the index: exactly what scanning all cells finds. */
    method Candidates(tokens: seq<string>) returns (found: set<NodeId>)
      requires IndexOk(index, cells)
      ensures found == Pool(cells, tokens)
    {
      found := {};
      for i := 0 to |tokens|
        invariant found == Scan(cells, tokens[..i])
      {
        var token := tokens[i];
        assert tokens[..i + 1] == tokens[..i] + [token];
        var ids := if token in index then index[token] else [];
        IndexFinds(index, cells, token, ids);
        assert Scan(cells, tokens[..i + 1]) == found + set id | id in ids;
        found := found + set id | id in ids;
      }
      assert tokens[..|tokens|] == tokens;
      if found == {} {
        found := cells.Keys;
      }
    }

    /** The routing half of `route_impulse`: the three best candidates take the impulse in. */
    method Respond(imp: Impulse, mood: Mood) returns (top: seq<NodeId>, told: seq<NodeId>)
      requires Valid()
      modifies this`cells, this`journal
      ensures TopThree(top, Pool(old(cells), Tokenize(imp.pattern)), RouteScores(old(cells), imp, mood))
      ensures told == Responders(old(cells), top, imp, nowMs)
      ensures Valid() && State() == Step(old(State()), TouchOp(Stirred(old(cells), top, imp, nowMs), told))
    {
      hide Replay, Agrees, TopThree, Tokenize, Stirred, Responders, Announce, IndexOk, RouteScore;
      var pool := Candidates(Tokenize(imp.pattern));
      top := PickTop(pool, RouteScores(cells, imp, mood));
      told := StirCells(top, imp);
      FieldReplay.StepAgrees(old(State()), TouchOp(cells, told));
      EmitEnergy(told);
    }

    method StirCells(top: seq<NodeId>, imp: Impulse) returns (told: seq<NodeId>)
      requires IndexOk(index, cells) && Distinct(top) && forall id :: id in top ==> id in cells
      modifies this`cells
      ensures cells == Stirred(old(cells), top, imp, nowMs) && IndexOk(index, cells)
      ensures told == Responders(old(cells), top, imp, nowMs)
    {
      assert Stirred(cells, [], imp, nowMs) == cells;
      hide Ingest, IndexOk, Stirred, Responders;
      assert Responders(cells, [], imp, nowMs) == [] by { NoResponders(cells, imp, nowMs); }
      told := [];
      assert top[..0] == [];
      for i := 0 to |top|
        invariant cells == Stirred(old(cells), top[..i], imp, nowMs) && IndexOk(index, cells)
        invariant told == Responders(old(cells), top[..i], imp, nowMs)
      {
        var id := top[i];
        assert top[..i + 1] == top[..i] + [id];
        var ingested := Ingest(cells[id], imp, nowMs);
        var c := if ingested.responded then ingested.cell.(lastResponseMs := nowMs) else ingested.cell;
        StirredSnoc(old(cells), top[..i], id, imp, nowMs);
        IndexReshape(index, cells, id, c);
        cells := cells[id := c];
        if ingested.responded {
          told := told + [id];
        }
        RespondersSnoc(old(cells), top[..i], id, imp, nowMs);
      }
      assert top[..|top|] == top;
    }

    method EmitEnergy(ids: seq<NodeId>)
      requires forall id :: id in ids ==> id in cells
      modifies this`journal
      ensures journal == Announce(F(), old(journal), ids)
    {
      for i := 0 to |ids|
        invariant Announce(F(), journal, ids[i..]) == Announce(F(), old(journal), ids)
      {
        Emit(EnergyOf(cells[ids[i]]));
        assert ids[i..][1..] == ids[i + 1..];
      }
    }

    // ---- share_tokens ----------------------------------------------------

    /** The first loop of `share_tokens`: members drift towards the centroid, nothing is journalled. */
    method AlignCells(nodes: seq<NodeId>, weight: real)
      requires Valid()
      modifies this`cells
      ensures Valid() && cells == Aligned(old(cells), nodes, Centroid(old(cells), nodes), weight)
    {
      hide Replay, IndexOk, AlignCell, SameCells;
      var centroid := Centroid(cells, nodes);
      for i := 0 to |nodes|
        invariant cells == Aligned(old(cells), nodes[..i], centroid, weight) && IndexOk(index, cells)
      {
        AlignedSnoc(old(cells), nodes[..i], nodes[i], centroid, weight);
        assert nodes[..i + 1] == nodes[..i] + [nodes[i]];
        if nodes[i] in cells {
          var c := AlignCell(cells[nodes[i]], centroid, weight);
          IndexReshape(index, cells, nodes[i], c);
          cells := cells[nodes[i] := c];
        }
      }
      assert nodes[..|nodes|] == nodes;
      FieldReplay.StepAgrees(old(State()), TouchOp(cells, []));
    }

    method AlignPair(a: NodeId, b: NodeId, weight: real)
      requires Valid() && 0.05 <= weight
      modifies this`linkScores, this`journal
      ensures Valid() &&
              forall e :: Score(linkScores, e) == SharedScore(old(linkScores), cells, weight, Hits(a, b, e), e)
    {
      hide Replay, SharedScore, Hits, Consistent, IndexOk;
      ghost var before := linkScores;
      var forwards := AdjustAndReport(Edge(a, b), weight, Cause.Align);
      ghost var mid := linkScores;
      var backwards := AdjustAndReport(Edge(b, a), weight, Cause.Align);
      forall e ensures Score(linkScores, e) == SharedScore(before, cells, weight, Hits(a, b, e), e) {
        AdjustedTwice(before, mid, linkScores, cells, weight, a, b, e);
      }
    }

    /**
      `share_tokens`, for any list of nodes: a link gets the transfer weight once for each pair of
      places in the list that hold its ends, in whichever directions it exists, and no other score moves.
     */
    method ShareTokens(nodes: seq<NodeId>, tokens: seq<string>, weightXfer: real)
      requires Valid()
      modifies this`cells, this`linkScores, this`journal
      ensures Valid() && (tokens == [] ==> State() == old(State()))
      ensures tokens != [] ==>
                var weight := Clamp(weightXfer, 0.05, 0.5);
                cells == Aligned(old(cells), nodes, Centroid(old(cells), nodes), weight) &&
                Shared(old(linkScores), linkScores, cells, nodes, weight, |nodes|, 0)
    {
      NoneShared(linkScores, cells, nodes, Clamp(weightXfer, 0.05, 0.5));
      if nodes == [] || tokens == [] {
        return;
      }
      hide Replay, Consistent, IndexOk, Aligned, SharedScore, Shared;
      var weight := Clamp(weightXfer, 0.05, 0.5);
      AlignCells(nodes, weight);
      ghost var aligned := cells;
      NoneShared(linkScores, cells, nodes, weight);
      for i := 0 to |nodes|
        invariant Valid() && cells == aligned && Shared(old(linkScores), linkScores, cells, nodes, weight, i, 0)
      {
        RowStarts(old(linkScores), linkScores, cells, nodes, weight, i);
        for j := i + 1 to |nodes|
          invariant Valid() && cells == aligned && Shared(old(linkScores), linkScores, cells, nodes, weight, i, j)
        {
          ghost var before := linkScores;
          AlignPair(nodes[i], nodes[j], weight);
          ShareStep(old(linkScores), before, linkScores, cells, nodes, weight, i, j);
        }
        RowEnds(old(linkScores), linkScores, cells, nodes, weight, i);
      }
    }

    // ---- Recovery --------------------------------------------------------

    /** `apply_delta` in place: one step of `Apply`, and the index still equals a scan. */
    method ApplyDelta(d: EventDelta)
      requires IndexOk(index, cells)
      modifies this`cells, this`index, this`linkScores, this`nextId, this`nowMs
      ensures IndexOk(index, cells) && F() == Apply(old(F()), d)
    {
      hide IndexOk, AddLink, Attach, Track, Edges, Purge, ToNode;
      match d {
        case TickDelta(now) => nowMs := now;
        case SpawnDelta(s) =>
          AttachCell(ToNode(s));
          nextId := Max(nextId, s.id + 1);
        case DivideDelta(parent, s) =>
          InsertLink(parent, s.id);
          AttachCell(ToNode(s));
          nextId := Max(nextId, s.id + 1);
        case SleepDelta(id) =>
          if id in cells {
            ReplaceCell(id, cells[id].(state := Sleep));
          }
        case DeadDelta(id) =>
          cells := cells - {id};
          RebuildIndex();
          PurgeTrackingFor(id);
        case LinkDelta(from, to) => InsertLink(from, to);
        case UnlinkDelta(from, to) =>
          if from in cells && to in cells[from].links {
            RemoveLink(from, to);
          }
        case AffinityDelta(id, a) =>
          if id in cells {
            ReplaceCell(id, cells[id].(affinity := a, seed := cells[id].seed.(affinity := a)));
          }
        case EnergyDelta(id, energy, metabolism, state, last) =>
          if id in cells {
            ReplaceCell(id, cells[id].(energy := energy, metabolism := metabolism, state := state,
                                       lastResponseMs := last));
          }
        case DreamStrengthenDelta(from, to, score) => linkScores := linkScores[Edge(from, to) := score];
        case DreamWeakenDelta(from, to, score) => linkScores := linkScores[Edge(from, to) := score];
        case DreamPruneDelta(from, to) => RemoveLink(from, to);
        case DreamRewireDelta(from, to) => InsertLink(from, to);
        case SyncAlignDelta(from, to, score) => linkScores := linkScores[Edge(from, to) := score];
        case OtherDelta =>
      }
    }

    method ReplaceCell(id: NodeId, c: NodeCell)
      requires IndexOk(index, cells) && id in cells && c.seed.corePattern == cells[id].seed.corePattern
      modifies this`cells
      ensures IndexOk(index, cells) && cells == old(cells)[id := c]
    {
      IndexReshape(index, cells, id, c);
      cells := cells[id := c];
    }

    method InsertLink(from: NodeId, to: NodeId)
      requires IndexOk(index, cells)
      modifies this`cells, this`linkScores
      ensures IndexOk(index, cells) && F() == AddLink(old(F()), from, to)
    {
      if from in cells && to !in cells[from].links {
        ReplaceCell(from, cells[from].(links := cells[from].links + {to}));
        RegisterLink(from, to);
      }
    }

    method RemoveLink(from: NodeId, to: NodeId)
      requires IndexOk(index, cells)
      modifies this`cells, this`linkScores
      ensures IndexOk(index, cells)
      ensures F() == if from in old(cells) then DropLink(old(F()), from, to)
                     else old(F()).(scores := old(linkScores) - {Edge(from, to)})
    {
      if from in cells {
        ReplaceCell(from, cells[from].(links := cells[from].links - {to}));
      }
      linkScores := linkScores - {Edge(from, to)};
    }

    /** Start-up without a snapshot: an empty field and every journalled delta applied in order. */
    constructor Recover(log: seq<EventDelta>)
      ensures IndexOk(index, cells) && F() == Replay(log) && journal == log
      ensures (exists f :: Agrees(Replay(log), f)) ==> Valid()
    {
      cells, index, linkScores, nextId, nowMs, journal := map[], map[], map[], 1, 0, log;
      new;
      assert log[..0] == [];
      for i := 0 to |log|
        invariant IndexOk(index, cells) && F() == Replay(log[..i]) && journal == log
      {
        ReplaySnoc(log[..i], log[i]);
        assert log[..i + 1] == log[..i] + [log[i]];
        ApplyDelta(log[i]);
      }
      assert log[..|log|] == log;
      if f :| Agrees(Replay(log), f) {
        FieldReplay.RestartAgrees(Sys(f, log));
      }
    }
  }

  // ---- Helpers of share_tokens --------------------------------------------

  function SumAffinity(cells: CellMap, nodes: seq<NodeId>): real {
    if nodes == [] then 0.0
    else (if nodes[0] in cells then cells[nodes[0]].affinity else 0.0) + SumAffinity(cells, nodes[1..])
  }

  function CountLive(cells: CellMap, nodes: seq<NodeId>): nat {
    if nodes == [] then 0 else (if nodes[0] in cells then 1 else 0) + CountLive(cells, nodes[1..])
  }

  /** `community_centroid`: the mean affinity of the live members. */
  function Centroid(cells: CellMap, nodes: seq<NodeId>): real {
    var n := CountLive(cells, nodes);
    if n == 0 then 0.0 else SumAffinity(cells, nodes) / (n as real)
  }

  function AlignCell(c: NodeCell, centroid: real, weight: real): (r: NodeCell)
    ensures SameShape(r, c) && r.state == c.state
  {
    var diff := centroid - c.affinity;
    var moved := if Abs(diff) > 0.002 then c.(affinity := Clamp(c.affinity + diff * 0.08, 0.0, 1.0)) else c;
    if c.salience >= 0.6 || c.adrenoTag then moved
    else
      var adjust := if diff < 0.0 then 1.0 - weight * 0.05 else 1.0 + weight * 0.05;
      moved.(metabolism := Clamp(moved.metabolism * adjust, 0.05, 5.0))
  }

  /** The cells after the loop over `nodes`; a node listed twice is aligned twice. */
  function Aligned(cells: CellMap, nodes: seq<NodeId>, centroid: real, weight: real): (r: CellMap)
    ensures SameCells(cells, r)
  {
    if nodes == [] then cells
    else
      var last := nodes[|nodes| - 1];
      var prior := Aligned(cells, nodes[..|nodes| - 1], centroid, weight);
      if last in prior then prior[last := AlignCell(prior[last], centroid, weight)] else prior
  }

  lemma AlignedSnoc(cells: CellMap, nodes: seq<NodeId>, id: NodeId, centroid: real, weight: real)
    ensures var prior := Aligned(cells, nodes, centroid, weight);
            Aligned(cells, nodes + [id], centroid, weight) ==
            if id in prior then prior[id := AlignCell(prior[id], centroid, weight)] else prior
  {
    assert (nodes + [id])[..|nodes|] == nodes;
  }

  /** Without repetition every live member is aligned once and no other cell changes. */
  lemma {:induction false} AlignedOnce(cells: CellMap, nodes: seq<NodeId>, centroid: real, weight: real, id: NodeId)
    requires Distinct(nodes) && id in cells
    ensures Aligned(cells, nodes, centroid, weight)[id] ==
            if id in nodes then AlignCell(cells[id], centroid, weight) else cells[id]
  {
    hide AlignCell;
    if nodes != [] {
      var front, last := nodes[..|nodes| - 1], nodes[|nodes| - 1];
      AlignedOnce(cells, front, centroid, weight, id);
      assert nodes == front + [last] && last !in front;
    }
  }

  /** A score raised by the weight a number of times, clamped each time. */
  function RaisedBy(score: real, weight: real, times: nat): real {
    if times == 0 then score else Clamp(RaisedBy(score, weight, times - 1) + weight, MIN_SCORE, MAX_SCORE)
  }

  lemma {:induction false} RaisedTwice(score: real, weight: real, m: nat, n: nat)
    ensures RaisedBy(RaisedBy(score, weight, m), weight, n) == RaisedBy(score, weight, m + n)
  {
    if n > 0 {
      RaisedTwice(score, weight, m, n - 1);
    }
  }

  /** A link that the group visits n times gains n weights, up to 3.0. */
  lemma {:induction false} RaisedMeans(score: real, weight: real, times: nat)
    requires 0.2 <= score <= 3.0 && weight >= 0.0
    ensures var sum := score + (times as real) * weight;
            RaisedBy(score, weight, times) == if sum > 3.0 then 3.0 else sum
  {
    if times > 0 {
      RaisedMeans(score, weight, times - 1);
      assert (times as real) * weight == ((times - 1) as real) * weight + weight;
    }
  }

  /** How often one visit of the places holding `a` and `b` adjusts the edge. */
  function Hits(a: NodeId, b: NodeId, e: Edge): nat {
    (if e == Edge(a, b) then 1 else 0) + if e == Edge(b, a) then 1 else 0
  }

  lemma AdjustedTwice(before: Scores, mid: Scores, now: Scores, cells: CellMap, weight: real, a: NodeId, b: NodeId,
                      e: Edge)
    requires mid == if a in cells && b in cells[a].links
                    then before[Edge(a, b) := Clamp(Score(before, Edge(a, b)) + weight, MIN_SCORE, MAX_SCORE)]
                    else before
    requires now == if b in cells && a in cells[b].links
                    then mid[Edge(b, a) := Clamp(Score(mid, Edge(b, a)) + weight, MIN_SCORE, MAX_SCORE)] else mid
    ensures Score(now, e) == SharedScore(before, cells, weight, Hits(a, b, e), e)
  {
    RaisedTwice(Score(before, e), weight, 1, 1);
    assert RaisedBy(Score(before, e), weight, 1) == Clamp(Score(before, e) + weight, MIN_SCORE, MAX_SCORE);
    assert RaisedBy(Score(before, e), weight, 2) ==
           Clamp(RaisedBy(Score(before, e), weight, 1) + weight, MIN_SCORE, MAX_SCORE);
  }

  function RowVisits(nodes: seq<NodeId>, i: nat, j: nat, e: Edge): nat
    requires j <= |nodes|
  {
    if j <= i + 1 then 0 else RowVisits(nodes, i, j - 1, e) + Hits(nodes[i], nodes[j - 1], e)
  }

  /** How often the double loop adjusts the edge before it reaches row `i`. */
  function Visits(nodes: seq<NodeId>, i: nat, e: Edge): nat
    requires i <= |nodes|
  {
    if i == 0 then 0 else Visits(nodes, i - 1, e) + RowVisits(nodes, i - 1, |nodes|, e)
  }

  /** A link's score after so many adjustments; only links are adjusted. */
  ghost function SharedScore(before: Scores, cells: CellMap, weight: real, times: nat, e: Edge): real {
    if e.from in cells && e.to in cells[e.from].links then RaisedBy(Score(before, e), weight, times)
    else Score(before, e)
  }

  ghost predicate Shared(before: Scores, now: Scores, cells: CellMap, nodes: seq<NodeId>, weight: real, i: nat, j: nat)
    requires i <= |nodes| && j <= |nodes|
  {
    forall e :: Score(now, e) == SharedScore(before, cells, weight, Visits(nodes, i, e) + RowVisits(nodes, i, j, e), e)
  }

  lemma NoneShared(scores: Scores, cells: CellMap, nodes: seq<NodeId>, weight: real)
    ensures Shared(scores, scores, cells, nodes, weight, 0, 0)
  {
  }

  lemma RowStarts(before: Scores, now: Scores, cells: CellMap, nodes: seq<NodeId>, weight: real, i: nat)
    requires i < |nodes| && Shared(before, now, cells, nodes, weight, i, 0)
    ensures Shared(before, now, cells, nodes, weight, i, i + 1)
  {
    var next := i + 1;
    forall e
      ensures Score(now, e) == SharedScore(before, cells, weight, Visits(nodes, i, e) + RowVisits(nodes, i, next, e), e)
    {
      assert RowVisits(nodes, i, next, e) == 0 == RowVisits(nodes, i, 0, e);
    }
  }

  lemma RowEnds(before: Scores, now: Scores, cells: CellMap, nodes: seq<NodeId>, weight: real, i: nat)
    requires i < |nodes| && Shared(before, now, cells, nodes, weight, i, |nodes|)
    ensures Shared(before, now, cells, nodes, weight, i + 1, 0)
  {
    var next := i + 1;
    forall e
      ensures Score(now, e) ==
              SharedScore(before, cells, weight, Visits(nodes, next, e) + RowVisits(nodes, next, 0, e), e)
    {
      assert Visits(nodes, next, e) + RowVisits(nodes, next, 0, e) ==
             Visits(nodes, i, e) + RowVisits(nodes, i, |nodes|, e);
    }
  }

  lemma ShareStep(before: Scores, mid: Scores, now: Scores, cells: CellMap, nodes: seq<NodeId>, weight: real, i: nat,
                  j: nat)
    requires i < j < |nodes| && Shared(before, mid, cells, nodes, weight, i, j)
    requires forall e :: Score(now, e) == SharedScore(mid, cells, weight, Hits(nodes[i], nodes[j], e), e)
    ensures Shared(before, now, cells, nodes, weight, i, j + 1)
  {
    hide Hits, RaisedBy;
    var next := j + 1;
    forall e
      ensures Score(now, e) == SharedScore(before, cells, weight, Visits(nodes, i, e) + RowVisits(nodes, i, next, e), e)
    {
      var sofar, more := Visits(nodes, i, e) + RowVisits(nodes, i, j, e), Hits(nodes[i], nodes[j], e);
      RaisedTwice(Score(before, e), weight, sofar, more);
      assert Score(mid, e) == SharedScore(before, cells, weight, sofar, e);
    }
  }

  /** The two places hold the ends of the edge. */
  predicate Holds(nodes: seq<NodeId>, x: nat, y: nat, e: Edge)
    requires x < |nodes| && y < |nodes|
  {
    e == Edge(nodes[x], nodes[y]) || e == Edge(nodes[y], nodes[x])
  }

  lemma {:induction false} RowVisitsOnce(nodes: seq<NodeId>, i: nat, j: nat, e: Edge)
    requires Distinct(nodes) && i < j <= |nodes|
    ensures RowVisits(nodes, i, j, e) == if exists y :: i < y < j && Holds(nodes, i, y, e) then 1 else 0
    decreases j
  {
    if j > i + 1 {
      RowVisitsOnce(nodes, i, j - 1, e);
      if Holds(nodes, i, j - 1, e) {
        forall y | i < y < j - 1 ensures !Holds(nodes, i, y, e) {
          assert nodes[y] != nodes[j - 1] && nodes[i] != nodes[j - 1] && nodes[i] != nodes[y];
        }
      }
    }
  }

  lemma {:induction false} RowsVisitOnce(nodes: seq<NodeId>, i: nat, e: Edge)
    requires Distinct(nodes) && i <= |nodes|
    ensures Visits(nodes, i, e) ==
            if exists x, y :: 0 <= x < i && x < y < |nodes| && Holds(nodes, x, y, e) then 1 else 0
  {
    if i > 0 {
      var row := i - 1;
      RowsVisitOnce(nodes, row, e);
      RowVisitsOnce(nodes, row, |nodes|, e);
      if y :| row < y < |nodes| && Holds(nodes, row, y, e) {
        forall p, q | 0 <= p < row && p < q < |nodes| ensures !Holds(nodes, p, q, e) {
          assert nodes[p] != nodes[row] && nodes[p] != nodes[y];
        }
      }
    }
  }

  /** Without repetition a link between two members is adjusted exactly once, and no other. */
  lemma VisitedOnce(nodes: seq<NodeId>, e: Edge)
    requires Distinct(nodes)
    ensures Visits(nodes, |nodes|, e) == if e.from in nodes && e.to in nodes && e.from != e.to then 1 else 0
  {
    RowsVisitOnce(nodes, |nodes|, e);
    if e.from in nodes && e.to in nodes && e.from != e.to {
      var a, b :| 0 <= a < |nodes| && 0 <= b < |nodes| && nodes[a] == e.from && nodes[b] == e.to;
      assert Holds(nodes, if a < b then a else b, if a < b then b else a, e);
    }
  }

  lemma IndexFinds(index: Index, cells: CellMap, token: string, ids: seq<NodeId>)
    requires IndexOk(index, cells) && ids == if token in index then index[token] else []
    ensures forall id :: id in ids <==> id in cells && token in Tokenize(cells[id].seed.corePattern)
  {
    forall id ensures id in ids <==> id in cells && token in Tokenize(cells[id].seed.corePattern) {
      assert Listed(index, token, id) == Occurs(cells, token, id);
      assert id in ids <==> id in multiset(ids);
    }
  }

  /** What routing reads besides the cells: the affinity scale, the active hormone and the route bias. */
  datatype Mood = Mood(affinityScale: real, hormone: Option<real>, routeBias: map<(string, NodeId), real>)

  function AffinityScale(c: NodeCell, mood: Mood): real {
    if c.adrenoTag && mood.hormone.Some? then mood.affinityScale * (1.0 + 0.25 * mood.hormone.value)
    else mood.affinityScale
  }

  function ScoreCell(c: NodeCell, imp: Impulse, scale: real): real {
    var closeness := 1.0 - Abs(c.affinity - imp.strength);
    var affinity := if closeness > 0.6 then closeness * Clamp(scale, 0.5, 1.5) else closeness;
    affinity + match c.state { case Active => 0.2 case Idle => 0.0 case Sleep => -0.4 case Dead => -1.0 }
  }

  /** The strongest bias of the tokens towards a cell, never below 1.0. */
  function BestBias(bias: map<(string, NodeId), real>, tokens: seq<string>, id: NodeId): (best: real)
    ensures best >= 1.0 && forall t :: t in tokens && (t, id) in bias ==> bias[(t, id)] <= best
    ensures best == 1.0 || exists t :: t in tokens && (t, id) in bias && bias[(t, id)] == best
  {
    if tokens == [] then 1.0
    else
      var last := tokens[|tokens| - 1];
      var best := BestBias(bias, tokens[..|tokens| - 1], id);
      assert forall t :: t in tokens <==> t in tokens[..|tokens| - 1] || t == last;
      if (last, id) in bias && bias[(last, id)] > best then bias[(last, id)] else best
  }

  function RouteScore(c: NodeCell, id: NodeId, imp: Impulse, mood: Mood): real {
    ScoreCell(c, imp, AffinityScale(c, mood)) * BestBias(mood.routeBias, Tokenize(imp.pattern), id)
  }

  function RouteScores(cells: CellMap, imp: Impulse, mood: Mood): map<NodeId, real> {
    map id | id in cells :: RouteScore(cells[id], id, imp, mood)
  }

  /** `sort_by` descending, `take(3)`: distinct, best first, and nothing better is left out. */
  predicate TopThree(top: seq<NodeId>, pool: set<NodeId>, score: map<NodeId, real>)
    requires pool <= score.Keys
  {
    Distinct(top) && (forall id :: id in top ==> id in pool) &&
    |top| == (if |pool| < 3 then |pool| else 3) &&
    (forall i, j :: 0 <= i < j < |top| ==> score[top[i]] >= score[top[j]]) &&
    (forall id, o :: id in top && o in pool && o !in top ==> score[id] >= score[o])
  }

  lemma {:induction false} BestExists(pool: set<NodeId>, score: map<NodeId, real>) returns (best: NodeId)
    requires pool != {} && pool <= score.Keys
    ensures best in pool && forall o :: o in pool ==> score[best] >= score[o]
    decreases |pool|
  {
    best :| best in pool;
    var rest := pool - {best};
    if rest != {} {
      var other := BestExists(rest, score);
      if score[other] > score[best] {
        best := other;
      }
    }
  }

  method PickTop(pool: set<NodeId>, score: map<NodeId, real>) returns (top: seq<NodeId>)
    requires pool <= score.Keys
    ensures TopThree(top, pool, score)
  {
    top := [];
    var rest := pool;
    while rest != {} && |top| < 3
      invariant Distinct(top) && |top| <= 3 && |top| + |rest| == |pool|
      invariant rest <= pool && forall id :: id in top ==> id in pool && id !in rest
      invariant forall id :: id in pool && id !in top ==> id in rest
      invariant forall i, j :: 0 <= i < j < |top| ==> score[top[i]] >= score[top[j]]
      invariant forall id, o :: id in top && o in rest ==> score[id] >= score[o]
      decreases |rest|
    {
      ghost var some := BestExists(rest, score);
      var best :| best in rest && forall o :: o in rest ==> score[best] >= score[o];
      top := top + [best];
      rest := rest - {best};
    }
  }

  function AfterImpulse(c: NodeCell, imp: Impulse, nowMs: nat): (r: NodeCell)
    ensures SameShape(r, c) && (r.state.Dead? <==> c.state.Dead?)
  {
    var ingested := Ingest(c, imp, nowMs);
    if ingested.responded then ingested.cell.(lastResponseMs := nowMs) else ingested.cell
  }

  /** Every cell in `ids` has taken the impulse in, whether or not it responded. */
  function Stirred(cells: CellMap, ids: seq<NodeId>, imp: Impulse, nowMs: nat): (r: CellMap)
    ensures SameCells(cells, r)
  {
    map id | id in cells :: if id in ids then AfterImpulse(cells[id], imp, nowMs) else cells[id]
  }

  /** The cells in `ids` that responded, in order: the only ones journalled. */
  function Responders(cells: CellMap, ids: seq<NodeId>, imp: Impulse, nowMs: nat): (r: seq<NodeId>)
    requires forall id :: id in ids ==> id in cells
    ensures forall id :: id in r ==> id in ids
  {
    if ids == [] then []
    else (if Ingest(cells[ids[0]], imp, nowMs).responded then [ids[0]] else []) +
         Responders(cells, ids[1..], imp, nowMs)
  }

  lemma NoResponders(cells: CellMap, imp: Impulse, nowMs: nat)
    ensures Responders(cells, [], imp, nowMs) == []
  {
  }

  lemma StirredSnoc(cells: CellMap, ids: seq<NodeId>, id: NodeId, imp: Impulse, nowMs: nat)
    requires id in cells && id !in ids
    ensures Stirred(cells, ids, imp, nowMs)[id] == cells[id]
    ensures Stirred(cells, ids + [id], imp, nowMs) ==
            Stirred(cells, ids, imp, nowMs)[id := AfterImpulse(cells[id], imp, nowMs)]
  {
  }

  lemma {:induction false} RespondersSnoc(cells: CellMap, ids: seq<NodeId>, id: NodeId, imp: Impulse, nowMs: nat)
    requires id in cells && forall o :: o in ids ==> o in cells
    ensures Responders(cells, ids + [id], imp, nowMs) ==
            Responders(cells, ids, imp, nowMs) + if Ingest(cells[id], imp, nowMs).responded then [id] else []
    decreases |ids|
  {
    if ids != [] {
      assert (ids + [id])[1..] == ids[1..] + [id];
      RespondersSnoc(cells, ids[1..], id, imp, nowMs);
    }
  }
}
