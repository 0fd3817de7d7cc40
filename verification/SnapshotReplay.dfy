/** Recovery as it happens: a snapshot of the field, then the deltas journalled after it. */
module SnapshotReplay {
  import opened Basics
  import opened Cells
  import opened FieldModel
  import opened FieldInvariant
  import opened FieldReplay

  /** `apply_delta` for each delta in turn, from any field. */
  function Fold(f: Field, deltas: seq<EventDelta>): Field {
    if deltas == [] then f else Apply(Fold(f, deltas[..|deltas| - 1]), deltas[|deltas| - 1])
  }

  lemma {:induction false} ReplayIsFold(log: seq<EventDelta>, k: nat)
    requires k <= |log|
    ensures Replay(log) == Fold(Replay(log[..k]), log[k..])
    decreases |log|
  {
    hide Apply;
    if k == |log| {
      assert log[..k] == log;
    } else {
      var front, last := log[..|log| - 1], log[|log| - 1];
      ReplayIsFold(front, k);
      assert front[..k] == log[..k] && front[k..] == log[k..][..|log| - k - 1] && log[k..][|log| - k - 1] == last;
    }
  }

  // ---- Two fields under the same deltas -----------------------------------

  /** Same ids, patterns, links, next id and clock. */
  ghost predicate SameSkeleton(r: Field, s: Field) {
    r.nextId == s.nextId && r.nowMs == s.nowMs && forall id :: ShapeAgrees(r.cells, s.cells, {}, id)
  }

  /** The delta sets the pair's score, or clears it with an end that died or a link that was pruned. */
  predicate Decides(d: EventDelta, e: Edge) {
    match d
    case DeadDelta(id) => e.from == id || e.to == id
    case DreamStrengthenDelta(from, to, _) => e == Edge(from, to)
    case DreamWeakenDelta(from, to, _) => e == Edge(from, to)
    case DreamPruneDelta(from, to) => e == Edge(from, to)
    case SyncAlignDelta(from, to, _) => e == Edge(from, to)
    case _ => false
  }

  predicate Decided(deltas: seq<EventDelta>, e: Edge) {
    exists d :: d in deltas && Decides(d, e)
  }

  /** One delta keeps the skeletons equal. */
  lemma ApplyKeepsSkeleton(r: Field, s: Field, d: EventDelta)
    requires SameSkeleton(r, s)
    ensures SameSkeleton(Apply(r, d), Apply(s, d))
  {
    match d
    case SpawnDelta(c) => ReviveKeepsSkeleton(r, s, c);
    case DivideDelta(parent, c) =>
      AddLinkKeepsSkeleton(r, s, parent, c.id);
      ReviveKeepsSkeleton(AddLink(r, parent, c.id), AddLink(s, parent, c.id), c);
    case LinkDelta(from, to) => AddLinkKeepsSkeleton(r, s, from, to);
    case DreamRewireDelta(from, to) => AddLinkKeepsSkeleton(r, s, from, to);
    case _ => OtherKeepsSkeleton(r, s, d);
  }

  lemma ReviveKeepsSkeleton(r: Field, s: Field, c: CellSnapshot)
    requires SameSkeleton(r, s)
    ensures SameSkeleton(Revive(r, c), Revive(s, c))
  {
    var r', s' := Revive(r, c), Revive(s, c);
    forall id ensures ShapeAgrees(r'.cells, s'.cells, {}, id) {
      assert ShapeAgrees(r.cells, s.cells, {}, id);
    }
  }

  lemma OtherKeepsSkeleton(r: Field, s: Field, d: EventDelta)
    requires SameSkeleton(r, s) && !d.SpawnDelta? && !d.DivideDelta? && !d.LinkDelta? && !d.DreamRewireDelta?
    ensures SameSkeleton(Apply(r, d), Apply(s, d))
  {
    hide Track, Edges, Purge, AddLink, Revive;
    var r', s' := Apply(r, d), Apply(s, d);
    forall id ensures ShapeAgrees(r'.cells, s'.cells, {}, id) {
      assert ShapeAgrees(r.cells, s.cells, {}, id);
    }
  }

  lemma AddLinkKeepsSkeleton(r: Field, s: Field, from: NodeId, to: NodeId)
    requires SameSkeleton(r, s)
    ensures SameSkeleton(AddLink(r, from, to), AddLink(s, from, to))
  {
    var r', s' := AddLink(r, from, to), AddLink(s, from, to);
    assert ShapeAgrees(r.cells, s.cells, {}, from);
    forall id ensures ShapeAgrees(r'.cells, s'.cells, {}, id) {
      assert ShapeAgrees(r.cells, s.cells, {}, id);
    }
  }

  /** One delta gives a pair it decides the same score in both, and keeps equal scores equal. */
  lemma ApplyKeepsScore(r: Field, s: Field, d: EventDelta, e: Edge)
    requires SameSkeleton(r, s) && (Decides(d, e) || Score(r.scores, e) == Score(s.scores, e))
    ensures Score(Apply(r, d).scores, e) == Score(Apply(s, d).scores, e)
  {
    ScoreAfter(r, d, e);
    ScoreAfter(s, d, e);
    assert ShapeAgrees(r.cells, s.cells, {}, e.from);
    hide Apply;
  }

  /** What a delta does to the score of a pair, in terms of the pair alone. */
  lemma ScoreAfter(f: Field, d: EventDelta, e: Edge)
    ensures Score(Apply(f, d).scores, e) ==
            match d
            case DreamStrengthenDelta(from, to, score) => if e == Edge(from, to) then score else Score(f.scores, e)
            case DreamWeakenDelta(from, to, score) => if e == Edge(from, to) then score else Score(f.scores, e)
            case SyncAlignDelta(from, to, score) => if e == Edge(from, to) then score else Score(f.scores, e)
            case UnlinkDelta(from, to) => if e == Edge(from, to) && Linked(f, e) then 1.0 else Score(f.scores, e)
            case _ => if Decides(d, e) then 1.0 else Score(f.scores, e)
  {
  }

  /** A pair at the default score stays there until a delta decides it. */
  lemma ApplyKeepsDefault(s: Field, d: EventDelta, e: Edge)
    requires !Decides(d, e) && Score(s.scores, e) == 1.0
    ensures Score(Apply(s, d).scores, e) == 1.0
  {
  }

  lemma {:induction false} FoldKeeps(r: Field, s: Field, deltas: seq<EventDelta>)
    requires SameSkeleton(r, s)
    ensures SameSkeleton(Fold(r, deltas), Fold(s, deltas))
    ensures forall e :: Decided(deltas, e) || Score(r.scores, e) == Score(s.scores, e) ==>
              Score(Fold(r, deltas).scores, e) == Score(Fold(s, deltas).scores, e)
    ensures forall e :: !Decided(deltas, e) && Score(s.scores, e) == 1.0 ==> Score(Fold(s, deltas).scores, e) == 1.0
  {
    hide Apply, Decides, Score, SameSkeleton;
    if deltas != [] {
      var front, last := deltas[..|deltas| - 1], deltas[|deltas| - 1];
      var a, b := Fold(r, front), Fold(s, front);
      FoldKeeps(r, s, front);
      ApplyKeepsSkeleton(a, b, last);
      forall e | Decided(deltas, e) || Score(r.scores, e) == Score(s.scores, e)
        ensures Score(Apply(a, last).scores, e) == Score(Apply(b, last).scores, e)
      {
        DecidedSnoc(front, last, e);
        assert deltas == front + [last];
        ApplyKeepsScore(a, b, last, e);
      }
      forall e | !Decided(deltas, e) && Score(s.scores, e) == 1.0 ensures Score(Apply(b, last).scores, e) == 1.0 {
        DecidedSnoc(front, last, e);
        assert deltas == front + [last];
        ApplyKeepsDefault(b, last, e);
      }
    }
  }

  lemma DecidedSnoc(deltas: seq<EventDelta>, d: EventDelta, e: Edge)
    ensures Decided(deltas + [d], e) <==> Decided(deltas, e) || Decides(d, e)
  {
    hide Decides;
    var more := deltas + [d];
    assert forall x :: x in more <==> x in deltas || x == d;
  }

  // ---- The journal only grows ---------------------------------------------

  lemma {:induction false} LinkToGrows(s: Sys, sources: seq<NodeId>, id: NodeId)
    ensures s.log <= LinkTo(s, sources, id).log
    decreases |sources|
  {
    if sources != [] {
      LinkToGrows(Sys(AddLink(s.f, sources[0], id), s.log + [LinkDelta(sources[0], id)]), sources[1..], id);
    }
  }

  lemma {:induction false} MetaboliseGrows(p: Pass, ids: seq<NodeId>, dtMs: nat, env: TickEnv)
    requires forall id :: id in ids ==> id in p.f.cells
    ensures p.log <= MetaboliseAll(p, ids, dtMs, env).log
    decreases |ids|
  {
    if ids != [] {
      MetaboliseGrows(Metabolise(p, ids[0], dtMs, env), ids[1..], dtMs, env);
    }
  }

  lemma {:induction false} DivideGrows(p: Pass, ids: seq<NodeId>, variation: map<NodeId, real>)
    requires forall id :: id in ids ==> id in p.f.cells && id in variation
    ensures p.log <= DivideAll(p, ids, variation).log
    decreases |ids|
  {
    if ids != [] {
      DivideGrows(Divide(p, ids[0], variation[ids[0]]), ids[1..], variation);
    }
  }

  lemma {:induction false} GraftGrows(p: Pass, born: seq<(NodeId, NodeCell)>)
    ensures p.log <= GraftAll(p, born).log
    decreases |born|
  {
    if born != [] {
      GraftGrows(Graft(p, born[0].0, born[0].1), born[1..]);
    }
  }

  lemma {:induction false} CullGrows(p: Pass, ids: seq<NodeId>, env: TickEnv)
    requires forall id :: id in ids ==> id in p.f.cells
    ensures p.log <= CullAll(p, ids, env).log
    decreases |ids|
  {
    if ids != [] {
      CullGrows(Cull(p, ids[0], env), ids[1..], env);
    }
  }

  lemma {:induction false} BuryEachGrows(s: Sys, victims: seq<NodeId>)
    ensures s.log <= BuryEach(s, victims).log
    decreases |victims|
  {
    if victims != [] {
      BuryEachGrows(Sys(s.f.(scores := Purge(s.f.scores, victims[0])), s.log + [DeadDelta(victims[0])]), victims[1..]);
    }
  }

  lemma {:induction false} AnnounceGrows(f: Field, log: seq<EventDelta>, ids: seq<NodeId>)
    requires forall id :: id in ids ==> id in f.cells
    ensures log <= Announce(f, log, ids)
    decreases |ids|
  {
    if ids != [] {
      AnnounceGrows(f, log + [EnergyOf(f.cells[ids[0]])], ids[1..]);
    }
  }

  lemma TickGrows(s: Sys, dtMs: nat, env: TickEnv, order: seq<NodeId>, variation: map<NodeId, real>)
    requires Enumerates(order, s.f.cells.Keys) && variation.Keys == s.f.cells.Keys
    ensures s.log <= TickAll(s, dtMs, env, order, variation).log
  {
    var now := SatAdd(s.f.nowMs, dtMs);
    var p0 := Pass(s.f.(nowMs := now), s.log + [TickDelta(now)], [], []);
    var p1 := MetaboliseAll(p0, order, dtMs, env);
    var p2 := DivideAll(p1, order, variation);
    var p3 := GraftAll(p2, p2.born);
    MetaboliseGrows(p0, order, dtMs, env);
    DivideGrows(p1, order, variation);
    GraftGrows(p2, p2.born);
    CullGrows(p3, order, env);
  }

  lemma StepGrows(s: Sys, op: Op)
    requires Enabled(s.f, op)
    ensures s.log <= Step(s, op).log
  {
    match op
    case InjectOp(seed, energy, sources) =>
      var c := Bud(s.f, seed, energy);
      LinkToGrows(Sys(Attach(s.f, c).(nextId := s.f.nextId + 1), s.log + [SpawnDelta(Snapshot(c))]), sources, c.id);
    case TickOp(dtMs, env, order, variation) => TickGrows(s, dtMs, env, order, variation);
    case TrimOp(naps, kills, order) =>
      var cells := Survivors(Trimmed(s.f, naps, kills));
      var scores := if |cells| != |s.f.cells| then Track(s.f.scores, Edges(cells)) else s.f.scores;
      BuryEachGrows(Sys(s.f.(cells := cells, scores := scores), s.log), order);
    case TouchOp(cells, told) => AnnounceGrows(s.f.(cells := cells), s.log, told);
    case _ =>
  }

  lemma {:induction false} LogGrows(trace: seq<Sys>, ops: seq<Op>, k: nat, i: nat)
    requires IsRun(trace, ops) && k <= i < |trace|
    ensures trace[k].log <= trace[i].log
    decreases i
  {
    hide Step, Enabled;
    if k < i {
      LogGrows(trace, ops, k, i - 1);
      StepGrows(trace[i - 1], ops[i - 1]);
    }
  }

  // ---- Recovery from a snapshot -------------------------------------------

  /**
    Snapshot, then replay. For every run and every earlier point `k` of it, restoring the snapshot
    taken at `k` and applying what was journalled since gives the live field's ids, patterns, links,
    next id and clock. The score of a pair is the live one if a later delta decided it, or if it was
    1.0 at the snapshot; any other score is back at 1.0.
   */
  lemma SnapshotThenReplay(trace: seq<Sys>, ops: seq<Op>, k: nat, i: nat)
    requires IsRun(trace, ops) && k <= i < |trace|
    ensures trace[k].log <= trace[i].log
    ensures var since := trace[i].log[|trace[k].log|..];
            var f := Fold(Restored(trace[k].f), since);
            SameSkeleton(f, trace[i].f) &&
            (forall e :: Decided(since, e) || Score(trace[k].f.scores, e) == 1.0 ==>
              Close(Score(f.scores, e), Score(trace[i].f.scores, e))) &&
            (forall e :: !Decided(since, e) ==> Score(f.scores, e) == 1.0)
  {
    LogGrows(trace, ops, k, i);
    var log, mark := trace[i].log, |trace[k].log|;
    assert log[..mark] == trace[k].log;
    var replayed, live, since := Replay(trace[k].log), trace[k].f, log[mark..];
    RunAgrees(trace, ops, k);
    RunAgrees(trace, ops, i);
    ReplayIsFold(log, mark);
    hide Apply, Replay, Fold, Decided, Score, IsRun;
    SnapshotSkeleton(replayed, live);
    FoldKeeps(replayed, Restored(live), since);
    SkeletonOf(Replay(log), trace[i].f);
    SkeletonTrans(Fold(Restored(live), since), Replay(log), trace[i].f);
    SnapshotScores(live);
    forall e | Decided(since, e) || Score(live.scores, e) == 1.0
      ensures Close(Score(Fold(Restored(live), since).scores, e), Score(trace[i].f.scores, e))
    {
      DefaultAgrees(replayed, live, e);
      AgreeingScore(Replay(log), trace[i].f, e);
    }
  }

  lemma SkeletonOf(r: Field, f: Field)
    requires Agrees(r, f)
    ensures SameSkeleton(r, f) && SameSkeleton(f, r)
  {
    forall id ensures ShapeAgrees(f.cells, r.cells, {}, id) {
      assert ShapeAgrees(r.cells, f.cells, {}, id);
    }
  }

  lemma SkeletonTrans(a: Field, b: Field, c: Field)
    requires SameSkeleton(b, a) && SameSkeleton(b, c)
    ensures SameSkeleton(a, c)
  {
    forall id ensures ShapeAgrees(a.cells, c.cells, {}, id) {
      assert ShapeAgrees(b.cells, a.cells, {}, id) && ShapeAgrees(b.cells, c.cells, {}, id);
    }
  }

  lemma SnapshotSkeleton(r: Field, live: Field)
    requires Agrees(r, live)
    ensures SameSkeleton(r, Restored(live))
  {
    RestoreAgrees(live);
    SkeletonOf(r, live);
  }

  lemma SnapshotScores(live: Field)
    ensures forall e :: Score(Restored(live).scores, e) == 1.0
  {
  }

  lemma AgreeingScore(r: Field, f: Field, e: Edge)
    requires Agrees(r, f)
    ensures Close(Score(r.scores, e), Score(f.scores, e))
  {
    assert ScoreAgrees(r.scores, f.scores, {}, e);
  }

  lemma DefaultAgrees(r: Field, live: Field, e: Edge)
    requires Agrees(r, live)
    ensures Score(live.scores, e) == 1.0 ==> Score(r.scores, e) == 1.0
  {
    AgreeingScore(r, live, e);
  }
}
