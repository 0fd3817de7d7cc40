/** The collective dream: token sharing over every sync group in turn (synchrony.rs). */
module CollectiveDream {
  import opened Basics
  import opened Cells
  import opened FieldModel
  import opened FieldInvariant
  import opened LiveField
  import S = Synchrony

  type Group = S.SyncGroup

  // ---- Route bias ---------------------------------------------------------

  /** A token and a node: what a bias is kept for. */
  type Slot = (string, NodeId)

  type Biases = map<Slot, real>

  function Bias(b: Biases, k: Slot): real {
    if k in b then b[k] else 1.0
  }

  /** One raise of a bias: clamped to [0.2, 5.0], and skipped if it would hardly move. */
  function Biased(x: real, weight: real): real {
    var raised := Clamp(x + weight, 0.2, 5.0);
    if Abs(raised - x) > EPSILON then raised else x
  }

  function BiasedBy(x: real, weight: real, times: nat): real {
    if times == 0 then x else Biased(BiasedBy(x, weight, times - 1), weight)
  }

  /** A bias raised n times gains n weights while that stays within 5.0, and ends at most EPSILON below it otherwise. */
  lemma {:induction false} BiasMeans(x: real, weight: real, times: nat)
    requires 0.2 <= x <= 5.0 && weight > EPSILON
    ensures var sum, b := x + Gained(times, weight), BiasedBy(x, weight, times);
            if sum <= 5.0 then b == sum else 5.0 - EPSILON <= b <= 5.0
  {
    hide Biased, Gained;
    if times == 0 {
      NoneGained(weight);
    } else {
      BiasMeans(x, weight, times - 1);
      NextGained(times - 1, weight);
      BiasStep(BiasedBy(x, weight, times - 1), weight);
    }
  }

  function Gained(times: nat, weight: real): real {
    times as real * weight
  }

  lemma NoneGained(weight: real)
    ensures Gained(0, weight) == 0.0
  {
  }

  lemma NextGained(times: nat, weight: real)
    requires weight > 0.0
    ensures Gained(times + 1, weight) == Gained(times, weight) + weight && Gained(times, weight) >= 0.0
  {
  }

  lemma BiasStep(b: real, weight: real)
    requires 0.2 <= b <= 5.0 && weight > EPSILON
    ensures var next := Biased(b, weight);
            if b + weight <= 5.0 then next == b + weight else if b < 5.0 - EPSILON then next == 5.0 else next == b
  {
  }

  /** How often a node raises the bias of a slot: once for each listing of the token. */
  function RowTimes(words: seq<string>, id: NodeId, k: Slot): nat {
    if k.1 == id then multiset(words)[k.0] else 0
  }

  /** How often a group raises the bias of a slot: once for each pair of listings, if the cell lives. */
  function BiasTimes(cells: CellMap, nodes: seq<NodeId>, words: seq<string>, k: Slot): nat {
    if k.1 in cells then multiset(nodes)[k.1] * multiset(words)[k.0] else 0
  }

  ghost predicate BiasIs(before: Biases, now: Biases, weight: real, k: Slot, times: nat) {
    Bias(now, k) == BiasedBy(Bias(before, k), weight, times)
  }

  /** A bias that moved was told, with its value. */
  ghost predicate Told(before: Biases, now: Biases, told: seq<(NodeId, string, real)>, k: Slot) {
    Bias(now, k) != Bias(before, k) ==> (k.1, k.0, Bias(now, k)) in told
  }

  /**
    The bias half of `share_tokens`: each live member's bias towards each lower-cased token is raised
    once for every pair of listings, no other bias moves, and what moved is told.
   */
  method ShareBias(bias: Biases, cells: CellMap, nodes: seq<NodeId>, tokens: seq<string>, weight: real)
    returns (after: Biases, told: seq<(NodeId, string, real)>)
    ensures forall k: Slot :: BiasIs(bias, after, weight, k, BiasTimes(cells, nodes, LowerAll(tokens), k))
    ensures forall k: Slot :: Told(bias, after, told, k)
  {
    hide BiasedBy, BiasTimes, LowerAll, BiasIs, Told;
    after, told := bias, [];
    var words := LowerAll(tokens);
    NoRows(bias, cells, words, weight);
    assert nodes[..0] == [];
    for i := 0 to |nodes|
      invariant forall k: Slot :: BiasIs(bias, after, weight, k, BiasTimes(cells, nodes[..i], words, k))
      invariant forall k: Slot :: Told(bias, after, told, k)
    {
      ghost var start, done, more := after, nodes[..i], nodes[..i + 1];
      assert more == done + [nodes[i]];
      if nodes[i] in cells {
        after, told := ShareRow(bias, after, nodes[i], words, weight, told);
      }
      forall k: Slot ensures BiasIs(bias, after, weight, k, BiasTimes(cells, more, words, k)) {
        NextRow(bias, start, after, cells, done, nodes[i], words, weight, k);
      }
    }
    assert nodes[..|nodes|] == nodes;
  }

  lemma NoRows(b: Biases, cells: CellMap, words: seq<string>, weight: real)
    ensures forall k: Slot :: BiasIs(b, b, weight, k, BiasTimes(cells, [], words, k))
    ensures forall k: Slot :: Told(b, b, [], k)
  {
    forall k: Slot ensures BiasIs(b, b, weight, k, BiasTimes(cells, [], words, k)) {
      var none: seq<NodeId> := [];
      assert multiset(none)[k.1] == 0;
    }
  }

  lemma NextRow(bias: Biases, start: Biases, after: Biases, cells: CellMap, done: seq<NodeId>, id: NodeId,
                words: seq<string>, weight: real, k: Slot)
    requires BiasIs(bias, start, weight, k, BiasTimes(cells, done, words, k))
    requires if id in cells then BiasIs(start, after, weight, k, RowTimes(words, id, k)) else after == start
    ensures BiasIs(bias, after, weight, k, BiasTimes(cells, done + [id], words, k))
  {
    var n, row := multiset(done)[k.1], multiset(words)[k.0];
    BiasedTwice(Bias(bias, k), weight, BiasTimes(cells, done, words, k), RowTimes(words, id, k));
    if k.1 == id && id in cells {
      assert multiset(done + [id])[k.1] == n + 1;
      assert BiasTimes(cells, done + [id], words, k) == (n + 1) * row == n * row + row;
    } else {
      assert k.1 != id ==> multiset(done + [id])[k.1] == n;
    }
  }

  method ShareRow(bias: Biases, start: Biases, id: NodeId, words: seq<string>, weight: real,
                  before: seq<(NodeId, string, real)>)
    returns (after: Biases, told: seq<(NodeId, string, real)>)
    requires forall k: Slot :: Told(bias, start, before, k)
    ensures forall k: Slot :: BiasIs(start, after, weight, k, RowTimes(words, id, k))
    ensures forall k: Slot :: Told(bias, after, told, k)
  {
    hide BiasedBy, RowTimes, BiasIs;
    after, told := start, before;
    NoWords(start, id, weight);
    assert words[..0] == [];
    for j := 0 to |words|
      invariant forall k: Slot :: BiasIs(start, after, weight, k, RowTimes(words[..j], id, k))
      invariant forall k: Slot :: Told(bias, after, told, k)
    {
      ghost var mid, sofar, done, more := after, told, words[..j], words[..j + 1];
      assert more == done + [words[j]];
      var key := (words[j], id);
      if key !in after {
        after := after[key := 1.0];
      }
      var raised := Clamp(after[key] + weight, 0.2, 5.0);
      if Abs(raised - after[key]) > EPSILON {
        after := after[key := raised];
        told := told + [(id, words[j], raised)];
      }
      forall k: Slot ensures BiasIs(start, after, weight, k, RowTimes(more, id, k)) {
        NextWord(start, mid, after, done, words[j], id, weight, k);
      }
      forall k: Slot ensures Told(bias, after, told, k) {
        assert Told(bias, mid, sofar, k);
      }
    }
    assert words[..|words|] == words;
  }

  lemma NoWords(b: Biases, id: NodeId, weight: real)
    ensures forall k: Slot :: BiasIs(b, b, weight, k, RowTimes([], id, k))
  {
  }

  lemma NextWord(start: Biases, mid: Biases, after: Biases, done: seq<string>, word: string, id: NodeId, weight: real,
                 k: Slot)
    requires BiasIs(start, mid, weight, k, RowTimes(done, id, k))
    requires Bias(after, k) == if k == (word, id) then Biased(Bias(mid, k), weight) else Bias(mid, k)
    ensures BiasIs(start, after, weight, k, RowTimes(done + [word], id, k))
  {
    var n := multiset(done)[k.0];
    assert multiset(done + [word])[k.0] == if k.0 == word then n + 1 else n;
    OneMoreBias(Bias(start, k), weight, RowTimes(done, id, k));
  }

  lemma OneMoreBias(x: real, weight: real, times: nat)
    ensures BiasedBy(x, weight, times + 1) == Biased(BiasedBy(x, weight, times), weight)
  {
  }

  lemma {:induction false} BiasedTwice(x: real, weight: real, m: nat, n: nat)
    ensures BiasedBy(BiasedBy(x, weight, m), weight, n) == BiasedBy(x, weight, m + n)
  {
    if n > 0 {
      BiasedTwice(x, weight, m, n - 1);
    }
  }

  // ---- Groups -------------------------------------------------------------

  /** How often a group adjusts the edge: once for each pair of its places that hold the two ends. */
  function Times(g: Group, e: Edge): nat {
    if g.tokens == [] then 0 else Visits(g.nodes, |g.nodes|, e)
  }

  /** A group that shares and holds both ends of the pair. */
  predicate Together(g: Group, e: Edge) {
    g.tokens != [] && e.from in g.nodes && e.to in g.nodes && e.from != e.to
  }

  predicate LinkedIn(cells: CellMap, e: Edge) {
    e.from in cells && e.to in cells[e.from].links
  }

  /** A link's score after the groups: raised as often as each of them adjusts it. */
  function Dreamed(before: Scores, cells: CellMap, groups: seq<Group>, weight: real, e: Edge): real {
    if groups == [] then Score(before, e)
    else
      var last := |groups| - 1;
      var prior := Dreamed(before, cells, groups[..last], weight, e);
      if LinkedIn(cells, e) then RaisedBy(prior, weight, Times(groups[last], e)) else prior
  }

  ghost predicate ScoresDreamed(before: Scores, now: Scores, cells: CellMap, groups: seq<Group>, weight: real) {
    forall e :: Score(now, e) == Dreamed(before, cells, groups, weight, e)
  }

  /** `run_collective_dream`: the field stays journalled, links stay, and scores move as `Dreamed` says. */
  method RunCollectiveDream(field: ClusterField, groups: seq<Group>, weightXfer: real)
    requires field.Valid()
    modifies field`cells, field`linkScores, field`journal
    ensures field.Valid() && SameCells(old(field.cells), field.cells)
    ensures ScoresDreamed(old(field.linkScores), field.linkScores, old(field.cells), groups,
                          Clamp(weightXfer, 0.05, 0.5))
  {
    hide Consistent, IndexOk, ScoresDreamed, SameCells, Aligned, Shared;
    ghost var weight := Clamp(weightXfer, 0.05, 0.5);
    CellsStay(field.cells);
    NoGroups(field.linkScores, field.cells, weight);
    for i := 0 to |groups|
      invariant field.Valid() && SameCells(old(field.cells), field.cells)
      invariant ScoresDreamed(old(field.linkScores), field.linkScores, old(field.cells), groups[..i], weight)
    {
      ghost var mid, cells := field.linkScores, field.cells;
      var g := groups[i];
      field.ShareTokens(g.nodes, g.tokens, weightXfer);
      assert groups[..i + 1] == groups[..i] + [g];
      NextGroup(old(field.linkScores), mid, field.linkScores, old(field.cells), cells, field.cells, groups[..i], g,
                weight);
    }
    assert groups[..|groups|] == groups;
  }

  lemma CellsStay(cells: CellMap)
    ensures SameCells(cells, cells)
  {
  }

  lemma NoGroups(scores: Scores, cells: CellMap, weight: real)
    ensures ScoresDreamed(scores, scores, cells, [], weight)
  {
  }

  lemma NextGroup(before: Scores, mid: Scores, now: Scores, cells: CellMap, midCells: CellMap, nowCells: CellMap,
                  groups: seq<Group>, g: Group, weight: real)
    requires ScoresDreamed(before, mid, cells, groups, weight) && SameCells(cells, midCells)
    requires g.tokens == [] ==> now == mid && nowCells == midCells
    requires g.tokens != [] ==> nowCells == Aligned(midCells, g.nodes, Centroid(midCells, g.nodes), weight)
    requires g.tokens != [] ==> Shared(mid, now, nowCells, g.nodes, weight, |g.nodes|, 0)
    ensures ScoresDreamed(before, now, cells, groups + [g], weight) && SameCells(cells, nowCells)
  {
    hide Aligned, Visits, RowVisits, RaisedBy;
    var longer := groups + [g];
    forall e ensures Score(now, e) == Dreamed(before, cells, longer, weight, e) {
      assert longer[..|groups|] == groups;
      assert Score(mid, e) == Dreamed(before, cells, groups, weight, e);
      if g.tokens != [] {
        assert RowVisits(g.nodes, |g.nodes|, 0, e) == 0 by { NoRow(g.nodes, e); }
        assert Score(now, e) == SharedScore(mid, nowCells, weight, Visits(g.nodes, |g.nodes|, e), e);
        assert LinkedIn(cells, e) == LinkedIn(nowCells, e);
      } else {
        NotRaised(Score(mid, e), weight);
      }
    }
  }

  lemma NoRow(nodes: seq<NodeId>, e: Edge)
    ensures RowVisits(nodes, |nodes|, 0, e) == 0
  {
  }

  lemma NotRaised(score: real, weight: real)
    ensures RaisedBy(score, weight, 0) == score
  {
  }

  ghost predicate Disjoint(groups: seq<Group>) {
    forall i, j, x :: 0 <= i < j < |groups| && x in groups[i].nodes ==> x !in groups[j].nodes
  }

  /** The score of a link raised exactly once if some group holds both its ends, and otherwise kept. */
  ghost function RaisedOnce(before: Scores, cells: CellMap, groups: seq<Group>, weight: real, e: Edge): real {
    if LinkedIn(cells, e) && exists g :: g in groups && Together(g, e) then RaisedBy(Score(before, e), weight, 1)
    else Score(before, e)
  }

  /** With disjoint groups a link is raised exactly once if some group holds both its ends, and otherwise kept. */
  lemma {:induction false} DisjointRaisesOnce(before: Scores, cells: CellMap, groups: seq<Group>, weight: real, e: Edge)
    requires Disjoint(groups) && forall g :: g in groups ==> Distinct(g.nodes)
    ensures Dreamed(before, cells, groups, weight, e) == RaisedOnce(before, cells, groups, weight, e)
  {
    hide LinkedIn, RaisedBy, Visits, RowVisits;
    NotRaised(Score(before, e), weight);
    NotRaised(RaisedBy(Score(before, e), weight, 1), weight);
    if groups != [] {
      VisitedOnce(groups[|groups| - 1].nodes, e);
      var last := |groups| - 1;
      var front := groups[..last];
      DisjointRaisesOnce(before, cells, front, weight, e);
      if Together(groups[last], e) {
        forall g | g in front ensures !Together(g, e) {
          var i :| 0 <= i < last && front[i] == g;
          assert groups[i] == g;
        }
        assert groups[last] in groups;
      }
      assert forall g :: g in groups <==> g in front || g == groups[last];
    }
  }

  /** Every group that sync detection returns is one of the ranked components, and no two overlap. */
  lemma {:induction false} DetectedAreDisjoint(ranked: seq<seq<NodeId>>, topTokens: seq<NodeId> -> seq<string>,
                                               nowMs: nat)
    requires forall i, j, x :: 0 <= i < j < |ranked| && x in ranked[i] ==> x !in ranked[j]
    ensures Disjoint(S.Labelled(ranked, topTokens, nowMs))
  {
    if ranked != [] {
      var last := |ranked| - 1;
      var front := ranked[..last];
      DetectedAreDisjoint(front, topTokens, nowMs);
      S.LabelledSize(front, topTokens, nowMs);
      var sofar := S.Labelled(front, topTokens, nowMs);
      forall i, x | 0 <= i < |sofar| && x in sofar[i].nodes ensures x !in ranked[last] {
        assert sofar[i] in sofar;
        var k :| 0 <= k < last && front[k] == sofar[i].nodes;
        assert ranked[k] == sofar[i].nodes;
      }
    }
  }

  /**
    Detection followed by the dream, as every caller runs them: exactly the links between two
    members of the same detected component are raised, once each, and every other score is kept.
   */
  method SyncCycle(field: ClusterField, pairs: seq<S.PairStat>, threshold: real, maxGroups: nat,
                   topTokens: seq<NodeId> -> seq<string>, weightXfer: real)
    returns (groups: seq<Group>, ranked: seq<seq<NodeId>>, adj: S.Adjacency)
    requires field.Valid()
    modifies field`cells, field`linkScores, field`journal
    ensures forall x, y :: y in S.Neighbours(adj, x) <==> S.Joined(pairs, threshold, x, y)
    ensures S.Exact(adj, ranked, adj.Keys) && S.LargestFirst(ranked)
    ensures groups == S.Labelled(ranked[..if |ranked| < maxGroups then |ranked| else maxGroups], topTokens, field.nowMs)
    ensures field.Valid() && SameCells(old(field.cells), field.cells) && |groups| <= maxGroups
    ensures var weight := Clamp(weightXfer, 0.05, 0.5);
            forall e :: Score(field.linkScores, e) ==
              RaisedOnce(old(field.linkScores), old(field.cells), groups, weight, e)
  {
    hide Consistent, IndexOk, S.IsComponent, S.Reach, S.Joined, S.LargestFirst, SameCells, Dreamed, RaisedOnce;
    groups, ranked, adj := S.DetectSyncGroups(pairs, threshold, maxGroups, topTokens, field.nowMs);
    DetectedAreDisjoint(ranked[..if |ranked| < maxGroups then |ranked| else maxGroups], topTokens, field.nowMs);
    forall g | g in groups ensures Distinct(g.nodes) {
      ComponentIsDistinct(adj, g.nodes);
    }
    hide S.Labelled, S.Exact, Disjoint, Distinct;
    RunCollectiveDream(field, groups, weightXfer);
    ghost var weight := Clamp(weightXfer, 0.05, 0.5);
    forall e
      ensures Score(field.linkScores, e) == RaisedOnce(old(field.linkScores), old(field.cells), groups, weight, e)
    {
      DisjointRaisesOnce(old(field.linkScores), old(field.cells), groups, weight, e);
    }
  }

  lemma ComponentIsDistinct(adj: S.Adjacency, g: seq<NodeId>)
    requires S.IsComponent(adj, g)
    ensures Distinct(g)
  {
  }
}
