/**
  The background cycles as the program runs them: a dream (dream_engine.rs) and a sync cycle
  (synchrony.rs) over the pairs that the field's own route histories hold (cluster_field.rs).
 */
module Cycles {
  import opened Basics
  import opened Cells
  import opened FieldModel
  import opened LiveField
  import opened Sorting
  import opened RecentPairs
  import W = Windows
  import S = Synchrony
  import D = DreamEngine
  import C = CollectiveDream

  // ---- Dreaming over recent pairs -----------------------------------------

  lemma ReportedPairs(pairs: seq<S.PairStat>, routes: Routes, order: seq<string>, cutoff: nat)
    requires (forall t :: t in order ==> t in routes) && Measured(pairs, routes, order, cutoff)
    ensures D.Pairwise(pairs)
  {
    hide BruteAll;
    forall i, j | 0 <= i < j < |pairs| ensures (pairs[i].u, pairs[i].v) != (pairs[j].u, pairs[j].v) {
      assert Pair(pairs[i].u, pairs[i].v) != Pair(pairs[j].u, pairs[j].v);
    }
  }

  /** `run_dream` on the field's recent pairs: what `RunDream` promises, about those pairs. */
  method DreamCycle(field: ClusterField, routes: RouteField, cfg: D.DreamConfig, windowMs: nat, order: seq<string>)
    returns (report: D.DreamReport, pairs: seq<S.PairStat>, ghost up: D.Touched, ghost down: D.Touched, ghost n: nat,
             ghost m: nat)
    requires field.Valid() && routes.Valid() && Enumerates(order, routes.recentRoutes.Keys)
    modifies field
    ensures field.Valid() && D.Dreamt(old(field.F()), field.F(), cfg, up, down)
    ensures Measured(pairs, routes.recentRoutes, order, SatSub(routes.nowMs, windowMs)) && D.Pairwise(pairs)
    ensures D.Ops(report) <= cfg.maxOpsPerCycle + 1
    ensures n <= |D.Top(pairs, cfg)| && up == D.Eligible(old(field.cells), D.Top(pairs, cfg)[..n], cfg)
    ensures m <= |D.Bottom(pairs, cfg)| && down == D.Eligible(old(field.cells), D.Bottom(pairs, cfg)[..m], cfg) - up
    ensures D.Ops(report) < cfg.maxOpsPerCycle ==> n == |D.Top(pairs, cfg)| && m == |D.Bottom(pairs, cfg)|
    ensures report.strengthened == |D.Moved(old(field.F()), up)| && D.Tallied(report, old(field.F()), field.F(), down)
  {
    hide D.Dreamt, D.Dreaming, D.Top, D.Bottom, D.Tallied, D.Moved, D.Eligible, D.Ops, D.Pairwise, Measured;
    pairs := routes.CollectRecentPairs(windowMs, order);
    ghost var recent := routes.recentRoutes;
    ReportedPairs(pairs, recent, order, SatSub(routes.nowMs, windowMs));
    report, up, down, n, m := D.RunDream(field, cfg, pairs);
    assert routes.recentRoutes == recent;
  }

  // ---- The tokens a group shares ------------------------------------------

  const RECENT_ENTRIES: nat := 64

  function InFocus(entries: seq<Route>, nodes: seq<NodeId>): seq<Route> {
    if entries == [] then []
    else (if entries[0].node in nodes then [entries[0]] else []) + InFocus(entries[1..], nodes)
  }

  function TotalStrength(entries: seq<Route>): real {
    if entries == [] then 0.0 else entries[0].strength + TotalStrength(entries[1..])
  }

  /** What a token's newest 64 responses by members are worth, if there are any. */
  function TokenScore(routes: Routes, nodes: seq<NodeId>, token: string): Option<real> {
    if token !in routes then None
    else
      var seen := InFocus(W.Last(routes[token], RECENT_ENTRIES), nodes);
      if seen == [] then None else Some(TotalStrength(seen) + (|seen| as real) * 0.25)
  }

  /** How often a token occurs in the patterns of the live members. */
  function Mentions(cells: CellMap, nodes: seq<NodeId>, token: string): nat {
    if nodes == [] then 0
    else (if nodes[0] in cells then multiset(Tokenize(cells[nodes[0]].seed.corePattern))[token] else 0) +
         Mentions(cells, nodes[1..], token)
  }

  /** How the two hash maps of token scores are visited for a group: any order of their keys. */
  datatype Visit = Visit(scored: seq<NodeId> -> seq<string>, mentioned: seq<NodeId> -> seq<string>)

  ghost predicate Visits(v: Visit, routes: Routes, cells: CellMap, nodes: seq<NodeId>) {
    Distinct(v.scored(nodes)) && (forall t :: t in v.scored(nodes) <==> TokenScore(routes, nodes, t).Some?) &&
    Distinct(v.mentioned(nodes)) && (forall t :: t in v.mentioned(nodes) <==> Mentions(cells, nodes, t) > 0)
  }

  function Worst(routes: Routes, nodes: seq<NodeId>): string -> real {
    (t: string) => match TokenScore(routes, nodes, t) case Some(score) => -score case None => 0.0
  }

  function Fewest(cells: CellMap, nodes: seq<NodeId>): string -> real {
    (t: string) => -(Mentions(cells, nodes, t) as real)
  }

  function First(tokens: seq<string>, k: nat): seq<string> {
    if |tokens| <= k then tokens else tokens[..k]
  }

  /** `sync_top_tokens`. */
  function SyncTopTokens(routes: Routes, cells: CellMap, nodes: seq<NodeId>, topK: nat, v: Visit): seq<string> {
    if nodes == [] || topK == 0 then []
    else
      var selected := First(SortBy(Worst(routes, nodes), v.scored(nodes)), topK);
      if selected != [] then selected else First(SortBy(Fewest(cells, nodes), v.mentioned(nodes)), topK)
  }

  /** The `k` best of the pool, or all of it: no repetition, best first, and nothing better left out. */
  ghost predicate IsTop(selected: seq<string>, pool: seq<string>, worst: string -> real, k: nat) {
    Distinct(selected) && |selected| == (if |pool| < k then |pool| else k) && Sorted(worst, selected) &&
    (forall t :: t in selected ==> t in pool) &&
    forall t, o :: t in selected && o in pool && o !in selected ==> worst(t) <= worst(o)
  }

  lemma FirstIsTop(pool: seq<string>, worst: string -> real, k: nat)
    requires Distinct(pool)
    ensures IsTop(First(SortBy(worst, pool), k), pool, worst, k)
  {
    hide SortBy;
    var ranked := SortBy(worst, pool);
    SortSorts(worst, pool);
    SameElements(pool, ranked);
    StillDistinct(pool, ranked);
    var selected := First(ranked, k);
    forall t, o | t in selected && o in pool && o !in selected ensures worst(t) <= worst(o) {
      var i :| 0 <= i < |selected| && selected[i] == t;
      var j :| 0 <= j < |ranked| && ranked[j] == o;
      assert j >= |selected|;
    }
  }

  /** A response joins the score of its token: a member's adds its strength and a quarter, another's nothing. */
  lemma ResponseScores(routes: Routes, nodes: seq<NodeId>, token: string, r: Route)
    requires token in routes && |routes[token]| < 64
    ensures var before := TokenScore(routes, nodes, token);
            TokenScore(routes[token := routes[token] + [r]], nodes, token)
            == if r.node !in nodes then before
               else Some(r.strength + 0.25 + if before.Some? then before.value else 0.0)
  {
    var h := routes[token];
    assert W.Last(h, RECENT_ENTRIES) == h && W.Last(h + [r], RECENT_ENTRIES) == h + [r];
    FocusSnoc(h, nodes, r);
    TotalSnoc(InFocus(h, nodes), r);
    assert InFocus(h, nodes) + [] == InFocus(h, nodes);
    assert TotalStrength([]) == 0.0;
    assert routes[token := h + [r]][token] == h + [r];
    hide InFocus, TotalStrength;
  }

  /** Of a longer history only the newest 64 responses count. */
  lemma OldResponsesDrop(routes: Routes, nodes: seq<NodeId>, token: string)
    requires token in routes && |routes[token]| >= 64
    ensures var h := routes[token];
            TokenScore(routes, nodes, token) == TokenScore(map[token := h[|h| - 64..]], nodes, token)
  {
  }

  lemma {:induction false} FocusSnoc(h: seq<Route>, nodes: seq<NodeId>, r: Route)
    ensures InFocus(h + [r], nodes) == InFocus(h, nodes) + if r.node in nodes then [r] else []
  {
    if h != [] {
      assert (h + [r])[1..] == h[1..] + [r];
      FocusSnoc(h[1..], nodes, r);
    }
  }

  lemma {:induction false} TotalSnoc(h: seq<Route>, r: Route)
    ensures TotalStrength(h + [r]) == TotalStrength(h) + r.strength
  {
    if h != [] {
      assert (h + [r])[1..] == h[1..] + [r];
      TotalSnoc(h[1..], r);
    }
  }

  /** No repetition, as many as asked for if there are that many, and empty only if the pool is. */
  ghost predicate SelectsFrom(selected: seq<string>, pool: seq<string>, k: nat) {
    Distinct(selected) && |selected| == (if |pool| < k then |pool| else k) && forall t :: t in selected ==> t in pool
  }

  /** A scored token is selected before another only if it is worth at least as much. */
  ghost predicate BestScored(selected: seq<string>, routes: Routes, nodes: seq<NodeId>) {
    (forall t :: t in selected ==> TokenScore(routes, nodes, t).Some?) &&
    (forall i, j :: 0 <= i < j < |selected| ==>
      TokenScore(routes, nodes, selected[i]).value >= TokenScore(routes, nodes, selected[j]).value) &&
    forall t, o :: t in selected && o !in selected && TokenScore(routes, nodes, o).Some? ==>
      TokenScore(routes, nodes, t).value >= TokenScore(routes, nodes, o).value
  }

  /** A token of the members' patterns is selected before another only if it occurs at least as often. */
  ghost predicate MostMentioned(selected: seq<string>, cells: CellMap, nodes: seq<NodeId>) {
    (forall t :: t in selected ==> Mentions(cells, nodes, t) > 0) &&
    (forall i, j :: 0 <= i < j < |selected| ==>
      Mentions(cells, nodes, selected[i]) >= Mentions(cells, nodes, selected[j])) &&
    forall t, o :: t in selected && o !in selected ==> Mentions(cells, nodes, t) >= Mentions(cells, nodes, o)
  }

  /**
    The tokens a group shares: the best scored of those its members recently responded to, or if
    there are none the most frequent ones of its members' patterns; empty only if neither has any.
   */
  lemma TopTokensMean(routes: Routes, cells: CellMap, nodes: seq<NodeId>, topK: nat, v: Visit)
    requires Visits(v, routes, cells, nodes) && nodes != [] && topK > 0
    ensures var selected := SyncTopTokens(routes, cells, nodes, topK, v);
            (if NoScores(routes, nodes)
             then SelectsFrom(selected, v.mentioned(nodes), topK) && MostMentioned(selected, cells, nodes)
             else SelectsFrom(selected, v.scored(nodes), topK) && BestScored(selected, routes, nodes)) &&
            (selected == [] <==> NoScores(routes, nodes) && NoMentions(cells, nodes))
  {
    NothingVisited(routes, cells, nodes, v);
    var scored, mentioned := v.scored(nodes), v.mentioned(nodes);
    FirstIsTop(scored, Worst(routes, nodes), topK);
    FirstIsTop(mentioned, Fewest(cells, nodes), topK);
    var best := First(SortBy(Worst(routes, nodes), scored), topK);
    var most := First(SortBy(Fewest(cells, nodes), mentioned), topK);
    TopIsEmpty(best, scored, Worst(routes, nodes), topK);
    TopIsEmpty(most, mentioned, Fewest(cells, nodes), topK);
    BestOfScored(best, routes, cells, nodes, v, topK);
    MostOfMentioned(most, routes, cells, nodes, v, topK);
    hide *;
  }

  lemma BestOfScored(selected: seq<string>, routes: Routes, cells: CellMap, nodes: seq<NodeId>, v: Visit, k: nat)
    requires Visits(v, routes, cells, nodes) && IsTop(selected, v.scored(nodes), Worst(routes, nodes), k)
    ensures SelectsFrom(selected, v.scored(nodes), k) && BestScored(selected, routes, nodes)
  {
    hide TokenScore, Mentions;
    forall i, j | 0 <= i < j < |selected|
      ensures TokenScore(routes, nodes, selected[i]).Some? && TokenScore(routes, nodes, selected[j]).Some?
      ensures TokenScore(routes, nodes, selected[i]).value >= TokenScore(routes, nodes, selected[j]).value
    {
      assert selected[i] in selected && selected[j] in selected;
      assert Worst(routes, nodes)(selected[i]) <= Worst(routes, nodes)(selected[j]);
    }
    forall t, o | t in selected && o !in selected && TokenScore(routes, nodes, o).Some?
      ensures TokenScore(routes, nodes, t).Some?
      ensures TokenScore(routes, nodes, t).value >= TokenScore(routes, nodes, o).value
    {
      assert Worst(routes, nodes)(t) <= Worst(routes, nodes)(o);
    }
  }

  lemma MostOfMentioned(selected: seq<string>, routes: Routes, cells: CellMap, nodes: seq<NodeId>, v: Visit, k: nat)
    requires Visits(v, routes, cells, nodes) && IsTop(selected, v.mentioned(nodes), Fewest(cells, nodes), k)
    ensures SelectsFrom(selected, v.mentioned(nodes), k) && MostMentioned(selected, cells, nodes)
  {
    hide TokenScore, Mentions;
    forall i, j | 0 <= i < j < |selected|
      ensures Mentions(cells, nodes, selected[i]) >= Mentions(cells, nodes, selected[j])
    {
      assert Fewest(cells, nodes)(selected[i]) <= Fewest(cells, nodes)(selected[j]);
    }
    forall t, o | t in selected && o !in selected
      ensures Mentions(cells, nodes, t) >= Mentions(cells, nodes, o)
    {
      if Mentions(cells, nodes, o) > 0 {
        assert Fewest(cells, nodes)(t) <= Fewest(cells, nodes)(o);
      }
    }
  }

  ghost predicate NoScores(routes: Routes, nodes: seq<NodeId>) {
    forall t :: TokenScore(routes, nodes, t).None?
  }

  ghost predicate NoMentions(cells: CellMap, nodes: seq<NodeId>) {
    forall t :: Mentions(cells, nodes, t) == 0
  }

  lemma NothingVisited(routes: Routes, cells: CellMap, nodes: seq<NodeId>, v: Visit)
    requires Visits(v, routes, cells, nodes)
    ensures v.scored(nodes) == [] <==> NoScores(routes, nodes)
    ensures v.mentioned(nodes) == [] <==> NoMentions(cells, nodes)
  {
    if v.scored(nodes) == [] {
      forall t ensures TokenScore(routes, nodes, t).None? {
        assert t !in v.scored(nodes);
      }
    } else {
      var t := v.scored(nodes)[0];
      assert t in v.scored(nodes);
      assert TokenScore(routes, nodes, t).Some?;
    }
    if v.mentioned(nodes) == [] {
      forall t ensures Mentions(cells, nodes, t) == 0 {
        assert t !in v.mentioned(nodes);
      }
    } else {
      var t := v.mentioned(nodes)[0];
      assert t in v.mentioned(nodes);
      assert Mentions(cells, nodes, t) > 0;
    }
  }

  lemma TopIsEmpty(selected: seq<string>, pool: seq<string>, worst: string -> real, k: nat)
    requires IsTop(selected, pool, worst, k) && k > 0
    ensures selected == [] <==> pool == []
  {
  }

  // ---- A sync cycle over recent pairs -------------------------------------

  const MIN_PHASE_MS: nat := 500

  /**
    Detection over the field's own histories, then the collective dream: the groups are the largest
    connected components of the pairs that co-occur strongly enough, each shares its top tokens, and
    exactly the links inside one of them are raised, once each.
   */
  method FieldSyncCycle(field: ClusterField, routes: RouteField, phaseLenMs: nat, threshold: real, maxGroups: nat,
                        topK: nat, weightXfer: real, order: seq<string>, v: Visit)
    returns (groups: seq<C.Group>, pairs: seq<S.PairStat>, ranked: seq<seq<NodeId>>, adj: S.Adjacency)
    requires field.Valid() && routes.Valid() && Enumerates(order, routes.recentRoutes.Keys)
    modifies field`cells, field`linkScores, field`journal
    ensures Measured(pairs, routes.recentRoutes, order, SatSub(routes.nowMs, Max(phaseLenMs, 500)))
    ensures forall x, y :: y in S.Neighbours(adj, x) <==> S.Joined(pairs, threshold, x, y)
    ensures S.Exact(adj, ranked, adj.Keys) && S.LargestFirst(ranked) && |groups| <= maxGroups
    ensures forall s :: s in groups ==>
              s.nodes in ranked && s.tokens != [] &&
              s.tokens == SyncTopTokens(routes.recentRoutes, old(field.cells), s.nodes, topK, v)
    ensures forall i :: 0 <= i < |ranked| && i < maxGroups &&
                        SyncTopTokens(routes.recentRoutes, old(field.cells), ranked[i], topK, v) != [] ==>
              exists s :: s in groups && s.nodes == ranked[i]
    ensures field.Valid() && SameCells(old(field.cells), field.cells)
    ensures var weight := Clamp(weightXfer, 0.05, 0.5);
            forall e :: Score(field.linkScores, e) ==
                        C.RaisedOnce(old(field.linkScores), old(field.cells), groups, weight, e)
  {
    hide Measured, SyncTopTokens, S.Joined, S.Exact, S.LargestFirst, S.Labelled, C.RaisedOnce, SameCells;
    pairs := routes.CollectRecentPairs(Max(phaseLenMs, MIN_PHASE_MS), order);
    var recent, cells := routes.recentRoutes, field.cells;
    var tokens := (nodes: seq<NodeId>) => SyncTopTokens(recent, cells, nodes, topK, v);
    groups, ranked, adj := C.SyncCycle(field, pairs, threshold, maxGroups, tokens, weightXfer);
    S.LabelledSize(ranked[..if |ranked| < maxGroups then |ranked| else maxGroups], tokens, field.nowMs);
    S.LabelledAll(ranked[..if |ranked| < maxGroups then |ranked| else maxGroups], tokens, field.nowMs);
    assert routes.recentRoutes == recent;
  }
}
