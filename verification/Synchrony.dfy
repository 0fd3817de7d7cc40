/** Sync groups: connected components of the thresholded co-occurrence graph (synchrony.rs). */
module Synchrony {
  import opened Basics
  import opened Cells
  import opened Sorting

  datatype PairStat = PairStat(u: NodeId, v: NodeId, freq: real, avgStrength: real)

  type Adjacency = map<NodeId, seq<NodeId>>

  function Neighbours(adj: Adjacency, x: NodeId): seq<NodeId> {
    if x in adj then adj[x] else []
  }

  /** The thresholded graph itself: two nodes are joined if some strong enough pair names them. */
  predicate Joined(pairs: seq<PairStat>, threshold: real, x: NodeId, y: NodeId) {
    exists p :: p in pairs && p.avgStrength >= threshold && ((p.u == x && p.v == y) || (p.u == y && p.v == x))
  }

  /** Neighbour lists are symmetric and every listed node is a key. */
  ghost predicate Symmetric(adj: Adjacency) {
    forall x, y :: y in Neighbours(adj, x) ==> y in adj && x in Neighbours(adj, y)
  }

  // ---- Paths --------------------------------------------------------------

  ghost predicate IsPath(adj: Adjacency, p: seq<NodeId>) {
    p != [] && forall i :: 0 < i < |p| ==> p[i] in Neighbours(adj, p[i - 1])
  }

  ghost predicate Joins(adj: Adjacency, p: seq<NodeId>, a: NodeId, b: NodeId) {
    IsPath(adj, p) && p[0] == a && p[|p| - 1] == b
  }

  ghost predicate Reach(adj: Adjacency, a: NodeId, b: NodeId) {
    exists p :: Joins(adj, p, a, b)
  }

  lemma ReachSelf(adj: Adjacency, a: NodeId)
    ensures Reach(adj, a, a)
  {
    assert Joins(adj, [a], a, a);
  }

  lemma ReachStep(adj: Adjacency, a: NodeId, b: NodeId, c: NodeId)
    requires Reach(adj, a, b) && c in Neighbours(adj, b)
    ensures Reach(adj, a, c)
  {
    var p :| Joins(adj, p, a, b);
    assert Joins(adj, p + [c], a, c);
  }

  lemma {:induction false} ReachThrough(adj: Adjacency, a: NodeId, p: seq<NodeId>, k: nat)
    requires IsPath(adj, p) && k < |p| && Reach(adj, a, p[0])
    ensures Reach(adj, a, p[k])
    decreases k
  {
    if k > 0 {
      ReachThrough(adj, a, p, k - 1);
      ReachStep(adj, a, p[k - 1], p[k]);
    }
  }

  lemma ReachTransitive(adj: Adjacency, a: NodeId, b: NodeId, c: NodeId)
    requires Reach(adj, a, b) && Reach(adj, b, c)
    ensures Reach(adj, a, c)
  {
    var p :| Joins(adj, p, b, c);
    ReachThrough(adj, a, p, |p| - 1);
  }

  lemma ReachSymmetric(adj: Adjacency, a: NodeId, b: NodeId)
    requires Symmetric(adj) && Reach(adj, a, b)
    ensures Reach(adj, b, a)
  {
    var p :| Joins(adj, p, a, b);
    var q := seq(|p|, i requires 0 <= i < |p| => p[|p| - 1 - i]);
    forall i | 0 < i < |q| ensures q[i] in Neighbours(adj, q[i - 1]) {
      assert p[|p| - i] in Neighbours(adj, p[|p| - i - 1]);
    }
    assert Joins(adj, q, b, a);
  }

  /** A set closed under neighbours contains everything reachable from it. */
  lemma {:induction false} ClosedContains(adj: Adjacency, s: set<NodeId>, p: seq<NodeId>, k: nat)
    requires IsPath(adj, p) && p[0] in s && k < |p|
    requires Closed(adj, s)
    ensures p[k] in s
    decreases k
  {
    if k > 0 {
      ClosedContains(adj, s, p, k - 1);
    }
  }

  // ---- Components ---------------------------------------------------------

  ghost predicate Closed(adj: Adjacency, s: set<NodeId>) {
    forall x, y :: x in s && y in Neighbours(adj, x) ==> y in s
  }

  /** Exactly one connected component: no repetition, everything in it connected, nothing missing. */
  ghost predicate IsComponent(adj: Adjacency, g: seq<NodeId>) {
    g != [] && Distinct(g) && (forall x :: x in g ==> x in adj) &&
    (forall x, y :: x in g && y in g ==> Reach(adj, x, y)) &&
    (forall x, y :: x in g && Reach(adj, x, y) ==> y in g)
  }

  /** The groups are the components of more than one node among the `seen` nodes, each once. */
  ghost predicate Exact(adj: Adjacency, groups: seq<seq<NodeId>>, seen: set<NodeId>) {
    (forall g :: g in groups ==> IsComponent(adj, g) && |g| > 1 && forall x :: x in g ==> x in seen) &&
    (forall i, j, x :: 0 <= i < j < |groups| && x in groups[i] ==> x !in groups[j]) &&
    (forall x, y :: x in seen && x != y && Reach(adj, x, y) ==> exists g :: g in groups && x in g)
  }

  /** `build_adjacency`: the neighbour lists of exactly the thresholded graph. */
  method BuildAdjacency(pairs: seq<PairStat>, threshold: real) returns (adj: Adjacency)
    ensures forall x, y :: y in Neighbours(adj, x) <==> Joined(pairs, threshold, x, y)
    ensures forall x :: x in adj ==> adj[x] != []
    ensures Symmetric(adj)
  {
    adj := map[];
    for i := 0 to |pairs|
      invariant forall x, y :: y in Neighbours(adj, x) <==> Joined(pairs[..i], threshold, x, y)
      invariant forall x :: x in adj ==> adj[x] != []
    {
      var p := pairs[i];
      assert pairs[..i + 1] == pairs[..i] + [p];
      if p.avgStrength >= threshold {
        adj := Insert(Insert(adj, p.u, p.v), p.v, p.u);
      }
      forall x, y ensures y in Neighbours(adj, x) <==> Joined(pairs[..i + 1], threshold, x, y) {
        assert Joined(pairs[..i + 1], threshold, x, y) <==>
          Joined(pairs[..i], threshold, x, y) ||
          (p.avgStrength >= threshold && ((p.u == x && p.v == y) || (p.u == y && p.v == x)));
      }
    }
    assert pairs[..|pairs|] == pairs;
    forall x, y | y in Neighbours(adj, x) ensures y in adj && x in Neighbours(adj, y) {
      assert Joined(pairs, threshold, y, x);
    }
  }

  function Insert(adj: Adjacency, x: NodeId, y: NodeId): (r: Adjacency)
    ensures forall a, b :: b in Neighbours(r, a) <==> b in Neighbours(adj, a) || (a == x && b == y)
    ensures (forall a :: a in adj ==> adj[a] != []) ==> forall a :: a in r ==> r[a] != []
  {
    var r := adj[x := Neighbours(adj, x) + [y]];
    assert forall a :: a != x ==> Neighbours(r, a) == Neighbours(adj, a);
    assert Neighbours(r, x) == Neighbours(adj, x) + [y];
    r
  }

  /** What the stack loop keeps while it collects the component of `root`. */
  ghost predicate Collecting(adj: Adjacency, root: NodeId, before: set<NodeId>, component: seq<NodeId>,
                             queue: seq<NodeId>)
  {
    Distinct(component) && (forall x :: x in component ==> x !in before && x in adj && Reach(adj, root, x)) &&
    (forall x :: x in queue ==> x in adj && Reach(adj, root, x)) &&
    (root in component || root in queue) &&
    (forall x, y :: x in component && y in Neighbours(adj, x) ==> y in before || y in component || y in queue)
  }

  /** The neighbours pushed after visiting `current`: those not seen yet. */
  method PushUnseen(neighbours: seq<NodeId>, seen: set<NodeId>, queue: seq<NodeId>) returns (r: seq<NodeId>)
    ensures forall x :: x in r <==> x in queue || (x in neighbours && x !in seen)
  {
    r := queue;
    for i := 0 to |neighbours|
      invariant forall x :: x in r <==> x in queue || (x in neighbours[..i] && x !in seen)
    {
      if neighbours[i] !in seen {
        r := r + [neighbours[i]];
      }
      assert neighbours[..i + 1] == neighbours[..i] + [neighbours[i]];
    }
    assert neighbours[..|neighbours|] == neighbours;
  }

  /** The `while let Some(current) = queue.pop()` loop. */
  method CollectComponent(adj: Adjacency, root: NodeId, before: set<NodeId>)
    returns (component: seq<NodeId>, seen: set<NodeId>)
    requires Symmetric(adj) && root in adj && root !in before && Closed(adj, before)
    ensures seen == before + Elems(component) && IsComponent(adj, component) && root in component
    ensures forall x :: x in component ==> x !in before
    ensures Closed(adj, seen)
  {
    seen, component := before, [];
    var queue := [root];
    ReachSelf(adj, root);
    while queue != []
      invariant seen == before + Elems(component) && Collecting(adj, root, before, component, queue)
      decreases adj.Keys - seen, |queue|
    {
      var current := queue[|queue| - 1];
      ghost var was := queue;
      queue := queue[..|queue| - 1];
      assert forall x :: x in was <==> x in queue || x == current;
      if current in seen {
        OutsideStays(adj, root, before, current);
        continue;
      }
      seen := seen + {current};
      ghost var popped := queue;
      queue := PushUnseen(Neighbours(adj, current), seen, queue);
      VisitKeeps(adj, root, before, component, popped, current, queue);
      component := component + [current];
    }
    ComponentDone(adj, root, before, component);
  }

  /** Nothing reachable from a node outside a closed set lies in it. */
  lemma OutsideStays(adj: Adjacency, root: NodeId, before: set<NodeId>, x: NodeId)
    requires Symmetric(adj) && Closed(adj, before) && root !in before && Reach(adj, root, x)
    ensures x !in before
  {
    if x in before {
      ReachSymmetric(adj, root, x);
      var p :| Joins(adj, p, x, root);
      ClosedContains(adj, before, p, |p| - 1);
    }
  }

  lemma VisitKeeps(adj: Adjacency, root: NodeId, before: set<NodeId>, component: seq<NodeId>, queue: seq<NodeId>,
                   current: NodeId, more: seq<NodeId>)
    requires Symmetric(adj) && current !in before && current !in component
    requires Collecting(adj, root, before, component, queue + [current])
    requires forall x :: x in more <==>
      x in queue || (x in Neighbours(adj, current) && x !in before + Elems(component) + {current})
    ensures Collecting(adj, root, before, component + [current], more)
  {
    assert current in queue + [current];
    forall x | x in more ensures x in adj && Reach(adj, root, x) {
      if x in queue {
        assert x in queue + [current];
      } else {
        ReachStep(adj, root, current, x);
      }
    }
    forall x, y | x in component + [current] && y in Neighbours(adj, x)
      ensures y in before || y in component + [current] || y in more
    {
      if x != current {
        assert y in before || y in component || y in queue + [current];
      }
    }
  }

  lemma ComponentDone(adj: Adjacency, root: NodeId, before: set<NodeId>, component: seq<NodeId>)
    requires Symmetric(adj) && Closed(adj, before) && root !in before
    requires Collecting(adj, root, before, component, [])
    ensures IsComponent(adj, component) && Closed(adj, before + Elems(component))
  {
    var s := Elems(component);
    forall x, y | x in s && y in Neighbours(adj, x) ensures y in s {
      ReachStep(adj, root, x, y);
      OutsideStays(adj, root, before, y);
    }
    forall x, y | x in component && y in component ensures Reach(adj, x, y) {
      ReachSymmetric(adj, root, x);
      ReachTransitive(adj, x, root, y);
    }
    forall x, y | x in component && Reach(adj, x, y) ensures y in component {
      var p :| Joins(adj, p, x, y);
      ClosedContains(adj, s, p, |p| - 1);
    }
  }

  lemma AddGroup(adj: Adjacency, groups: seq<seq<NodeId>>, before: set<NodeId>, component: seq<NodeId>)
    requires Exact(adj, groups, before) && IsComponent(adj, component) && forall x :: x in component ==> x !in before
    ensures Exact(adj, if |component| > 1 then groups + [component] else groups, before + Elems(component))
  {
    var after, seen := if |component| > 1 then groups + [component] else groups, before + Elems(component);
    forall x, y | x in seen && x != y && Reach(adj, x, y) ensures exists g :: g in after && x in g {
      if x in component {
        assert y in component;
        assert component in after;
      } else {
        var g :| g in groups && x in g;
        assert g in after;
      }
    }
  }

  /** `extract_components`: exactly the connected components with more than one node. */
  method ExtractComponents(adj: Adjacency) returns (groups: seq<seq<NodeId>>)
    requires Symmetric(adj)
    ensures Exact(adj, groups, adj.Keys)
  {
    groups := [];
    var seen := {};
    var todo := adj.Keys;
    while todo != {}
      invariant todo <= adj.Keys && adj.Keys - todo <= seen <= adj.Keys
      invariant Closed(adj, seen) && Exact(adj, groups, seen)
      decreases |todo|
    {
      var node :| node in todo;
      todo := todo - {node};
      if node in seen {
        continue;
      }
      var component, after := CollectComponent(adj, node, seen);
      AddGroup(adj, groups, seen, component);
      if |component| > 1 {
        groups := groups + [component];
      }
      seen := after;
    }
  }

  // ---- detect_sync_groups -------------------------------------------------

  datatype SyncGroup = SyncGroup(id: nat, nodes: seq<NodeId>, tokens: seq<string>)

  /** Larger groups first. */
  ghost predicate LargestFirst(groups: seq<seq<NodeId>>) {
    forall i, j :: 0 <= i < j < |groups| ==> |groups[i]| >= |groups[j]|
  }

  function Shrinking(g: seq<NodeId>): real {
    -(|g| as real)
  }

  /** The order of the groups does not matter for their being exactly the components. */
  lemma ExactReordered(adj: Adjacency, a: seq<seq<NodeId>>, b: seq<seq<NodeId>>, seen: set<NodeId>)
    requires Exact(adj, a, seen) && multiset(a) == multiset(b)
    ensures Exact(adj, b, seen)
  {
    hide IsComponent, Reach;
    SameElements(a, b);
    GroupsDiffer(adj, a, seen);
    StillDistinct(a, b);
    forall i, j, x | 0 <= i < j < |b| && x in b[i] ensures x !in b[j] {
      assert b[i] in a && b[j] in a;
    }
    forall x, y | x in seen && x != y && Reach(adj, x, y) ensures exists g :: g in b && x in g {
      var g :| g in a && x in g;
      assert g in b;
    }
  }

  lemma GroupsDiffer(adj: Adjacency, a: seq<seq<NodeId>>, seen: set<NodeId>)
    requires Exact(adj, a, seen)
    ensures Distinct(a)
  {
    forall i, j | 0 <= i < j < |a| ensures a[i] != a[j] {
      assert a[i] in a && a[i][0] in a[i];
    }
  }

  function GroupId(nowMs: nat, index: nat): nat {
    ((nowMs * 0x1_0000) % (U64_MAX + 1) + index) % (U64_MAX + 1)
  }

  /** The groups that have tokens, numbered by their place among the candidates. */
  function Labelled(ranked: seq<seq<NodeId>>, topTokens: seq<NodeId> -> seq<string>, nowMs: nat): seq<SyncGroup> {
    if ranked == [] then []
    else
      var last := |ranked| - 1;
      var tokens := topTokens(ranked[last]);
      Labelled(ranked[..last], topTokens, nowMs) +
      if tokens == [] then [] else [SyncGroup(GroupId(nowMs, last), ranked[last], tokens)]
  }

  lemma {:induction false} LabelledSize(ranked: seq<seq<NodeId>>, topTokens: seq<NodeId> -> seq<string>, nowMs: nat)
    ensures |Labelled(ranked, topTokens, nowMs)| <= |ranked|
    ensures forall s :: s in Labelled(ranked, topTokens, nowMs) ==>
              s.nodes in ranked && s.tokens == topTokens(s.nodes) != []
  {
    if ranked != [] {
      LabelledSize(ranked[..|ranked| - 1], topTokens, nowMs);
    }
  }

  lemma {:induction false} LabelledAll(ranked: seq<seq<NodeId>>, topTokens: seq<NodeId> -> seq<string>, nowMs: nat)
    ensures forall i :: 0 <= i < |ranked| && topTokens(ranked[i]) != [] ==>
              exists s :: s in Labelled(ranked, topTokens, nowMs) && s.nodes == ranked[i]
  {
    if ranked != [] {
      var last := |ranked| - 1;
      var front := ranked[..last];
      LabelledAll(front, topTokens, nowMs);
      var labelled := Labelled(ranked, topTokens, nowMs);
      forall i | 0 <= i < |ranked| && topTokens(ranked[i]) != []
        ensures exists s :: s in labelled && s.nodes == ranked[i]
      {
        if i < last {
          assert front[i] == ranked[i];
          var s :| s in Labelled(front, topTokens, nowMs) && s.nodes == front[i];
          assert s in labelled;
        } else {
          assert SyncGroup(GroupId(nowMs, last), ranked[last], topTokens(ranked[last])) in labelled;
        }
      }
    }
  }

  method Ranked(adj: Adjacency, components: seq<seq<NodeId>>) returns (ranked: seq<seq<NodeId>>)
    requires Exact(adj, components, adj.Keys)
    ensures Exact(adj, ranked, adj.Keys) && LargestFirst(ranked)
  {
    hide Exact;
    SortSorts(Shrinking, components);
    ranked := SortBy(Shrinking, components);
    ExactReordered(adj, components, ranked, adj.Keys);
    forall i, j | 0 <= i < j < |ranked| ensures |ranked[i]| >= |ranked[j]| {
      assert Shrinking(ranked[i]) <= Shrinking(ranked[j]);
    }
  }

  /**
    `detect_sync_groups`: at most `maxGroups` groups, each a connected component of the thresholded
    graph; `ranked` lists all components largest first, and the groups come from its front.
   */
  method DetectSyncGroups(pairs: seq<PairStat>, threshold: real, maxGroups: nat, topTokens: seq<NodeId> -> seq<string>,
                          nowMs: nat)
    returns (groups: seq<SyncGroup>, ranked: seq<seq<NodeId>>, adj: Adjacency)
    ensures forall x, y :: y in Neighbours(adj, x) <==> Joined(pairs, threshold, x, y)
    ensures Exact(adj, ranked, adj.Keys) && LargestFirst(ranked)
    ensures groups == Labelled(ranked[..if |ranked| < maxGroups then |ranked| else maxGroups], topTokens, nowMs)
    ensures |groups| <= maxGroups
    ensures forall s :: s in groups ==> IsComponent(adj, s.nodes) && |s.nodes| > 1 && s.tokens != []
  {
    hide IsComponent, Reach, Symmetric;
    adj := BuildAdjacency(pairs, threshold);
    var components := ExtractComponents(adj);
    ranked := Ranked(adj, components);
    groups := [];
    var index := 0;
    while index < |ranked| && index < maxGroups
      invariant index <= |ranked| && index <= maxGroups && groups == Labelled(ranked[..index], topTokens, nowMs)
    {
      var nodes := ranked[index];
      var tokens := topTokens(nodes);
      assert ranked[..index + 1][..index] == ranked[..index];
      if tokens != [] {
        groups := groups + [SyncGroup(GroupId(nowMs, index), nodes, tokens)];
      }
      index := index + 1;
    }
    LabelledSize(ranked[..index], topTokens, nowMs);
  }
}
