/**
  One impulse over the whole field: `route_impulse` ties the reflex counters, the cells, the route
  histories and the token hits together (cluster_field.rs), and a dream or sync cycle reads what
  the impulses left in the histories.
 */
module Routing {
  import opened Basics
  import opened Cells
  import opened FieldModel
  import opened FieldInvariant
  import opened LiveField
  import H = TokenHits
  import P = RecentPairs
  import R = Reflex

  const NORADRENALINE := "affect/noradrenaline"

  /** A noradrenaline impulse sets the hormone before anything is scored; without a lifetime it clears it. */
  function MoodAfter(mood: Mood, imp: Impulse): Mood {
    if imp.pattern == NORADRENALINE
    then mood.(hormone := if imp.ttlMs > 0 then Some(Clamp(imp.strength, 0.0, 1.0)) else None)
    else mood
  }

  /** Time since the responder last responded, as a `u32`. */
  function Latency(cells: CellMap, id: NodeId, nowMs: nat): nat {
    if id in cells then
      var since := SatSub(nowMs, cells[id].lastResponseMs);
      if since > U32_MAX then U32_MAX else since
    else 0
  }

  // ---- What one impulse leaves behind -------------------------------------

  /** A token's route history after the responders were appended and the expired and oldest evicted. */
  function Routed(before: P.Routes, token: string, told: seq<NodeId>, nowMs: nat, strength: real): seq<P.Route> {
    var history := if token in before then before[token] else [];
    P.Newest(P.DropExpired(history + P.Entries(told, nowMs, strength), nowMs))
  }

  ghost predicate RoutedAt(before: P.Routes, now: P.Routes, tokens: set<string>, told: seq<NodeId>, nowMs: nat,
                           strength: real, token: string)
  {
    if token in tokens then token in now && now[token] == Routed(before, token, told, nowMs, strength)
    else (token in now <==> token in before) && (token in now ==> now[token] == before[token])
  }

  /** The hit of one responder, with its own latency. */
  ghost predicate HitOf(hit: H.Hit, id: NodeId, cells: CellMap, nowMs: nat, strength: real) {
    hit.ts == nowMs && hit.node == id && hit.strength == strength && hit.latencyMs == Latency(cells, id, nowMs)
  }

  /** The first `n` responders were recorded, in order. */
  ghost predicate HitsAppended(before: seq<H.Hit>, now: seq<H.Hit>, told: seq<NodeId>, n: nat, cells: CellMap,
                               nowMs: nat, strength: real)
  {
    n <= |told| && |now| == |before| + n && now[..|before|] == before &&
    forall i :: 0 <= i < n ==> HitOf(now[|before| + i], told[i], cells, nowMs, strength)
  }

  ghost predicate HitsAt(before: H.Hits, now: H.Hits, tokens: set<string>, told: seq<NodeId>, cells: CellMap,
                         nowMs: nat, strength: real, token: string)
  {
    if token in tokens then HitsAppended(H.Of(before, token), H.Of(now, token), told, |told|, cells, nowMs, strength)
    else H.Of(now, token) == H.Of(before, token)
  }

  /** The histories of all tokens of the impulse, in the order in which the token set is visited. */
  method RecordRoutes(routes: P.RouteField, order: seq<string>, told: seq<NodeId>, strength: real)
    requires routes.Valid() && Distinct(order)
    modifies routes`recentRoutes
    ensures routes.Valid()
    ensures forall token :: RoutedAt(old(routes.recentRoutes), routes.recentRoutes, Elems(order), told, routes.nowMs,
                                     strength, token)
  {
    hide P.Newest, P.DropExpired, P.Entries, RoutedAt;
    ghost var before, done := routes.recentRoutes, {};
    NoneRouted(before, told, routes.nowMs, strength);
    for i := 0 to |order|
      invariant routes.Valid() && done == Elems(order[..i])
      invariant forall token :: RoutedAt(before, routes.recentRoutes, done, told, routes.nowMs, strength, token)
    {
      ghost var mid, more := routes.recentRoutes, done + {order[i]};
      routes.RecordResponses(order[i], told, strength);
      NextRouted(before, mid, routes.recentRoutes, done, order[i], more, told, routes.nowMs, strength);
      NextDone(order, i);
      done := more;
    }
    assert order[..|order|] == order;
  }

  lemma NextDone(order: seq<string>, i: nat)
    requires i < |order| && Distinct(order)
    ensures Elems(order[..i + 1]) == Elems(order[..i]) + {order[i]} && order[i] !in Elems(order[..i])
  {
    assert order[..i + 1] == order[..i] + [order[i]];
  }

  lemma NoneRouted(before: P.Routes, told: seq<NodeId>, nowMs: nat, strength: real)
    ensures forall token :: RoutedAt(before, before, {}, told, nowMs, strength, token)
  {
  }

  lemma NextRouted(before: P.Routes, mid: P.Routes, now: P.Routes, done: set<string>, next: string, more: set<string>,
                   told: seq<NodeId>, nowMs: nat, strength: real)
    requires forall token :: RoutedAt(before, mid, done, told, nowMs, strength, token)
    requires now == mid[next := Routed(mid, next, told, nowMs, strength)] && next !in done && more == done + {next}
    ensures forall token :: RoutedAt(before, now, more, told, nowMs, strength, token)
  {
    assert RoutedAt(before, mid, done, told, nowMs, strength, next);
    forall token ensures RoutedAt(before, now, more, told, nowMs, strength, token) {
      assert RoutedAt(before, mid, done, told, nowMs, strength, token);
    }
  }

  /** One token's hits: one for each responder. */
  method RecordHits(hits: H.HitField, token: string, told: seq<NodeId>, ghost cells: CellMap, latency: seq<nat>,
                    strength: real)
    requires hits.Valid() && Lower(token) == token && |latency| == |told|
    requires forall i :: 0 <= i < |told| ==> latency[i] == Latency(cells, told[i], hits.nowMs)
    modifies hits`tokenHits, hits`nextHitSeq, hits`history, hits`placed
    ensures hits.Valid()
    ensures HitsAppended(H.Of(old(hits.history), token), H.Of(hits.history, token), told, |told|, cells, hits.nowMs,
                         strength)
    ensures forall t :: t != token ==> H.Of(hits.history, t) == H.Of(old(hits.history), t)
  {
    hide Latency, HitsAppended;
    NoHits(H.Of(hits.history, token), told, cells, hits.nowMs, strength);
    for i := 0 to |told|
      invariant hits.Valid()
      invariant HitsAppended(H.Of(old(hits.history), token), H.Of(hits.history, token), told, i, cells, hits.nowMs,
                             strength)
      invariant forall t :: t != token ==> H.Of(hits.history, t) == H.Of(old(hits.history), t)
    {
      ghost var mid := H.Of(hits.history, token);
      hits.RecordTokenHit(token, told[i], strength, latency[i]);
      NextHit(H.Of(old(hits.history), token), mid, H.Of(hits.history, token), told, i, cells, hits.nowMs, strength);
    }
  }

  lemma NoHits(before: seq<H.Hit>, told: seq<NodeId>, cells: CellMap, nowMs: nat, strength: real)
    ensures HitsAppended(before, before, told, 0, cells, nowMs, strength)
  {
  }

  lemma NextHit(before: seq<H.Hit>, mid: seq<H.Hit>, now: seq<H.Hit>, told: seq<NodeId>, n: nat, cells: CellMap,
                nowMs: nat, strength: real)
    requires HitsAppended(before, mid, told, n, cells, nowMs, strength) && n < |told|
    requires |now| == |mid| + 1 && now[..|mid|] == mid
    requires HitOf(now[|mid|], told[n], cells, nowMs, strength)
    ensures HitsAppended(before, now, told, n + 1, cells, nowMs, strength)
  {
    hide HitOf;
    assert now[..|before|] == mid[..|before|];
    assert forall i :: 0 <= i < |mid| ==> now[i] == mid[i];
    var m := n + 1;
    forall i | 0 <= i < m
      ensures HitOf(now[|before| + i], told[i], cells, nowMs, strength)
    {
      assert now[|before| + i] == if i < n then mid[|before| + i] else now[|mid|];
    }
  }

  method RecordAllHits(hits: H.HitField, order: seq<string>, told: seq<NodeId>, ghost cells: CellMap, latency: seq<nat>,
                       strength: real)
    requires hits.Valid() && Distinct(order) && (forall t :: t in order ==> Lower(t) == t) && |latency| == |told|
    requires forall i :: 0 <= i < |told| ==> latency[i] == Latency(cells, told[i], hits.nowMs)
    modifies hits`tokenHits, hits`nextHitSeq, hits`history, hits`placed
    ensures hits.Valid()
    ensures forall token :: HitsAt(old(hits.history), hits.history, Elems(order), told, cells, hits.nowMs, strength,
                                   token)
  {
    hide HitsAppended, Latency;
    ghost var before, done := hits.history, {};
    for i := 0 to |order|
      invariant hits.Valid() && done == Elems(order[..i])
      invariant forall token :: HitsAt(before, hits.history, done, told, cells, hits.nowMs, strength, token)
    {
      ghost var mid, more := hits.history, done + {order[i]};
      NextDone(order, i);
      assert HitsAt(before, mid, done, told, cells, hits.nowMs, strength, order[i]);
      RecordHits(hits, order[i], told, cells, latency, strength);
      forall token ensures HitsAt(before, hits.history, more, told, cells, hits.nowMs, strength, token) {
        assert HitsAt(before, mid, done, told, cells, hits.nowMs, strength, token);
      }
      done := more;
    }
    assert order[..|order|] == order;
  }

  /**
    `route_impulse`: the reflex counters hear the impulse first, then the three best candidates take
    it in, then exactly those that responded enter the route history and the hits of every token of
    the pattern, once each, and nothing else is recorded. `order` is how the token set is visited.
   */
  method RouteImpulse(field: ClusterField, reflexes: R.ReflexField, routes: P.RouteField, hits: H.HitField,
                      imp: Impulse, mood: Mood, order: seq<string>)
    returns (fires: seq<R.Fire>, top: seq<NodeId>, told: seq<NodeId>)
    requires field.Valid() && reflexes.Valid() && routes.Valid() && hits.Valid()
    requires field.nowMs == reflexes.nowMs == routes.nowMs == hits.nowMs
    requires Enumerates(order, Elems(Tokenize(imp.pattern)))
    modifies field`cells, field`journal, reflexes`counters, reflexes`arrivals, reflexes`low, routes`recentRoutes
    modifies hits`tokenHits, hits`nextHitSeq, hits`history, hits`placed
    ensures field.Valid() && reflexes.Valid() && routes.Valid() && hits.Valid()
    ensures R.OncePerRule(fires)
    ensures forall f :: f in fires ==>
              R.FiredRight(f, imp.kind, reflexes.rules, reflexes.arrivals, field.nowMs, reflexes.low)
    ensures forall token, id :: token in Tokenize(imp.pattern) ==>
              R.NotMissed(reflexes.rules, reflexes.counters, imp.kind, field.nowMs, R.Ids(fires), token, id)
    ensures TopThree(top, Pool(old(field.cells), Tokenize(imp.pattern)),
                     RouteScores(old(field.cells), imp, MoodAfter(mood, imp)))
    ensures told == Responders(old(field.cells), top, imp, field.nowMs)
    ensures field.State() == Step(old(field.State()), TouchOp(Stirred(old(field.cells), top, imp, field.nowMs), told))
    ensures var tokens := Elems(Tokenize(imp.pattern));
            (forall token :: RoutedAt(old(routes.recentRoutes), routes.recentRoutes, tokens, told, field.nowMs,
                                      imp.strength, token)) &&
            (forall token :: HitsAt(old(hits.history), hits.history, tokens, told, old(field.cells), field.nowMs,
                                    imp.strength, token))
  {
    hide *;
    SameTokens(order, Tokenize(imp.pattern));
    fires := reflexes.RouteReflexes(imp.pattern, imp.kind, imp.strength);
    ghost var before := field.cells;
    var cells, nowMs := field.cells, field.nowMs;
    top, told := field.Respond(imp, MoodAfter(mood, imp));
    var latency := seq(|told|, i requires 0 <= i < |told| => Latency(cells, told[i], nowMs));
    RecordRoutes(routes, order, told, imp.strength);
    LowerTokens(order, imp.pattern);
    ghost var recent := routes.recentRoutes;
    assert field.nowMs == nowMs == routes.nowMs == hits.nowMs == reflexes.nowMs;
    RecordAllHits(hits, order, told, before, latency, imp.strength);
    assert routes.recentRoutes == recent;
    assert field.nowMs == nowMs == routes.nowMs == hits.nowMs == reflexes.nowMs;
  }

  lemma SameTokens(order: seq<string>, tokens: seq<string>)
    requires Enumerates(order, Elems(tokens))
    ensures Elems(order) == Elems(tokens) && Distinct(order)
    ensures forall t :: t in order ==> t in tokens
  {
  }

  lemma LowerTokens(order: seq<string>, pattern: string)
    requires forall t :: t in order ==> t in Tokenize(pattern)
    ensures forall t :: t in order ==> Lower(t) == t
  {
    forall t | t in order ensures Lower(t) == t {
      R.TokensAreLower(pattern, t);
    }
  }
}
