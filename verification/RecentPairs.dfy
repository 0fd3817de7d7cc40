/** Co-occurrence counting over the recent route histories (cluster_field.rs). */
module RecentPairs {
  import opened Basics
  import opened Cells
  import opened Synchrony

  const MAX_RECENT_ROUTES: nat := 96
  const ROUTE_RETENTION_MS: nat := 90_000

  datatype Route = Route(ts: nat, node: NodeId, strength: real)

  type Routes = map<string, seq<Route>>

  datatype Pair = Pair(u: NodeId, v: NodeId)

  /** How many co-occurrences, and the sum of their mean strengths. */
  datatype Tally = Tally(count: nat, total: real)

  const ZERO: Tally := Tally(0, 0.0)

  function Add(a: Tally, b: Tally): Tally {
    Tally(a.count + b.count, a.total + b.total)
  }

  lemma AddLaws(a: Tally, b: Tally, c: Tally)
    ensures Add(ZERO, a) == a && Add(a, ZERO) == a && Add(Add(a, b), c) == Add(a, Add(b, c))
  {
  }

  function PairOf(a: Route, b: Route): Pair {
    if a.node < b.node then Pair(a.node, b.node) else Pair(b.node, a.node)
  }

  /** What two route entries contribute to a pair of nodes. */
  function One(a: Route, b: Route, p: Pair): Tally {
    if a.node != b.node && PairOf(a, b) == p then Tally(1, (a.strength + b.strength) * 0.5) else ZERO
  }

  // ---- Brute force: every index pair i < j with both entries inside the cutoff

  function BruteRow(left: Route, rights: seq<Route>, cutoff: nat, p: Pair): Tally {
    if rights == [] then ZERO
    else Add(if left.ts >= cutoff && rights[0].ts >= cutoff then One(left, rights[0], p) else ZERO,
             BruteRow(left, rights[1..], cutoff, p))
  }

  function Brute(history: seq<Route>, cutoff: nat, p: Pair): Tally {
    if history == [] then ZERO
    else Add(BruteRow(history[0], history[1..], cutoff, p), Brute(history[1..], cutoff, p))
  }

  function BruteAll(routes: Routes, order: seq<string>, cutoff: nat, p: Pair): Tally
    requires forall t :: t in order ==> t in routes
  {
    if order == [] then ZERO
    else Add(Brute(routes[order[0]], cutoff, p), BruteAll(routes, order[1..], cutoff, p))
  }

  // ---- Brute force counts index pairs -------------------------------------

  predicate Counts(a: Route, b: Route, cutoff: nat, p: Pair) {
    a.ts >= cutoff && b.ts >= cutoff && a.node != b.node && PairOf(a, b) == p
  }

  ghost function RowPairs(h: seq<Route>, cutoff: nat, p: Pair, i: nat, k: nat): set<(nat, nat)>
    requires i < |h|
  {
    set j: nat | k <= j < |h| && Counts(h[i], h[j], cutoff, p) :: (i, j)
  }

  /** All index pairs `lo <= i < j` of the history that count for `p`. */
  ghost function IndexPairs(h: seq<Route>, cutoff: nat, p: Pair, lo: nat): set<(nat, nat)> {
    set i: nat, j: nat | lo <= i < |h| && i < j < |h| && Counts(h[i], h[j], cutoff, p) :: (i, j)
  }

  /** The mean strength of two entries. */
  ghost function Mean(h: seq<Route>, x: (nat, nat)): real {
    if x.0 < |h| && x.1 < |h| then (h[x.0].strength + h[x.1].strength) / 2.0 else 0.0
  }

  /** The sum of the mean strengths over a set of index pairs. */
  ghost function SumMeans(h: seq<Route>, s: set<(nat, nat)>): real {
    if s == {} then 0.0
    else
      var x :| x in s;
      Mean(h, x) + SumMeans(h, s - {x})
  }

  lemma {:induction false} SumTakesAny(h: seq<Route>, s: set<(nat, nat)>, x: (nat, nat))
    requires x in s
    ensures SumMeans(h, s) == Mean(h, x) + SumMeans(h, s - {x})
    decreases |s|
  {
    hide Mean;
    var y :| y in s && SumMeans(h, s) == Mean(h, y) + SumMeans(h, s - {y});
    if y != x {
      SumTakesAny(h, s - {y}, x);
      SumTakesAny(h, s - {x}, y);
      assert s - {y} - {x} == s - {x} - {y};
    }
  }

  lemma {:induction false} SumJoins(h: seq<Route>, a: set<(nat, nat)>, b: set<(nat, nat)>)
    requires a !! b
    ensures SumMeans(h, a + b) == SumMeans(h, a) + SumMeans(h, b)
    decreases |a|
  {
    if a == {} {
      assert a + b == b;
    } else {
      var x :| x in a;
      SumTakesAny(h, a, x);
      SumTakesAny(h, a + b, x);
      assert a + b - {x} == (a - {x}) + b;
      SumJoins(h, a - {x}, b);
    }
  }

  lemma {:induction false} RowPairsCounted(h: seq<Route>, cutoff: nat, p: Pair, i: nat, k: nat)
    requires i < k <= |h|
    ensures BruteRow(h[i], h[k..], cutoff, p)
            == Tally(|RowPairs(h, cutoff, p, i, k)|, SumMeans(h, RowPairs(h, cutoff, p, i, k)))
    decreases |h| - k
  {
    hide *;
    if k == |h| {
      RowPairsNone(h, cutoff, p, i);
    } else {
      RowPairsCounted(h, cutoff, p, i, k + 1);
      RowPairsGrow(h, cutoff, p, i, k);
      BruteRowGrows(h, cutoff, p, i, k);
    }
  }

  lemma RowPairsNone(h: seq<Route>, cutoff: nat, p: Pair, i: nat)
    requires i < |h|
    ensures RowPairs(h, cutoff, p, i, |h|) == {} && BruteRow(h[i], h[|h|..], cutoff, p) == Tally(0, 0.0)
    ensures SumMeans(h, {}) == 0.0
  {
  }

  lemma BruteRowGrows(h: seq<Route>, cutoff: nat, p: Pair, i: nat, k: nat)
    requires i < k < |h|
    ensures var rest := BruteRow(h[i], h[k + 1..], cutoff, p);
            BruteRow(h[i], h[k..], cutoff, p)
            == if Counts(h[i], h[k], cutoff, p) then Tally(rest.count + 1, rest.total + Mean(h, (i, k))) else rest
  {
    assert h[k..][1..] == h[k + 1..];
  }

  lemma RowPairsGrow(h: seq<Route>, cutoff: nat, p: Pair, i: nat, k: nat)
    requires i < k < |h|
    ensures var more, rest := RowPairs(h, cutoff, p, i, k), RowPairs(h, cutoff, p, i, k + 1);
            if Counts(h[i], h[k], cutoff, p)
            then |more| == |rest| + 1 && SumMeans(h, more) == SumMeans(h, rest) + Mean(h, (i, k))
            else more == rest
  {
    hide Counts, Mean, SumMeans;
    var more, rest := RowPairs(h, cutoff, p, i, k), RowPairs(h, cutoff, p, i, k + 1);
    if Counts(h[i], h[k], cutoff, p) {
      assert more == rest + {(i, k)} && more - {(i, k)} == rest;
      SumTakesAny(h, more, (i, k));
    } else {
      assert more == rest;
    }
  }

  /**
    Brute force counts the index pairs i < j that count for the pair of nodes, and sums the mean
    strengths of the two entries over the same index pairs.
   */
  lemma {:induction false} BruteCountsIndexPairs(h: seq<Route>, cutoff: nat, p: Pair, lo: nat)
    requires lo <= |h|
    ensures Brute(h[lo..], cutoff, p).count == |IndexPairs(h, cutoff, p, lo)|
    ensures Brute(h[lo..], cutoff, p).total == SumMeans(h, IndexPairs(h, cutoff, p, lo))
    decreases |h| - lo
  {
    if lo == |h| {
      assert IndexPairs(h, cutoff, p, lo) == {};
    } else {
      BruteCountsIndexPairs(h, cutoff, p, lo + 1);
      RowPairsCounted(h, cutoff, p, lo, lo + 1);
      assert h[lo..][1..] == h[lo + 1..];
      hide Counts, SumMeans;
      var row, rest := RowPairs(h, cutoff, p, lo, lo + 1), IndexPairs(h, cutoff, p, lo + 1);
      assert IndexPairs(h, cutoff, p, lo) == row + rest;
      assert row !! rest;
      SumJoins(h, row, rest);
    }
  }

  // ---- The same after filtering -------------------------------------------

  function Relevant(history: seq<Route>, cutoff: nat): seq<Route> {
    if history == [] then []
    else (if history[0].ts >= cutoff then [history[0]] else []) + Relevant(history[1..], cutoff)
  }

  function Row(left: Route, rights: seq<Route>, p: Pair): Tally {
    if rights == [] then ZERO else Add(One(left, rights[0], p), Row(left, rights[1..], p))
  }

  function Rows(entries: seq<Route>, p: Pair): Tally {
    if entries == [] then ZERO else Add(Row(entries[0], entries[1..], p), Rows(entries[1..], p))
  }

  lemma {:induction false} RowOfRelevant(left: Route, rights: seq<Route>, cutoff: nat, p: Pair)
    ensures BruteRow(left, rights, cutoff, p) ==
              if left.ts >= cutoff then Row(left, Relevant(rights, cutoff), p) else ZERO
  {
    hide Add, One;
    AddLaws(ZERO, ZERO, ZERO);
    if rights != [] {
      RowOfRelevant(left, rights[1..], cutoff, p);
      AddLaws(Row(left, Relevant(rights[1..], cutoff), p), ZERO, ZERO);
      if rights[0].ts >= cutoff {
        assert Relevant(rights, cutoff)[1..] == Relevant(rights[1..], cutoff);
      } else {
        assert Relevant(rights, cutoff) == Relevant(rights[1..], cutoff);
      }
    }
  }

  /** Filtering first and pairing afterwards counts what brute force counts. */
  lemma {:induction false} RowsOfRelevant(history: seq<Route>, cutoff: nat, p: Pair)
    ensures Rows(Relevant(history, cutoff), p) == Brute(history, cutoff, p)
  {
    hide Add, One;
    if history != [] {
      AddLaws(Brute(history[1..], cutoff, p), ZERO, ZERO);
      RowsOfRelevant(history[1..], cutoff, p);
      RowOfRelevant(history[0], history[1..], cutoff, p);
      if history[0].ts >= cutoff {
        assert Relevant(history, cutoff)[1..] == Relevant(history[1..], cutoff);
      } else {
        assert Relevant(history, cutoff) == Relevant(history[1..], cutoff);
      }
    }
  }

  lemma {:induction false} RelevantEntries(history: seq<Route>, cutoff: nat)
    ensures forall r :: r in Relevant(history, cutoff) ==> r in history && r.ts >= cutoff
  {
    if history != [] {
      RelevantEntries(history[1..], cutoff);
    }
  }

  // ---- The accumulator ----------------------------------------------------

  type Accum = map<Pair, Tally>

  function Lookup(accum: Accum, p: Pair): Tally {
    if p in accum then accum[p] else ZERO
  }

  /** `u32::saturating_add` keeps the count at its maximum; the strength goes on summing. */
  function Saturated(t: Tally): Tally {
    Tally(if t.count > U32_MAX then U32_MAX else t.count, t.total)
  }

  ghost predicate Tracks(accum: Accum, exact: Accum) {
    accum.Keys == exact.Keys && (forall p :: p in accum ==> p.u < p.v) &&
    forall p :: p in accum ==> accum[p] == Saturated(exact[p]) && exact[p].count > 0
  }

  function Bump(accum: Accum, a: Route, b: Route): Accum {
    var prior := Lookup(accum, PairOf(a, b));
    accum[PairOf(a, b) := Tally(if prior.count < U32_MAX then prior.count + 1 else U32_MAX,
                                prior.total + (a.strength + b.strength) * 0.5)]
  }

  lemma TracksLookup(accum: Accum, exact: Accum, p: Pair)
    requires Tracks(accum, exact)
    ensures Lookup(accum, p) == Saturated(Lookup(exact, p))
  {
  }

  function Counted(exact: Accum, a: Route, b: Route): Accum {
    var q := PairOf(a, b);
    exact[q := Add(Lookup(exact, q), Tally(1, (a.strength + b.strength) * 0.5))]
  }

  /** One counted co-occurrence, in the saturating and in the exact accumulator. */
  lemma BumpTracks(accum: Accum, exact: Accum, a: Route, b: Route)
    requires Tracks(accum, exact) && a.node != b.node
    ensures Tracks(Bump(accum, a, b), Counted(exact, a, b))
  {
    hide Add, Saturated, Lookup;
    var q := PairOf(a, b);
    TracksLookup(accum, exact, q);
    SaturateStep(Lookup(exact, q), Lookup(accum, q), (a.strength + b.strength) * 0.5);
  }

  lemma CountedLookup(exact: Accum, a: Route, b: Route, p: Pair)
    requires a.node != b.node
    ensures Lookup(Counted(exact, a, b), p) == Add(Lookup(exact, p), One(a, b, p))
  {
    hide Add;
    AddLaws(Lookup(exact, p), ZERO, ZERO);
  }

  lemma SaturateStep(exact: Tally, seen: Tally, s: real)
    requires seen == Saturated(exact)
    ensures Saturated(Add(exact, Tally(1, s))) ==
              Tally(if seen.count < U32_MAX then seen.count + 1 else U32_MAX, seen.total + s)
    ensures Add(exact, Tally(1, s)).count > 0
  {
  }

  /** The inner loop: one left entry against all later ones; the early exit is never taken. */
  method CountRow(left: Route, rights: seq<Route>, nowMs: nat, windowMs: nat, accum: Accum, ghost exact: Accum)
    returns (after: Accum, ghost exactly: Accum)
    requires Tracks(accum, exact)
    requires left.ts >= SatSub(nowMs, windowMs) && forall r :: r in rights ==> r.ts <= nowMs
    ensures Tracks(after, exactly)
    ensures forall p :: Lookup(exactly, p) == Add(Lookup(exact, p), Row(left, rights, p))
  {
    hide Add, One, Lookup, Bump, Tracks, Counted;
    after, exactly := accum, exact;
    for j := 0 to |rights|
      invariant Tracks(after, exactly)
      invariant forall p :: Add(Lookup(exactly, p), Row(left, rights[j..], p)) ==
                  Add(Lookup(exact, p), Row(left, rights, p))
    {
      var right := rights[j];
      if SatSub(right.ts, left.ts) > windowMs {
        break;
      }
      ghost var before := exactly;
      if left.node != right.node {
        BumpTracks(after, exactly, left, right);
        after := Bump(after, left, right);
        exactly := Counted(exactly, left, right);
      }
      forall p ensures Add(Lookup(exactly, p), Row(left, rights[j + 1..], p)) ==
                       Add(Lookup(before, p), Row(left, rights[j..], p))
      {
        assert rights[j..][1..] == rights[j + 1..];
        RowStep(before, exactly, left, right, p);
        AddLaws(Lookup(before, p), One(left, right, p), Row(left, rights[j + 1..], p));
      }
    }
    forall p ensures Lookup(exactly, p) == Add(Lookup(exact, p), Row(left, rights, p)) {
      AddLaws(Lookup(exactly, p), ZERO, ZERO);
      assert Row(left, rights[|rights|..], p) == ZERO;
    }
  }

  lemma RowStep(before: Accum, after: Accum, left: Route, right: Route, p: Pair)
    requires after == if left.node != right.node then Counted(before, left, right) else before
    ensures Lookup(after, p) == Add(Lookup(before, p), One(left, right, p))
  {
    hide Add, Counted;
    AddLaws(Lookup(before, p), ZERO, ZERO);
    if left.node != right.node {
      CountedLookup(before, left, right, p);
    }
  }

  /** The two inner loops over one token's history. */
  method CountHistory(history: seq<Route>, nowMs: nat, windowMs: nat, accum: Accum, ghost exact: Accum)
    returns (after: Accum, ghost exactly: Accum)
    requires Tracks(accum, exact) && forall r :: r in history ==> r.ts <= nowMs
    ensures Tracks(after, exactly)
    ensures forall p :: Lookup(exactly, p) == Add(Lookup(exact, p), Brute(history, SatSub(nowMs, windowMs), p))
  {
    hide Add, One, Lookup, Tracks, Row;
    var cutoff := SatSub(nowMs, windowMs);
    var relevant := Relevant(history, cutoff);
    RelevantEntries(history, cutoff);
    after, exactly := accum, exact;
    for i := 0 to |relevant|
      invariant Tracks(after, exactly)
      invariant forall p :: Add(Lookup(exactly, p), Rows(relevant[i..], p)) == Add(Lookup(exact, p), Rows(relevant, p))
    {
      ghost var before := exactly;
      after, exactly := CountRow(relevant[i], relevant[i + 1..], nowMs, windowMs, after, exactly);
      forall p
        ensures Add(Lookup(exactly, p), Rows(relevant[i + 1..], p)) == Add(Lookup(before, p), Rows(relevant[i..], p))
      {
        assert relevant[i..][1..] == relevant[i + 1..];
        AddLaws(Lookup(before, p), Row(relevant[i], relevant[i + 1..], p), Rows(relevant[i + 1..], p));
      }
    }
    forall p ensures Lookup(exactly, p) == Add(Lookup(exact, p), Brute(history, cutoff, p)) {
      RowsOfRelevant(history, cutoff, p);
      AddLaws(Lookup(exactly, p), ZERO, ZERO);
      assert Rows(relevant[|relevant|..], p) == ZERO;
    }
  }

  // ---- The field ----------------------------------------------------------

  /** The report lists each counted pair once, with its frequency and mean strength. */
  ghost predicate Reports(stats: seq<PairStat>, accum: Accum) {
    (forall s :: s in stats ==>
      Pair(s.u, s.v) in accum && s == StatOf(Pair(s.u, s.v), accum[Pair(s.u, s.v)])) &&
    (forall p :: p in accum ==> StatOf(p, accum[p]) in stats) &&
    (forall i, j :: 0 <= i < j < |stats| ==> Pair(stats[i].u, stats[i].v) != Pair(stats[j].u, stats[j].v))
  }

  /** One reported pair against its brute-force tally: the count as far as it goes, and the mean strength. */
  predicate Matches(s: PairStat, brute: Tally) {
    s.u < s.v && brute.count > 0 &&
    s.freq == (if brute.count > U32_MAX then U32_MAX else brute.count) as real && s.avgStrength * s.freq == brute.total
  }

  /** The report lists exactly the pairs that brute force counts, each once, with its numbers. */
  ghost predicate Measured(stats: seq<PairStat>, routes: Routes, order: seq<string>, cutoff: nat)
    requires forall t :: t in order ==> t in routes
  {
    (forall s :: s in stats ==> Matches(s, BruteAll(routes, order, cutoff, Pair(s.u, s.v)))) &&
    (forall p :: BruteAll(routes, order, cutoff, p).count > 0 ==> exists s :: s in stats && Pair(s.u, s.v) == p) &&
    (forall i, j :: 0 <= i < j < |stats| ==> Pair(stats[i].u, stats[i].v) != Pair(stats[j].u, stats[j].v))
  }

  lemma ReportMeasures(stats: seq<PairStat>, accum: Accum, exact: Accum, routes: Routes, order: seq<string>,
                       cutoff: nat)
    requires Reports(stats, accum) && Tracks(accum, exact) && forall t :: t in order ==> t in routes
    requires forall p :: Lookup(exact, p) == BruteAll(routes, order, cutoff, p)
    ensures Measured(stats, routes, order, cutoff)
  {
    hide BruteAll, StatOf, Saturated;
    forall s | s in stats ensures Matches(s, BruteAll(routes, order, cutoff, Pair(s.u, s.v))) {
      var p := Pair(s.u, s.v);
      assert exact[p] == Lookup(exact, p);
      StatMatches(p, exact[p]);
    }
    forall p | BruteAll(routes, order, cutoff, p).count > 0 ensures exists s :: s in stats && Pair(s.u, s.v) == p {
      assert p in accum;
      StatNames(p, accum[p]);
    }
  }

  lemma StatMatches(p: Pair, exact: Tally)
    requires p.u < p.v && exact.count > 0
    ensures Matches(StatOf(p, Saturated(exact)), exact)
  {
    var n := Saturated(exact).count as real;
    assert n > 0.0;
    assert exact.total / n * n == exact.total;
  }

  function StatOf(p: Pair, t: Tally): PairStat {
    PairStat(p.u, p.v, t.count as real, if t.count > 0 then t.total / (t.count as real) else 0.0)
  }

  function DropExpired(history: seq<Route>, nowMs: nat): seq<Route> {
    if history != [] && SatSub(nowMs, history[0].ts) > ROUTE_RETENTION_MS then DropExpired(history[1..], nowMs)
    else history
  }

  function Newest(history: seq<Route>): seq<Route> {
    if |history| > MAX_RECENT_ROUTES then history[|history| - MAX_RECENT_ROUTES..] else history
  }

  /** The two evictions keep exactly the newest 96 entries of the last 90 seconds of a history in time order. */
  lemma KeptMeans(full: seq<Route>, nowMs: nat) returns (n: nat)
    requires forall i, j :: 0 <= i < j < |full| ==> full[i].ts <= full[j].ts
    ensures n <= |full| && Newest(DropExpired(full, nowMs)) == full[n..]
    ensures forall i :: 0 <= i < |full| ==>
              (i >= n <==> i + 96 >= |full| && SatSub(nowMs, full[i].ts) <= 90_000)
  {
    var k := DropsFront(full, nowMs);
    n := if |full| - k > MAX_RECENT_ROUTES then |full| - MAX_RECENT_ROUTES else k;
  }

  lemma {:induction false} DropsFront(full: seq<Route>, nowMs: nat) returns (k: nat)
    requires forall i, j :: 0 <= i < j < |full| ==> full[i].ts <= full[j].ts
    ensures k <= |full| && DropExpired(full, nowMs) == full[k..]
    ensures forall i :: 0 <= i < |full| ==> (i >= k <==> SatSub(nowMs, full[i].ts) <= ROUTE_RETENTION_MS)
  {
    if full == [] || SatSub(nowMs, full[0].ts) <= ROUTE_RETENTION_MS {
      k := 0;
    } else {
      k := DropsFront(full[1..], nowMs);
      k := k + 1;
      forall i | 0 <= i < |full| ensures i >= k <==> SatSub(nowMs, full[i].ts) <= ROUTE_RETENTION_MS {
        assert i > 0 ==> full[1..][i - 1] == full[i];
      }
    }
  }

  function Entries(responded: seq<NodeId>, nowMs: nat, strength: real): seq<Route> {
    seq(|responded|, i requires 0 <= i < |responded| => Route(nowMs, responded[i], strength))
  }

  /** The eviction loops of `route_impulse`: expired entries first, then all but the newest 96. */
  method EvictRoutes(full: seq<Route>, nowMs: nat) returns (history: seq<Route>)
    ensures history == Newest(DropExpired(full, nowMs)) && forall r :: r in history ==> r in full
  {
    history := full;
    while history != [] && SatSub(nowMs, history[0].ts) > ROUTE_RETENTION_MS
      invariant DropExpired(history, nowMs) == DropExpired(full, nowMs) && forall r :: r in history ==> r in full
      decreases |history|
    {
      history := history[1..];
    }
    while |history| > MAX_RECENT_ROUTES
      invariant Newest(history) == Newest(DropExpired(full, nowMs)) && forall r :: r in history ==> r in full
      decreases |history|
    {
      history := history[1..];
    }
  }

  class RouteField {
    var recentRoutes: Routes
    var nowMs: nat

    /** No entry lies in the future. */
    ghost predicate Valid()
      reads this
    {
      nowMs <= U64_MAX && forall t :: t in recentRoutes ==> forall r :: r in recentRoutes[t] ==> r.ts <= nowMs
    }

    constructor ()
      ensures Valid()
    {
      recentRoutes, nowMs := map[], 0;
    }

    method Advance(dtMs: nat)
      requires Valid()
      modifies this`nowMs
      ensures Valid() && nowMs == SatAdd(old(nowMs), dtMs)
    {
      nowMs := SatAdd(nowMs, dtMs);
    }

    /** One token's part of `route_impulse`: the responders are appended, the history is evicted. */
    method RecordResponses(token: string, responded: seq<NodeId>, strength: real)
      requires Valid()
      modifies this`recentRoutes
      ensures Valid()
      ensures recentRoutes == old(recentRoutes)[token :=
        Newest(DropExpired((if token in old(recentRoutes) then old(recentRoutes)[token] else []) +
                           Entries(responded, nowMs, strength), nowMs))]
    {
      var before := if token in recentRoutes then recentRoutes[token] else [];
      var history := before;
      for i := 0 to |responded|
        invariant history == before + Entries(responded[..i], nowMs, strength)
      {
        history := history + [Route(nowMs, responded[i], strength)];
      }
      assert responded[..|responded|] == responded;
      assert forall r :: r in history ==> r.ts <= nowMs;
      hide Entries, DropExpired, Newest;
      history := EvictRoutes(history, nowMs);
      recentRoutes := recentRoutes[token := history];
    }

    /**
      `collect_recent_pairs`: the frequency of every pair is the brute-force count over all
      histories, at most `u32::MAX`, and its strength the mean over those co-occurrences.
     */
    method CollectRecentPairs(windowMs: nat, order: seq<string>) returns (stats: seq<PairStat>)
      requires Valid() && Enumerates(order, recentRoutes.Keys)
      ensures Measured(stats, recentRoutes, order, SatSub(nowMs, windowMs))
    {
      hide Add, Brute, Saturated;
      var cutoff := SatSub(nowMs, windowMs);
      var accum: Accum := map[];
      ghost var exact: Accum := map[];
      assert order[0..] == order;
      forall p ensures Add(ZERO, BruteAll(recentRoutes, order, cutoff, p)) == BruteAll(recentRoutes, order, cutoff, p) {
        AddLaws(BruteAll(recentRoutes, order, cutoff, p), ZERO, ZERO);
      }
      for i := 0 to |order|
        invariant Tracks(accum, exact)
        invariant forall p :: Add(Lookup(exact, p), BruteAll(recentRoutes, order[i..], cutoff, p)) ==
                              BruteAll(recentRoutes, order, cutoff, p)
      {
        ghost var before := exact;
        accum, exact := CountHistory(recentRoutes[order[i]], nowMs, windowMs, accum, exact);
        forall p ensures Add(Lookup(exact, p), BruteAll(recentRoutes, order[i + 1..], cutoff, p)) ==
                         Add(Lookup(before, p), BruteAll(recentRoutes, order[i..], cutoff, p))
        {
          assert order[i..][1..] == order[i + 1..];
          AddLaws(Lookup(before, p), Brute(recentRoutes[order[i]], cutoff, p),
                  BruteAll(recentRoutes, order[i + 1..], cutoff, p));
        }
      }
      forall p ensures Lookup(exact, p) == BruteAll(recentRoutes, order, cutoff, p) {
        AddLaws(Lookup(exact, p), ZERO, ZERO);
        assert BruteAll(recentRoutes, order[|order|..], cutoff, p) == ZERO;
      }
      stats := ListStats(accum);
      ReportMeasures(stats, accum, exact, recentRoutes, order, cutoff);
    }
  }

  method ListStats(accum: Accum) returns (stats: seq<PairStat>)
    ensures Reports(stats, accum)
  {
    hide StatOf;
    stats := [];
    var todo := accum.Keys;
    while todo != {}
      invariant todo <= accum.Keys
      invariant forall s :: s in stats ==> Pair(s.u, s.v) in accum && Pair(s.u, s.v) !in todo
      invariant forall s :: s in stats ==> s == StatOf(Pair(s.u, s.v), accum[Pair(s.u, s.v)])
      invariant forall p :: p in accum && p !in todo ==> StatOf(p, accum[p]) in stats
      invariant forall i, j :: 0 <= i < j < |stats| ==> Pair(stats[i].u, stats[i].v) != Pair(stats[j].u, stats[j].v)
      decreases |todo|
    {
      var p :| p in todo;
      todo := todo - {p};
      StatNames(p, accum[p]);
      stats := stats + [StatOf(p, accum[p])];
    }
  }

  lemma StatNames(p: Pair, t: Tally)
    ensures StatOf(p, t).u == p.u && StatOf(p, t).v == p.v
  {
  }
}
