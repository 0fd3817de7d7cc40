/** Bounded per-token hit queues answer window queries as the full history would (cluster_field.rs). */
module TokenHits {
  import opened Basics
  import opened Cells
  import opened Sorting
  import opened Windows

  const MAX_TOKEN_HITS: nat := 512
  const HIT_RETENTION_MS: nat := 120_000

  datatype Hit = Hit(seqNo: nat, ts: nat, node: NodeId, strength: real, latencyMs: nat)

  function TimeOf(hit: Hit): nat {
    hit.ts
  }

  // ---- The queues ---------------------------------------------------------

  type Hits = map<string, seq<Hit>>

  function Of(hits: Hits, token: string): seq<Hit> {
    if token in hits then hits[token] else []
  }

  ghost predicate QueueOk(queues: Hits, history: Hits, nowMs: nat, token: string) {
    InOrder(TimeOf, Of(history, token), nowMs) &&
    Keeps(TimeOf, Of(queues, token), Of(history, token), nowMs, HIT_RETENTION_MS, MAX_TOKEN_HITS)
  }

  /** Where each sequence number stands: token and position in its history. */
  type Register = map<nat, (string, nat)>

  ghost predicate PlacedAt(history: Hits, placed: Register, token: string, i: nat) {
    i < |Of(history, token)| ==>
      var n := Of(history, token)[i].seqNo; n in placed && placed[n] == (token, i)
  }

  /** Sequence numbers tell hits apart across all tokens, and `next` is new. */
  ghost predicate Numbered(history: Hits, placed: Register, next: nat) {
    (forall t, i :: PlacedAt(history, placed, t, i)) && (forall n :: n in placed ==> n < next)
  }

  lemma PushNumbered(history: Hits, placed: Register, next: nat, token: string, hit: Hit)
    requires Numbered(history, placed, next) && hit.seqNo == next
    ensures Numbered(history[token := Of(history, token) + [hit]], placed[next := (token, |Of(history, token)|)],
                     next + 1)
  {
    var more, spots := history[token := Of(history, token) + [hit]], placed[next := (token, |Of(history, token)|)];
    forall t, i ensures PlacedAt(more, spots, t, i) {
      assert PlacedAt(history, placed, t, i);
    }
  }

  lemma SameNumberSameHit(history: Hits, placed: Register, next: nat, t: string, a: Hit, u: string, b: Hit)
    requires Numbered(history, placed, next) && a in Of(history, t) && b in Of(history, u) && a.seqNo == b.seqNo
    ensures a == b
  {
    var i :| 0 <= i < |Of(history, t)| && Of(history, t)[i] == a;
    var j :| 0 <= j < |Of(history, u)| && Of(history, u)[j] == b;
    assert PlacedAt(history, placed, t, i) && PlacedAt(history, placed, u, j);
  }

  function Stamp(hit: Hit): real {
    hit.ts as real
  }

  function Numbers(hits: seq<Hit>): set<nat> {
    set hit | hit in hits :: hit.seqNo
  }

  /** The inner loop of `gather_hits_for_pattern`: hits whose number was not seen yet are added. */
  method AddNew(found: seq<Hit>, seen: set<nat>, hits: seq<Hit>) returns (more: seq<Hit>, marked: set<nat>)
    requires Distinct(found) && seen == Numbers(found)
    requires forall a, b :: a in found + hits && b in found + hits && a.seqNo == b.seqNo ==> a == b
    ensures Distinct(more) && marked == Numbers(more)
    ensures forall hit :: hit in more <==> hit in found || hit in hits
  {
    more, marked := found, seen;
    for i := 0 to |hits|
      invariant Distinct(more) && marked == Numbers(more)
      invariant forall hit :: hit in more <==> hit in found || hit in hits[..i]
    {
      var hit := hits[i];
      assert hits[..i + 1] == hits[..i] + [hit];
      if hit.seqNo !in marked {
        more, marked := more + [hit], marked + {hit.seqNo};
      } else {
        var known :| known in more && known.seqNo == hit.seqNo;
        assert known in found + hits && hit in found + hits;
      }
    }
    assert hits[..|hits|] == hits;
  }

  class HitField {
    var tokenHits: Hits
    var nextHitSeq: nat
    var nowMs: nat
    ghost var history: Hits
    ghost var placed: Register

    ghost predicate Valid()
      reads this
    {
      nowMs <= U64_MAX && Numbered(history, placed, nextHitSeq) &&
      forall t :: QueueOk(tokenHits, history, nowMs, t)
    }

    constructor ()
      ensures Valid() && history == map[] && nowMs == 0
    {
      tokenHits, nextHitSeq, nowMs, history, placed := map[], 1, 0, map[], map[];
    }

    /** The clock of `tick_all`, which never runs backwards. */
    method Advance(dtMs: nat)
      requires Valid()
      modifies this`nowMs
      ensures Valid() && nowMs == SatAdd(old(nowMs), dtMs) >= old(nowMs)
    {
      nowMs := SatAdd(nowMs, dtMs);
      forall t ensures QueueOk(tokenHits, history, nowMs, t) {
        assert QueueOk(tokenHits, history, old(nowMs), t);
      }
    }

    /** `record_token_hit`: the new hit ends the token's history, and the queue stays a faithful end piece. */
    method RecordTokenHit(token: string, node: NodeId, strength: real, latencyMs: nat)
      requires Valid()
      modifies this`tokenHits, this`nextHitSeq, this`history, this`placed
      ensures Valid()
      ensures var hit := Hit(old(nextHitSeq), nowMs, node, strength, latencyMs);
              history == old(history)[Lower(token) := Of(old(history), Lower(token)) + [hit]]
    {
      hide IsTail, Numbered;
      var normalized := Lower(token);
      var hit := Hit(nextHitSeq, nowMs, node, strength, latencyMs);
      assert QueueOk(tokenHits, history, nowMs, normalized);
      PushNumbered(history, placed, nextHitSeq, normalized, hit);
      placed := placed[nextHitSeq := (normalized, |Of(history, normalized)|)];
      nextHitSeq := nextHitSeq + 1;
      ghost var past := Of(history, normalized) + [hit];
      var entry := Of(tokenHits, normalized) + [hit];
      PushKeeps(TimeOf, Of(tokenHits, normalized), Of(history, normalized), nowMs, hit);
      entry := Evict(TimeOf, entry, nowMs, HIT_RETENTION_MS, MAX_TOKEN_HITS, past, HIT_RETENTION_MS);
      tokenHits := tokenHits[normalized := entry];
      history := history[normalized := past];
      forall t ensures QueueOk(tokenHits, history, nowMs, t) {
        assert QueueOk(old(tokenHits), old(history), nowMs, t);
      }
    }

    /**
      The hits since the cutoff among the last 512 ever recorded for the token; for a window longer
      than the retention, among those that the queue still holds.
     */
    ghost function Recent(token: string, windowMs: nat): seq<Hit>
      reads this
    {
      var known := if windowMs <= 120_000 then Last(Of(history, Lower(token)), 512)
                   else Of(tokenHits, Lower(token));
      Since(TimeOf, known, SatSub(nowMs, windowMs))
    }

    /** `recent_for`: exactly those hits, in order. */
    method RecentFor(token: string, windowMs: nat) returns (hits: seq<Hit>)
      requires Valid()
      ensures hits == Recent(token, windowMs)
    {
      hide Since, Numbered;
      var queue := Of(tokenHits, Lower(token));
      var cutoff := SatSub(nowMs, windowMs);
      var k := |queue|;
      while k > 0 && queue[k - 1].ts >= cutoff
        invariant 0 <= k <= |queue| && forall i :: k <= i < |queue| ==> queue[i].ts >= cutoff
      {
        k := k - 1;
      }
      hits := queue[k..];
      assert QueueOk(tokenHits, history, nowMs, Lower(token));
      if windowMs <= HIT_RETENTION_MS {
        WindowedEqualsHistory(TimeOf, queue, Of(history, Lower(token)), nowMs, HIT_RETENTION_MS, MAX_TOKEN_HITS,
                              cutoff, k);
      } else {
        TailInOrder(TimeOf, queue, Of(history, Lower(token)), nowMs);
        WindowedEqualsHistory(TimeOf, queue, queue, nowMs, windowMs, MAX_TOKEN_HITS, cutoff, k);
      }
    }

    ghost predicate InRecent(tokens: seq<string>, windowMs: nat, hit: Hit)
      reads this
    {
      exists t :: t in tokens && hit in Recent(t, windowMs)
    }

    lemma RecentSnoc(tokens: seq<string>, token: string, windowMs: nat, hit: Hit)
      ensures InRecent(tokens + [token], windowMs, hit) <==>
              InRecent(tokens, windowMs, hit) || hit in Recent(token, windowMs)
    {
      hide Recent;
      var more := tokens + [token];
      assert token in more && forall t :: t in tokens ==> t in more;
    }

    lemma RecentIsPast(token: string, windowMs: nat, hit: Hit)
      requires Valid() && hit in Recent(token, windowMs)
      ensures hit in Of(history, Lower(token))
    {
      var past, queue := Of(history, Lower(token)), Of(tokenHits, Lower(token));
      assert QueueOk(tokenHits, history, nowMs, Lower(token));
      LastIsTail(past, MAX_TOKEN_HITS);
      var known := if windowMs <= HIT_RETENTION_MS then Last(past, MAX_TOKEN_HITS) else queue;
      SinceSubset(TimeOf, known, SatSub(nowMs, windowMs), hit);
      TailSplits(known, past);
    }

    /** Among the recent hits of any tokens, a sequence number names one hit. */
    lemma NumbersTellApart(hits: seq<Hit>, tokens: seq<string>, windowMs: nat)
      requires Valid() && forall hit :: hit in hits ==> InRecent(tokens, windowMs, hit)
      ensures forall a, b :: a in hits && b in hits && a.seqNo == b.seqNo ==> a == b
    {
      forall a, b | a in hits && b in hits && a.seqNo == b.seqNo ensures a == b {
        var t :| t in tokens && a in Recent(t, windowMs);
        var u :| u in tokens && b in Recent(u, windowMs);
        RecentIsPast(t, windowMs, a);
        RecentIsPast(u, windowMs, b);
        SameNumberSameHit(history, placed, nextHitSeq, Lower(t), a, Lower(u), b);
      }
    }

    /**
      `gather_hits_for_pattern`: the time-sorted union of the tokens' recent hits, each hit once,
      however often a token is repeated.
     */
    method GatherHits(pattern: string, windowMs: nat) returns (combined: seq<Hit>)
      requires Valid()
      ensures Sorted(Stamp, combined) && Distinct(combined)
      ensures forall hit :: hit in combined <==> InRecent(Tokenize(pattern), windowMs, hit)
    {
      hide Valid, Recent, Tokenize;
      var tokens := Tokenize(pattern);
      var found: seq<Hit> := [];
      var seen: set<nat> := {};
      for i := 0 to |tokens|
        invariant Distinct(found) && seen == Numbers(found)
        invariant forall hit :: hit in found <==> InRecent(tokens[..i], windowMs, hit)
      {
        var hits := RecentFor(tokens[i], windowMs);
        assert tokens[..i + 1] == tokens[..i] + [tokens[i]];
        forall hit
          ensures InRecent(tokens[..i + 1], windowMs, hit) <==> InRecent(tokens[..i], windowMs, hit) || hit in hits
        {
          RecentSnoc(tokens[..i], tokens[i], windowMs, hit);
        }
        NumbersTellApart(found + hits, tokens[..i + 1], windowMs);
        found, seen := AddNew(found, seen, hits);
      }
      assert tokens[..|tokens|] == tokens;
      SortSorts(Stamp, found);
      combined := SortBy(Stamp, found);
      SameElements(found, combined);
      StillDistinct(found, combined);
    }
  }
}
