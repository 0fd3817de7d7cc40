/**
  Bounded, time-ordered queues: what a queue that evicts expired entries and all but the newest
  `cap` still knows about the full history it was fed.
 */
module Windows {
  import opened Basics

  /** The entries at or after the cutoff, in order. */
  function Since<T>(ts: T -> nat, entries: seq<T>, cutoff: nat): seq<T> {
    if entries == [] then []
    else
      var last := entries[|entries| - 1];
      Since(ts, entries[..|entries| - 1], cutoff) + if ts(last) >= cutoff then [last] else []
  }

  function Last<T>(entries: seq<T>, n: nat): seq<T> {
    if |entries| <= n then entries else entries[|entries| - n..]
  }

  ghost predicate NoLater<T>(ts: T -> nat, entries: seq<T>, i: int, j: int) {
    0 <= i <= j < |entries| ==> ts(entries[i]) <= ts(entries[j])
  }

  /** Time-sorted, and nothing from the future. */
  ghost predicate InOrder<T>(ts: T -> nat, entries: seq<T>, nowMs: nat) {
    (forall i, j :: NoLater(ts, entries, i, j)) && (entries != [] ==> ts(entries[|entries| - 1]) <= nowMs)
  }

  ghost predicate TailAt<T>(part: seq<T>, entries: seq<T>, i: int)
    requires |part| <= |entries|
  {
    0 <= i < |part| ==> part[i] == entries[|entries| - |part| + i]
  }

  /** `part` is an end piece of `entries`. */
  ghost predicate IsTail<T>(part: seq<T>, entries: seq<T>) {
    |part| <= |entries| && forall i :: TailAt(part, entries, i)
  }

  /** A queue is an end piece of the history, cut only where entries have expired or `cap` are kept. */
  ghost predicate Keeps<T>(ts: T -> nat, queue: seq<T>, history: seq<T>, nowMs: nat, retention: nat, cap: nat) {
    IsTail(queue, history) && |queue| <= cap &&
    (|queue| < |history| && |queue| < cap ==> ts(history[|history| - |queue| - 1]) + retention < nowMs)
  }

  /** In an ordered list, the entries at or after a cutoff are an end piece. */
  lemma {:induction false} SinceIsSuffix<T>(ts: T -> nat, entries: seq<T>, cutoff: nat, k: nat)
    requires k <= |entries|
    requires forall i :: 0 <= i < k ==> ts(entries[i]) < cutoff
    requires forall i :: k <= i < |entries| ==> ts(entries[i]) >= cutoff
    ensures Since(ts, entries, cutoff) == entries[k..]
    decreases |entries|
  {
    if entries != [] {
      var front := entries[..|entries| - 1];
      assert entries == front + [entries[|entries| - 1]];
      if k == |entries| {
        SinceIsSuffix(ts, front, cutoff, |front|);
      } else {
        SinceIsSuffix(ts, front, cutoff, k);
        assert entries[k..] == front[k..] + [entries[|entries| - 1]];
      }
    }
  }

  lemma {:induction false} SinceSubset<T>(ts: T -> nat, entries: seq<T>, cutoff: nat, x: T)
    requires x in Since(ts, entries, cutoff)
    ensures x in entries
  {
    if entries != [] && x != entries[|entries| - 1] {
      SinceSubset(ts, entries[..|entries| - 1], cutoff, x);
    }
  }

  lemma LastIsTail<T>(entries: seq<T>, n: nat)
    ensures IsTail(Last(entries, n), entries) && |Last(entries, n)| == if |entries| < n then |entries| else n
  {
  }

  lemma TailInOrder<T>(ts: T -> nat, part: seq<T>, entries: seq<T>, nowMs: nat)
    requires IsTail(part, entries) && InOrder(ts, entries, nowMs)
    ensures InOrder(ts, part, nowMs) && IsTail(part, part)
  {
    var cut := |entries| - |part|;
    forall i, j ensures NoLater(ts, part, i, j) {
      assert TailAt(part, entries, i) && TailAt(part, entries, j) && NoLater(ts, entries, cut + i, cut + j);
    }
    assert TailAt(part, entries, |part| - 1);
  }

  lemma TailsMatch<T>(short: seq<T>, long: seq<T>, entries: seq<T>)
    requires IsTail(short, entries) && IsTail(long, entries) && |short| <= |long|
    ensures forall i :: 0 <= i < |short| ==> short[i] == long[|long| - |short| + i]
  {
    forall i | 0 <= i < |short| ensures short[i] == long[|long| - |short| + i] {
      assert TailAt(short, entries, i) && TailAt(long, entries, |long| - |short| + i);
    }
  }

  /**
    Windowed equals history: scanning the queue from the back while entries are at or after the
    cutoff finds exactly those among the last `cap` entries of the whole history.
   */
  lemma WindowedEqualsHistory<T>(ts: T -> nat, queue: seq<T>, history: seq<T>, nowMs: nat, retention: nat, cap: nat,
                                 cutoff: nat, k: nat)
    requires Keeps(ts, queue, history, nowMs, retention, cap) && InOrder(ts, history, nowMs) &&
             nowMs <= cutoff + retention
    requires k <= |queue| && (k > 0 ==> ts(queue[k - 1]) < cutoff)
    requires forall i :: k <= i < |queue| ==> ts(queue[i]) >= cutoff
    ensures queue[k..] == Since(ts, Last(history, cap), cutoff)
  {
    hide Last, Since;
    var recent := Last(history, cap);
    LastIsTail(history, cap);
    var skip, start := |recent| - |queue|, |history| - |recent|;
    forall i | 0 <= i < skip + k ensures ts(recent[i]) < cutoff {
      var bar := if i < skip then skip - 1 else skip + k - 1;
      assert TailAt(recent, history, i) && TailAt(queue, history, k - 1) &&
             NoLater(ts, history, start + i, start + bar);
    }
    TailsMatch(queue, recent, history);
    forall i | skip + k <= i < |recent| ensures ts(recent[i]) >= cutoff {
      assert queue[i - skip] == recent[i];
    }
    SinceIsSuffix(ts, recent, cutoff, skip + k);
    assert recent[skip + k..] == queue[k..];
  }

  /** Pushing the newest entry keeps the history in order and the queue an end piece. */
  lemma PushKeeps<T>(ts: T -> nat, queue: seq<T>, history: seq<T>, nowMs: nat, x: T)
    requires InOrder(ts, history, nowMs) && IsTail(queue, history) && ts(x) == nowMs
    ensures InOrder(ts, history + [x], nowMs) && IsTail(queue + [x], history + [x])
  {
    var past, pushed := history + [x], queue + [x];
    forall i, j ensures NoLater(ts, past, i, j) {
      assert NoLater(ts, history, i, j) && NoLater(ts, history, i, |history| - 1);
    }
    forall i ensures TailAt(pushed, past, i) {
      assert TailAt(queue, history, i);
    }
  }

  lemma PopIsTail<T>(queue: seq<T>, history: seq<T>)
    requires IsTail(queue, history) && queue != []
    ensures IsTail(queue[1..], history) && history[|history| - |queue|] == queue[0]
  {
    var rest := queue[1..];
    forall i ensures TailAt(rest, history, i) {
      assert TailAt(queue, history, i + 1);
    }
    assert TailAt(queue, history, 0);
  }

  /**
    The two eviction loops that follow a push: expired entries, then all but the newest `cap`.
    Earlier evictions may have used any retention of at least `floor`.
   */
  method Evict<T>(ts: T -> nat, pushed: seq<T>, nowMs: nat, retention: nat, cap: nat, ghost past: seq<T>,
                  ghost floor: nat)
    returns (queue: seq<T>)
    requires IsTail(pushed, past) && |pushed| <= cap + 1 && floor <= retention
    requires |pushed| < |past| && |pushed| <= cap ==> ts(past[|past| - |pushed| - 1]) + floor < nowMs
    ensures Keeps(ts, queue, past, nowMs, floor, cap)
  {
    queue := pushed;
    while queue != [] && SatSub(nowMs, ts(queue[0])) > retention
      invariant |queue| <= |past| && IsTail(queue, past) && |queue| <= cap + 1
      invariant |queue| < |past| && |queue| <= cap ==> ts(past[|past| - |queue| - 1]) + floor < nowMs
      decreases |queue|
    {
      PopIsTail(queue, past);
      queue := queue[1..];
    }
    while |queue| > cap
      invariant |queue| <= |past| && IsTail(queue, past)
      invariant |queue| < |past| && |queue| < cap ==> ts(past[|past| - |queue| - 1]) + floor < nowMs
      decreases |queue|
    {
      PopIsTail(queue, past);
      queue := queue[1..];
    }
  }

  // ---- Counting -----------------------------------------------------------

  function Count<T>(counts: T -> bool, entries: seq<T>): nat {
    if entries == [] then 0 else (if counts(entries[0]) then 1 else 0) + Count(counts, entries[1..])
  }

  lemma {:induction false} CountSplit<T>(counts: T -> bool, a: seq<T>, b: seq<T>)
    ensures Count(counts, a + b) == Count(counts, a) + Count(counts, b)
  {
    if a == [] {
      assert a + b == b;
    } else {
      assert (a + b)[1..] == a[1..] + b;
      CountSplit(counts, a[1..], b);
    }
  }

  lemma {:induction false} CountNone<T>(counts: T -> bool, entries: seq<T>)
    requires forall i :: 0 <= i < |entries| ==> !counts(entries[i])
    ensures Count(counts, entries) == 0
  {
    if entries != [] {
      CountNone(counts, entries[1..]);
    }
  }

  lemma {:induction false} CountAll<T>(counts: T -> bool, entries: seq<T>)
    requires forall i :: 0 <= i < |entries| ==> counts(entries[i])
    ensures Count(counts, entries) == |entries|
  {
    if entries != [] {
      CountAll(counts, entries[1..]);
    }
  }

  lemma TailSplits<T>(queue: seq<T>, history: seq<T>)
    requires IsTail(queue, history)
    ensures history == history[..|history| - |queue|] + queue
  {
    forall i | 0 <= i < |queue| ensures history[|history| - |queue| + i] == queue[i] {
      assert TailAt(queue, history, i);
    }
  }

  /** A queue never counts more than the history it came from. */
  lemma QueueCountsLess<T>(counts: T -> bool, queue: seq<T>, history: seq<T>)
    requires IsTail(queue, history)
    ensures Count(counts, queue) <= Count(counts, history)
  {
    TailSplits(queue, history);
    CountSplit(counts, history[..|history| - |queue|], queue);
  }

  /**
    A queue counts exactly what the history does, for anything that only counts entries younger
    than the retention, as long as no more than `cap` entries of the history are that young.
   */
  lemma QueueCountsAll<T>(ts: T -> nat, counts: T -> bool, young: T -> bool, queue: seq<T>, history: seq<T>, nowMs: nat,
                          retention: nat, cap: nat)
    requires Keeps(ts, queue, history, nowMs, retention, cap) && InOrder(ts, history, nowMs)
    requires forall x :: young(x) <==> SatSub(nowMs, ts(x)) <= retention
    requires forall x :: counts(x) ==> young(x)
    requires Count(young, history) <= cap
    ensures Count(counts, queue) == Count(counts, history)
  {
    var cut := |history| - |queue|;
    var front := history[..cut];
    TailSplits(queue, history);
    CountSplit(counts, front, queue);
    forall i | 0 <= i < |front| ensures !young(front[i]) {
      assert NoLater(ts, history, i, cut - 1) && front[i] == history[i];
      if young(history[cut - 1]) {
        TooYoung(ts, young, queue, history, nowMs, retention);
      }
    }
    CountNone(counts, front);
  }

  lemma TooYoung<T>(ts: T -> nat, young: T -> bool, queue: seq<T>, history: seq<T>, nowMs: nat, retention: nat)
    requires IsTail(queue, history) && |queue| < |history| && InOrder(ts, history, nowMs)
    requires forall x :: young(x) <==> SatSub(nowMs, ts(x)) <= retention
    requires young(history[|history| - |queue| - 1])
    ensures Count(young, history) > |queue|
  {
    var cut := |history| - |queue| - 1;
    var rest := history[cut..];
    forall i | 0 <= i < |rest| ensures young(rest[i]) {
      assert NoLater(ts, history, cut, cut + i) && rest[i] == history[cut + i];
    }
    CountAll(young, rest);
    assert history == history[..cut] + rest;
    CountSplit(young, history[..cut], rest);
  }
}
