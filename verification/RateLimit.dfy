/** The namespace token bucket (security.rs), with f64 amounts as reals. */
module RateLimit {
  import opened Basics

  datatype Quotas = Quotas(rps: nat, burst: nat)

  datatype Bucket = Bucket(capacity: real, tokens: real, refillPerMs: real, lastRefillMs: nat)

  /** One call of `allow`: any clock reading, even one before the last. */
  datatype Request = Request(nowMs: nat, cost: real)

  ghost predicate InRange(b: Bucket) {
    0.0 <= b.tokens <= b.capacity && b.refillPerMs >= 0.0
  }

  function Fresh(quotas: Quotas, nowMs: nat): Bucket {
    var capacity := Max(quotas.burst, quotas.rps) as real;
    Bucket(capacity, capacity, if quotas.rps == 0 then 0.0 else quotas.rps as real / 1000.0, nowMs)
  }

  /** What a refill over a number of milliseconds is worth, before the capacity caps it. */
  function Earned(rate: real, ms: int): real {
    rate * (ms as real)
  }

  function Refilled(b: Bucket, nowMs: nat): Bucket {
    if nowMs <= b.lastRefillMs then b
    else
      var tokens := b.tokens + Earned(b.refillPerMs, nowMs - b.lastRefillMs);
      b.(lastRefillMs := nowMs, tokens := if tokens < b.capacity then tokens else b.capacity)
  }

  predicate Grants(b: Bucket, r: Request) {
    Refilled(b, r.nowMs).tokens >= r.cost
  }

  function Served(b: Bucket, r: Request): Bucket {
    var full := Refilled(b, r.nowMs);
    if Grants(b, r) then full.(tokens := full.tokens - r.cost) else full
  }

  /** The bucket after a run of requests. */
  function After(b: Bucket, run: seq<Request>): Bucket
    decreases |run|
  {
    if run == [] then b else After(Served(b, run[0]), run[1..])
  }

  /** The cost granted over a run. */
  function Granted(b: Bucket, run: seq<Request>): real
    decreases |run|
  {
    if run == [] then 0.0
    else (if Grants(b, run[0]) then run[0].cost else 0.0) + Granted(Served(b, run[0]), run[1..])
  }

  ghost predicate NonNegative(run: seq<Request>) {
    forall i :: 0 <= i < |run| ==> run[i].cost >= 0.0
  }

  class TokenBucket {
    var capacity: real
    var tokens: real
    var refillPerMs: real
    var lastRefillMs: nat

    function Value(): Bucket
      reads this
    {
      Bucket(capacity, tokens, refillPerMs, lastRefillMs)
    }

    constructor (quotas: Quotas, nowMs: nat)
      ensures Value() == Fresh(quotas, nowMs) && InRange(Value())
    {
      var burst := if quotas.burst < quotas.rps then quotas.rps else quotas.burst;
      capacity := burst as real;
      tokens := burst as real;
      refillPerMs := if quotas.rps == 0 then 0.0 else quotas.rps as real / 1000.0;
      lastRefillMs := nowMs;
    }

    method Refill(nowMs: nat)
      modifies this`tokens, this`lastRefillMs
      ensures Value() == Refilled(old(Value()), nowMs)
    {
      if nowMs <= lastRefillMs {
        return;
      }
      var elapsed := nowMs - lastRefillMs;
      lastRefillMs := nowMs;
      tokens := tokens + refillPerMs * (elapsed as real);
      if tokens > capacity {
        tokens := capacity;
      }
    }

    method Allow(nowMs: nat, cost: real) returns (granted: bool)
      modifies this`tokens, this`lastRefillMs
      ensures Value() == Served(old(Value()), Request(nowMs, cost)) &&
              granted == Grants(old(Value()), Request(nowMs, cost))
      ensures InRange(old(Value())) && cost >= 0.0 ==> InRange(Value())
    {
      Refill(nowMs);
      granted := tokens >= cost;
      if granted {
        tokens := tokens - cost;
      }
      if InRange(old(Value())) && cost >= 0.0 {
        ServedConserves(old(Value()), Request(nowMs, cost));
      }
    }
  }

  lemma RefillGains(b: Bucket, nowMs: nat)
    requires InRange(b)
    ensures InRange(Refilled(b, nowMs))
    ensures Refilled(b, nowMs).lastRefillMs == Max(b.lastRefillMs, nowMs)
    ensures b.tokens <= Refilled(b, nowMs).tokens
    ensures Refilled(b, nowMs).tokens - b.tokens <= Earned(b.refillPerMs, Max(b.lastRefillMs, nowMs) - b.lastRefillMs)
  {
    if nowMs > b.lastRefillMs {
      assert Earned(b.refillPerMs, nowMs - b.lastRefillMs) >= 0.0;
    }
  }

  /** One request: what is left plus what was granted is at most what was there plus the refill. */
  lemma ServedConserves(b: Bucket, r: Request)
    requires InRange(b) && r.cost >= 0.0
    ensures InRange(Served(b, r)) && Served(b, r).lastRefillMs == Max(b.lastRefillMs, r.nowMs)
    ensures Served(b, r).capacity == b.capacity && Served(b, r).refillPerMs == b.refillPerMs
    ensures Served(b, r).tokens + (if Grants(b, r) then r.cost else 0.0) <=
            b.tokens + Earned(b.refillPerMs, Max(b.lastRefillMs, r.nowMs) - b.lastRefillMs)
  {
    RefillGains(b, r.nowMs);
  }

  /** Exactly when one call keeps the tokens in range: a negative cost must fit below the capacity. */
  lemma RangeKeptIff(b: Bucket, r: Request)
    requires InRange(b)
    ensures InRange(Served(b, r)) <==> -r.cost <= b.capacity - Refilled(b, r.nowMs).tokens
  {
    RefillGains(b, r.nowMs);
  }

  lemma NegativeCostOverfills()
    ensures var b := Fresh(Quotas(1, 1), 0);
            InRange(b) && !InRange(Served(b, Request(0, -1.0)))
  {
    var b := Fresh(Quotas(1, 1), 0);
    assert b.tokens == 1.0 && Served(b, Request(0, -1.0)).tokens == 2.0;
  }

  /** The latest clock reading of a run, or the bucket's own. */
  function Latest(start: nat, run: seq<Request>): nat
    decreases |run|
  {
    if run == [] then start else Latest(Max(start, run[0].nowMs), run[1..])
  }

  lemma {:induction false} LatestIsBound(start: nat, run: seq<Request>, hi: nat)
    requires start <= hi && forall i :: 0 <= i < |run| ==> run[i].nowMs <= hi
    ensures start <= Latest(start, run) <= hi
    decreases |run|
  {
    if run != [] {
      LatestIsBound(Max(start, run[0].nowMs), run[1..], hi);
    }
  }

  /** Conservation over a run, for any clocks: tokens stay in range and nothing is granted from nowhere. */
  lemma {:induction false} RunConserves(b: Bucket, run: seq<Request>)
    requires InRange(b) && NonNegative(run)
    ensures InRange(After(b, run)) && b.lastRefillMs <= After(b, run).lastRefillMs == Latest(b.lastRefillMs, run)
    ensures After(b, run).capacity == b.capacity && After(b, run).refillPerMs == b.refillPerMs
    ensures After(b, run).tokens + Granted(b, run) <=
            b.tokens + Earned(b.refillPerMs, After(b, run).lastRefillMs - b.lastRefillMs)
    decreases |run|
  {
    hide Served, Grants, Earned;
    if run == [] {
      assert Earned(b.refillPerMs, 0) == 0.0 by { Distribute(b.refillPerMs, 0, 0); }
    } else {
      var next := Served(b, run[0]);
      ServedConserves(b, run[0]);
      RunConserves(next, run[1..]);
      var last := After(b, run).lastRefillMs;
      Distribute(b.refillPerMs, last - next.lastRefillMs, next.lastRefillMs - b.lastRefillMs);
    }
  }

  lemma Distribute(rate: real, m: int, n: int)
    ensures Earned(rate, m + n) == Earned(rate, m) + Earned(rate, n)
  {
  }

  lemma {:induction false} AfterSplits(b: Bucket, first: seq<Request>, rest: seq<Request>)
    ensures After(b, first + rest) == After(After(b, first), rest)
    decreases |first|
  {
    if first == [] {
      assert first + rest == rest;
    } else {
      assert (first + rest)[1..] == first[1..] + rest;
      AfterSplits(Served(b, first[0]), first[1..], rest);
    }
  }

  /**
    The rate bound: in any contiguous part of any run of a new bucket, with arbitrary clock
    readings, the cost granted is at most the capacity plus the refill rate times the advance of
    the refill clock over that part; tokens are in range before and after.
   */
  lemma RateBound(quotas: Quotas, startMs: nat, run: seq<Request>, i: nat, j: nat)
    requires NonNegative(run) && i <= j <= |run|
    ensures var start := Fresh(quotas, startMs);
            var before, after := After(start, run[..i]), After(start, run[..j]);
            InRange(before) && InRange(after) && before.lastRefillMs <= after.lastRefillMs &&
            Granted(before, run[i..j]) <=
            start.capacity + Earned(start.refillPerMs, after.lastRefillMs - before.lastRefillMs)
  {
    hide Earned, After, Granted;
    var start := Fresh(quotas, startMs);
    assert InRange(start);
    RunConserves(start, run[..i]);
    RunConserves(After(start, run[..i]), run[i..j]);
    assert run[..i] + run[i..j] == run[..j];
    AfterSplits(start, run[..i], run[i..j]);
  }

  /**
    The bound in the namespace's own quotas: over any contiguous part of a run, the larger of burst
    and rate, plus the rate for every second by which the refill clock advanced.
   */
  lemma RateBoundInQuotas(quotas: Quotas, startMs: nat, run: seq<Request>, i: nat, j: nat)
    requires NonNegative(run) && i <= j <= |run|
    ensures var before := After(Fresh(quotas, startMs), run[..i]);
            var after := After(Fresh(quotas, startMs), run[..j]);
            var advance := after.lastRefillMs - before.lastRefillMs;
            Granted(before, run[i..j]) <=
            (if quotas.burst < quotas.rps then quotas.rps else quotas.burst) as real + PerSecond(quotas.rps, advance)
  {
    hide After, Granted, Earned, PerSecond;
    RateBound(quotas, startMs, run, i, j);
    var before := After(Fresh(quotas, startMs), run[..i]);
    var after := After(Fresh(quotas, startMs), run[..j]);
    QuotaEarns(quotas, startMs, after.lastRefillMs - before.lastRefillMs);
  }

  /** A rate per second over a time in milliseconds. */
  function PerSecond(rps: nat, ms: int): real {
    ((rps * ms) as real) / 1000.0
  }

  lemma QuotaEarns(quotas: Quotas, startMs: nat, ms: int)
    ensures Earned(Fresh(quotas, startMs).refillPerMs, ms) == PerSecond(quotas.rps, ms)
  {
    assert (quotas.rps * ms) as real == (quotas.rps as real) * (ms as real);
  }

  /** A new bucket grants at once exactly what fits the larger of burst and rate. */
  lemma NewBucketGrants(quotas: Quotas, startMs: nat, cost: real)
    ensures Grants(Fresh(quotas, startMs), Request(startMs, cost)) <==>
            cost <= quotas.burst as real || cost <= quotas.rps as real
  {
  }

  /** The same bound by the wall clock: readings no later than `hiMs` earn no more than that much time. */
  lemma RateBoundByClock(b: Bucket, run: seq<Request>, hiMs: nat)
    requires InRange(b) && NonNegative(run)
    requires b.lastRefillMs <= hiMs && forall i :: 0 <= i < |run| ==> run[i].nowMs <= hiMs
    ensures Granted(b, run) <= b.capacity + Earned(b.refillPerMs, hiMs - b.lastRefillMs)
  {
    hide Earned, After, Granted;
    RunConserves(b, run);
    LatestIsBound(b.lastRefillMs, run, hiMs);
    var last := After(b, run).lastRefillMs;
    Distribute(b.refillPerMs, hiMs - last, last - b.lastRefillMs);
    EarnsSomething(b.refillPerMs, hiMs - last);
  }

  lemma EarnsSomething(rate: real, ms: nat)
    requires rate >= 0.0
    ensures Earned(rate, ms) >= 0.0
  {
  }

  /** Without a refill rate the whole run shares the one initial burst. */
  lemma NoRateNoRefill(burst: nat, startMs: nat, run: seq<Request>)
    requires NonNegative(run)
    ensures Granted(Fresh(Quotas(0, burst), startMs), run) <= burst as real
  {
    RunConserves(Fresh(Quotas(0, burst), startMs), run);
  }

  /** A bucket left alone long enough to fill up grants any request within its capacity. */
  lemma IdleBucketGrants(b: Bucket, r: Request)
    requires InRange(b) && r.cost <= b.capacity
    requires r.nowMs >= b.lastRefillMs && Earned(b.refillPerMs, r.nowMs - b.lastRefillMs) >= b.capacity - b.tokens
    ensures Grants(b, r)
  {
  }
}
