/** Reflex rules: counting impulses per token and kind, and firing at most once each (cluster_field.rs). */
module Reflex {
  import opened Basics
  import opened Cells
  import opened Windows

  type RuleId = nat

  datatype When = When(token: string, kind: ImpulseKind, minStrength: real, windowMs: nat, minCount: nat)

  datatype Rule = Rule(when: When, enabled: bool)

  datatype Arrival = Arrival(ts: nat, strength: real)

  datatype Key = Key(token: string, kind: ImpulseKind)

  datatype Fire = Fire(id: RuleId, token: string, matched: nat)

  const MAX_COUNTED: nat := 256
  const DEFAULT_RETENTION_MS: nat := 2_000

  function TimeOf(a: Arrival): nat {
    a.ts
  }

  predicate TokenMatches(ruleToken: string, token: string) {
    ruleToken == token || token in Tokenize(ruleToken)
  }

  /** The rules an impulse of this token and kind concerns. */
  function Relevant(rules: map<RuleId, Rule>, key: Key): (ids: set<RuleId>)
    ensures ids <= rules.Keys
  {
    set id | id in rules && rules[id].enabled && rules[id].when.kind == key.kind &&
             TokenMatches(rules[id].when.token, key.token)
  }

  /** The longest window of the relevant rules, 2000 ms if there are none, at least 1 ms. */
  ghost predicate IsRetention(rules: map<RuleId, Rule>, ids: set<RuleId>, r: nat)
    requires ids <= rules.Keys
  {
    if ids == {} then r == 2_000
    else r >= 1 && (forall id :: id in ids ==> rules[id].when.windowMs <= r) &&
         (r == 1 || exists id :: id in ids && rules[id].when.windowMs == r)
  }

  /** Strong enough and inside the rule's window. */
  function Matches(nowMs: nat, when: When): Arrival -> bool {
    (a: Arrival) => SatSub(nowMs, a.ts) <= when.windowMs && a.strength >= when.minStrength
  }

  function Matched(when: When, nowMs: nat, entries: seq<Arrival>): nat {
    Count(Matches(nowMs, when), entries)
  }

  function Young(nowMs: nat, retention: nat): Arrival -> bool {
    (a: Arrival) => SatSub(nowMs, a.ts) <= retention
  }

  type Counters = map<Key, seq<Arrival>>

  function Of(c: Counters, key: Key): seq<Arrival> {
    if key in c then c[key] else []
  }

  /** The shortest retention ever applied to a key. */
  ghost function Floor(low: map<Key, nat>, key: Key, retention: nat): nat {
    if key in low && low[key] < retention then low[key] else retention
  }

  ghost predicate QueueOk(counters: Counters, arrivals: Counters, low: map<Key, nat>, nowMs: nat, key: Key) {
    InOrder(TimeOf, Of(arrivals, key), nowMs) &&
    if key in low then Keeps(TimeOf, Of(counters, key), Of(arrivals, key), nowMs, low[key], MAX_COUNTED)
    else Of(counters, key) == [] && Of(arrivals, key) == []
  }

  /**
    What a fire report may claim. The count never exceeds the true number of matching impulses, and
    equals it if no shorter retention than the rule's window was ever applied to the key and at
    most 256 of its impulses are within that retention.
   */
  ghost predicate Honest(fire: Fire, when: When, history: seq<Arrival>, nowMs: nat, floor: nat) {
    when.minCount <= fire.matched <= Matched(when, nowMs, history) &&
    (when.windowMs <= floor && Count(Young(nowMs, floor), history) <= MAX_COUNTED ==>
      fire.matched == Matched(when, nowMs, history))
  }

  lemma CountIsHonest(when: When, queue: seq<Arrival>, history: seq<Arrival>, nowMs: nat, floor: nat)
    requires Keeps(TimeOf, queue, history, nowMs, floor, MAX_COUNTED) && InOrder(TimeOf, history, nowMs)
    ensures Matched(when, nowMs, queue) <= Matched(when, nowMs, history)
    ensures when.windowMs <= floor && Count(Young(nowMs, floor), history) <= MAX_COUNTED ==>
              Matched(when, nowMs, queue) == Matched(when, nowMs, history)
  {
    QueueCountsLess(Matches(nowMs, when), queue, history);
    if when.windowMs <= floor && Count(Young(nowMs, floor), history) <= MAX_COUNTED {
      QueueCountsAll(TimeOf, Matches(nowMs, when), Young(nowMs, floor), queue, history, nowMs, floor, MAX_COUNTED);
    }
  }

  ghost function Ids(fires: seq<Fire>): set<RuleId> {
    set f | f in fires :: f.id
  }

  ghost predicate OncePerRule(fires: seq<Fire>) {
    forall i, j :: 0 <= i < j < |fires| ==> fires[i].id != fires[j].id
  }

  /** A rule has reached its count in the queue. */
  predicate Reached(when: When, queue: seq<Arrival>, nowMs: nat) {
    Matched(when, nowMs, queue) >= when.minCount
  }

  ghost predicate FireOk(f: Fire, rules: map<RuleId, Rule>, key: Key, history: seq<Arrival>, nowMs: nat, floor: nat) {
    f.id in Relevant(rules, key) && f.token == key.token && Honest(f, rules[f.id].when, history, nowMs, floor)
  }

  /** The fires of one token: honest, none of a rule that fired before, and every rule that reached its count. */
  ghost predicate FiresOk(fires: seq<Fire>, rules: map<RuleId, Rule>, key: Key, queue: seq<Arrival>,
                          history: seq<Arrival>, nowMs: nat, floor: nat, fired: set<RuleId>, todo: set<RuleId>)
  {
    (forall f :: f in fires ==> FireOk(f, rules, key, history, nowMs, floor)) &&
    (forall id :: id in Relevant(rules, key) - fired - todo ==>
       (id in Ids(fires) <==> Reached(rules[id].when, queue, nowMs))) &&
    Ids(fires) !! fired + todo
  }

  ghost predicate FloorOk(rules: map<RuleId, Rule>, low: map<Key, nat>, key: Key) {
    key in low ==> IsRetention(rules, Relevant(rules, key), low[key])
  }

  /** The firing half of `process_reflex_for`, over the rules in any order. */
  method FireReached(rules: map<RuleId, Rule>, key: Key, queue: seq<Arrival>, nowMs: nat, fired: set<RuleId>,
                     ghost history: seq<Arrival>, ghost floor: nat)
    returns (fires: seq<Fire>, firedAfter: set<RuleId>)
    requires Keeps(TimeOf, queue, history, nowMs, floor, MAX_COUNTED) && InOrder(TimeOf, history, nowMs)
    ensures FiresOk(fires, rules, key, queue, history, nowMs, floor, fired, {})
    ensures firedAfter == fired + Ids(fires) && OncePerRule(fires)
  {
    hide *;
    fires, firedAfter := [], fired;
    var todo := Relevant(rules, key) - fired;
    NoneYet(rules, key, queue, history, nowMs, floor, fired, todo);
    while todo != {}
      invariant todo <= Relevant(rules, key) - fired && firedAfter == fired + Ids(fires)
      invariant FiresOk(fires, rules, key, queue, history, nowMs, floor, fired, todo) && OncePerRule(fires)
      decreases |todo|
    {
      var id :| id in todo;
      var when := rules[id].when;
      var matched := Matched(when, nowMs, queue);
      var fire := Fire(id, key.token, matched);
      NextRule(fires, fire, rules, key, queue, history, nowMs, floor, fired, todo);
      todo := todo - {id};
      if matched >= when.minCount {
        fires, firedAfter := fires + [fire], firedAfter + {id};
      }
    }
  }

  class ReflexField {
    var rules: map<RuleId, Rule>
    var counters: Counters
    var nowMs: nat
    ghost var arrivals: Counters
    ghost var low: map<Key, nat>
    ghost var changed: bool

    ghost predicate Valid()
      reads this
    {
      nowMs <= U64_MAX && (forall key :: QueueOk(counters, arrivals, low, nowMs, key)) &&
      (!changed ==> forall key :: FloorOk(rules, low, key))
    }

    constructor (rules: map<RuleId, Rule>)
      ensures Valid() && this.rules == rules && arrivals == map[] && !changed
    {
      this.rules := rules;
      counters, nowMs, arrivals, low, changed := map[], 0, map[], map[], false;
    }

    method Advance(dtMs: nat)
      requires Valid()
      modifies this`nowMs
      ensures Valid() && nowMs == SatAdd(old(nowMs), dtMs)
    {
      nowMs := SatAdd(nowMs, dtMs);
      forall key ensures QueueOk(counters, arrivals, low, nowMs, key) {
        assert QueueOk(counters, arrivals, low, old(nowMs), key);
      }
    }

    /** Rules may be added, changed or removed at any time. */
    method SetRules(rules: map<RuleId, Rule>)
      requires Valid()
      modifies this`rules, this`changed
      ensures Valid() && this.rules == rules
    {
      this.rules, changed := rules, true;
    }

    method RetentionOf(ids: set<RuleId>) returns (r: nat)
      requires ids <= rules.Keys
      ensures IsRetention(rules, ids, r)
    {
      if ids == {} {
        return DEFAULT_RETENTION_MS;
      }
      r := 1;
      var todo := ids;
      while todo != {}
        invariant todo <= ids && r >= 1 && forall id :: id in ids - todo ==> rules[id].when.windowMs <= r
        invariant r == 1 || exists id :: id in ids && rules[id].when.windowMs == r
        decreases |todo|
      {
        var id :| id in todo;
        todo := todo - {id};
        if rules[id].when.windowMs > r {
          r := rules[id].when.windowMs;
        }
      }
    }

    /** The counter half of `process_reflex_for`: push the impulse, evict by age and by number. */
    method Record(key: Key, strength: real, retention: nat)
      requires Valid() && IsRetention(rules, Relevant(rules, key), retention)
      modifies this`counters, this`arrivals, this`low
      ensures Valid() && arrivals == old(arrivals)[key := Of(old(arrivals), key) + [Arrival(nowMs, strength)]]
      ensures low == old(low)[key := Floor(old(low), key, retention)]
      ensures counters == old(counters)[key := Of(counters, key)]
    {
      hide IsTail, IsRetention, Relevant;
      var arrival := Arrival(nowMs, strength);
      assert QueueOk(counters, arrivals, low, nowMs, key);
      ghost var past, floor := Of(arrivals, key) + [arrival], Floor(low, key, retention);
      assert IsTail(Of(counters, key), Of(arrivals, key)) by { EmptyIsTail(); }
      PushKeeps(TimeOf, Of(counters, key), Of(arrivals, key), nowMs, arrival);
      var queue := Evict(TimeOf, Of(counters, key) + [arrival], nowMs, retention, MAX_COUNTED, past, floor);
      counters, arrivals, low := counters[key := queue], arrivals[key := past], low[key := floor];
      OthersQueued(old(counters), counters, old(arrivals), arrivals, old(low), low, nowMs, key);
      if !changed {
        forall k ensures FloorOk(rules, low, k) {
          assert FloorOk(rules, old(low), k);
        }
      }
    }

    /** `process_reflex_for`: one token of an impulse. */
    method ProcessReflexFor(token: string, kind: ImpulseKind, strength: real, fired: set<RuleId>)
      returns (fires: seq<Fire>, firedAfter: set<RuleId>)
      requires Valid()
      modifies this`counters, this`arrivals, this`low
      ensures Valid() && firedAfter == fired + Ids(fires)
      ensures var key := Key(Lower(token), kind);
              arrivals == old(arrivals)[key := Of(old(arrivals), key) + [Arrival(nowMs, strength)]] &&
              key in low && low == old(low)[key := low[key]] && counters == old(counters)[key := Of(counters, key)] &&
              FiresOk(fires, rules, key, Of(counters, key), Of(arrivals, key), nowMs, low[key], fired, {})
      ensures OncePerRule(fires)
    {
      hide Valid, FiresOk, IsRetention, Keeps, InOrder, Relevant, Lower;
      var key := Key(Lower(token), kind);
      var retention := RetentionOf(Relevant(rules, key));
      Record(key, strength, retention);
      QueueIsKept(key);
      fires, firedAfter := FireReached(rules, key, Of(counters, key), nowMs, fired, Of(arrivals, key), low[key]);
    }

    /**
      The reflex part of `route_impulse`: no rule fires twice, none that reached its count on some
      token is missed, every fire is honest about the impulses so far, and exact if the rules were
      never changed.
     */
    method RouteReflexes(pattern: string, kind: ImpulseKind, strength: real) returns (fires: seq<Fire>)
      requires Valid()
      modifies this`counters, this`arrivals, this`low
      ensures Valid()
      ensures OncePerRule(fires)
      ensures forall token, id :: token in Tokenize(pattern) ==>
                NotMissed(rules, counters, kind, nowMs, Ids(fires), token, id)
      ensures forall f :: f in fires ==> FiredRight(f, kind, rules, arrivals, nowMs, low)
      ensures forall f, r :: f in fires && !changed && IsRetention(rules, Relevant(rules, Key(f.token, kind)), r) ==>
                FiredExactly(f, kind, rules, arrivals, nowMs, r)
      ensures forall key: Key :: Of(arrivals, key) ==
                Heard(old(arrivals), key, kind, key.token in Tokenize(pattern), Arrival(nowMs, strength))
    {
      hide *;
      var tokens := Tokenize(pattern);
      fires := [];
      var seen, fired := {}, {};
      NoFires(kind, rules, arrivals, nowMs, low, Arrival(nowMs, strength));
      for i := 0 to |tokens|
        invariant Valid() && fired == Ids(fires) && OncePerRule(fires)
        invariant AllRight(fires, kind, rules, arrivals, nowMs, low, seen)
        invariant forall token, id :: token in seen ==> NotMissed(rules, counters, kind, nowMs, Ids(fires), token, id)
        invariant forall token :: token in seen <==> token in tokens[..i]
        invariant HeardAll(old(arrivals), arrivals, kind, seen, Arrival(nowMs, strength))
      {
        if tokens[i] !in seen {
          TokensAreLower(pattern, tokens[i]);
          ghost var before, lowBefore, countersBefore := arrivals, low, counters;
          var more, firedAfter := ProcessReflexFor(tokens[i], kind, strength, fired);
          ghost var key := Key(tokens[i], kind);
          OneMoreToken(fires, more, kind, rules, old(arrivals), before, arrivals, nowMs, lowBefore, low, seen, key,
                       Of(counters, key), Arrival(nowMs, strength));
          forall token, id | token in seen + {tokens[i]}
            ensures NotMissed(rules, counters, kind, nowMs, fired + Ids(more), token, id)
          {
            StillNotMissed(rules, countersBefore, counters, kind, nowMs, fires, more, seen, key, Of(arrivals, key),
                           low[key], token, id);
          }
          seen := seen + {tokens[i]};
          fires, fired := fires + more, firedAfter;
        }
      }
      assert tokens[..|tokens|] == tokens;
      Conclude(fires, kind, old(arrivals), seen, tokens, Arrival(nowMs, strength));
    }

    lemma Conclude(fires: seq<Fire>, kind: ImpulseKind, before: Counters, seen: set<string>, tokens: seq<string>,
                   a: Arrival)
      requires Valid() && AllRight(fires, kind, rules, arrivals, nowMs, low, seen)
      requires HeardAll(before, arrivals, kind, seen, a) && forall token :: token in seen <==> token in tokens
      ensures forall f :: f in fires ==> FiredRight(f, kind, rules, arrivals, nowMs, low)
      ensures forall f, r :: f in fires && !changed && IsRetention(rules, Relevant(rules, Key(f.token, kind)), r) ==>
                FiredExactly(f, kind, rules, arrivals, nowMs, r)
      ensures forall key: Key :: Of(arrivals, key) == Heard(before, key, kind, key.token in tokens, a)
    {
      hide FiredRight, FiredExactly, IsRetention, Relevant;
      forall f, r | f in fires && !changed && IsRetention(rules, Relevant(rules, Key(f.token, kind)), r)
        ensures FiredExactly(f, kind, rules, arrivals, nowMs, r)
      {
        FloorIsRetention(Key(f.token, kind));
        ExactWhenFixed(f, kind, rules, arrivals, nowMs, low, r);
      }
    }

    lemma QueueIsKept(key: Key)
      requires Valid() && key in low
      ensures Keeps(TimeOf, Of(counters, key), Of(arrivals, key), nowMs, low[key], MAX_COUNTED)
      ensures InOrder(TimeOf, Of(arrivals, key), nowMs)
    {
      assert QueueOk(counters, arrivals, low, nowMs, key);
    }

    lemma FloorIsRetention(key: Key)
      requires Valid() && !changed
      ensures FloorOk(rules, low, key)
    {
    }
  }

  /** An impulse reaches the counter of each of its tokens once. */
  function Heard(before: Counters, key: Key, kind: ImpulseKind, named: bool, a: Arrival): seq<Arrival> {
    Of(before, key) + if key.kind == kind && named then [a] else []
  }

  ghost predicate HeardAll(before: Counters, after: Counters, kind: ImpulseKind, seen: set<string>, a: Arrival) {
    forall key: Key :: Of(after, key) == Heard(before, key, kind, key.token in seen, a)
  }

  ghost predicate AllRight(fires: seq<Fire>, kind: ImpulseKind, rules: map<RuleId, Rule>, arrivals: Counters,
                           nowMs: nat, low: map<Key, nat>, seen: set<string>)
  {
    forall f :: f in fires ==> FiredRight(f, kind, rules, arrivals, nowMs, low) && f.token in seen
  }

  /** If the rule concerns the token and reached its count there, it is among `ids`. */
  ghost predicate NotMissed(rules: map<RuleId, Rule>, counters: Counters, kind: ImpulseKind, nowMs: nat,
                            ids: set<RuleId>, token: string, id: RuleId)
  {
    var key := Key(token, kind);
    id in Relevant(rules, key) && Reached(rules[id].when, Of(counters, key), nowMs) ==> id in ids
  }

  lemma StillNotMissed(rules: map<RuleId, Rule>, before: Counters, after: Counters, kind: ImpulseKind, nowMs: nat,
                       fires: seq<Fire>, more: seq<Fire>, seen: set<string>, key: Key, history: seq<Arrival>,
                       floor: nat, token: string, id: RuleId)
    requires token in seen ==> NotMissed(rules, before, kind, nowMs, Ids(fires), token, id)
    requires key.kind == kind && key.token !in seen && after == before[key := Of(after, key)] &&
             token in seen + {key.token}
    requires FiresOk(more, rules, key, Of(after, key), history, nowMs, floor, Ids(fires), {})
    ensures NotMissed(rules, after, kind, nowMs, Ids(fires) + Ids(more), token, id)
  {
    hide Relevant, Reached, Ids, FireOk;
    if token == key.token && id in Relevant(rules, key) && id !in Ids(fires) {
      assert id in Relevant(rules, key) - Ids(fires) - {};
    }
  }

  lemma NoFires(kind: ImpulseKind, rules: map<RuleId, Rule>, arrivals: Counters, nowMs: nat, low: map<Key, nat>,
                a: Arrival)
    ensures Ids([]) == {} && OncePerRule([]) && AllRight([], kind, rules, arrivals, nowMs, low, {})
    ensures HeardAll(arrivals, arrivals, kind, {}, a)
  {
  }

  lemma OneMoreToken(fires: seq<Fire>, more: seq<Fire>, kind: ImpulseKind, rules: map<RuleId, Rule>, start: Counters,
                     before: Counters, after: Counters, nowMs: nat, lowBefore: map<Key, nat>, lowAfter: map<Key, nat>,
                     seen: set<string>, key: Key, queue: seq<Arrival>, a: Arrival)
    requires AllRight(fires, kind, rules, before, nowMs, lowBefore, seen) && OncePerRule(fires) && OncePerRule(more)
    requires HeardAll(start, before, kind, seen, a) && after == before[key := Of(before, key) + [a]]
    requires key.kind == kind && key.token !in seen && key in lowAfter && lowAfter == lowBefore[key := lowAfter[key]]
    requires FiresOk(more, rules, key, queue, Of(after, key), nowMs, lowAfter[key], Ids(fires), {})
    ensures AllRight(fires + more, kind, rules, after, nowMs, lowAfter, seen + {key.token})
    ensures OncePerRule(fires + more) && Ids(fires + more) == Ids(fires) + Ids(more)
    ensures HeardAll(start, after, kind, seen + {key.token}, a)
  {
    FiresAreRight(more, kind, rules, key, queue, after, nowMs, lowAfter, Ids(fires));
    DistinctTogether(fires, more);
    HeardOneMore(start, before, after, kind, seen, key, a);
    hide FiredRight, FiresOk, OncePerRule, Ids, HeardAll;
    forall f | f in fires ensures FiredRight(f, kind, rules, after, nowMs, lowAfter) {
      OthersKept(f, kind, rules, before, after, nowMs, lowBefore, lowAfter, key);
    }
    assert forall f :: f in fires + more <==> f in fires || f in more;
  }

  lemma HeardOneMore(start: Counters, before: Counters, after: Counters, kind: ImpulseKind, seen: set<string>, key: Key,
                     a: Arrival)
    requires HeardAll(start, before, kind, seen, a) && after == before[key := Of(before, key) + [a]]
    requires key.kind == kind && key.token !in seen
    ensures HeardAll(start, after, kind, seen + {key.token}, a)
  {
    forall k: Key ensures Of(after, k) == Heard(start, k, kind, k.token in seen + {key.token}, a) {
      assert Of(before, k) == Heard(start, k, kind, k.token in seen, a);
    }
  }

  lemma OthersQueued(c0: Counters, c: Counters, h0: Counters, h: Counters, low0: map<Key, nat>, low: map<Key, nat>,
                     nowMs: nat, key: Key)
    requires forall k :: QueueOk(c0, h0, low0, nowMs, k)
    requires forall k :: k != key ==> Of(c, k) == Of(c0, k) && Of(h, k) == Of(h0, k)
    requires key in low && low == low0[key := low[key]] && QueueOk(c, h, low, nowMs, key)
    ensures forall k :: QueueOk(c, h, low, nowMs, k)
  {
    hide Keeps, InOrder;
    forall k ensures QueueOk(c, h, low, nowMs, k) {
      assert QueueOk(c0, h0, low0, nowMs, k);
    }
  }

  lemma EmptyIsTail()
    ensures IsTail<Arrival>([], [])
  {
  }

  lemma NoneYet(rules: map<RuleId, Rule>, key: Key, queue: seq<Arrival>, history: seq<Arrival>,
                nowMs: nat, floor: nat, fired: set<RuleId>, todo: set<RuleId>)
    requires todo == Relevant(rules, key) - fired
    ensures FiresOk([], rules, key, queue, history, nowMs, floor, fired, todo) && Ids([]) == {} && OncePerRule([])
  {
    hide Relevant, Reached;
    assert Relevant(rules, key) - fired - todo == {};
  }

  lemma NextRule(fires: seq<Fire>, fire: Fire, rules: map<RuleId, Rule>, key: Key, queue: seq<Arrival>,
                 history: seq<Arrival>, nowMs: nat, floor: nat, fired: set<RuleId>, todo: set<RuleId>)
    requires FiresOk(fires, rules, key, queue, history, nowMs, floor, fired, todo)
    requires fire.id in todo && todo <= Relevant(rules, key) - fired && fire.token == key.token
    requires fire.matched == Matched(rules[fire.id].when, nowMs, queue)
    requires Keeps(TimeOf, queue, history, nowMs, floor, MAX_COUNTED) && InOrder(TimeOf, history, nowMs)
    ensures var more := if fire.matched >= rules[fire.id].when.minCount then fires + [fire] else fires;
            FiresOk(more, rules, key, queue, history, nowMs, floor, fired, todo - {fire.id})
    ensures Ids(fires + [fire]) == Ids(fires) + {fire.id} && (OncePerRule(fires) ==> OncePerRule(fires + [fire]))
  {
    assert Reached(rules[fire.id].when, queue, nowMs) ==> Honest(fire, rules[fire.id].when, history, nowMs, floor) by {
      CountIsHonest(rules[fire.id].when, queue, history, nowMs, floor);
    }
    hide Relevant, Honest, Matched, Keeps, InOrder;
    var more := fires + [fire];
    assert Ids(more) == Ids(fires) + {fire.id} by {
      assert fire in more && forall f :: f in more <==> f in fires || f == fire;
    }
  }

  lemma TokensAreLower(pattern: string, token: string)
    requires token in Tokenize(pattern)
    ensures Lower(token) == token
  {
    SplitIsLower(pattern, "", token);
  }

  lemma {:induction false} SplitIsLower(input: string, word: string, token: string)
    requires token in SplitTokens(input, word) && Lower(word) == word
    ensures Lower(token) == token
    decreases |input|
  {
    if input != "" {
      var longer := word + [LowerChar(input[0])];
      assert Lower(longer) == longer by {
        forall i | 0 <= i < |longer| ensures LowerChar(longer[i]) == longer[i] {
          assert i < |word| ==> Lower(word)[i] == word[i];
        }
      }
      if token in SplitTokens(input[1..], longer) {
        SplitIsLower(input[1..], longer, token);
      } else if token in SplitTokens(input[1..], "") {
        SplitIsLower(input[1..], "", token);
      }
    }
  }

  /** The report's token names the counter, and the count is honest about every impulse that reached it. */
  ghost predicate FiredRight(f: Fire, kind: ImpulseKind, rules: map<RuleId, Rule>, arrivals: Counters, nowMs: nat,
                             low: map<Key, nat>)
  {
    var key := Key(f.token, kind);
    key in low && FireOk(f, rules, key, Of(arrivals, key), nowMs, low[key])
  }

  /** With at most 256 impulses in the retention `r`, the reported count is the true one. */
  ghost predicate FiredExactly(f: Fire, kind: ImpulseKind, rules: map<RuleId, Rule>, arrivals: Counters, nowMs: nat,
                               r: nat)
  {
    var history := Of(arrivals, Key(f.token, kind));
    f.id in rules &&
    (Count(Young(nowMs, r), history) <= MAX_COUNTED ==> f.matched == Matched(rules[f.id].when, nowMs, history))
  }

  lemma OthersKept(f: Fire, kind: ImpulseKind, rules: map<RuleId, Rule>, before: Counters, after: Counters, nowMs: nat,
                   lowBefore: map<Key, nat>, lowAfter: map<Key, nat>, key: Key)
    requires FiredRight(f, kind, rules, before, nowMs, lowBefore) && f.token != key.token
    requires forall k :: k != key ==> Of(after, k) == Of(before, k)
    requires key in lowAfter && lowAfter == lowBefore[key := lowAfter[key]]
    ensures FiredRight(f, kind, rules, after, nowMs, lowAfter)
  {
  }

  lemma FiresAreRight(fires: seq<Fire>, kind: ImpulseKind, rules: map<RuleId, Rule>, key: Key, queue: seq<Arrival>,
                      arrivals: Counters, nowMs: nat, low: map<Key, nat>, fired: set<RuleId>)
    requires key in low && key.kind == kind
    requires FiresOk(fires, rules, key, queue, Of(arrivals, key), nowMs, low[key], fired, {})
    ensures forall f :: f in fires ==> FiredRight(f, kind, rules, arrivals, nowMs, low) && f.token == key.token
    ensures Ids(fires) !! fired
  {
  }

  lemma DistinctTogether(a: seq<Fire>, b: seq<Fire>)
    requires OncePerRule(a)
    requires OncePerRule(b)
    requires Ids(a) !! Ids(b)
    ensures OncePerRule(a + b) && Ids(a + b) == Ids(a) + Ids(b)
  {
    var all := a + b;
    assert Ids(all) == Ids(a) + Ids(b) by {
      assert forall f :: f in all <==> f in a || f in b;
    }
    forall i, j | 0 <= i < j < |a + b| ensures (a + b)[i].id != (a + b)[j].id {
      if i < |a| <= j {
        assert a[i] in a && b[j - |a|] in b;
        assert a[i].id in Ids(a) && b[j - |a|].id in Ids(b);
      }
    }
  }

  lemma ExactWhenFixed(f: Fire, kind: ImpulseKind, rules: map<RuleId, Rule>, arrivals: Counters, nowMs: nat,
                       low: map<Key, nat>, r: nat)
    requires FiredRight(f, kind, rules, arrivals, nowMs, low) && FloorOk(rules, low, Key(f.token, kind))
    requires IsRetention(rules, Relevant(rules, Key(f.token, kind)), r)
    ensures FiredExactly(f, kind, rules, arrivals, nowMs, r)
  {
    hide Count, Matched;
    assert low[Key(f.token, kind)] == r;
  }

  // ---- Rules in their own fields ------------------------------------------

  /** The positions of the impulses that a rule may count: strong enough and inside its window. */
  ghost function Positions(when: When, nowMs: nat, entries: seq<Arrival>): set<nat> {
    set i: nat |
      i < |entries| && SatSub(nowMs, entries[i].ts) <= when.windowMs && entries[i].strength >= when.minStrength
  }

  lemma {:induction false} MatchedCounts(when: When, nowMs: nat, entries: seq<Arrival>)
    ensures Matched(when, nowMs, entries) == |Positions(when, nowMs, entries)|
    decreases |entries|
  {
    if entries == [] {
      assert Positions(when, nowMs, entries) == {};
    } else {
      var front, last := entries[..|entries| - 1], entries[|entries| - 1];
      MatchedCounts(when, nowMs, front);
      assert front + [last] == entries;
      CountSplit(Matches(nowMs, when), front, [last]);
      CountOne(Matches(nowMs, when), last);
      PositionsGrow(when, nowMs, front, last);
      hide Count, Matches, Positions;
    }
  }

  lemma PositionsGrow(when: When, nowMs: nat, front: seq<Arrival>, last: Arrival)
    ensures |Positions(when, nowMs, front + [last])| ==
            |Positions(when, nowMs, front)| + if Matches(nowMs, when)(last) then 1 else 0
  {
    var more, rest := Positions(when, nowMs, front + [last]), Positions(when, nowMs, front);
    assert |front| !in rest;
    assert more == rest + if Matches(nowMs, when)(last) then {|front|} else {};
  }

  lemma CountOne(counts: Arrival -> bool, a: Arrival)
    ensures Count(counts, [a]) == if counts(a) then 1 else 0
  {
    assert [a][1..] == [];
  }

  /** The rule is enabled, of this kind, and names the token as a whole or as one of its parts. */
  predicate Concerns(rule: Rule, token: string, kind: ImpulseKind) {
    rule.enabled && rule.when.kind == kind && (rule.when.token == token || token in Tokenize(rule.when.token))
  }

  /** What a fire says: its rule concerns the token, and at least as many impulses counted as reported and required. */
  lemma FireMeans(f: Fire, kind: ImpulseKind, rules: map<RuleId, Rule>, arrivals: Counters, nowMs: nat,
                  low: map<Key, nat>)
    requires FiredRight(f, kind, rules, arrivals, nowMs, low)
    ensures f.id in rules && Concerns(rules[f.id], f.token, kind)
    ensures rules[f.id].when.minCount <= f.matched
    ensures f.matched <= |Positions(rules[f.id].when, nowMs, Of(arrivals, Key(f.token, kind)))|
  {
    MatchedCounts(rules[f.id].when, nowMs, Of(arrivals, Key(f.token, kind)));
    hide Matched, Positions, Count, Of;
  }

  /** With at most 256 impulses of the key within the retention, exactly as many counted as reported. */
  lemma ExactFireMeans(f: Fire, kind: ImpulseKind, rules: map<RuleId, Rule>, arrivals: Counters, nowMs: nat, r: nat)
    requires FiredExactly(f, kind, rules, arrivals, nowMs, r)
    requires var past := Of(arrivals, Key(f.token, kind));
             |set i: nat | i < |past| && SatSub(nowMs, past[i].ts) <= r| <= 256
    ensures f.id in rules
    ensures f.matched == |Positions(rules[f.id].when, nowMs, Of(arrivals, Key(f.token, kind)))|
  {
    var past := Of(arrivals, Key(f.token, kind));
    MatchedCounts(rules[f.id].when, nowMs, past);
    YoungCounts(past, nowMs, r);
    hide Matched, Positions, Count, Of;
  }

  lemma {:induction false} YoungCounts(entries: seq<Arrival>, nowMs: nat, r: nat)
    ensures Count(Young(nowMs, r), entries) == |set i: nat | i < |entries| && SatSub(nowMs, entries[i].ts) <= r|
    decreases |entries|
  {
    var all := set i: nat | i < |entries| && SatSub(nowMs, entries[i].ts) <= r;
    if entries == [] {
      assert all == {};
    } else {
      var front, last := entries[..|entries| - 1], |entries| - 1;
      YoungCounts(front, nowMs, r);
      assert front + [entries[last]] == entries;
      CountSplit(Young(nowMs, r), front, [entries[last]]);
      CountOne(Young(nowMs, r), entries[last]);
      var rest := set i: nat | i < |front| && SatSub(nowMs, front[i].ts) <= r;
      assert all == rest + if Young(nowMs, r)(entries[last]) then {last} else {};
    }
  }

  /** A rule that concerns the token and whose count is reached among the counted impulses fires. */
  lemma ReachedMeans(rules: map<RuleId, Rule>, counters: Counters, kind: ImpulseKind, nowMs: nat, ids: set<RuleId>,
                     token: string, id: RuleId)
    requires NotMissed(rules, counters, kind, nowMs, ids, token, id) && id in rules && Concerns(rules[id], token, kind)
    requires |Positions(rules[id].when, nowMs, Of(counters, Key(token, kind)))| >= rules[id].when.minCount
    ensures id in ids
  {
    MatchedCounts(rules[id].when, nowMs, Of(counters, Key(token, kind)));
    hide Matched, Positions, Of;
  }
}
