/**
 The in-memory sliding-window rate limiter: a bounded queue of accepted times per key, with a
 background sweep that forgets idle keys.  It refines an unbounded log of accepted times.
 */
module RateLimiter {

  /** A negative limit makes the first request for a key panic; it is no policy. */
  datatype Policy = Policy(limit: nat, duration: int)

  /** Which policies the callers use with a key.  The model request limiter keys by user and takes the limit
      from the group of the token, so one key may see several. */
  datatype Plans = Plans(special: map<string, set<Policy>>, default: set<Policy>) {
    function For(key: string): set<Policy> {
      if key in special then special[key] else default
    }
  }

  /** What one request does to the store, and its answer. */
  function Served(store: map<string, seq<int>>, key: string, p: Policy, now: int): (map<string, seq<int>>, bool)
    requires key in store ==> store[key] != []
  {
    if key !in store then (store[key := [now]], true)
    else
      var queue := store[key];
      if |queue| < p.limit then (store[key := queue + [now]], true)
      else if now - queue[0] >= p.duration then (store[key := queue[1..] + [now]], true)
      else (store, false)
  }

  /** Idle keys forgotten by the sweep. */
  function Swept(store: map<string, seq<int>>, now: int, expiration: int): map<string, seq<int>> {
    map key | key in store && !Expired(store[key], now, expiration) :: store[key]
  }

  predicate Expired(queue: seq<int>, now: int, expiration: int) {
    queue == [] || now - queue[|queue| - 1] > expiration
  }

  class InMemoryRateLimiter {
    var store: map<string, seq<int>>
    const expiration: int

    ghost predicate Valid()
      reads this
    {
      forall key :: key in store ==> store[key] != []
    }

    constructor (expiration: int)
      ensures Valid() && store == map[] && this.expiration == expiration
    {
      store := map[];
      this.expiration := expiration;
    }

    /** `Request`, at time `now`. */
    method Request(key: string, maxRequestNum: nat, duration: int, now: int) returns (ok: bool)
      requires Valid()
      modifies this
      ensures Valid()
      ensures (store, ok) == Served(old(store), key, Policy(maxRequestNum, duration), now)
      ensures ok <==> key !in old(store) || |old(store)[key]| < maxRequestNum || now - old(store)[key][0] >= duration
      ensures if ok then key in store && now == store[key][|store[key]| - 1] else store == old(store)
      ensures forall k :: k != key ==> (k in store <==> k in old(store)) && (k in store ==> store[k] == old(store)[k])
    {
      if key in store {
        var queue := store[key];
        if |queue| < maxRequestNum {
          store := store[key := queue + [now]];
          return true;
        } else if now - queue[0] >= duration {
          queue := queue[1..];
          store := store[key := queue + [now]];
          return true;
        } else {
          return false;
        }
      } else {
        store := store[key := []];
        store := store[key := store[key] + [now]];
        assert store[key] == [now];
        assert store == old(store)[key := []][key := [now]];
        assert store == old(store)[key := [now]];
      }
      return true;
    }

    /** One round of `clearExpiredItems`, at time `now`; keys are visited in any order. */
    method ClearExpiredItems(now: int)
      requires Valid()
      modifies this
      ensures Valid() && store == Swept(old(store), now, expiration)
      ensures forall k :: k in store <==> k in old(store) && now - old(store)[k][|old(store)[k]| - 1] <= expiration
      ensures forall k :: k in store ==> store[k] == old(store)[k]
    {
      var todo := store.Keys;
      while todo != {}
        invariant todo <= store.Keys <= old(store.Keys)
        invariant forall key :: key in store ==> store[key] == old(store)[key]
        invariant forall key :: key in old(store) && key !in todo ==>
                    (key in store <==> !Expired(old(store)[key], now, expiration))
        decreases todo
      {
        var key :| key in todo;
        var queue := store[key];
        var size := |queue|;
        if size == 0 || now - queue[size - 1] > expiration {
          store := store - {key};
        }
        todo := todo - {key};
      }
    }
  }

  // ---------------------------------------------------------------- the log it refines

  /** Accepted times after `cutoff`. */
  function After(log: seq<int>, cutoff: int): nat {
    if log == [] then 0 else After(log[..|log| - 1], cutoff) + if log[|log| - 1] > cutoff then 1 else 0
  }

  /** Accepted times in the half-open window `[from, from + length)`. */
  function Within(log: seq<int>, from: int, length: int): nat {
    if log == [] then 0
    else Within(log[..|log| - 1], from, length) + if from <= log[|log| - 1] < from + length then 1 else 0
  }

  /** The rule the limiter is for: fewer than `limit` were accepted less than `duration` ago. */
  predicate Allowed(log: seq<int>, p: Policy, now: int) {
    After(log, now - p.duration) < p.limit
  }

  lemma OneMoreIndex(all: set<int>, before: set<int>, last: int, counts: bool)
    requires (forall i :: i in all <==> i in before || (counts && i == last)) && last !in before
    ensures |all| == |before| + if counts then 1 else 0
  {
    var expected := before + if counts then {last} else {};
    assert forall i :: i in expected <==> i in before || (counts && i == last);
    assert forall i :: i in all <==> i in expected;
    assert all == expected;
  }

  lemma {:induction false} AfterCounts(log: seq<int>, cutoff: int)
    ensures After(log, cutoff) == |set i | 0 <= i < |log| && log[i] > cutoff|
  {
    var all := set i | 0 <= i < |log| && log[i] > cutoff;
    if log == [] {
      assert all == {};
    } else {
      var last := |log| - 1;
      AfterCounts(log[..last], cutoff);
      var before := set i | 0 <= i < last && log[..last][i] > cutoff;
      OneMoreIndex(all, before, last, log[last] > cutoff);
    }
  }

  lemma {:induction false} WithinCounts(log: seq<int>, from: int, length: int)
    ensures Within(log, from, length) == |set i | 0 <= i < |log| && from <= log[i] < from + length|
  {
    var all := set i | 0 <= i < |log| && from <= log[i] < from + length;
    if log == [] {
      assert all == {};
    } else {
      var last := |log| - 1;
      WithinCounts(log[..last], from, length);
      var before := set i | 0 <= i < last && from <= log[..last][i] < from + length;
      OneMoreIndex(all, before, last, from <= log[last] < from + length);
    }
  }

  /** The rule, counted out: fewer than the limit of the accepted times lie less than the duration back. */
  lemma RuleMeans(log: seq<int>, p: Policy, now: int)
    ensures Allowed(log, p, now) <==> |set i | 0 <= i < |log| && now - log[i] < p.duration| < p.limit
  {
    AfterCounts(log, now - p.duration);
    assert (set i | 0 <= i < |log| && now - log[i] < p.duration) == set i | 0 <= i < |log| && log[i] > now - p.duration;
  }

  function LogOf(logs: map<string, seq<int>>, key: string): seq<int> {
    if key in logs then logs[key] else []
  }

  datatype Event = Ask(key: string, policy: Policy, now: int) | Sweep(now: int)

  /** What the limiter answers to a sequence of requests, with sweeps in between. */
  function Answers(store: map<string, seq<int>>, expiration: int, es: seq<Event>): seq<bool>
    requires forall key :: key in store ==> store[key] != []
    decreases |es|
  {
    if es == [] then []
    else match es[0]
      case Sweep(now) => Answers(Swept(store, now, expiration), expiration, es[1..])
      case Ask(key, policy, now) =>
        var (store', ok) := Served(store, key, policy, now);
        [ok] + Answers(store', expiration, es[1..])
  }

  function Logged(logs: map<string, seq<int>>, key: string, policy: Policy, now: int): map<string, seq<int>> {
    if Allowed(LogOf(logs, key), policy, now) then logs[key := LogOf(logs, key) + [now]] else logs
  }

  /** What the rule over the full log answers; it knows nothing of sweeps. */
  function RuleAnswers(logs: map<string, seq<int>>, es: seq<Event>): seq<bool>
    decreases |es|
  {
    if es == [] then []
    else match es[0]
      case Sweep(_) => RuleAnswers(logs, es[1..])
      case Ask(key, policy, now) =>
        [Allowed(LogOf(logs, key), policy, now)] + RuleAnswers(Logged(logs, key, policy, now), es[1..])
  }

  predicate TimesFrom(clock: int, es: seq<Event>)
    decreases |es|
  {
    es == [] || (clock <= es[0].now && TimesFrom(es[0].now, es[1..]))
  }

  /** Every request uses a policy of its key; without an expiration there is no sweeper. */
  ghost predicate Follows(es: seq<Event>, plans: Plans, expiration: nat) {
    && (forall i :: 0 <= i < |es| && es[i].Ask? ==> es[i].policy in plans.For(es[i].key))
    && (forall i :: 0 <= i < |es| && es[i].Sweep? ==> expiration > 0)
  }

  /** Windows that are never in force. */
  ghost predicate Idle(ps: set<Policy>) {
    forall p :: p in ps ==> p.duration <= 0
  }

  ghost predicate SameLimit(ps: set<Policy>) {
    forall p, q :: p in ps && q in ps ==> p.limit == q.limit
  }

  /** The policies one key may be used with. */
  ghost predicate Fits(ps: set<Policy>, expiration: nat) {
    && (forall p :: p in ps ==> p.limit >= 1 && (expiration > 0 ==> p.duration <= expiration + 1))
    && (SameLimit(ps) || Idle(ps))
  }

  // ---------------------------------------------------------------- queue and log in step

  ghost predicate Ascending(log: seq<int>) {
    forall i, j :: 0 <= i < j < |log| ==> log[i] <= log[j]
  }

  ghost predicate UpTo(xs: seq<int>, clock: int) {
    forall i :: 0 <= i < |xs| ==> xs[i] <= clock
  }

  /** The queue is the end of the log; a queue below the limit lacks only what has left the window. */
  ghost predicate Tracks(queue: seq<int>, log: seq<int>, p: Policy, clock: int) {
    && |queue| <= p.limit && |queue| <= |log| && log[|log| - |queue|..] == queue
    && (|queue| < p.limit ==> forall i :: 0 <= i < |log| - |queue| ==> log[i] <= clock - p.duration)
  }

  ghost predicate Represents(queue: seq<int>, log: seq<int>, ps: set<Policy>, clock: int) {
    && Ascending(log) && UpTo(log, clock) && UpTo(queue, clock)
    && (Idle(ps) || forall p :: p in ps ==> Tracks(queue, log, p, clock))
  }

  ghost predicate Refines(store: map<string, seq<int>>, logs: map<string, seq<int>>, plans: Plans, clock: int) {
    && (forall key :: key in store ==> store[key] != [])
    && forall key :: Represents(LogOf(store, key), LogOf(logs, key), plans.For(key), clock)
  }

  lemma {:induction false} AfterBounds(log: seq<int>, cutoff: int, k: nat)
    requires k <= |log| && forall i :: 0 <= i < |log| - k ==> log[i] <= cutoff
    ensures After(log, cutoff) <= k
    ensures (forall i :: |log| - k <= i < |log| ==> log[i] > cutoff) ==> After(log, cutoff) == k
  {
    if log != [] {
      var front := log[..|log| - 1];
      if k > 0 {
        AfterBounds(front, cutoff, k - 1);
      } else {
        AfterBounds(front, cutoff, 0);
      }
    }
  }

  lemma {:induction false} AfterAtLeast(log: seq<int>, cutoff: int, k: nat)
    requires k <= |log| && forall i :: |log| - k <= i < |log| ==> log[i] > cutoff
    ensures k <= After(log, cutoff) <= |log|
  {
    if log != [] {
      AfterAtLeast(log[..|log| - 1], cutoff, if k > 0 then k - 1 else 0);
    }
  }

  /** The queue alone decides the rule. */
  lemma TrackedDecides(queue: seq<int>, log: seq<int>, p: Policy, clock: int, now: int)
    requires p.limit >= 1 && clock <= now && Ascending(log) && Tracks(queue, log, p, clock)
    ensures Allowed(log, p, now) <==> |queue| < p.limit || now - queue[0] >= p.duration
  {
    var k, cutoff := |queue|, now - p.duration;
    if k < p.limit {
      AfterBounds(log, cutoff, k);
    } else {
      var at := |log| - k;
      assert queue[0] == log[at];
      if now - queue[0] >= p.duration {
        assert forall i :: 0 <= i < |log| - (k - 1) ==> log[i] <= log[at];
        AfterBounds(log, cutoff, k - 1);
      } else {
        assert forall i :: at <= i < |log| ==> log[i] >= log[at];
        AfterAtLeast(log, cutoff, k);
      }
    }
  }

  lemma QueueDecides(queue: seq<int>, log: seq<int>, ps: set<Policy>, p: Policy, clock: int, now: int)
    requires p in ps && p.limit >= 1 && clock <= now && Represents(queue, log, ps, clock)
    ensures Allowed(log, p, now) <==> |queue| < p.limit || now - queue[0] >= p.duration
  {
    if Idle(ps) {
      AfterBounds(log, now - p.duration, 0);
    } else {
      TrackedDecides(queue, log, p, clock, now);
    }
  }

  function NextQueue(queue: seq<int>, p: Policy, now: int): seq<int> {
    if |queue| < p.limit || queue == [] then queue + [now] else queue[1..] + [now]
  }

  lemma TracksAccept(queue: seq<int>, log: seq<int>, p: Policy, q: Policy, clock: int, now: int)
    requires p.limit == q.limit >= 1 && clock <= now && Tracks(queue, log, q, clock)
    ensures Tracks(NextQueue(queue, p, now), log + [now], q, now)
  {
    var queue', log' := NextQueue(queue, p, now), log + [now];
    assert log'[|log'| - |queue'|..] == queue';
    if |queue'| < q.limit {
      assert forall i :: 0 <= i < |log'| - |queue'| ==> log'[i] == log[i];
    }
  }

  lemma RepresentsAccept(queue: seq<int>, log: seq<int>, ps: set<Policy>, p: Policy, clock: int, now: int)
    requires p in ps && p.limit >= 1 && clock <= now && Represents(queue, log, ps, clock) && (SameLimit(ps) || Idle(ps))
    ensures Represents(NextQueue(queue, p, now), log + [now], ps, now)
  {
    if !Idle(ps) {
      forall q | q in ps ensures Tracks(NextQueue(queue, p, now), log + [now], q, now) {
        TracksAccept(queue, log, p, q, clock, now);
      }
    }
    hide Tracks, Idle;
    assert Ascending(log + [now]) && UpTo(log + [now], now);
    assert UpTo(NextQueue(queue, p, now), now);
  }

  lemma RepresentsLater(queue: seq<int>, log: seq<int>, ps: set<Policy>, clock: int, now: int)
    requires clock <= now && Represents(queue, log, ps, clock)
    ensures Represents(queue, log, ps, now)
  {
  }

  /** A key forgotten when its last accepted time had left every window. */
  lemma RepresentsForgotten(queue: seq<int>, log: seq<int>, ps: set<Policy>, clock: int, now: int, expiration: nat)
    requires clock <= now && Represents(queue, log, ps, clock) && Fits(ps, expiration) && expiration > 0
    requires queue != [] && Expired(queue, now, expiration)
    ensures Represents([], log, ps, now)
  {
    RepresentsLater(queue, log, ps, clock, now);
    if !Idle(ps) {
      forall p | p in ps ensures Tracks([], log, p, now) {
        assert Tracks(queue, log, p, clock);
        assert log[|log| - 1] == queue[|queue| - 1];
        assert log[|log|..] == [];
      }
    }
  }

  /** A request touches its own key only; an accepted one slides that key's queue. */
  lemma ServedQueue(store: map<string, seq<int>>, key: string, p: Policy, now: int)
    requires p.limit >= 1 && forall k :: k in store ==> store[k] != []
    ensures var (store', ok) := Served(store, key, p, now);
            var queue := LogOf(store, key);
            && (ok <==> |queue| < p.limit || now - queue[0] >= p.duration)
            && LogOf(store', key) == (if ok then NextQueue(queue, p, now) else queue)
            && (forall k :: k != key ==> LogOf(store', k) == LogOf(store, k))
            && forall k :: k in store' ==> store'[k] != []
  {
    assert [] + [now] == [now];
  }

  /** Time passing and a change to one key only keep every other key in step. */
  lemma OneKeyChanged(store: map<string, seq<int>>, logs: map<string, seq<int>>, store': map<string, seq<int>>,
                      logs': map<string, seq<int>>, plans: Plans, clock: int, key: string, now: int)
    requires clock <= now && Refines(store, logs, plans, clock) && forall k :: k in store' ==> store'[k] != []
    requires forall k :: k != key ==> LogOf(store', k) == LogOf(store, k)
    requires forall k :: k != key ==> LogOf(logs', k) == LogOf(logs, k)
    requires Represents(LogOf(store', key), LogOf(logs', key), plans.For(key), now)
    ensures Refines(store', logs', plans, now)
  {
    hide Represents, LogOf;
    forall k
      ensures Represents(LogOf(store', k), LogOf(logs', k), plans.For(k), now)
    {
      if k != key {
        RepresentsLater(LogOf(store, k), LogOf(logs, k), plans.For(k), clock, now);
      }
    }
  }

  /** One request is answered by the rule and keeps queue and log in step. */
  lemma AskRefines(store: map<string, seq<int>>, logs: map<string, seq<int>>, plans: Plans, clock: int, key: string,
                   p: Policy, now: int)
    requires p in plans.For(key) && p.limit >= 1 && (SameLimit(plans.For(key)) || Idle(plans.For(key)))
    requires clock <= now && Refines(store, logs, plans, clock)
    ensures Served(store, key, p, now).1 == Allowed(LogOf(logs, key), p, now)
    ensures Refines(Served(store, key, p, now).0, Logged(logs, key, p, now), plans, now)
  {
    hide Represents, Served, Allowed, NextQueue, SameLimit, Idle;
    var queue, log, ps := LogOf(store, key), LogOf(logs, key), plans.For(key);
    QueueDecides(queue, log, ps, p, clock, now);
    ServedQueue(store, key, p, now);
    if Allowed(log, p, now) {
      RepresentsAccept(queue, log, ps, p, clock, now);
    } else {
      RepresentsLater(queue, log, ps, clock, now);
    }
    hide Refines;
    OneKeyChanged(store, logs, Served(store, key, p, now).0, Logged(logs, key, p, now), plans, clock, key, now);
  }

  /** A sweep keeps queue and log in step. */
  lemma SweepRefines(store: map<string, seq<int>>, logs: map<string, seq<int>>, plans: Plans, clock: int, now: int,
                     expiration: nat)
    requires clock <= now && Refines(store, logs, plans, clock) && expiration > 0
    requires forall key :: Fits(plans.For(key), expiration)
    ensures Refines(Swept(store, now, expiration), logs, plans, now)
  {
    var store' := Swept(store, now, expiration);
    hide Represents, Fits, Expired;
    forall k
      ensures Represents(LogOf(store', k), LogOf(logs, k), plans.For(k), now)
    {
      var queue, log := LogOf(store, k), LogOf(logs, k);
      assert Represents(queue, log, plans.For(k), clock);
      if k in store && k !in store' {
        RepresentsForgotten(queue, log, plans.For(k), clock, now, expiration);
      } else {
        RepresentsLater(queue, log, plans.For(k), clock, now);
      }
    }
  }

  lemma FollowsRest(es: seq<Event>, plans: Plans, expiration: nat)
    requires es != [] && Follows(es, plans, expiration)
    ensures Follows(es[1..], plans, expiration)
    ensures es[0].Ask? ==> es[0].policy in plans.For(es[0].key)
    ensures es[0].Sweep? ==> expiration > 0
  {
  }

  /** The limiter answers exactly as the rule over the full log does. */
  lemma {:induction false} AnswersFollowRule(store: map<string, seq<int>>, logs: map<string, seq<int>>, plans: Plans,
                                             expiration: nat, clock: int, es: seq<Event>)
    requires forall key :: Fits(plans.For(key), expiration)
    requires Refines(store, logs, plans, clock) && TimesFrom(clock, es) && Follows(es, plans, expiration)
    ensures Answers(store, expiration, es) == RuleAnswers(logs, es)
    decreases |es|
  {
    if es != [] {
      FollowsRest(es, plans, expiration);
      hide Follows;
      match es[0]
      case Sweep(now) =>
        SweepRefines(store, logs, plans, clock, now, expiration);
        AnswersFollowRule(Swept(store, now, expiration), logs, plans, expiration, now, es[1..]);
      case Ask(key, p, now) =>
        assert Fits(plans.For(key), expiration);
        AskRefines(store, logs, plans, clock, key, p, now);
        var (store', ok) := Served(store, key, p, now);
        AnswersFollowRule(store', Logged(logs, key, p, now), plans, expiration, now, es[1..]);
    }
  }

  lemma EmptyRefines(plans: Plans, clock: int)
    ensures Refines(map[], map[], plans, clock)
  {
  }

  function WithoutSweeps(es: seq<Event>): seq<Event> {
    if es == [] then [] else (if es[0].Ask? then [es[0]] else []) + WithoutSweeps(es[1..])
  }

  lemma {:induction false} RuleIgnoresSweeps(logs: map<string, seq<int>>, es: seq<Event>)
    ensures RuleAnswers(logs, es) == RuleAnswers(logs, WithoutSweeps(es))
    decreases |es|
  {
    if es != [] {
      match es[0]
      case Sweep(_) =>
        RuleIgnoresSweeps(logs, es[1..]);
        assert WithoutSweeps(es) == WithoutSweeps(es[1..]);
      case Ask(key, p, now) =>
        RuleIgnoresSweeps(Logged(logs, key, p, now), es[1..]);
        assert WithoutSweeps(es)[1..] == WithoutSweeps(es[1..]);
    }
  }

  lemma {:induction false} RunWithoutSweeps(clock: int, es: seq<Event>, plans: Plans, expiration: nat)
    requires TimesFrom(clock, es) && Follows(es, plans, expiration)
    ensures TimesFrom(clock, WithoutSweeps(es)) && Follows(WithoutSweeps(es), plans, expiration)
    decreases |es|
  {
    if es != [] {
      FollowsRest(es, plans, expiration);
      RunWithoutSweeps(es[0].now, es[1..], plans, expiration);
      var rest := WithoutSweeps(es[1..]);
      if es[0].Ask? {
        assert WithoutSweeps(es) == [es[0]] + rest;
        assert WithoutSweeps(es)[1..] == rest;
      } else {
        assert WithoutSweeps(es) == rest;
      }
    }
  }

  /** Background expiry is unobservable: dropping every sweep changes no answer. */
  lemma SweepsUnobservable(plans: Plans, expiration: nat, clock: int, es: seq<Event>)
    requires forall key :: Fits(plans.For(key), expiration)
    requires TimesFrom(clock, es) && Follows(es, plans, expiration)
    ensures Answers(map[], expiration, es) == Answers(map[], expiration, WithoutSweeps(es))
  {
    hide Fits, Follows, Refines;
    EmptyRefines(plans, clock);
    AnswersFollowRule(map[], map[], plans, expiration, clock, es);
    RunWithoutSweeps(clock, es, plans, expiration);
    AnswersFollowRule(map[], map[], plans, expiration, clock, WithoutSweeps(es));
    RuleIgnoresSweeps(map[], es);
  }

  // ---------------------------------------------------------------- the window bound

  /** The log after the rule has answered `es`. */
  function RuleLog(logs: map<string, seq<int>>, es: seq<Event>): map<string, seq<int>>
    decreases |es|
  {
    if es == [] then logs
    else match es[0]
      case Sweep(_) => RuleLog(logs, es[1..])
      case Ask(key, policy, now) => RuleLog(Logged(logs, key, policy, now), es[1..])
  }

  lemma {:induction false} WithinAfter(log: seq<int>, from: int, length: int, cutoff: int)
    requires cutoff < from
    ensures Within(log, from, length) <= After(log, cutoff)
  {
    if log != [] {
      WithinAfter(log[..|log| - 1], from, length, cutoff);
    }
  }

  ghost predicate WindowBound(log: seq<int>, limit: nat, length: int) {
    forall from :: Within(log, from, length) <= limit
  }

  lemma AcceptKeepsWindow(log: seq<int>, p: Policy, now: int, limit: nat, length: int)
    requires WindowBound(log, limit, length) && Allowed(log, p, now) && p.limit <= limit && length <= p.duration
    ensures WindowBound(log + [now], limit, length)
  {
    assert (log + [now])[..|log|] == log;
    forall from
      ensures Within(log + [now], from, length) <= limit
    {
      if from <= now < from + length {
        WithinAfter(log, from, length, now - p.duration);
      }
    }
  }

  /** No window is overfull: with limits up to `limit` and windows of at least `length`, no half-open window of
      that length ever holds more than `limit` accepted requests for a key. */
  lemma {:induction false} NoWindowOverfull(logs: map<string, seq<int>>, es: seq<Event>, key: string, limit: nat,
                                            length: int)
    requires WindowBound(LogOf(logs, key), limit, length)
    requires forall i :: 0 <= i < |es| && es[i].Ask? && es[i].key == key ==>
               es[i].policy.limit <= limit && length <= es[i].policy.duration
    ensures WindowBound(LogOf(RuleLog(logs, es), key), limit, length)
    decreases |es|
  {
    if es != [] {
      match es[0]
      case Sweep(_) =>
        NoWindowOverfull(logs, es[1..], key, limit, length);
      case Ask(k, p, now) =>
        if k == key && Allowed(LogOf(logs, k), p, now) {
          AcceptKeepsWindow(LogOf(logs, k), p, now, limit, length);
        }
        NoWindowOverfull(Logged(logs, k, p, now), es[1..], key, limit, length);
    }
  }

  /** The times at which requests for `key` were accepted, by the answers given. */
  function Accepted(es: seq<Event>, answers: seq<bool>, key: string): seq<int>
    decreases |es|
  {
    if es == [] then []
    else if es[0].Sweep? then Accepted(es[1..], answers, key)
    else if answers == [] then []
    else (if es[0].key == key && answers[0] then [es[0].now] else []) + Accepted(es[1..], answers[1..], key)
  }

  lemma AcceptedFirst(es: seq<Event>, ok: bool, answers: seq<bool>, key: string)
    requires es != [] && es[0].Ask?
    ensures Accepted(es, [ok] + answers, key) ==
            (if es[0].key == key && ok then [es[0].now] else []) + Accepted(es[1..], answers, key)
  {
    assert ([ok] + answers)[1..] == answers;
  }

  lemma LoggedAt(logs: map<string, seq<int>>, k: string, p: Policy, now: int, key: string)
    ensures LogOf(Logged(logs, k, p, now), key) ==
            LogOf(logs, key) + if k == key && Allowed(LogOf(logs, k), p, now) then [now] else []
  {
    assert LogOf(logs, key) + [] == LogOf(logs, key);
  }

  lemma {:induction false} LogIsAccepted(logs: map<string, seq<int>>, es: seq<Event>, key: string)
    ensures LogOf(RuleLog(logs, es), key) == LogOf(logs, key) + Accepted(es, RuleAnswers(logs, es), key)
    decreases |es|
  {
    if es != [] {
      match es[0]
      case Sweep(_) =>
        LogIsAccepted(logs, es[1..], key);
      case Ask(k, p, now) =>
        var ok, logs' := Allowed(LogOf(logs, k), p, now), Logged(logs, k, p, now);
        LogIsAccepted(logs', es[1..], key);
        AcceptedFirst(es, ok, RuleAnswers(logs', es[1..]), key);
        LoggedAt(logs, k, p, now, key);
        assert RuleAnswers(logs, es) == [ok] + RuleAnswers(logs', es[1..]);
        assert RuleLog(logs, es) == RuleLog(logs', es[1..]);
        hide RuleAnswers, Allowed, Accepted, RuleLog, LogOf, Logged;
    }
  }

  /** The same of the limiter itself, on every run and with its sweeps. */
  lemma LimiterNeverOverfull(plans: Plans, expiration: nat, clock: int, es: seq<Event>, key: string, limit: nat,
                             length: int)
    requires forall k :: Fits(plans.For(k), expiration)
    requires TimesFrom(clock, es) && Follows(es, plans, expiration)
    requires forall p :: p in plans.For(key) ==> p.limit <= limit && length <= p.duration
    ensures WindowBound(Accepted(es, Answers(map[], expiration, es), key), limit, length)
  {
    EmptyRefines(plans, clock);
    AnswersFollowRule(map[], map[], plans, expiration, clock, es);
    assert WindowBound(LogOf(map[], key), limit, length);
    NoWindowOverfull(map[], es, key, limit, length);
    LogIsAccepted(map[], es, key);
    hide WindowBound, RuleLog, Accepted, Answers, RuleAnswers;
    var times := Accepted(es, RuleAnswers(map[], es), key);
    assert [] + times == times;
  }

  // ---------------------------------------------------------------- exactness of the conditions

  /** `k` requests with one policy at one time, then the rest. */
  function Repeat(key: string, p: Policy, now: int, k: nat, rest: seq<Event>): seq<Event> {
    if k == 0 then rest else [Ask(key, p, now)] + Repeat(key, p, now, k - 1, rest)
  }

  function Copies<T>(x: T, k: nat): (r: seq<T>)
    ensures |r| == k && forall i :: 0 <= i < k ==> r[i] == x
  {
    if k == 0 then [] else Copies(x, k - 1) + [x]
  }

  /** A store, or a log, of one key. */
  function One(key: string, xs: seq<int>): map<string, seq<int>> {
    if xs == [] then map[] else map[key := xs]
  }

  lemma AskAnswered(store: map<string, seq<int>>, logs: map<string, seq<int>>, expiration: int, key: string, p: Policy,
                    now: int, rest: seq<Event>)
    requires forall k :: k in store ==> store[k] != []
    ensures var (store', ok) := Served(store, key, p, now);
            Answers(store, expiration, [Ask(key, p, now)] + rest) == [ok] + Answers(store', expiration, rest)
    ensures RuleAnswers(logs, [Ask(key, p, now)] + rest) ==
            [Allowed(LogOf(logs, key), p, now)] + RuleAnswers(Logged(logs, key, p, now), rest)
  {
    assert ([Ask(key, p, now)] + rest)[1..] == rest;
  }

  lemma SweepAnswered(store: map<string, seq<int>>, logs: map<string, seq<int>>, expiration: int, now: int,
                      rest: seq<Event>)
    requires forall k :: k in store ==> store[k] != []
    ensures Answers(store, expiration, [Sweep(now)] + rest) == Answers(Swept(store, now, expiration), expiration, rest)
    ensures RuleAnswers(logs, [Sweep(now)] + rest) == RuleAnswers(logs, rest)
  {
    assert ([Sweep(now)] + rest)[1..] == rest;
  }

  /** Below the limit a request is accepted by both. */
  lemma OneMoreServed(key: string, xs: seq<int>, p: Policy, now: int)
    requires |xs| < p.limit
    ensures Served(One(key, xs), key, p, now) == (One(key, xs + [now]), true)
    ensures Allowed(LogOf(One(key, xs), key), p, now) && Logged(One(key, xs), key, p, now) == One(key, xs + [now])
  {
    AfterAtLeast(xs, now - p.duration, 0);
    assert LogOf(One(key, xs), key) == xs;
    assert [] + [now] == [now];
    assert One(key, xs)[key := xs + [now]] == map[key := xs + [now]];
  }

  lemma {:induction false} Burst(key: string, xs: seq<int>, p: Policy, expiration: int, now: int, k: nat,
                                 rest: seq<Event>)
    requires |xs| + k <= p.limit
    ensures var es, full := Repeat(key, p, now, k, rest), One(key, xs + Copies(now, k));
            && Answers(One(key, xs), expiration, es) == Copies(true, k) + Answers(full, expiration, rest)
            && RuleAnswers(One(key, xs), es) == Copies(true, k) + RuleAnswers(full, rest)
    decreases k
  {
    hide Answers, RuleAnswers, Served, Allowed, Logged;
    if k == 0 {
      assert xs + Copies(now, 0) == xs;
    } else {
      var tail := Repeat(key, p, now, k - 1, rest);
      OneMoreServed(key, xs, p, now);
      AskAnswered(One(key, xs), One(key, xs), expiration, key, p, now, tail);
      Burst(key, xs + [now], p, expiration, now, k - 1, rest);
      assert (xs + [now]) + Copies(now, k - 1) == xs + Copies(now, k);
      var full := One(key, xs + Copies(now, k));
      OneMoreTrue(k, Answers(full, expiration, rest));
      OneMoreTrue(k, RuleAnswers(full, rest));
    }
  }

  lemma OneMoreTrue(k: nat, xs: seq<bool>)
    requires k > 0
    ensures [true] + (Copies(true, k - 1) + xs) == Copies(true, k) + xs
  {
  }

  lemma DifferentTails(xs: seq<bool>, ys: seq<bool>, zs: seq<bool>)
    requires ys != zs
    ensures xs + ys != xs + zs
  {
    assert (xs + ys)[|xs|..] == ys && (xs + zs)[|xs|..] == zs;
  }

  /** The last request decides: the limiter and the rule answer it differently. */
  lemma LastDiffers(store: map<string, seq<int>>, logs: map<string, seq<int>>, expiration: int, key: string,
                    p: Policy, now: int)
    requires forall k :: k in store ==> store[k] != []
    requires Served(store, key, p, now).1 != Allowed(LogOf(logs, key), p, now)
    ensures Answers(store, expiration, [Ask(key, p, now)]) != RuleAnswers(logs, [Ask(key, p, now)])
  {
    AskAnswered(store, logs, expiration, key, p, now, []);
    assert [Ask(key, p, now)] + [] == [Ask(key, p, now)];
    assert Answers(store, expiration, [Ask(key, p, now)])[0] != RuleAnswers(logs, [Ask(key, p, now)])[0];
  }

  ghost predicate Breaks(es: seq<Event>, expiration: int) {
    TimesFrom(0, es) && Answers(map[], expiration, es) != RuleAnswers(map[], es)
  }

  lemma {:induction false} RepeatTimes(key: string, p: Policy, clock: int, now: int, k: nat, rest: seq<Event>)
    requires clock <= now && TimesFrom(now, rest)
    ensures TimesFrom(clock, Repeat(key, p, now, k, rest))
    decreases k
  {
    if k > 0 {
      RepeatTimes(key, p, now, now, k - 1, rest);
      assert Repeat(key, p, now, k, rest)[1..] == Repeat(key, p, now, k - 1, rest);
    }
  }

  lemma {:induction false} RepeatFollows(key: string, p: Policy, now: int, k: nat, rest: seq<Event>, plans: Plans,
                                         expiration: nat)
    requires p in plans.For(key) && Follows(rest, plans, expiration)
    ensures Follows(Repeat(key, p, now, k, rest), plans, expiration)
  {
    if k > 0 {
      RepeatFollows(key, p, now, k - 1, rest, plans, expiration);
    }
  }

  /** Forgetting a key too early lets a request through: fill the limit at time 0, sweep just after the
      expiration, ask again inside the window. */
  function TooEarly(key: string, p: Policy, expiration: nat): seq<Event> {
    Repeat(key, p, 0, p.limit, [Sweep(expiration + 1), Ask(key, p, expiration + 1)])
  }

  lemma ExpirationTooShort(key: string, p: Policy, expiration: nat)
    requires p.limit >= 1 && p.duration > expiration + 1
    ensures Breaks(TooEarly(key, p, expiration), expiration)
  {
    hide Answers, RuleAnswers, Repeat;
    var t := expiration + 1;
    var rest := [Sweep(t), Ask(key, p, t)];
    assert rest == [Sweep(t)] + [Ask(key, p, t)];
    TwoTimes(Sweep(t), Ask(key, p, t));
    Burst(key, [], p, expiration, 0, p.limit, rest);
    RepeatTimes(key, p, 0, 0, p.limit, rest);
    var xs := [] + Copies(0, p.limit);
    SweepAnswered(One(key, xs), One(key, xs), expiration, t, [Ask(key, p, t)]);
    assert Swept(One(key, xs), t, expiration) == map[];
    AfterAtLeast(xs, t - p.duration, p.limit);
    assert LogOf(One(key, xs), key) == xs;
    LastDiffers(map[], One(key, xs), expiration, key, p, t);
    DifferentTails(Copies(true, p.limit), Answers(One(key, xs), expiration, rest), RuleAnswers(One(key, xs), rest));
  }

  /** With a limit of zero the first request is still accepted. */
  lemma LimitTooSmall(key: string, p: Policy, expiration: nat)
    requires p.limit == 0
    ensures Breaks([Ask(key, p, 0)], expiration)
  {
    LastDiffers(map[], map[], expiration, key, p, 0);
    assert [Ask(key, p, 0)][1..] == [];
  }

  /** Two limits on one key: after the larger has filled the queue, the smaller looks at its far end, finds one
      old time there and lets the request through, although all the others lie in the window. */
  function FarEnd(key: string, p: Policy, q: Policy): seq<Event>
    requires p.limit >= 1
  {
    Repeat(key, p, 0, 1, Repeat(key, p, 1, p.limit - 1, [Ask(key, q, q.duration)]))
  }

  /** The accepted times before the last request of that run. */
  function Spread(n: nat): seq<int>
    requires n >= 1
  {
    [0] + Copies(1, n - 1)
  }

  lemma FarEndLast(key: string, p: Policy, q: Policy, expiration: nat)
    requires 1 <= q.limit < p.limit && q.duration > 0
    ensures var store, last := One(key, Spread(p.limit)), [Ask(key, q, q.duration)];
            (forall k :: k in store ==> store[k] != []) && Answers(store, expiration, last) != RuleAnswers(store, last)
  {
    hide Copies, Answers, RuleAnswers;
    var xs := Spread(p.limit);
    assert LogOf(One(key, xs), key) == xs && xs[0] == 0;
    AfterAtLeast(xs, 0, p.limit - 1);
    LastDiffers(One(key, xs), One(key, xs), expiration, key, q, q.duration);
  }

  lemma FarEndRest(key: string, p: Policy, q: Policy, expiration: nat)
    requires 1 <= q.limit < p.limit && q.duration > 0
    ensures var store, rest := One(key, [0]), Repeat(key, p, 1, p.limit - 1, [Ask(key, q, q.duration)]);
            && (forall k :: k in store ==> store[k] != [])
            && Answers(store, expiration, rest) != RuleAnswers(store, rest) && TimesFrom(0, rest)
  {
    var n, last := p.limit - 1, [Ask(key, q, q.duration)];
    assert TimesFrom(1, last) by { assert last[1..] == []; }
    NonEmpty(key, [0]);
    FarEndLast(key, p, q, expiration);
    hide Answers, RuleAnswers, Repeat, One, Copies, TimesFrom;
    RepeatTimes(key, p, 0, 1, n, last);
    Burst(key, [0], p, expiration, 1, n, last);
    var store := One(key, Spread(p.limit));
    DifferentTails(Copies(true, n), Answers(store, expiration, last), RuleAnswers(store, last));
  }

  lemma SmallerLimitFooled(key: string, p: Policy, q: Policy, expiration: nat)
    requires 1 <= q.limit < p.limit && q.duration > 0
    ensures Breaks(FarEnd(key, p, q), expiration)
  {
    assert Copies(0, 1) == [0] && [] + [0] == [0];
    NoneYet(key);
    FarEndRest(key, p, q, expiration);
    hide Answers, RuleAnswers, Repeat, One, Copies, TimesFrom;
    var rest := Repeat(key, p, 1, p.limit - 1, [Ask(key, q, q.duration)]);
    RepeatTimes(key, p, 0, 0, 1, rest);
    Burst(key, [], p, expiration, 0, 1, rest);
    DifferentTails(Copies(true, 1), Answers(One(key, [0]), expiration, rest), RuleAnswers(One(key, [0]), rest));
  }

  /** And where the smaller limit has no window, it throws away a time the larger one still needs. */
  function ThrownAway(key: string, p: Policy, q: Policy): seq<Event>
    requires p.limit >= 1
  {
    Repeat(key, p, 0, p.limit - 1, [Ask(key, q, 0), Ask(key, p, 0)])
  }

  lemma CopiesSlide(n: nat)
    requires n >= 1
    ensures Copies(0, n)[1..] + [0] == Copies(0, n)
  {
    hide Copies;
  }

  lemma Slides(key: string, n: nat, q: Policy)
    requires 1 <= q.limit <= n && q.duration <= 0
    ensures var xs := Copies(0, n);
            && Served(One(key, xs), key, q, 0) == (One(key, xs), true)
            && Allowed(LogOf(One(key, xs), key), q, 0) && Logged(One(key, xs), key, q, 0) == One(key, xs + [0])
  {
    CopiesSlide(n);
    hide Copies;
    var xs := Copies(0, n);
    AfterBounds(xs, -q.duration, 0);
    assert One(key, xs) == map[key := xs];
    assert map[key := xs][key := xs] == map[key := xs];
    assert map[key := xs][key := xs + [0]] == map[key := xs + [0]];
  }

  /** The last two requests of that run. */
  lemma LastTwo(key: string, p: Policy, q: Policy, expiration: nat)
    requires 1 <= q.limit < p.limit && q.duration <= 0 < p.duration
    ensures var store, rest := One(key, Copies(0, p.limit - 1)), [Ask(key, q, 0), Ask(key, p, 0)];
            (forall k :: k in store ==> store[k] != []) && Answers(store, expiration, rest) != RuleAnswers(store, rest)
  {
    var xs, last := Copies(0, p.limit - 1), [Ask(key, p, 0)];
    Slides(key, p.limit - 1, q);
    LastOne(key, p, expiration);
    NonEmpty(key, xs);
    hide Answers, RuleAnswers, Served, Logged, One, Copies, Allowed;
    AskAnswered(One(key, xs), One(key, xs), expiration, key, q, 0, last);
    assert [Ask(key, q, 0)] + last == [Ask(key, q, 0), Ask(key, p, 0)];
    DifferentTails([true], Answers(One(key, xs), expiration, last), RuleAnswers(One(key, xs + [0]), last));
  }

  lemma LastOne(key: string, p: Policy, expiration: nat)
    requires p.limit >= 2 && p.duration > 0
    ensures var xs, last := Copies(0, p.limit - 1), [Ask(key, p, 0)];
            && (forall k :: k in One(key, xs) ==> One(key, xs)[k] != [])
            && Answers(One(key, xs), expiration, last) != RuleAnswers(One(key, xs + [0]), last)
  {
    hide Copies, Answers, RuleAnswers;
    var xs := Copies(0, p.limit - 1);
    AfterAtLeast(xs + [0], -p.duration, p.limit);
    assert LogOf(One(key, xs + [0]), key) == xs + [0];
    LastDiffers(One(key, xs), One(key, xs + [0]), expiration, key, p, 0);
  }

  lemma TwoTimes(e: Event, f: Event)
    requires 0 <= e.now <= f.now
    ensures TimesFrom(0, [e, f])
  {
    var es := [e, f];
    assert es[1..] == [f] && es[1..][1..] == [];
    assert TimesFrom(e.now, es[1..]);
  }

  lemma LargerLimitFooled(key: string, p: Policy, q: Policy, expiration: nat)
    requires 1 <= q.limit < p.limit && q.duration <= 0 < p.duration
    ensures Breaks(ThrownAway(key, p, q), expiration)
  {
    var n, rest := p.limit - 1, [Ask(key, q, 0), Ask(key, p, 0)];
    TwoTimes(Ask(key, q, 0), Ask(key, p, 0));
    NoneYet(key);
    hide Answers, RuleAnswers, Repeat, One, TimesFrom, Copies;
    var xs := Copies(0, n);
    assert [] + xs == xs;
    Burst(key, [], p, expiration, 0, n, rest);
    RepeatTimes(key, p, 0, 0, n, rest);
    LastTwo(key, p, q, expiration);
    DifferentTails(Copies(true, n), Answers(One(key, xs), expiration, rest), RuleAnswers(One(key, xs), rest));
  }

  lemma NoneYet(key: string)
    ensures One(key, []) == map[]
  {
  }

  lemma NonEmpty(key: string, xs: seq<int>)
    ensures forall k :: k in One(key, xs) ==> One(key, xs)[k] != []
  {
  }

  /** Where the policies of a key do not fit, some run with that key alone breaks the rule. */
  lemma BreakingRun(key: string, plans: Plans, expiration: nat) returns (es: seq<Event>)
    requires !Fits(plans.For(key), expiration)
    ensures Breaks(es, expiration) && Follows(es, plans, expiration)
  {
    hide Breaks;
    var ps := plans.For(key);
    if p :| p in ps && p.limit == 0 {
      LimitTooSmall(key, p, expiration);
      es := [Ask(key, p, 0)];
    } else if p :| p in ps && expiration > 0 && p.duration > expiration + 1 {
      ExpirationTooShort(key, p, expiration);
      es := TooEarly(key, p, expiration);
      RepeatFollows(key, p, 0, p.limit, [Sweep(expiration + 1), Ask(key, p, expiration + 1)], plans, expiration);
    } else {
      var p, q := LimitsApart(ps);
      if q.duration > 0 {
        SmallerLimitFooled(key, p, q, expiration);
        es := FarEnd(key, p, q);
        RepeatFollows(key, p, 1, p.limit - 1, [Ask(key, q, q.duration)], plans, expiration);
        RepeatFollows(key, p, 0, 1, Repeat(key, p, 1, p.limit - 1, [Ask(key, q, q.duration)]), plans, expiration);
      } else {
        LargerLimitFooled(key, p, q, expiration);
        es := ThrownAway(key, p, q);
        RepeatFollows(key, p, 0, p.limit - 1, [Ask(key, q, 0), Ask(key, p, 0)], plans, expiration);
      }
    }
  }

  lemma LimitsApart(ps: set<Policy>) returns (p: Policy, q: Policy)
    requires !SameLimit(ps) && !Idle(ps)
    ensures p in ps && q in ps && q.limit < p.limit && (q.duration > 0 || p.duration > 0)
  {
    var r :| r in ps && r.duration > 0;
    var a, b :| a in ps && b in ps && a.limit != b.limit;
    var other := if a.limit != r.limit then a else b;
    if r.limit < other.limit {
      p, q := other, r;
    } else {
      p, q := r, other;
    }
  }

  /** Exactly when the limiter implements its rule on every run with a non-decreasing clock: when for each key
      all limits are at least one, all windows outlast no forgotten key, and the limits are all the same (or no
      window is ever in force). */
  lemma ImplementsRuleIff(plans: Plans, expiration: nat)
    ensures (forall es :: TimesFrom(0, es) && Follows(es, plans, expiration) ==>
              Answers(map[], expiration, es) == RuleAnswers(map[], es))
            <==> forall key :: Fits(plans.For(key), expiration)
  {
    if forall key :: Fits(plans.For(key), expiration) {
      EmptyRefines(plans, 0);
      forall es | TimesFrom(0, es) && Follows(es, plans, expiration)
        ensures Answers(map[], expiration, es) == RuleAnswers(map[], es)
      {
        AnswersFollowRule(map[], map[], plans, expiration, 0, es);
      }
    } else {
      var key :| !Fits(plans.For(key), expiration);
      var es := BreakingRun(key, plans, expiration);
    }
  }
}
