/**
 * The per-client rate limit (backend/hargaturun/limits.py:190-246): a pruned queue of recent hits
 * that decides as the full log of accepted requests would.
 */
module RateLimit {

  /** A guarded request: the client's address and the clock reading. */
  datatype Call = Call(key: string, now: real)

  datatype Policy = Policy(limit: int, window: real)

  predicate Sorted(log: seq<real>) {
    forall i, j :: 0 <= i <= j < |log| ==> log[i] <= log[j]
  }

  /** How many entries of the log are not before `from`. */
  function Recent(log: seq<real>, from: real): nat {
    if log == [] then 0
    else Recent(log[..|log| - 1], from) + if log[|log| - 1] >= from then 1 else 0
  }

  /** The rule: fewer than `limit` accepted requests within the window that ends now. */
  predicate Admits(log: seq<real>, now: real, policy: Policy) {
    Recent(log, now - policy.window) < policy.limit
  }

  function NextLog(log: seq<real>, now: real, policy: Policy): seq<real> {
    if Admits(log, now, policy) then log + [now] else log
  }

  /** Every accepted request of one client, from the first call on. */
  function AcceptedLog(calls: seq<Call>, key: string, policy: Policy): seq<real> {
    if calls == [] then []
    else
      var before, c := AcceptedLog(calls[..|calls| - 1], key, policy), calls[|calls| - 1];
      if c.key == key then NextLog(before, c.now, policy) else before
  }

  /** The clock never runs backwards. */
  predicate Ordered(calls: seq<Call>) {
    forall i, j :: 0 <= i <= j < |calls| ==> calls[i].now <= calls[j].now
  }

  // ---------------------------------------------------------------------------
  // What the rule guarantees
  // ---------------------------------------------------------------------------

  lemma {:induction false} AllRecent(log: seq<real>, from: real)
    requires forall i :: 0 <= i < |log| ==> log[i] >= from
    ensures Recent(log, from) == |log|
  {
    if log != [] {
      AllRecent(log[..|log| - 1], from);
    }
  }

  lemma {:induction false} OldDoNotCount(older: seq<real>, log: seq<real>, from: real)
    requires forall i :: 0 <= i < |older| ==> older[i] < from
    ensures Recent(older + log, from) == Recent(log, from)
  {
    if log != [] {
      assert (older + log)[..|older + log| - 1] == older + log[..|log| - 1];
      OldDoNotCount(older, log[..|log| - 1], from);
    } else if older != [] {
      assert older + log == older;
      OldDoNotCount(older[..|older| - 1], [], from);
      assert older[..|older| - 1] + [] == older[..|older| - 1];
    }
  }

  lemma {:induction false} RecentGrows(early: seq<real>, late: seq<real>, from: real)
    ensures Recent(early + late, from) >= Recent(late, from)
  {
    if late != [] {
      assert (early + late)[..|early + late| - 1] == early + late[..|late| - 1];
      RecentGrows(early, late[..|late| - 1], from);
    }
  }

  lemma RecentAtLeast(log: seq<real>, n: nat, from: real)
    requires Sorted(log) && n <= |log| && (n < |log| ==> log[n] >= from)
    ensures Recent(log, from) >= |log| - n
  {
    assert log[..n] + log[n..] == log;
    RecentGrows(log[..n], log[n..], from);
    AllRecent(log[n..], from);
  }

  lemma {:induction false} LogIsOrdered(calls: seq<Call>, key: string, policy: Policy)
    requires Ordered(calls)
    ensures Sorted(AcceptedLog(calls, key, policy))
    ensures calls != [] ==>
              forall i :: 0 <= i < |AcceptedLog(calls, key, policy)| ==> AcceptedLog(calls, key, policy)[i] <= calls[|calls| - 1].now
  {
    if calls != [] {
      var front := calls[..|calls| - 1];
      LogIsOrdered(front, key, policy);
      if front != [] {
        assert front[|front| - 1].now <= calls[|calls| - 1].now;
      }
    }
  }

  /** When a sorted log admits a request, its `limit`-th entry from the end lies before the window. */
  lemma AdmittedMeansSpaced(log: seq<real>, now: real, policy: Policy)
    requires Sorted(log) && 1 <= policy.limit <= |log| && Admits(log, now, policy)
    ensures log[|log| - policy.limit] < now - policy.window
  {
    if log[|log| - policy.limit] >= now - policy.window {
      RecentAtLeast(log, |log| - policy.limit, now - policy.window);
    }
  }

  /**
   * With a clock that never runs backwards, any `limit + 1` consecutive accepted requests of a
   * client take longer than the window.
   */
  lemma {:induction false} AcceptedAreSpaced(calls: seq<Call>, key: string, policy: Policy)
    requires Ordered(calls) && 1 <= policy.limit
    ensures var log := AcceptedLog(calls, key, policy);
            && Sorted(log)
            && (calls != [] ==> forall i :: 0 <= i < |log| ==> log[i] <= calls[|calls| - 1].now)
            && (forall i :: 0 <= i < |log| - policy.limit ==> log[i + policy.limit] - log[i] > policy.window)
  {
    LogIsOrdered(calls, key, policy);
    if calls != [] {
      var front, c := calls[..|calls| - 1], calls[|calls| - 1];
      AcceptedAreSpaced(front, key, policy);
      var before := AcceptedLog(front, key, policy);
      if c.key == key && Admits(before, c.now, policy) && policy.limit <= |before| {
        AdmittedMeansSpaced(before, c.now, policy);
      }
    }
  }

  function OnlyOf(calls: seq<Call>, key: string): seq<Call> {
    if calls == [] then []
    else OnlyOf(calls[..|calls| - 1], key) + if calls[|calls| - 1].key == key then [calls[|calls| - 1]] else []
  }

  /** Other clients never change what a client is granted. */
  lemma {:induction false} ClientsAreIndependent(calls: seq<Call>, key: string, policy: Policy)
    ensures AcceptedLog(calls, key, policy) == AcceptedLog(OnlyOf(calls, key), key, policy)
  {
    if calls != [] {
      var front, c := calls[..|calls| - 1], calls[|calls| - 1];
      ClientsAreIndependent(front, key, policy);
      if c.key == key {
        LogExtends(OnlyOf(front, key), c, key, policy);
      } else {
        assert OnlyOf(front, key) + [] == OnlyOf(front, key);
      }
    }
  }

  // ---------------------------------------------------------------------------
  // The pruned queue
  // ---------------------------------------------------------------------------

  /** The queue is the log without some entries older than `from`. */
  predicate KeepsRecent(queue: seq<real>, log: seq<real>, from: real) {
    && |queue| <= |log|
    && (forall i :: 0 <= i < |queue| ==> queue[i] == log[|log| - |queue| + i])
    && forall i :: 0 <= i < |log| - |queue| ==> log[i] < from
  }

  /** Once its head is recent, the queue's length is the number of recent entries of the whole log. */
  lemma QueueCounts(queue: seq<real>, log: seq<real>, from: real)
    requires Sorted(log) && KeepsRecent(queue, log, from) && (queue != [] ==> queue[0] >= from)
    ensures Recent(log, from) == |queue|
  {
    var n := |log| - |queue|;
    assert log == log[..n] + queue;
    OldDoNotCount(log[..n], queue, from);
    AllRecent(queue, from);
  }

  lemma LogExtends(calls: seq<Call>, c: Call, key: string, policy: Policy)
    ensures var log := AcceptedLog(calls, key, policy);
            AcceptedLog(calls + [c], key, policy) ==
              if c.key == key then NextLog(log, c.now, policy) else log
  {
    assert (calls + [c])[..|calls|] == calls;
  }

  type Hits = map<string, seq<real>>

  function Queue(hits: Hits, key: string): seq<real> {
    if key in hits then hits[key] else []
  }

  /** The start of the window at the latest call. */
  function Horizon(calls: seq<Call>, policy: Policy): real {
    if calls == [] then 0.0 else calls[|calls| - 1].now - policy.window
  }

  ghost predicate QueuesKeepRecent(hits: Hits, calls: seq<Call>, policy: Policy) {
    forall key :: KeepsRecent(Queue(hits, key), AcceptedLog(calls, key, policy), Horizon(calls, policy))
  }

  lemma KeepsRecentLater(queue: seq<real>, log: seq<real>, from: real, later: real)
    requires KeepsRecent(queue, log, from) && (log == [] || from <= later)
    ensures KeepsRecent(queue, log, later)
  {
  }

  lemma PushKeepsRecent(queue: seq<real>, log: seq<real>, from: real, now: real)
    requires KeepsRecent(queue, log, from)
    ensures KeepsRecent(queue + [now], log + [now], from)
  {
  }

  /** The queues after a call, given the new queue of the client that made it. */
  lemma CallKeepsRecent(hits: Hits, calls: seq<Call>, c: Call, queue: seq<real>, after: seq<Call>, policy: Policy)
    requires QueuesKeepRecent(hits, calls, policy) && after == calls + [c]
    requires calls != [] ==> Horizon(calls, policy) <= c.now - policy.window
    requires KeepsRecent(queue, NextLog(AcceptedLog(calls, c.key, policy), c.now, policy), c.now - policy.window)
    ensures QueuesKeepRecent(hits[c.key := queue], after, policy)
  {
    var from := c.now - policy.window;
    assert Horizon(after, policy) == from;
    forall key
      ensures KeepsRecent(Queue(hits[c.key := queue], key), AcceptedLog(after, key, policy), from)
    {
      LogExtends(calls, c, key, policy);
      if key != c.key {
        KeepsRecentLater(Queue(hits, key), AcceptedLog(calls, key, policy), Horizon(calls, policy), from);
      }
    }
  }

  lemma StillOrdered(calls: seq<Call>, c: Call, after: seq<Call>)
    requires Ordered(calls) && (calls != [] ==> calls[|calls| - 1].now <= c.now) && after == calls + [c]
    ensures Ordered(after)
  {
  }

  // ---------------------------------------------------------------------------
  // The table of clients
  // ---------------------------------------------------------------------------

  /** The clients that have called. */
  function Callers(calls: seq<Call>): set<string> {
    set i | 0 <= i < |calls| :: calls[i].key
  }

  /** What the purge leaves: past 1024 clients, those whose queue is not empty. */
  function Purged(hits: Hits): Hits {
    if |hits| > 1024 then map k | k in hits && hits[k] != [] :: hits[k] else hits
  }

  ghost predicate Sound(hits: Hits, calls: seq<Call>, policy: Policy) {
    && QueuesKeepRecent(hits, calls, policy)
    && hits.Keys == Callers(calls)
    && (1 <= policy.limit ==> forall key | key in hits :: hits[key] != [])
  }

  lemma OneMoreCaller(calls: seq<Call>, c: Call)
    ensures Callers(calls + [c]) == Callers(calls) + {c.key}
  {
    var after := calls + [c];
    assert after[|calls|] == c;
    forall key | key in Callers(calls)
      ensures key in Callers(after)
    {
      var i :| 0 <= i < |calls| && calls[i].key == key;
      assert after[i].key == key;
    }
  }

  lemma CallStaysSound(hits: Hits, calls: seq<Call>, c: Call, queue: seq<real>, policy: Policy)
    requires Sound(hits, calls, policy) && (calls != [] ==> calls[|calls| - 1].now <= c.now)
    requires KeepsRecent(queue, NextLog(AcceptedLog(calls, c.key, policy), c.now, policy), c.now - policy.window)
    requires 1 <= policy.limit ==> queue != []
    ensures Sound(hits[c.key := queue], calls + [c], policy)
  {
    CallKeepsRecent(hits, calls, c, queue, calls + [c], policy);
    OneMoreCaller(calls, c);
  }

  /** The queue after the decision: with the request if it is accepted. */
  function Decided(queue: seq<real>, now: real, policy: Policy): seq<real> {
    if |queue| >= policy.limit then queue else queue + [now]
  }

  lemma DecidedKeepsRecent(queue: seq<real>, log: seq<real>, now: real, policy: Policy)
    requires KeepsRecent(queue, log, now - policy.window) && |queue| == Recent(log, now - policy.window)
    ensures KeepsRecent(Decided(queue, now, policy), NextLog(log, now, policy), now - policy.window)
    ensures |queue| >= policy.limit <==> !Admits(log, now, policy)
    ensures 1 <= policy.limit ==> Decided(queue, now, policy) != []
  {
    if |queue| < policy.limit {
      PushKeepsRecent(queue, log, now - policy.window, now);
    }
  }

  /** The purge is reached only after an accepted request, and then no queue is empty. */
  lemma PurgeIsIdle(hits: Hits, calls: seq<Call>, policy: Policy)
    requires Sound(hits, calls, policy) && 1 <= policy.limit
    ensures Purged(hits) == hits
  {
  }

  /** The table has as many entries as clients have called: it outgrows any size exactly when they do. */
  lemma TableCountsClients(hits: Hits, calls: seq<Call>, policy: Policy)
    requires Sound(hits, calls, policy)
    ensures |hits| == |Callers(calls)|
  {
    assert |hits| == |hits.Keys|;
  }

  class RateLimiter {
    const policy: Policy
    var hits: Hits
    ghost var calls: seq<Call>

    constructor (policy: Policy)
      ensures Valid() && calls == [] && hits == map[] && this.policy == policy
    {
      this.policy := policy;
      hits, calls := map[], [];
    }

    ghost predicate Valid()
      reads this
    {
      Ordered(calls) && Sound(hits, calls, policy)
    }

    /** The client's queue without the hits that left the window, which then counts its recent log. */
    method Prune(key: string, windowStart: real) returns (queue: seq<real>)
      requires Valid() && (calls != [] ==> Horizon(calls, policy) <= windowStart)
      ensures KeepsRecent(queue, AcceptedLog(calls, key, policy), windowStart)
      ensures |queue| == Recent(AcceptedLog(calls, key, policy), windowStart)
    {
      ghost var log := AcceptedLog(calls, key, policy);
      LogIsOrdered(calls, key, policy);
      queue := Queue(hits, key);
      assert KeepsRecent(queue, log, Horizon(calls, policy));
      while queue != [] && queue[0] < windowStart
        invariant KeepsRecent(queue, log, windowStart)
      {
        assert queue[0] == log[|log| - |queue|];
        queue := queue[1..];
      }
      QueueCounts(queue, log, windowStart);
    }

    /** The decision and the client's next queue, before anything is recorded. */
    method Decide(c: Call) returns (over: bool, queue: seq<real>)
      requires Valid() && (calls != [] ==> calls[|calls| - 1].now <= c.now)
      ensures over <==> !Admits(AcceptedLog(calls, c.key, policy), c.now, policy)
      ensures !over ==> 1 <= policy.limit
      ensures Sound(hits[c.key := queue], calls + [c], policy)
    {
      var recent := Prune(c.key, c.now - policy.window);
      DecidedKeepsRecent(recent, AcceptedLog(calls, c.key, policy), c.now, policy);
      over := |recent| >= policy.limit;
      queue := if over then recent else recent + [c.now];
      CallStaysSound(hits, calls, c, queue, policy);
    }

    /**
     * Decides exactly as the full log of accepted requests would, and records the request if it
     * is accepted. No client is ever forgotten, whatever the limit.
     */
    method OverLimit(key: string, now: real) returns (over: bool)
      requires Valid() && (calls != [] ==> calls[|calls| - 1].now <= now)
      modifies this
      ensures Valid() && calls == old(calls) + [Call(key, now)]
      ensures over <==> !Admits(AcceptedLog(old(calls), key, policy), now, policy)
      ensures hits.Keys == Callers(calls) == old(hits).Keys + {key}
      ensures |hits| > 1024 <==> |Callers(calls)| > 1024
    {
      var queue;
      over, queue := Decide(Call(key, now));
      OneMoreCaller(calls, Call(key, now));
      StillOrdered(calls, Call(key, now), calls + [Call(key, now)]);
      hits, calls := hits[key := queue], calls + [Call(key, now)];
      if !over {
        PurgeIsIdle(hits, calls, policy);
        PurgeIfCrowded();
      }
      TableCountsClients(hits, calls, policy);
    }

    /** Past 1024 clients, forgets those whose queue is empty. */
    method PurgeIfCrowded()
      modifies this`hits
      ensures hits == Purged(old(hits))
    {
      if |hits| > 1024 {
        var stale := set k | k in hits && hits[k] == [];
        hits := hits - stale;
      }
    }
  }

  // ---------------------------------------------------------------------------
  // A crowd the table keeps
  // ---------------------------------------------------------------------------

  function Address(i: nat): (a: string)
    ensures |a| == i
  {
    seq(i, _ => '1')
  }

  /** One call from each of `n` clients, all at once. */
  function Crowd(n: nat, now: real): (calls: seq<Call>)
    ensures |calls| == n && forall i :: 0 <= i < n ==> calls[i] == Call(Address(i), now)
  {
    seq(n, i requires 0 <= i < n => Call(Address(i), now))
  }

  lemma CrowdGrows(n: nat, now: real)
    ensures Crowd(n + 1, now) == Crowd(n, now) + [Call(Address(n), now)]
  {
  }

  lemma LaterAddressIsNew(n: nat, now: real)
    ensures Address(n) !in Callers(Crowd(n, now))
  {
  }

  lemma {:induction false} CrowdIsDistinct(n: nat, now: real)
    ensures |Callers(Crowd(n, now))| == n
  {
    if n > 0 {
      CrowdIsDistinct(n - 1, now);
      CrowdGrows(n - 1, now);
      LaterAddressIsNew(n - 1, now);
      OneMoreCaller(Crowd(n - 1, now), Call(Address(n - 1), now));
    }
  }

  /** The bound, refuted: for every size there are calls after which the table is larger, 1025 entries among them. */
  method Crowded(policy: Policy, n: nat, now: real) returns (limiter: RateLimiter)
    ensures fresh(limiter) && limiter.Valid() && limiter.policy == policy
    ensures limiter.calls == Crowd(n, now) && |limiter.hits| == n
  {
    limiter := new RateLimiter(policy);
    for i := 0 to n
      invariant fresh(limiter) && limiter.Valid() && limiter.policy == policy
      invariant limiter.calls == Crowd(i, now)
    {
      CrowdGrows(i, now);
      var _ := limiter.OverLimit(Address(i), now);
    }
    CrowdIsDistinct(n, now);
    TableCountsClients(limiter.hits, limiter.calls, policy);
  }
}
