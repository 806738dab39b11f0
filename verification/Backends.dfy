/** When the two rate-limiter backends are interchangeable. */
module Backends {
  import opened WindowSpec
  import MemoryLimiter
  import RedisLimiter

  /** No call comes exactly `window` after an admission of its own key. */
  predicate NoEdgeHit(log: seq<Served>, window: real) {
    forall j, i :: 0 <= j < i < |log| && log[j].reply.allowed && log[j].call.key == log[i].call.key ==>
                     log[i].call.now - log[j].call.now != window
  }

  lemma {:induction false} NoEdgeHitMeansSameRun(calls: seq<Call>, limit: int, window: real)
    requires NoEdgeHit(Spec(calls, Policy(limit, window, Closed)), window)
    ensures Spec(calls, Policy(limit, window, HalfOpen)) == Spec(calls, Policy(limit, window, Closed))
  {
    if calls != [] {
      var n, closed, open := |calls| - 1, Policy(limit, window, Closed), Policy(limit, window, HalfOpen);
      var log, c := Spec(calls[..n], closed), calls[n];
      assert forall i :: 0 <= i < n ==> Spec(calls, closed)[i] == log[i];
      NoEdgeHitMeansSameRun(calls[..n], limit, window);
      assert forall i :: 0 <= i < n && Counts(log[i], c.key, c.now, closed) ==> Counts(log[i], c.key, c.now, open);
      assert Live(log, c.key, c.now, open) == Live(log, c.key, c.now, closed);
    }
  }

  /** At an edge hit the two windows hold different numbers of admissions, and the replies tell. */
  lemma {:induction false} EdgeHitIsSeen(calls: seq<Call>, limit: int, window: real, j: int, i: int)
    requires Chronological(calls)
    requires 0 <= j < i < |calls| && calls[j].key == calls[i].key && calls[i].now - calls[j].now == window
    requires Spec(calls, Policy(limit, window, Closed))[j].reply.allowed
    ensures Spec(calls, Policy(limit, window, HalfOpen)) != Spec(calls, Policy(limit, window, Closed))
  {
    var closed, open := Policy(limit, window, Closed), Policy(limit, window, HalfOpen);
    var past, key, now := Spec(calls, closed)[..i], calls[i].key, calls[i].now;
    SpecPrefix(calls, i, closed);
    LiveNeverExceedsLimit(calls[..i], closed, key, now);
    assert j in Live(past, key, now, closed) && j !in Live(past, key, now, open);
    SubsetCard(Live(past, key, now, open), Live(past, key, now, closed));
    SpecAt(calls, i, closed);
    if Spec(calls, open)[..i] == past {
      SpecAt(calls, i, open);
      assert Spec(calls, open)[i].reply != Spec(calls, closed)[i].reply;
    }
  }

  /** The two windows answer alike exactly on the runs without an edge hit. */
  lemma {:induction false} EdgesAgreeIff(calls: seq<Call>, limit: int, window: real)
    requires Chronological(calls)
    ensures Spec(calls, Policy(limit, window, Closed)) == Spec(calls, Policy(limit, window, HalfOpen))
       <==> NoEdgeHit(Spec(calls, Policy(limit, window, Closed)), window)
  {
    var log := Spec(calls, Policy(limit, window, Closed));
    if NoEdgeHit(log, window) {
      NoEdgeHitMeansSameRun(calls, limit, window);
    } else {
      var j, i :| 0 <= j < i < |log| && log[j].reply.allowed && log[j].call.key == log[i].call.key
               && log[i].call.now - log[j].call.now == window;
      EdgeHitIsSeen(calls, limit, window, j, i);
    }
  }

  /**
   The backends give the same answers to a run, remaining counts included, if and only if no call
   comes exactly `window` after an admission of its own key.
   */
  lemma {:induction false} BackendsAgreeIffNoEdgeHit(calls: seq<Call>, limit: int, window: real)
    requires Chronological(calls) && (calls != [] ==> calls[0].now >= 0.0)
    ensures MemoryLimiter.Run(calls, limit, window) == RedisLimiter.Run(calls, limit, window)
       <==> NoEdgeHit(MemoryLimiter.Run(calls, limit, window), window)
  {
    MemoryLimiter.RunRefinesWindow(calls, limit, window);
    RedisLimiter.RunRefinesWindow(calls, limit, window);
    EdgesAgreeIff(calls, limit, window);
  }

  /** A condition on the request times alone that rules every edge hit out. */
  lemma {:induction false} BackendsAgreeOffTheEdge(calls: seq<Call>, limit: int, window: real)
    requires Chronological(calls) && (calls != [] ==> calls[0].now >= 0.0)
    requires forall i, j :: 0 <= j < i < |calls| ==> calls[i].now - calls[j].now != window
    ensures MemoryLimiter.Run(calls, limit, window) == RedisLimiter.Run(calls, limit, window)
  {
    MemoryLimiter.RunRefinesWindow(calls, limit, window);
    BackendsAgreeIffNoEdgeHit(calls, limit, window);
  }

  /** The smallest disagreement: limit 1, a second call exactly one window after the first. */
  lemma {:induction false} BackendsDisagreeOnTheEdge(key: string, window: real)
    requires window > 0.0
    ensures var calls := [Call(key, 0.0), Call(key, window)];
      && !MemoryLimiter.Run(calls, 1, window)[1].reply.allowed
      && RedisLimiter.Run(calls, 1, window)[1].reply.allowed
  {
  }
}
