/**
 The in-memory limiter: one deque of admission times per key, pruned from the left, and its
 refinement of the full-history window.
 */
module MemoryLimiter {
  import opened WindowSpec

  type Buckets = map<string, seq<real>>

  function Bucket(events: Buckets, key: string): seq<real> {
    if key in events then events[key] else []
  }

  /** The deque after its expired head entries have been popped. */
  function DropOld(bucket: seq<real>, now: real, window: real): seq<real> {
    if bucket != [] && now - bucket[0] > window then DropOld(bucket[1..], now, window) else bucket
  }

  function AfterCall(events: Buckets, c: Call, limit: int, window: real): Buckets {
    var bucket := DropOld(Bucket(events, c.key), c.now, window);
    events[c.key := if |bucket| >= limit then bucket else bucket + [c.now]]
  }

  function ReplyTo(events: Buckets, c: Call, limit: int, window: real): Reply {
    Decide(|DropOld(Bucket(events, c.key), c.now, window)|, limit)
  }

  class InMemoryRateLimiter {
    var events: Buckets

    constructor ()
      ensures events == map[]
    {
      events := map[];
    }

    /** One call at monotonic time `now`. */
    method Allow(key: string, limit: int, window: int, now: real) returns (allowed: bool, remaining: int)
      modifies this
      ensures events == AfterCall(old(events), Call(key, now), limit, window as real)
      ensures Reply(allowed, remaining) == ReplyTo(old(events), Call(key, now), limit, window as real)
    {
      var bucket := Bucket(events, key);
      while bucket != [] && now - bucket[0] > window as real
        invariant DropOld(bucket, now, window as real) == DropOld(Bucket(events, key), now, window as real)
        decreases |bucket|
      {
        bucket := bucket[1..];
      }
      if |bucket| >= limit {
        events := events[key := bucket];
        return false, 0;
      }
      bucket := bucket + [now];
      events := events[key := bucket];
      return true, Max(limit - |bucket|, 0);
    }
  }

  // ---------------------------------------------------------------- whole runs

  function StateAfter(calls: seq<Call>, limit: int, window: real): Buckets {
    if calls == [] then map[]
    else AfterCall(StateAfter(calls[..|calls| - 1], limit, window), calls[|calls| - 1], limit, window)
  }

  /** The log of a run of the in-memory limiter with a fixed limit and window. */
  function Run(calls: seq<Call>, limit: int, window: real): (log: seq<Served>)
    ensures |log| == |calls|
  {
    if calls == [] then []
    else
      var past, c := calls[..|calls| - 1], calls[|calls| - 1];
      Run(past, limit, window) + [Served(c, ReplyTo(StateAfter(past, limit, window), c, limit, window))]
  }

  // ---------------------------------------------------------------- refinement of the window

  /** The times at which calls of `key` were admitted, oldest first. */
  function Times(log: seq<Served>, key: string): seq<real> {
    if log == [] then []
    else
      var n := |log| - 1;
      Times(log[..n], key) + if log[n].reply.allowed && log[n].call.key == key then [log[n].call.now] else []
  }

  function RecentCount(times: seq<real>, now: real, window: real): nat {
    if times == [] then 0
    else
      var n := |times| - 1;
      RecentCount(times[..n], now, window) + if now - times[n] <= window then 1 else 0
  }

  lemma {:induction false} LiveCountOfTimes(log: seq<Served>, key: string, now: real, p: Policy)
    requires p.edge.Closed?
    ensures LiveCount(log, key, now, p) == RecentCount(Times(log, key), now, p.window)
  {
    if log != [] {
      var n := |log| - 1;
      LiveCountOfTimes(log[..n], key, now, p);
      var before, after := Times(log[..n], key), Times(log, key);
      assert log[n].reply.allowed && log[n].call.key == key ==> after[..|after| - 1] == before;
      assert !(log[n].reply.allowed && log[n].call.key == key) ==> after == before;
    }
  }

  lemma {:induction false} RecentCountOfSplit(times: seq<real>, k: nat, now: real, window: real)
    requires k <= |times|
    requires forall j :: 0 <= j < k ==> now - times[j] > window
    requires forall j :: k <= j < |times| ==> now - times[j] <= window
    ensures RecentCount(times, now, window) == |times| - k
    decreases |times|
  {
    if times != [] {
      var n := |times| - 1;
      RecentCountOfSplit(times[..n], if k <= n then k else n, now, window);
    }
  }

  predicate Ascending(times: seq<real>, latest: real) {
    && (forall i :: 0 <= i < |times| ==> times[i] <= latest)
    && (forall i, j :: 0 <= i < j < |times| ==> times[i] <= times[j])
  }

  lemma {:induction false} TimesAscend(log: seq<Served>, key: string, latest: real)
    requires forall i, j :: 0 <= i <= j < |log| ==> log[i].call.now <= log[j].call.now
    requires log != [] ==> log[|log| - 1].call.now <= latest
    ensures Ascending(Times(log, key), latest)
  {
    if log != [] {
      var n := |log| - 1;
      TimesAscend(log[..n], key, log[n].call.now);
      var before := Times(log[..n], key);
      assert Ascending(before, latest);
      assert Ascending(before + [log[n].call.now], latest);
    }
  }

  lemma {:induction false} DropOldSplits(bucket: seq<real>, now: real, window: real)
    ensures var b := DropOld(bucket, now, window); var d := |bucket| - |b|;
      && 0 <= d && b == bucket[d..]
      && (forall j :: 0 <= j < d ==> now - bucket[j] > window)
      && (d < |bucket| ==> now - bucket[d] <= window)
  {
    if bucket != [] && now - bucket[0] > window {
      DropOldSplits(bucket[1..], now, window);
      var d := |bucket[1..]| - |DropOld(bucket[1..], now, window)|;
      assert bucket[1..][d..] == bucket[1 + d..];
      assert forall j :: 1 <= j <= d ==> bucket[j] == bucket[1..][j - 1];
    }
  }

  /** The deque holds the newest admissions of the key; every older one has already left the window. */
  ghost predicate Tracks(bucket: seq<real>, times: seq<real>, now: real, window: real) {
    && |bucket| <= |times|
    && bucket == times[|times| - |bucket|..]
    && forall j :: 0 <= j < |times| - |bucket| ==> now - times[j] > window
  }

  /** Pruning keeps the deque on track, and leaves exactly the admissions still in the window. */
  lemma {:induction false} Pruned(bucket: seq<real>, times: seq<real>, last: real, now: real, window: real)
    requires Tracks(bucket, times, last, window) && last <= now
    requires Ascending(times, now)
    ensures Tracks(DropOld(bucket, now, window), times, now, window)
    ensures |DropOld(bucket, now, window)| == RecentCount(times, now, window)
  {
    DropOldSplits(bucket, now, window);
    var b := DropOld(bucket, now, window);
    var k, d := |times| - |bucket|, |bucket| - |b|;
    forall j | 0 <= j < k + d ensures now - times[j] > window {
      assert j >= k ==> bucket[j - k] == times[j];
    }
    assert d < |bucket| ==> bucket[d] == times[k + d];
    RecentCountOfSplit(times, k + d, now, window);
  }

  ghost predicate AllTrack(events: Buckets, log: seq<Served>, now: real, window: real) {
    forall key :: Tracks(Bucket(events, key), Times(log, key), now, window)
  }

  /** A call on a tracking state is answered from the live admissions. */
  lemma {:induction false} OneReply(events: Buckets, log: seq<Served>, c: Call, limit: int, window: real)
    requires Tracks(Bucket(events, c.key), Times(log, c.key), c.now, window)
    requires Ascending(Times(log, c.key), c.now)
    ensures ReplyTo(events, c, limit, window)
         == Decide(|Live(log, c.key, c.now, Policy(limit, window, Closed))|, limit)
    ensures Tracks(DropOld(Bucket(events, c.key), c.now, window), Times(log, c.key), c.now, window)
  {
    var p := Policy(limit, window, Closed);
    Pruned(Bucket(events, c.key), Times(log, c.key), c.now, c.now, window);
    LiveCountOfTimes(log, c.key, c.now, p);
    LiveCountIsCardinality(log, c.key, c.now, p);
  }

  lemma {:induction false} TimesGrow(log: seq<Served>, e: Served, key: string)
    ensures Times(log + [e], key)
         == Times(log, key) + if e.reply.allowed && e.call.key == key then [e.call.now] else []
  {
  }

  lemma {:induction false} TracksPush(bucket: seq<real>, times: seq<real>, now: real, window: real)
    requires Tracks(bucket, times, now, window)
    ensures Tracks(bucket + [now], times + [now], now, window)
  {
  }

  /** ... and its own deque keeps tracking, as do those of the other keys. */
  lemma {:induction false} OneCall(events: Buckets, log: seq<Served>, c: Call, limit: int, window: real, key: string)
    requires Tracks(Bucket(events, key), Times(log, key), c.now, window)
    requires Ascending(Times(log, c.key), c.now)
    ensures Tracks(Bucket(AfterCall(events, c, limit, window), key),
                   Times(log + [Served(c, ReplyTo(events, c, limit, window))], key), c.now, window)
  {
    var times, e := Times(log, key), Served(c, ReplyTo(events, c, limit, window));
    assert Times(log + [e], key) == times + if e.reply.allowed && c.key == key then [c.now] else [] by {
      TimesGrow(log, e, key);
    }
    if key == c.key {
      var b := DropOld(Bucket(events, key), c.now, window);
      assert Tracks(b, times, c.now, window) by {
        Pruned(Bucket(events, key), times, c.now, c.now, window);
      }
      TracksPush(b, times, c.now, window);
      assert times + [] == times;
    } else {
      assert Bucket(AfterCall(events, c, limit, window), key) == Bucket(events, key);
      assert times + [] == times;
    }
  }

  lemma {:induction false} AllTrackLater(events: Buckets, log: seq<Served>, last: real, now: real, window: real)
    requires AllTrack(events, log, last, window) && last <= now
    ensures AllTrack(events, log, now, window)
  {
  }

  lemma {:induction false} StateTracks(calls: seq<Call>, limit: int, window: real, now: real)
    requires Chronological(calls)
    requires calls != [] ==> calls[|calls| - 1].now <= now
    ensures Run(calls, limit, window) == Spec(calls, Policy(limit, window, Closed))
    ensures AllTrack(StateAfter(calls, limit, window), Run(calls, limit, window), now, window)
  {
    if calls != [] {
      var n := |calls| - 1;
      StateTracks(calls[..n], limit, window, calls[n].now);
      var events, log, c := StateAfter(calls[..n], limit, window), Run(calls[..n], limit, window), calls[n];
      TimesAscend(log, c.key, c.now);
      OneReply(events, log, c, limit, window);
      assert Run(calls, limit, window) == log + [Served(c, ReplyTo(events, c, limit, window))];
      forall key
        ensures Tracks(Bucket(StateAfter(calls, limit, window), key),
                       Times(Run(calls, limit, window), key), c.now, window)
      {
        OneCall(events, log, c, limit, window, key);
      }
      AllTrackLater(StateAfter(calls, limit, window), Run(calls, limit, window), c.now, now, window);
    }
  }

  /** Every run of the in-memory limiter on a monotonic clock answers as the closed window does. */
  lemma {:induction false} RunRefinesWindow(calls: seq<Call>, limit: int, window: real)
    requires Chronological(calls)
    ensures Run(calls, limit, window) == Spec(calls, Policy(limit, window, Closed))
  {
    StateTracks(calls, limit, window, if calls == [] then 0.0 else calls[|calls| - 1].now);
  }
}
