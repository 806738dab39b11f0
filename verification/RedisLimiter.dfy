/**
 The Redis limiter run one call at a time: the two pipelines of a call on a sorted set with a life
 time, the limiter object with its fail-open and fail-closed answers, and its refinement of the
 half-open window.
 */
module RedisLimiter {
  import opened WindowSpec

  /** A sorted set (member -> score) and the time at which Redis drops the whole key. */
  datatype SortedSet = SortedSet(members: map<int, real>, expiresAt: real)

  const EMPTY := SortedSet(map[], 0.0)

  /** What Redis holds at time `at`: nothing once the life of the key has run out. */
  function Visible(z: SortedSet, at: real): SortedSet {
    if at >= z.expiresAt then EMPTY else z
  }

  /** ZREMRANGEBYSCORE key 0 (now - window); the ZCARD that follows reads the size of the result. */
  function Prune(z: SortedSet, now: real, window: real): SortedSet {
    z.(members := map i | i in z.members && !(0.0 <= z.members[i] <= now - window) :: z.members[i])
  }

  /** ZADD key {member: score}, then EXPIRE key (window + 1), executed at time `at`. */
  function Insert(z: SortedSet, member: int, score: real, at: real, window: real): SortedSet {
    SortedSet(z.members[member := score], at + window + 1.0)
  }

  type Keyspace = map<string, SortedSet>

  function Lookup(store: Keyspace, key: string): SortedSet {
    if key in store then store[key] else EMPTY
  }

  /** The sorted set a call finds after its first pipeline. */
  function FirstPipeline(store: Keyspace, c: Call, window: real): SortedSet {
    Prune(Visible(Lookup(store, c.key), c.now), c.now, window)
  }

  function ReplyTo(store: Keyspace, c: Call, limit: int, window: real): Reply {
    Decide(|FirstPipeline(store, c, window).members|, limit)
  }

  function AfterCall(store: Keyspace, c: Call, member: int, limit: int, window: real): Keyspace {
    var z := FirstPipeline(store, c, window);
    store[c.key := if |z.members| >= limit then z else Insert(z, member, c.now, c.now, window)]
  }

  /** How a pipeline can go wrong: it never ran, or it ran and its answer was lost. */
  datatype Fault = NoFault | LostRequest | LostReply

  datatype Outcome = Answered(reply: Reply) | Unavailable

  /** The exception path: admitted with the whole limit left when fail-open, no answer when fail-closed. */
  function OnFailure(failOpen: bool, limit: int): Outcome {
    if failOpen then Answered(Reply(true, limit)) else Unavailable
  }

  /** The answer to a call whose pipelines go wrong as told. */
  function Concluded(
      store: Keyspace, c: Call, limit: int, window: real, failOpen: bool, first: Fault, second: Fault): Outcome
  {
    var answer := ReplyTo(store, c, limit, window);
    if !first.NoFault? || (answer.allowed && !second.NoFault?) then OnFailure(failOpen, limit) else Answered(answer)
  }

  /** What such a call leaves in Redis: a pipeline whose reply was lost has taken effect all the same. */
  function LeftBehind(
      store: Keyspace, c: Call, member: int, limit: int, window: real, first: Fault, second: Fault): Keyspace
  {
    var pruned := store[c.key := FirstPipeline(store, c, window)];
    if first.LostRequest? then store
    else if first.LostReply? || second.LostRequest? then pruned
    else AfterCall(store, c, member, limit, window)
  }

  class RedisRateLimiter {
    var store: Keyspace
    const failOpen: bool

    constructor (failOpen: bool)
      ensures this.failOpen == failOpen && store == map[]
    {
      this.failOpen := failOpen;
      store := map[];
    }

    /** One call, with the whole of it at time `now`; `member` stands for its fresh "now:uuid" string. */
    method Allow(key: string, limit: int, window: int, now: real, member: int, first: Fault, second: Fault)
      returns (r: Outcome)
      requires key in store ==> member !in store[key].members
      modifies this`store
      ensures r == Concluded(old(store), Call(key, now), limit, window as real, failOpen, first, second)
      ensures store == LeftBehind(old(store), Call(key, now), member, limit, window as real, first, second)
      // fail-closed: an answer means that no pipeline it needed went wrong
      ensures !failOpen && r.Answered? ==> first.NoFault? && (r.reply.allowed ==> second.NoFault?)
      ensures !failOpen && !first.NoFault? ==> r == Unavailable
      // fail-open: there is always an answer, and a call that could not be counted is let through
      ensures failOpen ==> r.Answered?
      ensures failOpen && !first.NoFault? ==> r == Answered(Reply(true, limit))
      ensures failOpen && first.NoFault? && !second.NoFault? ==> r.reply in {Reply(true, limit), Reply(false, 0)}
    {
      var w := window as real;
      if first.LostRequest? {
        r := OnFailure(failOpen, limit);
        return;
      }
      var z := Visible(Lookup(store, key), now);
      z := Prune(z, now, w);
      store := store[key := z];
      if first.LostReply? {
        r := OnFailure(failOpen, limit);
        return;
      }
      var count := |z.members|;
      if count >= limit {
        r := Answered(Reply(false, 0));
        return;
      }
      if second.LostRequest? {
        r := OnFailure(failOpen, limit);
        return;
      }
      z := Insert(z, member, now, now, w);
      store := store[key := z];
      if second.LostReply? {
        r := OnFailure(failOpen, limit);
        return;
      }
      count := |z.members|;
      r := Answered(Reply(true, Max(limit - count, 0)));
    }
  }

  // ---------------------------------------------------------------- whole runs

  function StateAfter(calls: seq<Call>, limit: int, window: real): Keyspace {
    if calls == [] then map[]
    else
      var n := |calls| - 1;
      AfterCall(StateAfter(calls[..n], limit, window), calls[n], n, limit, window)
  }

  /** The log of a sequential run of the Redis limiter; the n-th call adds member n. */
  function Run(calls: seq<Call>, limit: int, window: real): (log: seq<Served>)
    ensures |log| == |calls|
  {
    if calls == [] then []
    else
      var n := |calls| - 1;
      Run(calls[..n], limit, window)
      + [Served(calls[n], ReplyTo(StateAfter(calls[..n], limit, window), calls[n], limit, window))]
  }

  // ---------------------------------------------------------------- refinement of the window

  predicate AdmissionOf(e: Served, key: string) {
    e.reply.allowed && e.call.key == key
  }

  /**
   The sorted set of a key holds its admissions with their times, except some that have left the window;
   and it outlives its last admission by more than the window.
   */
  ghost predicate Tracks(z: SortedSet, log: seq<Served>, key: string, now: real, window: real) {
    && (forall i :: i in z.members ==> 0 <= i < |log| && AdmissionOf(log[i], key) && z.members[i] == log[i].call.now)
    && (forall i :: 0 <= i < |log| && AdmissionOf(log[i], key) && i !in z.members ==> log[i].call.now <= now - window)
    && (forall i :: i in z.members ==> 0.0 <= z.members[i] <= z.expiresAt - window - 1.0)
  }

  /** Expiry only ever removes members the next pruning would remove, and pruning leaves the live admissions. */
  lemma {:induction false} Pruned(z: SortedSet, log: seq<Served>, key: string, now: real, p: Policy)
    requires p.edge.HalfOpen? && Tracks(z, log, key, now, p.window)
    ensures Tracks(Prune(Visible(z, now), now, p.window), log, key, now, p.window)
    ensures Prune(Visible(z, now), now, p.window).members.Keys == Live(log, key, now, p)
  {
  }

  lemma {:induction false} TracksSkip(z: SortedSet, log: seq<Served>, key: string, now: real, window: real, e: Served)
    requires Tracks(z, log, key, now, window) && !AdmissionOf(e, key)
    ensures Tracks(z, log + [e], key, now, window)
  {
  }

  lemma {:induction false} TracksInsert(z: SortedSet, log: seq<Served>, key: string, now: real, window: real, e: Served)
    requires Tracks(z, log, key, now, window) && AdmissionOf(e, key) && e.call.now == now && 0.0 <= now
    requires forall i :: 0 <= i < |log| ==> log[i].call.now <= now
    ensures Tracks(Insert(z, |log|, now, now, window), log + [e], key, now, window)
  {
  }

  lemma {:induction false} OneCall(store: Keyspace, log: seq<Served>, c: Call, limit: int, window: real, key: string)
    requires Tracks(Lookup(store, key), log, key, c.now, window) && c.now >= 0.0
    requires forall i :: 0 <= i < |log| ==> log[i].call.now <= c.now
    ensures key == c.key ==>
      ReplyTo(store, c, limit, window) == Decide(|Live(log, key, c.now, Policy(limit, window, HalfOpen))|, limit)
    ensures Tracks(Lookup(AfterCall(store, c, |log|, limit, window), key),
                   log + [Served(c, ReplyTo(store, c, limit, window))], key, c.now, window)
  {
    var e := Served(c, ReplyTo(store, c, limit, window));
    if key == c.key {
      Pruned(Lookup(store, key), log, key, c.now, Policy(limit, window, HalfOpen));
      var z := FirstPipeline(store, c, window);
      assert |z.members| == |z.members.Keys|;
      if e.reply.allowed {
        TracksInsert(z, log, key, c.now, window, e);
      } else {
        TracksSkip(z, log, key, c.now, window, e);
      }
    } else {
      TracksSkip(Lookup(store, key), log, key, c.now, window, e);
    }
  }

  ghost predicate AllTrack(store: Keyspace, log: seq<Served>, now: real, window: real) {
    forall key :: Tracks(Lookup(store, key), log, key, now, window)
  }

  lemma {:induction false} AllTrackLater(store: Keyspace, log: seq<Served>, last: real, now: real, window: real)
    requires AllTrack(store, log, last, window) && last <= now
    ensures AllTrack(store, log, now, window)
  {
  }

  lemma {:induction false} StateTracks(calls: seq<Call>, limit: int, window: real, now: real)
    requires Chronological(calls) && (calls != [] ==> calls[0].now >= 0.0)
    requires calls != [] ==> calls[|calls| - 1].now <= now
    ensures Run(calls, limit, window) == Spec(calls, Policy(limit, window, HalfOpen))
    ensures AllTrack(StateAfter(calls, limit, window), Run(calls, limit, window), now, window)
  {
    if calls != [] {
      var n := |calls| - 1;
      StateTracks(calls[..n], limit, window, calls[n].now);
      var store, log, c := StateAfter(calls[..n], limit, window), Run(calls[..n], limit, window), calls[n];
      OneCall(store, log, c, limit, window, c.key);
      forall key
        ensures Tracks(Lookup(StateAfter(calls, limit, window), key), Run(calls, limit, window), key, c.now, window)
      {
        OneCall(store, log, c, limit, window, key);
      }
      AllTrackLater(StateAfter(calls, limit, window), Run(calls, limit, window), c.now, now, window);
    }
  }

  /** Every sequential run of the Redis limiter, expiry included, answers as the half-open window does. */
  lemma {:induction false} RunRefinesWindow(calls: seq<Call>, limit: int, window: real)
    requires Chronological(calls) && (calls != [] ==> calls[0].now >= 0.0)
    ensures Run(calls, limit, window) == Spec(calls, Policy(limit, window, HalfOpen))
  {
    StateTracks(calls, limit, window, if calls == [] then 0.0 else calls[|calls| - 1].now);
  }
}
