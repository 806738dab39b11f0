/**
 The sliding window both rate limiters are meant to implement, stated over the whole history of calls:
 a call is admitted exactly when fewer than `limit` earlier admissions of its key are still in the window.
 The two backends disagree about an admission aged exactly `window`, so the edge is a parameter.
 */
module WindowSpec {

  /** Closed: an admission aged exactly `window` still counts. HalfOpen: it no longer does. */
  datatype Edge = Closed | HalfOpen

  datatype Policy = Policy(limit: int, window: real, edge: Edge)

  datatype Call = Call(key: string, now: real)

  datatype Reply = Reply(allowed: bool, remaining: int)

  datatype Served = Served(call: Call, reply: Reply)

  predicate InWindow(age: real, p: Policy) {
    if p.edge.Closed? then age <= p.window else age < p.window
  }

  function Max(a: int, b: int): int { if a < b then b else a }

  predicate Chronological(calls: seq<Call>) {
    forall i, j :: 0 <= i <= j < |calls| ==> calls[i].now <= calls[j].now
  }

  /** The reply to a call that finds `live` admissions of its key in the window. */
  function Decide(live: nat, limit: int): Reply {
    if live >= limit then Reply(false, 0) else Reply(true, Max(limit - (live + 1), 0))
  }

  /** An admission of `key` that is still in the window at time `now`. */
  predicate Counts(e: Served, key: string, now: real, p: Policy) {
    e.reply.allowed && e.call.key == key && InWindow(now - e.call.now, p)
  }

  /** The positions of the earlier admissions of `key` that are still in the window at time `now`. */
  ghost function Live(log: seq<Served>, key: string, now: real, p: Policy): set<int> {
    set i | 0 <= i < |log| && Counts(log[i], key, now, p)
  }

  /** The run of `calls` with the replies the full-history specification gives. */
  ghost function Spec(calls: seq<Call>, p: Policy): (log: seq<Served>)
    ensures |log| == |calls|
    ensures forall i :: 0 <= i < |log| ==> log[i].call == calls[i]
  {
    if calls == [] then []
    else
      var c := calls[|calls| - 1];
      var log := Spec(calls[..|calls| - 1], p);
      log + [Served(c, Decide(|Live(log, c.key, c.now, p)|, p.limit))]
  }

  lemma {:induction false} SpecPrefix(calls: seq<Call>, k: nat, p: Policy)
    requires k <= |calls|
    ensures Spec(calls[..k], p) == Spec(calls, p)[..k]
    decreases |calls|
  {
    if k == |calls| {
      assert calls[..k] == calls;
    } else {
      var past := calls[..|calls| - 1];
      assert past[..k] == calls[..k];
      SpecPrefix(past, k, p);
    }
  }

  /** What the specification says about one call, read off at its position in the run. */
  lemma {:induction false} SpecAt(calls: seq<Call>, i: nat, p: Policy)
    requires i < |calls|
    ensures var log := Spec(calls, p);
      log[i].reply == Decide(|Live(log[..i], calls[i].key, calls[i].now, p)|, p.limit)
  {
    SpecPrefix(calls, i, p);
    SpecPrefix(calls, i + 1, p);
    var upTo := calls[..i + 1];
    assert upTo[..i] == calls[..i] && upTo[i] == calls[i];
    assert Spec(upTo, p)[i] == Spec(calls, p)[i];
  }

  /**
   Every reply counts the window: a call is allowed exactly when fewer than `limit` admissions of its key are live,
   and `remaining` is what the limit leaves once this call is counted among them.
   */
  lemma {:induction false} RepliesCountTheWindow(calls: seq<Call>, i: nat, p: Policy)
    requires i < |calls| && InWindow(0.0, p)
    ensures Spec(calls, p)[i].reply.allowed <==> |Live(Spec(calls, p)[..i], calls[i].key, calls[i].now, p)| < p.limit
    ensures Spec(calls, p)[i].reply.remaining
         == if Spec(calls, p)[i].reply.allowed
            then p.limit - |Live(Spec(calls, p)[..i + 1], calls[i].key, calls[i].now, p)| else 0
  {
    var log := Spec(calls, p);
    SpecAt(calls, i, p);
    var before := Live(log[..i], calls[i].key, calls[i].now, p);
    var after := Live(log[..i + 1], calls[i].key, calls[i].now, p);
    if log[i].reply.allowed {
      assert after == before + {i};
    }
  }

  // ---------------------------------------------------------------- capacity of a window

  lemma {:induction false} SubsetCard<T>(a: set<T>, b: set<T>)
    requires a <= b
    ensures |a| <= |b|
    ensures a != b ==> |a| < |b|
  {
    assert b == a + (b - a);
  }

  predicate InBurst(e: Served, key: string, from: real, p: Policy) {
    e.reply.allowed && e.call.key == key && from <= e.call.now && InWindow(e.call.now - from, p)
  }

  /** The admissions of `key` that fall in the window starting at `from`. */
  ghost function Burst(log: seq<Served>, key: string, from: real, p: Policy): set<int> {
    set i | 0 <= i < |log| && InBurst(log[i], key, from, p)
  }

  lemma {:induction false} BurstGrows(log: seq<Served>, e: Served, key: string, from: real, p: Policy)
    ensures Burst(log + [e], key, from, p)
         == Burst(log, key, from, p) + if InBurst(e, key, from, p) then {|log|} else {}
  {
  }

  /** The newest admission of a burst sees every other one in its own window. */
  lemma {:induction false} BurstIsLive(log: seq<Served>, e: Served, from: real, p: Policy)
    requires forall i :: 0 <= i < |log| ==> log[i].call.now <= e.call.now
    requires InBurst(e, e.call.key, from, p)
    ensures |Burst(log, e.call.key, from, p)| <= |Live(log, e.call.key, e.call.now, p)|
  {
    var burst, live := Burst(log, e.call.key, from, p), Live(log, e.call.key, e.call.now, p);
    forall i | i in burst ensures i in live {
      assert e.call.now - log[i].call.now <= e.call.now - from;
    }
    SubsetCard(burst, live);
  }

  /** Whatever the traffic, no window ever holds more than `limit` admissions of a key. */
  lemma {:induction false} BurstNeverExceedsLimit(calls: seq<Call>, p: Policy, key: string, from: real)
    requires Chronological(calls)
    ensures |Burst(Spec(calls, p), key, from, p)| <= Max(p.limit, 0)
  {
    if calls == [] {
      assert Burst(Spec(calls, p), key, from, p) == {};
    } else {
      var n := |calls| - 1;
      var log, e := Spec(calls[..n], p), Spec(calls, p)[n];
      BurstNeverExceedsLimit(calls[..n], p, key, from);
      BurstGrows(log, e, key, from, p);
      assert Spec(calls, p) == log + [e];
      if InBurst(e, key, from, p) {
        BurstIsLive(log, e, from, p);
      }
    }
  }

  /** In particular the closed window a call looks back over never holds more than `limit` admissions. */
  lemma {:induction false} LiveNeverExceedsLimit(calls: seq<Call>, p: Policy, key: string, now: real)
    requires Chronological(calls) && p.edge.Closed?
    requires forall i :: 0 <= i < |calls| ==> calls[i].now <= now
    ensures |Live(Spec(calls, p), key, now, p)| <= Max(p.limit, 0)
  {
    BurstNeverExceedsLimit(calls, p, key, now - p.window);
    SubsetCard(Live(Spec(calls, p), key, now, p), Burst(Spec(calls, p), key, now - p.window, p));
  }

  // ---------------------------------------------------------------- which calls matter to a reply

  /** `Live` counted by recursion, for reasoning about runs that are cut or filtered. */
  function LiveCount(log: seq<Served>, key: string, now: real, p: Policy): nat {
    if log == [] then 0
    else
      LiveCount(log[..|log| - 1], key, now, p) + if Counts(log[|log| - 1], key, now, p) then 1 else 0
  }

  lemma {:induction false} LiveGrows(log: seq<Served>, e: Served, key: string, now: real, p: Policy)
    ensures Live(log + [e], key, now, p) == Live(log, key, now, p) + if Counts(e, key, now, p) then {|log|} else {}
    ensures LiveCount(log + [e], key, now, p) == LiveCount(log, key, now, p) + if Counts(e, key, now, p) then 1 else 0
  {
  }

  lemma {:induction false} LiveCountIsCardinality(log: seq<Served>, key: string, now: real, p: Policy)
    ensures LiveCount(log, key, now, p) == |Live(log, key, now, p)|
  {
    if log == [] {
      assert Live(log, key, now, p) == {};
    } else {
      var past, e := log[..|log| - 1], log[|log| - 1];
      LiveCountIsCardinality(past, key, now, p);
      assert log == past + [e];
      LiveGrows(past, e, key, now, p);
    }
  }

  function Without<T>(s: seq<T>, i: nat): seq<T>
    requires i < |s|
  {
    s[..i] + s[i + 1..]
  }

  lemma {:induction false} WithoutLast<T>(s: seq<T>, i: nat)
    requires i < |s|
    ensures var n := |s| - 1;
      Without(s, i) == if i == n then s[..n] else Without(s[..n], i) + [s[n]]
  {
  }

  lemma {:induction false} LiveCountWithoutRefused(log: seq<Served>, i: nat, key: string, now: real, p: Policy)
    requires i < |log| && !log[i].reply.allowed
    ensures LiveCount(Without(log, i), key, now, p) == LiveCount(log, key, now, p)
    decreases |log|
  {
    var n := |log| - 1;
    WithoutLast(log, i);
    if i != n {
      LiveCountWithoutRefused(log[..n], i, key, now, p);
      LiveGrows(Without(log[..n], i), log[n], key, now, p);
    }
  }

  /** A refused call leaves no trace: leaving it out of the run changes no other reply. */
  lemma {:induction false} RefusedCallsAreInvisible(calls: seq<Call>, i: nat, p: Policy)
    requires i < |calls| && !Spec(calls, p)[i].reply.allowed
    ensures Spec(Without(calls, i), p) == Without(Spec(calls, p), i)
    decreases |calls|
  {
    var n := |calls| - 1;
    var log := Spec(calls, p);
    WithoutLast(calls, i);
    WithoutLast(log, i);
    assert log[..n] == Spec(calls[..n], p);
    if i != n {
      RefusedCallsAreInvisible(calls[..n], i, p);
      SameCountSameReply(Without(calls[..n], i), log[..n], calls[n], p) by {
        LiveCountWithoutRefused(log[..n], i, calls[n].key, calls[n].now, p);
      }
    }
  }

  /** A call is answered alike after two runs that leave its key equally many live admissions. */
  lemma {:induction false} SameCountSameReply(calls: seq<Call>, log: seq<Served>, c: Call, p: Policy)
    requires LiveCount(Spec(calls, p), c.key, c.now, p) == LiveCount(log, c.key, c.now, p)
    ensures Spec(calls + [c], p) == Spec(calls, p) + [Served(c, Decide(|Live(log, c.key, c.now, p)|, p.limit))]
  {
    LiveCountIsCardinality(Spec(calls, p), c.key, c.now, p);
    LiveCountIsCardinality(log, c.key, c.now, p);
    assert (calls + [c])[..|calls|] == calls;
  }

  /** The calls of one key, in order, and their part of a log. */
  function CallsOf(calls: seq<Call>, key: string): seq<Call> {
    if calls == [] then []
    else
      var n := |calls| - 1;
      CallsOf(calls[..n], key) + if calls[n].key == key then [calls[n]] else []
  }

  function LogOf(log: seq<Served>, key: string): seq<Served> {
    if log == [] then []
    else
      var n := |log| - 1;
      LogOf(log[..n], key) + if log[n].call.key == key then [log[n]] else []
  }

  lemma {:induction false} LiveCountIgnoresOtherKeys(log: seq<Served>, key: string, now: real, p: Policy)
    ensures LiveCount(LogOf(log, key), key, now, p) == LiveCount(log, key, now, p)
  {
    if log != [] {
      var n := |log| - 1;
      LiveCountIgnoresOtherKeys(log[..n], key, now, p);
      LiveGrows(LogOf(log[..n], key), log[n], key, now, p);
      assert log[n].call.key != key ==> LogOf(log, key) == LogOf(log[..n], key);
    }
  }

  /** Clients are limited independently: each gets the replies it would get if it were the only one. */
  lemma {:induction false} KeysAreIndependent(calls: seq<Call>, key: string, p: Policy)
    ensures Spec(CallsOf(calls, key), p) == LogOf(Spec(calls, p), key)
  {
    if calls != [] {
      var n := |calls| - 1;
      var log := Spec(calls, p);
      assert log[..n] == Spec(calls[..n], p);
      KeysAreIndependent(calls[..n], key, p);
      if calls[n].key == key {
        SameCountSameReply(CallsOf(calls[..n], key), log[..n], calls[n], p) by {
          LiveCountIgnoresOtherKeys(log[..n], key, calls[n].now, p);
        }
      } else {
        assert CallsOf(calls, key) == CallsOf(calls[..n], key);
      }
    }
  }
}
