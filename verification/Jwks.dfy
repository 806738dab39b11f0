/**
 The HTTP JWKS client: a key set with the time it was fetched, and a second cache of single keys with
 an expiry of their own. Key ids select keys as in section 4.5 of RFC 7517; a fetch yields the set of
 section 5.
 */
module Jwks {
  import opened Text

  type Keys = map<string, string>

  datatype CachedKey = CachedKey(key: string, expiresAt: real)

  datatype Client = Client(keysByKid: Keys, cache: map<string, CachedKey>, fetchedAt: real)

  const NEW_CLIENT := Client(map[], map[], 0.0)

  /** Four kinds of JwksError, and whatever other error nothing here catches. */
  datatype Failure = MissingKid | UnknownKid | FetchFailed | InvalidPayload | Uncaught

  datatype Result = Ok(key: string) | Err(error: Failure)

  /**
   What a fetch brings, should one be made: a key set, nothing, a document the JWT library refuses as a key set, or
   a failure of any other kind: a body cut short, no JSON, JSON that is no object. A time-out is an OSError too, so
   it is reported as FetchFailed.
   */
  datatype Fetch = Fetched(keys: Keys, doneAt: real) | Unreachable | TimedOut | Malformed | Unforeseen

  function FetchError(f: Fetch): Failure
    requires !f.Fetched?
  {
    if f.Malformed? then InvalidPayload else if f.Unforeseen? then Uncaught else FetchFailed
  }

  function Refresh(c: Client, f: Fetch): Client {
    if f.Fetched? then Client(f.keys, map[], f.doneAt) else c
  }

  predicate Hit(c: Client, kid: string, now: real) {
    kid in c.cache && c.cache[kid].expiresAt > now
  }

  predicate NeedsFetch(c: Client, ttl: int, now: real) {
    c.keysByKid == map[] || now - c.fetchedAt > ttl as real
  }

  predicate HasKid(kid: Option<string>) {
    kid.Some? && kid.value != ""
  }

  /** The client a look-up works on once it has decided whether to fetch. */
  function Supplied(c: Client, ttl: int, now: real, f: Fetch): Client {
    if NeedsFetch(c, ttl, now) then Refresh(c, f) else c
  }

  function Lookup(c: Client, ttl: int, kid: Option<string>, now: real, f: Fetch): Result {
    if !HasKid(kid) then Err(MissingKid)
    else if Hit(c, kid.value, now) then Ok(c.cache[kid.value].key)
    else if NeedsFetch(c, ttl, now) && !f.Fetched? then Err(FetchError(f))
    else
      var keys := Supplied(c, ttl, now, f).keysByKid;
      if kid.value in keys then Ok(keys[kid.value]) else Err(UnknownKid)
  }

  function AfterLookup(c: Client, ttl: int, kid: Option<string>, now: real, f: Fetch): Client {
    if !HasKid(kid) || Hit(c, kid.value, now) then c
    else
      var d := Supplied(c, ttl, now, f);
      match Lookup(c, ttl, kid, now, f)
      case Ok(key) => d.(cache := d.cache[kid.value := CachedKey(key, now + ttl as real)])
      case Err(_) => d
  }

  /** The look-up answered from its own cache, from the key set it had, or after a fetch. */
  predicate FetchesNow(c: Client, ttl: int, kid: Option<string>, now: real) {
    HasKid(kid) && !Hit(c, kid.value, now) && NeedsFetch(c, ttl, now)
  }

  class HttpJwksClient {
    const ttl: int
    var keysByKid: Keys
    var cache: map<string, CachedKey>
    var fetchedAt: real

    ghost function State(): Client reads this { Client(keysByKid, cache, fetchedAt) }

    constructor (ttl: int)
      ensures this.ttl == ttl && State() == NEW_CLIENT
    {
      this.ttl := ttl;
      keysByKid, cache, fetchedAt := map[], map[], 0.0;
    }

    /** A failed refresh changes nothing. */
    method RefreshKeys(f: Fetch) returns (error: Option<Failure>)
      modifies this
      ensures State() == Refresh(old(State()), f)
      ensures error == if f.Fetched? then None else Some(FetchError(f))
    {
      if !f.Fetched? {
        return Some(FetchError(f));
      }
      keysByKid := f.keys;
      cache := map[];
      fetchedAt := f.doneAt;
      return None;
    }

    method GetSigningKey(kid: Option<string>, now: real, f: Fetch) returns (r: Result)
      modifies this
      ensures r == Lookup(old(State()), ttl, kid, now, f)
      ensures State() == AfterLookup(old(State()), ttl, kid, now, f)
    {
      if kid.None? || kid.value == "" {
        return Err(MissingKid);
      }
      if kid.value in cache && cache[kid.value].expiresAt > now {
        return Ok(cache[kid.value].key);
      }
      if keysByKid == map[] || now - fetchedAt > ttl as real {
        var error := RefreshKeys(f);
        if error.Some? {
          return Err(error.value);
        }
      }
      if kid.value !in keysByKid {
        return Err(UnknownKid);
      }
      var key := keysByKid[kid.value];
      cache := cache[kid.value := CachedKey(key, now + ttl as real)];
      return Ok(key);
    }
  }

  /** The first look-up of a new client answers from the set it fetches, and from nothing else. */
  lemma {:induction false} NewClientLooksUp(ttl: int, kid: Option<string>, now: real, f: Fetch, key: string)
    ensures Lookup(NEW_CLIENT, ttl, kid, now, f) == Ok(key)
       <==> HasKid(kid) && f.Fetched? && kid.value in f.keys && f.keys[kid.value] == key
    ensures Lookup(NEW_CLIENT, ttl, kid, now, f) == Err(Uncaught) <==> HasKid(kid) && f.Unforeseen?
  {
  }

  // ---------------------------------------------------------------- the life of a client

  datatype Op =
    | Get(kid: Option<string>, now: real, fetch: Fetch)
    | ManualRefresh(now: real, fetch: Fetch)

  /** The client, the clock, and the successful fetches so far. */
  datatype World = World(client: Client, clock: real, fetches: seq<Fetch>)

  /** The monotonic clock does not run backwards, across operations or within one. */
  predicate Timely(w: World, op: Op) {
    w.clock <= op.now && (op.fetch.Fetched? ==> op.now <= op.fetch.doneAt)
  }

  predicate Fetches(c: Client, ttl: int, op: Op) {
    op.fetch.Fetched? && (op.ManualRefresh? || FetchesNow(c, ttl, op.kid, op.now))
  }

  function Next(w: World, ttl: int, op: Op): World {
    if !Timely(w, op) then w
    else
      var fetched := Fetches(w.client, ttl, op);
      World(if op.ManualRefresh? then Refresh(w.client, op.fetch)
            else AfterLookup(w.client, ttl, op.kid, op.now, op.fetch),
            if fetched then op.fetch.doneAt else op.now,
            if fetched then w.fetches + [op.fetch] else w.fetches)
  }

  function Life(ttl: int, ops: seq<Op>): World {
    if ops == [] then World(NEW_CLIENT, 0.0, []) else Next(Life(ttl, ops[..|ops| - 1]), ttl, ops[|ops| - 1])
  }

  function Grace(ttl: int): real { if ttl >= 0 then ttl as real else 0.0 }

  /** The key set is the last one fetched; every cached key is its key, and expires soon enough after the fetch. */
  ghost predicate Coherent(w: World, ttl: int) {
    && (forall i :: 0 <= i < |w.fetches| ==> w.fetches[i].Fetched?)
    && (if w.fetches == [] then w.client == NEW_CLIENT
        else
          var last := w.fetches[|w.fetches| - 1];
          w.client.keysByKid == last.keys && w.client.fetchedAt == last.doneAt && last.doneAt <= w.clock)
    && (forall kid :: kid in w.client.cache ==>
          && kid in w.client.keysByKid
          && w.client.cache[kid].key == w.client.keysByKid[kid]
          && w.client.cache[kid].expiresAt <= w.client.fetchedAt + Grace(ttl) + ttl as real)
  }

  lemma {:induction false} StepIsCoherent(w: World, ttl: int, op: Op)
    requires Coherent(w, ttl)
    ensures Coherent(Next(w, ttl, op), ttl)
  {
    if Timely(w, op) {
      var w' := Next(w, ttl, op);
      if op.Get? && !Fetches(w.client, ttl, op) {
        assert w'.fetches == w.fetches && w'.client.keysByKid == w.client.keysByKid;
      } else if Fetches(w.client, ttl, op) {
        assert w'.fetches[|w.fetches|] == op.fetch;
      }
    }
  }

  lemma {:induction false} AlwaysCoherent(ttl: int, ops: seq<Op>)
    ensures Coherent(Life(ttl, ops), ttl)
  {
    if ops != [] {
      AlwaysCoherent(ttl, ops[..|ops| - 1]);
      StepIsCoherent(Life(ttl, ops[..|ops| - 1]), ttl, ops[|ops| - 1]);
    }
  }

  /** The keys of the last successful fetch; none before the first. */
  function LastKeys(w: World): Keys {
    if w.fetches == [] || !w.fetches[|w.fetches| - 1].Fetched? then map[] else w.fetches[|w.fetches| - 1].keys
  }

  /** No keys have been fetched, or the fetch is more than ttl ago. */
  predicate Outdated(w: World, ttl: int, now: real) {
    || LastKeys(w) == map[]
    || (w.fetches[|w.fetches| - 1].Fetched? && now - w.fetches[|w.fetches| - 1].doneAt > ttl as real)
  }

  /** The key's own entry has not expired yet. */
  predicate Cached(w: World, kid: string, now: real) {
    kid in w.client.cache && now < w.client.cache[kid].expiresAt
  }

  /**
   Exactly what a look-up answers, over every life of a client: from a live entry the key of the last fetched set,
   without a fetch; else, from that set if it is recent enough, or from the one now fetched, the key, or that it is
   unknown; and an error of the fetch only where a fetch was needed.
   */
  lemma {:induction false} LookupAnswers(ttl: int, ops: seq<Op>, kid: string, now: real, f: Fetch)
    requires kid != ""
    ensures var w := Life(ttl, ops);
      var answer := Lookup(w.client, ttl, Some(kid), now, f);
      if Cached(w, kid, now) then kid in LastKeys(w) && answer == Ok(LastKeys(w)[kid])
      else if !Outdated(w, ttl, now) then
        answer == if kid in LastKeys(w) then Ok(LastKeys(w)[kid]) else Err(UnknownKid)
      else
        match f
        case Fetched(keys, _) => answer == if kid in keys then Ok(keys[kid]) else Err(UnknownKid)
        case Unreachable => answer == Err(FetchFailed)
        case TimedOut => answer == Err(FetchFailed)
        case Malformed => answer == Err(InvalidPayload)
        case Unforeseen => answer == Err(Uncaught)
  {
    AlwaysCoherent(ttl, ops);
  }

  /** Without a key id there is no key, and nothing happens. */
  lemma {:induction false} MissingKidIs(c: Client, ttl: int, kid: Option<string>, now: real, f: Fetch)
    ensures Lookup(c, ttl, kid, now, f) == Err(MissingKid) <==> kid == None || kid == Some("")
    ensures kid == None || kid == Some("") ==> AfterLookup(c, ttl, kid, now, f) == c
  {
  }

  /** A key that was looked up answers from its entry, and from nothing else, for the next ttl. */
  lemma {:induction false} LookedUpKeysAreCached(
      c: Client, ttl: int, kid: string, now: real, f: Fetch, later: real, g: Fetch)
    requires Lookup(c, ttl, Some(kid), now, f).Ok? && !Hit(c, kid, now) && later < now + ttl as real
    ensures Hit(AfterLookup(c, ttl, Some(kid), now, f), kid, later)
    ensures Lookup(AfterLookup(c, ttl, Some(kid), now, f), ttl, Some(kid), later, g)
         == Lookup(c, ttl, Some(kid), now, f)
    ensures AfterLookup(AfterLookup(c, ttl, Some(kid), now, f), ttl, Some(kid), later, g)
         == AfterLookup(c, ttl, Some(kid), now, f)
  {
  }

  /**
   Bounded staleness: whenever a look-up returns a key, it is the key the last successful fetch gave for that id,
   from a set at most ttl old on a direct look-up and less than 2 ttl old on a cache hit.
   */
  lemma {:induction false} ReturnedKeysAreFresh(ttl: int, ops: seq<Op>, kid: string, now: real, f: Fetch)
    requires ttl >= 0 && Timely(Life(ttl, ops), Get(Some(kid), now, f))
    requires Lookup(Life(ttl, ops).client, ttl, Some(kid), now, f).Ok?
    ensures Life(ttl, ops + [Get(Some(kid), now, f)]).fetches != []
    ensures var before := Life(ttl, ops).client;
      var fetches := Life(ttl, ops + [Get(Some(kid), now, f)]).fetches;
      var last := fetches[|fetches| - 1];
      && last.Fetched? && kid in last.keys
      && Lookup(before, ttl, Some(kid), now, f) == Ok(last.keys[kid])
      && (if Hit(before, kid, now) then now - last.doneAt < 2.0 * ttl as real else now - last.doneAt <= ttl as real)
  {
    var w, op := Life(ttl, ops), Get(Some(kid), now, f);
    AlwaysCoherent(ttl, ops);
    assert (ops + [op])[..|ops|] == ops;
    assert Life(ttl, ops + [op]) == Next(w, ttl, op);
  }

  /** The second bound is not slack: any age from ttl up to, but not including, 2 ttl is returned in some life. */
  lemma {:induction false} HitsReachAlmostTwiceTtl(ttl: int, age: real)
    requires ttl > 0 && ttl as real <= age < 2.0 * ttl as real
    ensures exists ops :: Timely(Life(ttl, ops), Get(Some("b"), age, Unreachable))
                       && Life(ttl, ops).client.fetchedAt == 0.0
                       && Hit(Life(ttl, ops).client, "b", age)
  {
    var keys: Keys := map["a" := "x", "b" := "y"];
    var first, second := Get(Some("a"), 0.0, Fetched(keys, 0.0)), Get(Some("b"), ttl as real, Unreachable);
    var w0 := World(NEW_CLIENT, 0.0, []);
    var w1 := Next(w0, ttl, first);
    var w2 := Next(w1, ttl, second);
    assert [first][..0] == [] && Life(ttl, [first]) == w1;
    assert [first, second][..1] == [first] && Life(ttl, [first, second]) == w2;
    assert w1.client.keysByKid == keys && "b" in keys;
    assert Hit(w2.client, "b", age);
  }

  // ---------------------------------------------------------------- how often it fetches

  predicate OnlyLookups(ops: seq<Op>) {
    forall i :: 0 <= i < |ops| ==> ops[i].Get? && (ops[i].fetch.Fetched? ==> ops[i].fetch.keys != map[])
  }

  predicate Spaced(fetches: seq<Fetch>, ttl: int) {
    && (forall i :: 0 <= i < |fetches| ==> fetches[i].Fetched? && fetches[i].keys != map[])
    && (forall i :: 0 < i < |fetches| ==> fetches[i].doneAt - fetches[i - 1].doneAt > ttl as real)
  }

  /** Successful fetches of non-empty sets, without manual refreshes, are more than ttl apart. */
  lemma {:induction false} FetchesAreSpaced(ttl: int, ops: seq<Op>)
    requires OnlyLookups(ops)
    ensures Spaced(Life(ttl, ops).fetches, ttl)
  {
    if ops != [] {
      var past, op := ops[..|ops| - 1], ops[|ops| - 1];
      FetchesAreSpaced(ttl, past);
      AlwaysCoherent(ttl, past);
      var w := Life(ttl, past);
      if Timely(w, op) && Fetches(w.client, ttl, op) && w.fetches != [] {
        assert w.client.keysByKid == w.fetches[|w.fetches| - 1].keys;
        assert op.now - w.client.fetchedAt > ttl as real;
      }
    }
  }

  lemma {:induction false} SpacedSpan(fetches: seq<Fetch>, ttl: int)
    requires Spaced(fetches, ttl) && fetches != []
    ensures (|fetches| - 1) as real * ttl as real <= fetches[|fetches| - 1].doneAt - fetches[0].doneAt
  {
    if |fetches| > 1 {
      var n := |fetches| - 1;
      SpacedSpan(fetches[..n], ttl);
      assert (n as real) * ttl as real == (n - 1) as real * ttl as real + ttl as real;
    }
  }

  /** A run of duration d: it starts, and every fetch it makes is done, between `start` and `start + d`. */
  predicate During(ops: seq<Op>, start: real, d: real) {
    forall i :: 0 <= i < |ops| ==>
      start <= ops[i].now <= start + d && (ops[i].fetch.Fetched? ==> start <= ops[i].fetch.doneAt <= start + d)
  }

  predicate FetchedDuring(fetches: seq<Fetch>, start: real, d: real) {
    forall i :: 0 <= i < |fetches| ==> fetches[i].Fetched? && start <= fetches[i].doneAt <= start + d
  }

  lemma {:induction false} FetchesFallInTheRun(ttl: int, ops: seq<Op>, start: real, d: real)
    requires During(ops, start, d)
    ensures FetchedDuring(Life(ttl, ops).fetches, start, d)
  {
    if ops != [] {
      FetchesFallInTheRun(ttl, ops[..|ops| - 1], start, d);
    }
  }

  lemma {:induction false} DivideBoth(x: real, t: real, d: real)
    requires t > 0.0 && x * t <= d
    ensures x <= d / t
  {
  }

  /** So a run of look-ups of duration d makes at most floor(d / ttl) + 1 successful fetches. */
  lemma {:induction false} FetchRateIsBounded(ttl: int, ops: seq<Op>, start: real, d: real)
    requires ttl > 0 && OnlyLookups(ops) && During(ops, start, d) && d >= 0.0
    ensures |Life(ttl, ops).fetches| <= (d / ttl as real).Floor + 1
  {
    var fetches, t := Life(ttl, ops).fetches, ttl as real;
    FetchesAreSpaced(ttl, ops);
    FetchesFallInTheRun(ttl, ops, start, d);
    if fetches != [] {
      SpacedSpan(fetches, ttl);
      var n := |fetches| - 1;
      DivideBoth(n as real, t, d);
    }
  }
}
