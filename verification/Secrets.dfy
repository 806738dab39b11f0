/**
 The secret providers' one-level cache. A provider reads its source under `path(name)` (the stripped upper-case
 name for the environment, a vault path for the clouds) but caches under the raw name. A call looks at the clock
 when it consults the cache and again, later, when it stores what it has read in between.
 */
module Secrets {
  import opened Text

  datatype Entry = Entry(expiresAt: real, value: string)

  type Cache = map<string, Entry>

  type Source = map<string, string>

  /** `environment` tells the environment provider from the cloud providers. */
  datatype Provider = Provider(environment: bool, ttl: int, path: string -> string)

  /** What the source holds for a name right now; blank counts as missing. */
  function Current(p: Provider, source: Source, name: string): Option<string> {
    var raw := Strip(if p.path(name) in source then source[p.path(name)] else "");
    if raw == "" then None else Some(raw)
  }

  predicate Live(cache: Cache, name: string, now: real) {
    name in cache && now < cache[name].expiresAt
  }

  function Get(p: Provider, cache: Cache, name: string, now: real, source: Source): Option<string> {
    if Live(cache, name, now) then Some(cache[name].value) else Current(p, source, name)
  }

  function AfterGet(p: Provider, cache: Cache, name: string, now: real, doneAt: real, source: Source): Cache {
    if Live(cache, name, now) then cache
    else
      var current := Current(p, source, name);
      if current.Some? && (!p.environment || p.ttl > 0)
      then cache[name := Entry(doneAt + p.ttl as real, current.value)]
      else cache - {name}
  }

  /** The key refresh_secret drops: the canonical name for the environment, the raw name for the clouds. */
  function Dropped(p: Provider, name: string): string {
    if p.environment then p.path(name) else name
  }

  function Refresh(p: Provider, cache: Cache, name: string, now: real, source: Source): Option<string> {
    Get(p, cache - {Dropped(p, name)}, name, now, source)
  }

  class SecretProvider {
    const p: Provider
    var cache: Cache

    constructor (p: Provider)
      ensures this.p == p && cache == map[]
    {
      this.p := p;
      cache := map[];
    }

    /** Expired entries are dropped on sight. */
    method CacheGet(name: string, now: real) returns (hit: Option<string>)
      modifies this
      ensures hit == if Live(old(cache), name, now) then Some(old(cache)[name].value) else None
      ensures cache == if hit.Some? then old(cache) else old(cache) - {name}
    {
      if name !in cache {
        assert cache - {name} == cache;
        return None;
      }
      if now >= cache[name].expiresAt {
        cache := cache - {name};
        return None;
      }
      return Some(cache[name].value);
    }

    method GetSecret(name: string, now: real, doneAt: real, source: Source) returns (r: Option<string>)
      modifies this
      ensures r == Get(p, old(cache), name, now, source)
      ensures cache == AfterGet(p, old(cache), name, now, doneAt, source)
    {
      var cached := CacheGet(name, now);
      if cached.Some? {
        return cached;
      }
      var value := Strip(if p.path(name) in source then source[p.path(name)] else "");
      if value == "" {
        return None;
      }
      if !p.environment || p.ttl > 0 {
        cache := cache[name := Entry(doneAt + p.ttl as real, value)];
      }
      return Some(value);
    }

    method RefreshSecret(name: string, now: real, doneAt: real, source: Source) returns (r: Option<string>)
      modifies this
      ensures r == Refresh(p, old(cache), name, now, source)
      ensures cache == AfterGet(p, old(cache) - {Dropped(p, name)}, name, now, doneAt, source)
    {
      cache := cache - {Dropped(p, name)};
      r := GetSecret(name, now, doneAt, source);
    }
  }

  // ---------------------------------------------------------------- the life of a provider

  /** A call from its look at the cache at `now` to its end at `doneAt`; `source` is what it reads in between. */
  datatype Op = Op(name: string, now: real, doneAt: real, source: Source, refresh: bool)

  function Before(p: Provider, cache: Cache, op: Op): Cache {
    if op.refresh then cache - {Dropped(p, op.name)} else cache
  }

  function CacheAfter(p: Provider, ops: seq<Op>): Cache {
    if ops == [] then map[]
    else
      var op := ops[|ops| - 1];
      AfterGet(p, Before(p, CacheAfter(p, ops[..|ops| - 1]), op), op.name, op.now, op.doneAt, op.source)
  }

  /** What the provider answers to `op` after the calls `ops`. */
  function Answer(p: Provider, ops: seq<Op>, op: Op): Option<string> {
    Get(p, Before(p, CacheAfter(p, ops), op), op.name, op.now, op.source)
  }

  predicate Chronological(ops: seq<Op>) {
    && (forall i :: 0 <= i < |ops| ==> ops[i].now <= ops[i].doneAt)
    && (forall i, j :: 0 <= i < j < |ops| ==> ops[i].doneAt <= ops[j].now)
  }

  /** Call `i` read `value` from the source under `name`, at the time this entry was made. */
  predicate ReadBy(p: Provider, ops: seq<Op>, i: int, name: string, e: Entry) {
    && 0 <= i < |ops| && ops[i].name == name
    && Current(p, ops[i].source, name) == Some(e.value) && e.expiresAt == ops[i].doneAt + p.ttl as real
  }

  ghost predicate Backed(p: Provider, ops: seq<Op>, cache: Cache) {
    forall name :: name in cache ==> exists i :: ReadBy(p, ops, i, name, cache[name])
  }

  lemma {:induction false} BackedLater(p: Provider, ops: seq<Op>, op: Op, cache: Cache, fewer: Cache)
    requires Backed(p, ops, cache)
    requires forall name :: name in fewer ==> name in cache && fewer[name] == cache[name]
    ensures Backed(p, ops + [op], fewer)
  {
    forall name | name in fewer ensures exists i :: ReadBy(p, ops + [op], i, name, fewer[name]) {
      var i :| ReadBy(p, ops, i, name, cache[name]);
      assert ReadBy(p, ops + [op], i, name, fewer[name]);
    }
  }

  /** An entry after a call was there before, or the call just read it. */
  lemma {:induction false} EntryIsOldOrJustRead(p: Provider, op: Op, cache: Cache, after: Cache, name: string)
    requires after == AfterGet(p, cache, op.name, op.now, op.doneAt, op.source) && name in after
    ensures || (name in cache && after[name] == cache[name])
            || (name == op.name && ReadBy(p, [op], 0, name, after[name]))
  {
  }

  lemma {:induction false} OneCallIsBacked(p: Provider, ops: seq<Op>, op: Op, cache: Cache)
    requires Backed(p, ops + [op], cache)
    ensures Backed(p, ops + [op], AfterGet(p, cache, op.name, op.now, op.doneAt, op.source))
  {
    var after := AfterGet(p, cache, op.name, op.now, op.doneAt, op.source);
    forall name | name in after ensures exists i :: ReadBy(p, ops + [op], i, name, after[name]) {
      EntryIsOldOrJustRead(p, op, cache, after, name);
      if ReadBy(p, [op], 0, name, after[name]) {
        assert (ops + [op])[|ops|] == op;
        assert ReadBy(p, ops + [op], |ops|, name, after[name]);
      }
    }
  }

  lemma {:induction false} CacheIsBacked(p: Provider, ops: seq<Op>)
    ensures Backed(p, ops, CacheAfter(p, ops))
  {
    if ops != [] {
      var past, op := ops[..|ops| - 1], ops[|ops| - 1];
      var cache := CacheAfter(p, past);
      CacheIsBacked(p, past);
      BackedLater(p, past, op, cache, Before(p, cache, op));
      OneCallIsBacked(p, past, op, Before(p, cache, op));
      assert past + [op] == ops;
    }
  }

  /**
   Every value returned is the source's own: read under the same name by this call, or by an earlier one that
   finished less than ttl ago, so that the reading is less than ttl plus the duration of that call old.
   */
  lemma {:induction false} AnswersAreRecent(p: Provider, ops: seq<Op>, op: Op)
    requires Answer(p, ops, op).Some?
    ensures Answer(p, ops, op) == Current(p, op.source, op.name)
         || exists i :: 0 <= i < |ops| && ops[i].name == op.name
                     && Current(p, ops[i].source, op.name) == Answer(p, ops, op)
                     && op.now < ops[i].doneAt + p.ttl as real
  {
    CacheIsBacked(p, ops);
    var cache := Before(p, CacheAfter(p, ops), op);
    if Live(cache, op.name, op.now) {
      var i :| ReadBy(p, ops, i, op.name, cache[op.name]);
      assert ops[i].name == op.name;
    }
  }

  /** What the source holds for a name: its text without the white space around it, if that leaves anything. */
  lemma {:induction false} CurrentIs(p: Provider, source: Source, name: string) returns (left: string, right: string)
    ensures p.path(name) !in source ==> Current(p, source, name) == None
    ensures p.path(name) in source ==>
      && Blank(left) && Blank(right)
      && (if Blank(source[p.path(name)]) then Current(p, source, name) == None
          else Current(p, source, name).Some? && source[p.path(name)] == left + Current(p, source, name).value + right)
    ensures Current(p, source, name).Some? ==>
      var v := Current(p, source, name).value; v != "" && !IsSpace(v[0]) && !IsSpace(v[|v| - 1])
  {
    left, right := "", "";
    StripsToItself("");
    if p.path(name) in source {
      var raw := source[p.path(name)];
      left, right := StripIs(raw);
      if Strip(raw) != "" {
        assert raw[|left|] == Strip(raw)[0];
      } else {
        assert raw == left + right;
      }
    }
  }

  /** Nothing is reported missing that the source has: a call without an answer found none there now. */
  lemma {:induction false} MissingMeansMissing(p: Provider, ops: seq<Op>, op: Op)
    requires Answer(p, ops, op).None?
    ensures Current(p, op.source, op.name).None?
  {
  }

  /** A value just read is given again, whatever the source then holds, until ttl after the read. */
  lemma {:induction false} ReadValuesAreCached(p: Provider, ops: seq<Op>, read: Op, again: Op)
    requires !Live(Before(p, CacheAfter(p, ops), read), read.name, read.now) && Answer(p, ops, read).Some?
    requires p.ttl > 0 && again.name == read.name && !again.refresh && again.now < read.doneAt + p.ttl as real
    ensures Answer(p, ops + [read], again) == Answer(p, ops, read) == Current(p, read.source, read.name)
  {
    assert (ops + [read])[..|ops|] == ops;
  }

  /** With no positive ttl every answer is the current value. */
  lemma {:induction false} NoTtlMeansCurrent(p: Provider, ops: seq<Op>, op: Op)
    requires p.ttl <= 0 && Chronological(ops + [op])
    ensures Answer(p, ops, op) == Current(p, op.source, op.name)
  {
    CacheIsBacked(p, ops);
    var cache := Before(p, CacheAfter(p, ops), op);
    assert (ops + [op])[|ops|] == op;
    assert forall i :: 0 <= i < |ops| ==> (ops + [op])[i] == ops[i] && ops[i].doneAt <= op.now;
    assert !Live(cache, op.name, op.now);
  }

  /**
   A refresh gives the current value after every history if and only if there is no caching or the key it drops is
   the key it caches under: always for the clouds, and for the environment when the name is already canonical.
   */
  lemma {:induction false} RefreshIsCurrentIff(p: Provider, name: string)
    ensures (forall ops, op :: RefreshAfter(ops, op, name) ==> Answer(p, ops, op) == Current(p, op.source, name))
       <==> p.ttl <= 0 || !p.environment || p.path(name) == name
  {
    if p.ttl <= 0 || Dropped(p, name) == name {
      forall ops, op | RefreshAfter(ops, op, name) ensures Answer(p, ops, op) == Current(p, op.source, name) {
        if p.ttl <= 0 {
          NoTtlMeansCurrent(p, ops, op);
        }
      }
    } else {
      StaleRefresh(p, name);
    }
  }

  predicate RefreshAfter(ops: seq<Op>, op: Op, name: string) {
    op.name == name && op.refresh && Chronological(ops + [op])
  }

  lemma {:induction false} StaleRefresh(p: Provider, name: string)
    requires p.environment && p.ttl > 0 && p.path(name) != name
    ensures exists ops, op :: RefreshAfter(ops, op, name) && Answer(p, ops, op) != Current(p, op.source, name)
  {
    var older, newer := map[p.path(name) := "a"], map[p.path(name) := "b"];
    var get, refresh := Op(name, 0.0, 0.0, older, false), Op(name, 0.0, 0.0, newer, true);
    assert Strip("a") == "a" && Strip("b") == "b";
    assert [get][..0] == [];
    assert CacheAfter(p, [get]) == map[name := Entry(0.0 + p.ttl as real, "a")];
    assert Answer(p, [get], refresh) == Some("a");
    assert RefreshAfter([get], refresh, name);
  }

  /** The stretch is real: with a reading call of duration d, answers up to any age below ttl + d occur. */
  lemma {:induction false} SlowReadsStretchTheBound(p: Provider, name: string, d: real, age: real)
    requires p.ttl > 0 && d >= 0.0 && d <= age < d + p.ttl as real
    ensures exists first: Op, op: Op :: Chronological([first] + [op]) && first.doneAt - first.now == d
                                     && op.now - first.now == age && Current(p, op.source, name) == None
                                     && Answer(p, [first], op) == Current(p, first.source, name) == Some("a")
  {
    var get, later := Op(name, 0.0, d, map[p.path(name) := "a"], false), Op(name, age, age, map[], false);
    assert Strip("a") == "a" && Strip("") == "";
    assert [get][..0] == [];
    assert CacheAfter(p, [get]) == map[name := Entry(d + p.ttl as real, "a")];
    assert Answer(p, [get], later) == Some("a");
    assert Chronological([get] + [later]);
  }
}
