/**
 The Redis limiter as a protocol: many callers share one key, and each call is two separate steps,
 a pipeline that prunes and counts and, later, a pipeline that adds. Either pipeline may fail, before
 or after taking effect. A run is any sequence of such steps; a step that is not enabled does nothing.
 */
module RedisProtocol {
  import opened RedisLimiter
  import WindowSpec

  /** `expiry` switches Redis' own expiry of the key off, to compare runs with and without it. */
  datatype Config = Config(limit: int, window: real, failOpen: bool, expiry: bool)

  datatype Step =
    | Read(id: int, at: real, fault: Fault)   // the clock is read together with the count
    | Add(id: int, at: real, fault: Fault)

  /**
   inFlight: calls between their count and their add, with their clock reading;
   stored: calls whose ZADD took effect; admitted: calls answered "allowed".
   */
  datatype State = State(
    z: SortedSet, inFlight: map<int, real>, stored: map<int, real>, admitted: map<int, real>,
    seen: set<int>, clock: real)

  const INITIAL := State(EMPTY, map[], map[], map[], {}, 0.0)

  predicate Enabled(s: State, e: Step) {
    e.at >= s.clock && if e.Read? then e.id !in s.seen else e.id in s.inFlight
  }

  function Held(s: State, at: real, cfg: Config): SortedSet {
    if cfg.expiry then Visible(s.z, at) else s.z
  }

  function Counted(s: State, at: real, cfg: Config): SortedSet {
    Prune(Held(s, at, cfg), at, cfg.window)
  }

  /** A call whose pipeline failed is answered "allowed" when fail-open, and not at all when fail-closed. */
  function GiveUp(s: State, id: int, score: real, cfg: Config): State {
    if cfg.failOpen then s.(admitted := s.admitted[id := score]) else s
  }

  /** A read that found `z`. */
  function ReadOutcome(s: State, id: int, at: real, z: SortedSet, fault: Fault, cfg: Config): State {
    var begun := s.(seen := s.seen + {id}, clock := at);
    match fault
    case LostRequest => GiveUp(begun, id, at, cfg)
    case LostReply => GiveUp(begun.(z := z), id, at, cfg)
    case NoFault =>
      if |z.members| >= cfg.limit then begun.(z := z)
      else begun.(z := z, inFlight := s.inFlight[id := at])
  }

  function DoRead(s: State, id: int, at: real, fault: Fault, cfg: Config): State {
    ReadOutcome(s, id, at, Counted(s, at, cfg), fault, cfg)
  }

  function DoAdd(s: State, id: int, at: real, fault: Fault, cfg: Config): State
    requires id in s.inFlight
  {
    var score := s.inFlight[id];
    var done := s.(inFlight := s.inFlight - {id}, clock := at);
    var added := done.(z := Insert(Held(s, at, cfg), id, score, at, cfg.window), stored := s.stored[id := score]);
    match fault
    case LostRequest => GiveUp(done, id, score, cfg)
    case LostReply => GiveUp(added, id, score, cfg)
    case NoFault => added.(admitted := s.admitted[id := score])
  }

  function Next(s: State, e: Step, cfg: Config): State {
    if !Enabled(s, e) then s
    else if e.Read? then DoRead(s, e.id, e.at, e.fault, cfg)
    else DoAdd(s, e.id, e.at, e.fault, cfg)
  }

  function After(run: seq<Step>, cfg: Config): State {
    if run == [] then INITIAL else Next(After(run[..|run| - 1], cfg), run[|run| - 1], cfg)
  }

  /** At no point of the run are more than `n` calls between their count and their add. */
  ghost predicate InFlightAtMost(run: seq<Step>, cfg: Config, n: nat) {
    |After(run, cfg).inFlight| <= n && (run != [] ==> InFlightAtMost(run[..|run| - 1], cfg, n))
  }

  /** The calls of `m` whose clock reading lies in the half-open interval of length `window` from `from`. */
  function Within(m: map<int, real>, from: real, window: real): set<int> {
    set i | i in m && from <= m[i] < from + window
  }

  // ---------------------------------------------------------------- the bound

  /** What every step keeps, whoever moves and whatever fails. */
  ghost predicate Sound(s: State, cfg: Config) {
    && s.inFlight.Keys <= s.seen && s.stored.Keys <= s.seen && s.z.members.Keys <= s.stored.Keys
    && s.inFlight.Keys !! s.stored.Keys
    && (forall i :: i in s.inFlight ==> 0.0 <= s.inFlight[i] <= s.clock)
    && (forall i :: i in s.z.members ==> s.z.members[i] == s.stored[i])
    // a stored call that is gone from the sorted set had left the window
    && (forall i :: i in s.stored && i !in s.z.members ==> s.stored[i] <= s.clock - cfg.window)
    // the key outlives every member by more than the window
    && (forall i :: i in s.z.members ==> 0.0 <= s.z.members[i] <= s.clock)
    && (forall i :: i in s.z.members ==> s.z.members[i] <= s.z.expiresAt - cfg.window - 1.0)
    && 0.0 <= s.clock
  }

  lemma {:induction false} PruningIsSound(s: State, at: real, cfg: Config)
    requires Sound(s, cfg) && s.clock <= at
    ensures Sound(s.(z := Counted(s, at, cfg), clock := at), cfg)
    ensures forall i :: i in s.stored && i !in Counted(s, at, cfg).members ==> s.stored[i] <= at - cfg.window
  {
  }

  lemma {:induction false} WaitingIsSound(s: State, at: real, cfg: Config)
    requires Sound(s, cfg) && s.clock <= at
    ensures Sound(s.(clock := at), cfg)
  {
  }

  lemma {:induction false} BeginningIsSound(s: State, id: int, cfg: Config)
    requires Sound(s, cfg) && id !in s.seen
    ensures Sound(s.(seen := s.seen + {id}), cfg)
    ensures Sound(s.(seen := s.seen + {id}, inFlight := s.inFlight[id := s.clock]), cfg)
  {
  }

  lemma {:induction false} AnsweringIsSound(s: State, id: int, score: real, cfg: Config)
    requires Sound(s, cfg)
    ensures Sound(GiveUp(s, id, score, cfg), cfg)
  {
  }

  lemma {:induction false} ReadIsSound(s: State, id: int, at: real, fault: Fault, cfg: Config)
    requires Sound(s, cfg) && Enabled(s, Read(id, at, fault))
    ensures Sound(DoRead(s, id, at, fault, cfg), cfg)
  {
    var t := s.(z := Counted(s, at, cfg), clock := at);
    if fault.LostRequest? {
      WaitingIsSound(s, at, cfg);
      BeginningIsSound(s.(clock := at), id, cfg);
      AnsweringIsSound(s.(clock := at, seen := s.seen + {id}), id, at, cfg);
    } else {
      PruningIsSound(s, at, cfg);
      BeginningIsSound(t, id, cfg);
      AnsweringIsSound(t.(seen := s.seen + {id}), id, at, cfg);
    }
  }

  lemma {:induction false} AddIsSound(s: State, id: int, at: real, fault: Fault, cfg: Config)
    requires Sound(s, cfg) && Enabled(s, Add(id, at, fault))
    ensures Sound(DoAdd(s, id, at, fault, cfg), cfg)
  {
    var s' := DoAdd(s, id, at, fault, cfg);
    assert Held(s, at, cfg).members.Keys <= s.z.members.Keys;
  }

  lemma {:induction false} AlwaysSound(run: seq<Step>, cfg: Config)
    ensures Sound(After(run, cfg), cfg)
  {
    if run != [] {
      var past, e := run[..|run| - 1], run[|run| - 1];
      var s := After(past, cfg);
      AlwaysSound(past, cfg);
      if Enabled(s, e) {
        if e.Read? {
          ReadIsSound(s, e.id, e.at, e.fault, cfg);
        } else {
          AddIsSound(s, e.id, e.at, e.fault, cfg);
        }
      }
    }
  }

  /** Only calls whose add took effect have been admitted. */
  predicate Backed(s: State) {
    forall i :: i in s.admitted ==> i in s.stored && s.stored[i] == s.admitted[i]
  }

  lemma {:induction false} ReadKeepsBacked(s: State, id: int, at: real, z: SortedSet, fault: Fault, cfg: Config)
    requires !cfg.failOpen && Backed(s)
    ensures Backed(ReadOutcome(s, id, at, z, fault, cfg))
  {
  }

  lemma {:induction false} AddKeepsBacked(s: State, id: int, at: real, fault: Fault, cfg: Config)
    requires !cfg.failOpen && Backed(s) && id in s.inFlight && s.inFlight.Keys !! s.stored.Keys
    ensures Backed(DoAdd(s, id, at, fault, cfg))
  {
  }

  lemma {:induction false} AlwaysBacked(run: seq<Step>, cfg: Config)
    requires !cfg.failOpen
    ensures Backed(After(run, cfg))
  {
    if run != [] {
      var s, e := After(run[..|run| - 1], cfg), run[|run| - 1];
      AlwaysBacked(run[..|run| - 1], cfg);
      AlwaysSound(run[..|run| - 1], cfg);
      if Enabled(s, e) {
        if e.Read? {
          ReadKeepsBacked(s, e.id, e.at, Counted(s, e.at, cfg), e.fault, cfg);
        } else {
          AddKeepsBacked(s, e.id, e.at, e.fault, cfg);
        }
      }
    }
  }

  lemma {:induction false} UnionCard<T>(a: set<T>, b: set<T>)
    ensures |a + b| <= |a| + |b|
  {
  }

  /** Members and calls in flight together never exceed limit + n - 1. */
  ghost predicate Roomy(s: State, cfg: Config, n: nat) {
    |s.z.members| + |s.inFlight| <= cfg.limit + n - 1
  }

  /** Calls that took, or may still take, a place in some interval of length `window`. */
  function Claims(s: State, from: real, window: real): set<int> {
    Within(s.stored, from, window) + Within(s.inFlight, from, window)
  }

  lemma {:induction false} MapCard(a: map<int, real>, b: map<int, real>)
    requires a.Keys <= b.Keys
    ensures |a| <= |b|
  {
    WindowSpec.SubsetCard(a.Keys, b.Keys);
    assert |a| == |a.Keys| && |b| == |b.Keys|;
  }

  lemma {:induction false} ReadKeepsRoom(s: State, id: int, at: real, fault: Fault, cfg: Config, n: nat)
    requires Roomy(s, cfg, n) && |DoRead(s, id, at, fault, cfg).inFlight| <= n
    ensures Roomy(DoRead(s, id, at, fault, cfg), cfg, n)
  {
    MapCard(Counted(s, at, cfg).members, s.z.members);
  }

  lemma {:induction false} AddKeepsRoom(s: State, id: int, at: real, fault: Fault, cfg: Config, n: nat)
    requires Roomy(s, cfg, n) && id in s.inFlight
    ensures Roomy(DoAdd(s, id, at, fault, cfg), cfg, n)
  {
  }

  /** An add turns a claim in flight into a stored one, or drops it. */
  lemma {:induction false} AddKeepsClaims(s: State, id: int, at: real, fault: Fault, cfg: Config, from: real)
    requires id in s.inFlight
    ensures |Claims(DoAdd(s, id, at, fault, cfg), from, cfg.window)| <= |Claims(s, from, cfg.window)|
  {
    var s' := DoAdd(s, id, at, fault, cfg);
    forall i | i in Claims(s', from, cfg.window) ensures i in Claims(s, from, cfg.window) {
      assert i in s'.stored || i in s'.inFlight;
    }
    WindowSpec.SubsetCard(Claims(s', from, cfg.window), Claims(s, from, cfg.window));
  }

  lemma {:induction false} ClaimIsHeld(s: State, cfg: Config, from: real, i: int)
    requires Sound(s, cfg) && s.clock < from + cfg.window && i in Claims(s, from, cfg.window)
    ensures i in s.z.members || i in s.inFlight
  {
  }

  lemma {:induction false} HeldCard(claims: set<int>, a: map<int, real>, b: map<int, real>)
    requires forall i :: i in claims ==> i in a || i in b
    ensures |claims| <= |a| + |b|
  {
    assert |a| == |a.Keys| && |b| == |b.Keys|;
    forall i | i in claims ensures i in a.Keys + b.Keys {
      assert i in a || i in b;
    }
    WindowSpec.SubsetCard(claims, a.Keys + b.Keys);
    UnionCard(a.Keys, b.Keys);
  }

  /** The claims of an interval that reaches the present are all in the set or in flight. */
  lemma {:induction false} PresentClaimsAreHeld(s: State, cfg: Config, from: real)
    requires Sound(s, cfg) && s.clock < from + cfg.window
    ensures |Claims(s, from, cfg.window)| <= |s.z.members| + |s.inFlight|
  {
    forall i | i in Claims(s, from, cfg.window) ensures i in s.z.members || i in s.inFlight {
      ClaimIsHeld(s, cfg, from, i);
    }
    HeldCard(Claims(s, from, cfg.window), s.z.members, s.inFlight);
  }

  lemma {:induction false} ReadEffect(s: State, id: int, at: real, fault: Fault, cfg: Config)
    ensures DoRead(s, id, at, fault, cfg).stored == s.stored && DoRead(s, id, at, fault, cfg).clock == at
    ensures || DoRead(s, id, at, fault, cfg).inFlight == s.inFlight
            || DoRead(s, id, at, fault, cfg).inFlight == s.inFlight[id := at]
  {
  }

  /** A call outside an interval adds nothing to its claims. */
  lemma {:induction false} OutsideClaims(s: State, t: State, id: int, at: real, from: real, window: real)
    requires t.stored == s.stored && (t.inFlight == s.inFlight || t.inFlight == s.inFlight[id := at])
    requires !(from <= at < from + window)
    ensures |Claims(t, from, window)| <= |Claims(s, from, window)|
  {
    forall i | i in Within(t.inFlight, from, window) ensures i in Within(s.inFlight, from, window) {
      assert i in t.inFlight;
    }
    WindowSpec.SubsetCard(Claims(t, from, window), Claims(s, from, window));
  }

  /** A read changes the claims of an interval only when it makes one itself, and then they are all held. */
  lemma {:induction false} ReadKeepsClaims(s: State, id: int, at: real, fault: Fault, cfg: Config, n: nat, from: real)
    requires Sound(s, cfg) && Enabled(s, Read(id, at, fault))
    requires Roomy(DoRead(s, id, at, fault, cfg), cfg, n)
    requires |Claims(s, from, cfg.window)| <= cfg.limit + n - 1
    ensures |Claims(DoRead(s, id, at, fault, cfg), from, cfg.window)| <= cfg.limit + n - 1
  {
    var s' := DoRead(s, id, at, fault, cfg);
    ReadEffect(s, id, at, fault, cfg);
    if from <= at < from + cfg.window {
      ReadIsSound(s, id, at, fault, cfg);
      PresentClaimsAreHeld(s', cfg, from);
    } else {
      OutsideClaims(s, s', id, at, from, cfg.window);
    }
  }

  lemma {:induction false} AlwaysBounded(run: seq<Step>, cfg: Config, n: nat, from: real)
    requires cfg.limit >= 1 && InFlightAtMost(run, cfg, n)
    ensures Roomy(After(run, cfg), cfg, n)
    ensures |Claims(After(run, cfg), from, cfg.window)| <= cfg.limit + n - 1
  {
    if run == [] {
      assert Claims(INITIAL, from, cfg.window) == {};
    } else {
      var past, e := run[..|run| - 1], run[|run| - 1];
      var s := After(past, cfg);
      AlwaysBounded(past, cfg, n, from);
      AlwaysSound(past, cfg);
      if Enabled(s, e) {
        if e.Read? {
          ReadKeepsRoom(s, e.id, e.at, e.fault, cfg, n);
          ReadKeepsClaims(s, e.id, e.at, e.fault, cfg, n, from);
        } else {
          AddKeepsRoom(s, e.id, e.at, e.fault, cfg, n);
          AddKeepsClaims(s, e.id, e.at, e.fault, cfg, from);
        }
      }
    }
  }

  /**
   Every interleaving, every pattern of failures: with at most n calls in flight and fail-closed answers,
   no half-open interval of length `window` sees more than limit + n - 1 admissions, and the sorted set
   never holds more than limit + n - 1 members.
   */
  lemma {:induction false} OverAdmissionIsBounded(run: seq<Step>, cfg: Config, n: nat, from: real)
    requires cfg.limit >= 1 && !cfg.failOpen && InFlightAtMost(run, cfg, n)
    ensures |Within(After(run, cfg).admitted, from, cfg.window)| <= cfg.limit + n - 1
    ensures |After(run, cfg).z.members| <= cfg.limit + n - 1
  {
    var s := After(run, cfg);
    AlwaysBounded(run, cfg, n, from);
    AlwaysBacked(run, cfg);
    forall i | i in Within(s.admitted, from, cfg.window) ensures i in Claims(s, from, cfg.window) {
      assert i in s.admitted && i in s.stored;
    }
    WindowSpec.SubsetCard(Within(s.admitted, from, cfg.window), Claims(s, from, cfg.window));
  }

  // ---------------------------------------------------------------- the bound is reached

  /** Calls lo..hi, all with clock reading 0. */
  function Zeros(lo: int, hi: int): (m: map<int, real>)
    requires lo <= hi
    ensures forall i :: i in m <==> lo <= i < hi
    ensures forall i :: i in m ==> m[i] == 0.0
    decreases hi - lo
  {
    if lo == hi then map[] else Zeros(lo, hi - 1)[hi - 1 := 0.0]
  }

  /** All at time 0: calls 0..m have been admitted and calls m..m+f are in flight. */
  function Crowd(m: nat, f: nat, window: real): State {
    var life := if m == 0 then 0.0 else 0.0 + window + 1.0;
    State(SortedSet(Zeros(0, m), life), Zeros(m, m + f), Zeros(0, m), Zeros(0, m), Zeros(0, m + f).Keys, 0.0)
  }

  lemma {:induction false} CrowdCounted(m: nat, f: nat, cfg: Config)
    requires cfg.window > 0.0
    ensures Counted(Crowd(m, f, cfg.window), 0.0, cfg) == Crowd(m, f, cfg.window).z
  {
  }

  lemma {:induction false} ReadAdvances(s: State, id: int, at: real, cfg: Config, z: SortedSet)
    requires Enabled(s, Read(id, at, NoFault)) && Counted(s, at, cfg) == z
    ensures Next(s, Read(id, at, NoFault), cfg)
         == s.(z := z, seen := s.seen + {id}, clock := at,
               inFlight := if |z.members| >= cfg.limit then s.inFlight else s.inFlight[id := at])
  {
  }

  lemma {:induction false} CrowdJoined(m: nat, f: nat, window: real)
    ensures var s := Crowd(m, f, window);
      s.(seen := s.seen + {m + f}, inFlight := s.inFlight[m + f := 0.0]) == Crowd(m, f + 1, window)
  {
  }

  lemma {:induction false} CrowdReady(m: nat, f: nat, cfg: Config)
    requires cfg.window > 0.0
    ensures Enabled(Crowd(m, f, cfg.window), Read(m + f, 0.0, NoFault))
    ensures |Crowd(m, f, cfg.window).z.members| == m
  {
    ZerosCard(0, m);
  }

  lemma {:induction false} CrowdRead(m: nat, f: nat, cfg: Config)
    requires m < cfg.limit && cfg.window > 0.0
    ensures Next(Crowd(m, f, cfg.window), Read(m + f, 0.0, NoFault), cfg) == Crowd(m, f + 1, cfg.window)
  {
    var s := Crowd(m, f, cfg.window);
    CrowdReady(m, f, cfg);
    CrowdCounted(m, f, cfg);
    ReadAdvances(s, m + f, 0.0, cfg, s.z);
    CrowdJoined(m, f, cfg.window);
  }

  lemma {:induction false} CrowdAdd(m: nat, f: nat, cfg: Config)
    requires f > 0 && cfg.window > 0.0
    ensures Next(Crowd(m, f, cfg.window), Add(m, 0.0, NoFault), cfg) == Crowd(m + 1, f - 1, cfg.window)
  {
  }

  lemma {:induction false} ZerosCard(lo: int, hi: int)
    requires lo <= hi
    ensures |Zeros(lo, hi)| == hi - lo
    decreases hi - lo
  {
    if lo < hi {
      ZerosCard(lo, hi - 1);
      assert Zeros(lo, hi) == Zeros(lo, hi - 1)[hi - 1 := 0.0];
    }
  }

  /** The run ends in `s` and never has more than n calls in flight. */
  ghost predicate Reaches(run: seq<Step>, s: State, cfg: Config, n: nat) {
    After(run, cfg) == s && InFlightAtMost(run, cfg, n)
  }

  lemma {:induction false} Extend(run: seq<Step>, s: State, e: Step, t: State, cfg: Config, n: nat)
    requires Reaches(run, s, cfg, n) && t == Next(s, e, cfg) && |t.inFlight| <= n
    ensures Reaches(run + [e], t, cfg, n)
  {
  }

  lemma {:induction false} CrowdInFlight(m: nat, f: nat, window: real)
    ensures |Crowd(m, f, window).inFlight| == f
  {
    ZerosCard(m, m + f);
  }

  lemma {:induction false} CrowdReads(run: seq<Step>, cfg: Config, n: nat, m: nat, f: nat) returns (run': seq<Step>)
    requires Reaches(run, Crowd(m, f, cfg.window), cfg, n) && m < cfg.limit && f < n && cfg.window > 0.0
    ensures Reaches(run', Crowd(m, f + 1, cfg.window), cfg, n)
  {
    run' := run + [Read(m + f, 0.0, NoFault)];
    CrowdRead(m, f, cfg);
    CrowdInFlight(m, f + 1, cfg.window);
    Extend(run, Crowd(m, f, cfg.window), Read(m + f, 0.0, NoFault), Crowd(m, f + 1, cfg.window), cfg, n);
  }

  lemma {:induction false} CrowdAdds(run: seq<Step>, cfg: Config, n: nat, m: nat, f: nat) returns (run': seq<Step>)
    requires Reaches(run, Crowd(m, f, cfg.window), cfg, n) && 0 < f <= n && cfg.window > 0.0
    ensures Reaches(run', Crowd(m + 1, f - 1, cfg.window), cfg, n)
  {
    run' := run + [Add(m, 0.0, NoFault)];
    CrowdAdd(m, f, cfg);
    CrowdInFlight(m + 1, f - 1, cfg.window);
    Extend(run, Crowd(m, f, cfg.window), Add(m, 0.0, NoFault), Crowd(m + 1, f - 1, cfg.window), cfg, n);
  }

  lemma {:induction false} NobodyYet(window: real)
    ensures Crowd(0, 0, window) == INITIAL
  {
  }

  /** Admit m calls one after the other. */
  lemma {:induction false} Fill(m: nat, cfg: Config, n: nat) returns (run: seq<Step>)
    requires m < cfg.limit && n >= 1 && cfg.window > 0.0
    ensures Reaches(run, Crowd(m, 0, cfg.window), cfg, n)
  {
    if m == 0 {
      run := [];
      NobodyYet(cfg.window);
    } else {
      run := Fill(m - 1, cfg, n);
      run := CrowdReads(run, cfg, n, m - 1, 0);
      run := CrowdAdds(run, cfg, n, m - 1, 1);
    }
  }

  /** Then let f calls read the same count before any of them adds. */
  lemma {:induction false} Gather(f: nat, cfg: Config, n: nat) returns (run: seq<Step>)
    requires f <= n && n >= 1 && cfg.limit >= 1 && cfg.window > 0.0
    ensures Reaches(run, Crowd(cfg.limit - 1, f, cfg.window), cfg, n)
  {
    if f == 0 {
      run := Fill(cfg.limit - 1, cfg, n);
    } else {
      run := Gather(f - 1, cfg, n);
      run := CrowdReads(run, cfg, n, cfg.limit - 1, f - 1);
    }
  }

  /** Then let all of the gathered calls add. */
  lemma {:induction false} Release(
      run: seq<Step>, cfg: Config, n: nat, m: nat, f: nat, total: nat)
    returns (run': seq<Step>)
    requires Reaches(run, Crowd(m, f, cfg.window), cfg, n) && f <= n && m + f == total && cfg.window > 0.0
    ensures Reaches(run', Crowd(total, 0, cfg.window), cfg, n)
    decreases f
  {
    run' := run;
    if f > 0 {
      run' := CrowdAdds(run, cfg, n, m, f);
      run' := Release(run', cfg, n, m + 1, f - 1, total);
    }
  }

  lemma {:induction false} FullRelease(cfg: Config, n: nat, total: nat) returns (run: seq<Step>)
    requires cfg.limit >= 1 && n >= 1 && cfg.window > 0.0 && total == cfg.limit - 1 + n
    ensures Reaches(run, Crowd(total, 0, cfg.window), cfg, n)
  {
    run := Gather(n, cfg, n);
    run := Release(run, cfg, n, cfg.limit - 1, n, total);
  }

  lemma {:induction false} ZerosWithin(k: nat, window: real)
    requires window > 0.0
    ensures |Within(Zeros(0, k), 0.0, window)| == |Zeros(0, k)| == k
  {
    ZerosCard(0, k);
    assert Within(Zeros(0, k), 0.0, window) == Zeros(0, k).Keys;
    assert |Zeros(0, k)| == |Zeros(0, k).Keys|;
  }

  /** The bound is exact: some run with at most n calls in flight admits limit + n - 1 calls at one instant. */
  lemma {:induction false} OverAdmissionBoundIsReached(cfg: Config, n: nat)
    requires cfg.limit >= 1 && n >= 1 && cfg.window > 0.0
    ensures exists run :: InFlightAtMost(run, cfg, n)
                       && |Within(After(run, cfg).admitted, 0.0, cfg.window)| == cfg.limit + n - 1
                       && |After(run, cfg).z.members| == cfg.limit + n - 1
  {
    var run := FullRelease(cfg, n, cfg.limit - 1 + n);
    ZerosWithin(cfg.limit - 1 + n, cfg.window);
  }

  /** Calls 0..k answered "allowed" while Redis is down. */
  function Outage(k: nat): State {
    INITIAL.(admitted := Zeros(0, k), seen := Zeros(0, k).Keys)
  }

  lemma {:induction false} OutageStep(cfg: Config, k: nat)
    requires cfg.failOpen
    ensures Next(Outage(k), Read(k, 0.0, LostRequest), cfg) == Outage(k + 1)
    ensures Outage(0) == INITIAL
  {
  }

  lemma {:induction false} OutageRun(cfg: Config, k: nat) returns (run: seq<Step>)
    requires cfg.failOpen
    ensures Reaches(run, Outage(k), cfg, 0)
  {
    if k == 0 {
      run := [];
      OutageStep(cfg, 0);
    } else {
      var e := Read(k - 1, 0.0, LostRequest);
      run := OutageRun(cfg, k - 1);
      OutageStep(cfg, k - 1);
      Extend(run, Outage(k - 1), e, Outage(k), cfg, 0);
      run := run + [e];
    }
  }

  /** Fail-open has no bound at all: when Redis is down, any number of calls is admitted with none in flight. */
  lemma {:induction false} FailOpenIsUnbounded(cfg: Config, k: nat)
    requires cfg.failOpen && cfg.window > 0.0
    ensures exists run :: InFlightAtMost(run, cfg, 0) && |Within(After(run, cfg).admitted, 0.0, cfg.window)| == k
  {
    var run := OutageRun(cfg, k);
    ZerosWithin(k, cfg.window);
  }

  // ---------------------------------------------------------------- expiry is invisible

  /** Two runs agree on everything callers see, and differ at most in members the next read prunes. */
  ghost predicate SameButExpired(s: State, t: State, cfg: Config) {
    && s.(z := t.z) == t
    && s.z.members.Keys <= t.z.members.Keys
    && (forall i :: i in s.z.members ==> s.z.members[i] == t.z.members[i])
    && (forall i :: i in t.z.members && i !in s.z.members ==> 0.0 <= t.z.members[i] <= t.clock - cfg.window)
  }

  lemma {:induction false} CountsAgree(s: State, t: State, at: real, cfg: Config)
    requires Sound(s, cfg) && SameButExpired(s, t, cfg) && s.clock <= at
    ensures Counted(s, at, cfg.(expiry := true)).members == Counted(t, at, cfg.(expiry := false)).members
  {
    var a, b := Counted(s, at, cfg.(expiry := true)).members, Counted(t, at, cfg.(expiry := false)).members;
    forall i ensures i in a <==> i in b {
      if i in b {
        assert i in t.z.members && !(0.0 <= t.z.members[i] <= at - cfg.window);
        assert i in s.z.members;
        assert at < s.z.expiresAt;
      }
      if i in a {
        assert i in s.z.members && i in t.z.members;
      }
    }
    assert forall i :: i in a ==> a[i] == b[i];
  }

  lemma {:induction false} ReadIgnoresExpiry(s: State, t: State, id: int, at: real, fault: Fault, cfg: Config)
    requires Sound(s, cfg) && SameButExpired(s, t, cfg) && s.clock <= at
    ensures SameButExpired(DoRead(s, id, at, fault, cfg.(expiry := true)),
                           DoRead(t, id, at, fault, cfg.(expiry := false)), cfg)
  {
    CountsAgree(s, t, at, cfg);
  }

  lemma {:induction false} AddIgnoresExpiry(s: State, t: State, id: int, at: real, fault: Fault, cfg: Config)
    requires Sound(s, cfg) && SameButExpired(s, t, cfg) && s.clock <= at && id in s.inFlight
    ensures SameButExpired(DoAdd(s, id, at, fault, cfg.(expiry := true)),
                           DoAdd(t, id, at, fault, cfg.(expiry := false)), cfg)
  {
    var a, b := Held(s, at, cfg.(expiry := true)), t.z;
    assert forall i :: i in b.members && i !in a.members ==> 0.0 <= b.members[i] <= at - cfg.window;
    InsertedAlike(a, b, id, s.inFlight[id], at, cfg.window);
  }

  lemma {:induction false} InsertedAlike(a: SortedSet, b: SortedSet, id: int, score: real, at: real, window: real)
    requires a.members.Keys <= b.members.Keys && forall i :: i in a.members ==> a.members[i] == b.members[i]
    requires forall i :: i in b.members && i !in a.members ==> 0.0 <= b.members[i] <= at - window
    ensures Insert(a, id, score, at, window).members.Keys <= Insert(b, id, score, at, window).members.Keys
    ensures forall i :: i in Insert(a, id, score, at, window).members ==>
      Insert(a, id, score, at, window).members[i] == Insert(b, id, score, at, window).members[i]
    ensures forall i ::
      i in Insert(b, id, score, at, window).members && i !in Insert(a, id, score, at, window).members ==>
      0.0 <= Insert(b, id, score, at, window).members[i] <= at - window
  {
  }

  /**
   Redis dropping the key never changes who is admitted: every run, interleaved and failing as it may,
   admits, refuses and keeps in flight exactly the calls it would without expiry.
   */
  lemma {:induction false} ExpiryIsInvisible(run: seq<Step>, cfg: Config)
    ensures SameButExpired(After(run, cfg.(expiry := true)), After(run, cfg.(expiry := false)), cfg)
  {
    if run != [] {
      var past, e := run[..|run| - 1], run[|run| - 1];
      var s, t := After(past, cfg.(expiry := true)), After(past, cfg.(expiry := false));
      ExpiryIsInvisible(past, cfg);
      AlwaysSound(past, cfg.(expiry := true));
      assert Sound(s, cfg);
      if Enabled(s, e) {
        if e.Read? {
          ReadIgnoresExpiry(s, t, e.id, e.at, e.fault, cfg);
        } else {
          AddIgnoresExpiry(s, t, e.id, e.at, e.fault, cfg);
        }
      }
    }
  }

  // ---------------------------------------------------------------- one call at a time

  /** A key found alive is still alive at the same instant; a key found dead is empty. */
  lemma {:induction false} VisibleTwice(z: SortedSet, now: real, window: real)
    ensures Visible(Prune(Visible(z, now), now, window), now).members == Prune(Visible(z, now), now, window).members
  {
  }

  predicate AnsweredAllowed(o: Outcome) { o.Answered? && o.reply.allowed }

  lemma {:induction false} FaultyRead(s: State, c: WindowSpec.Call, id: int, first: Fault, second: Fault, cfg: Config)
    requires id !in s.seen && id !in s.inFlight && c.now >= s.clock && !first.NoFault?
    ensures var t := Next(Next(s, Read(id, c.now, first), cfg), Add(id, c.now, second), cfg);
      && t.admitted == (if cfg.failOpen then s.admitted[id := c.now] else s.admitted)
      && t.z == (if first.LostRequest? then s.z else Counted(s, c.now, cfg)) && t.inFlight == s.inFlight
  {
  }

  lemma {:induction false} RefusedRead(s: State, c: WindowSpec.Call, id: int, second: Fault, cfg: Config)
    requires id !in s.seen && id !in s.inFlight && c.now >= s.clock
    requires |Counted(s, c.now, cfg).members| >= cfg.limit
    ensures var t := Next(Next(s, Read(id, c.now, NoFault), cfg), Add(id, c.now, second), cfg);
      t.admitted == s.admitted && t.z == Counted(s, c.now, cfg) && t.inFlight == s.inFlight
  {
    ReadAdvances(s, id, c.now, cfg, Counted(s, c.now, cfg));
  }

  /** The add of a call that was counted in, whatever becomes of the pipeline. */
  lemma {:induction false} FaultyAdd(s: State, id: int, at: real, second: Fault, cfg: Config)
    requires Enabled(s, Add(id, at, second))
    ensures var t := Next(s, Add(id, at, second), cfg);
      && t.inFlight == s.inFlight - {id}
      && t.admitted == (if second.NoFault? || cfg.failOpen then s.admitted[id := s.inFlight[id]] else s.admitted)
      && t.z.members == (if second.LostRequest? then s.z.members else Held(s, at, cfg).members[id := s.inFlight[id]])
  {
  }

  lemma {:induction false} CountedIn(s: State, c: WindowSpec.Call, id: int, second: Fault, cfg: Config, z: SortedSet)
    requires cfg.expiry && id !in s.seen && id !in s.inFlight && c.now >= s.clock
    requires z == Counted(s, c.now, cfg) && |z.members| < cfg.limit
    ensures var t := Next(Next(s, Read(id, c.now, NoFault), cfg), Add(id, c.now, second), cfg);
      && t.admitted == (if second.NoFault? || cfg.failOpen then s.admitted[id := c.now] else s.admitted)
      && t.z.members == (if second.LostRequest? then z.members else z.members[id := c.now])
      && t.inFlight == s.inFlight
  {
    ReadAdvances(s, id, c.now, cfg, z);
    var mid := s.(z := z, seen := s.seen + {id}, clock := c.now, inFlight := s.inFlight[id := c.now]);
    FaultyAdd(mid, id, c.now, second, cfg);
    assert mid.inFlight - {id} == s.inFlight;
    VisibleTwice(s.z, c.now, cfg.window);
  }

  /** The limiter's own call with the same faults: when it answers that it is allowed, and what it leaves. */
  lemma {:induction false} CallConcludes(
      store: Keyspace, c: WindowSpec.Call, id: int, first: Fault, second: Fault, cfg: Config, z: SortedSet)
    requires FirstPipeline(store, c, cfg.window) == z
    ensures AnsweredAllowed(Concluded(store, c, cfg.limit, cfg.window, cfg.failOpen, first, second))
       <==> if first.NoFault? then |z.members| < cfg.limit && (second.NoFault? || cfg.failOpen) else cfg.failOpen
    ensures Lookup(LeftBehind(store, c, id, cfg.limit, cfg.window, first, second), c.key).members
         == if first.LostRequest? then Lookup(store, c.key).members
            else if first.NoFault? && |z.members| < cfg.limit && !second.LostRequest? then z.members[id := c.now]
            else z.members
  {
  }

  function BothSteps(s: State, id: int, now: real, first: Fault, second: Fault, cfg: Config): State {
    Next(Next(s, Read(id, now, first), cfg), Add(id, now, second), cfg)
  }

  /** From `s` to `t` the call leaves the members, and gets the answer, that the limiter's own call does. */
  ghost predicate SameCall(
      s: State, t: State, store: Keyspace, c: WindowSpec.Call, id: int, first: Fault, second: Fault, cfg: Config)
  {
    && (t.admitted == if AnsweredAllowed(Concluded(store, c, cfg.limit, cfg.window, cfg.failOpen, first, second))
                      then s.admitted[id := c.now] else s.admitted)
    && t.z.members == Lookup(LeftBehind(store, c, id, cfg.limit, cfg.window, first, second), c.key).members
    && t.inFlight == s.inFlight
  }

  lemma {:induction false} StepsConclude(
      s: State, c: WindowSpec.Call, id: int, first: Fault, second: Fault, cfg: Config, z: SortedSet)
    requires cfg.expiry && id !in s.seen && id !in s.inFlight && c.now >= s.clock && z == Counted(s, c.now, cfg)
    ensures var t := BothSteps(s, id, c.now, first, second, cfg);
      && t.inFlight == s.inFlight
      && t.admitted == (if (if first.NoFault? then |z.members| < cfg.limit && (second.NoFault? || cfg.failOpen)
                            else cfg.failOpen) then s.admitted[id := c.now] else s.admitted)
      && t.z.members == (if first.LostRequest? then s.z.members
                         else if first.NoFault? && |z.members| < cfg.limit && !second.LostRequest?
                         then z.members[id := c.now] else z.members)
  {
    if !first.NoFault? {
      FaultyRead(s, c, id, first, second, cfg);
    } else if |z.members| >= cfg.limit {
      RefusedRead(s, c, id, second, cfg);
    } else {
      CountedIn(s, c, id, second, cfg, z);
    }
  }

  /**
   A call run without interference is a read and an add of this protocol whatever its pipelines do: it is among the
   admitted exactly when the limiter answers that it is allowed, and Redis holds the same members.
   */
  lemma {:induction false} UninterruptedCall(
      s: State, store: Keyspace, c: WindowSpec.Call, id: int, first: Fault, second: Fault, cfg: Config)
    requires cfg.expiry && Lookup(store, c.key) == s.z
    requires id !in s.seen && c.now >= s.clock && id !in s.inFlight
    ensures SameCall(s, BothSteps(s, id, c.now, first, second, cfg), store, c, id, first, second, cfg)
  {
    var z := FirstPipeline(store, c, cfg.window);
    assert Counted(s, c.now, cfg) == z;
    StepsConclude(s, c, id, first, second, cfg, z);
    CallConcludes(store, c, id, first, second, cfg, z);
  }
}
