/** Runs of the three-step protocol that reach its bounds. Scenes are described by how many calls are where. */
module StaleRuns {
  import opened RedisLimiter
  import WindowSpec
  import opened RedisProtocol
  import opened StaleClock

  // ---------------------------------------------------------------- reaching a scene

  ghost predicate Leads(run: seq<Move>, s: Scene, cfg: Setup, n: nat, d: real) {
    Played(run, cfg) == s && AtMost(run, cfg, n) && CountsWithin(run, cfg, d)
  }

  /** Some run with at most n calls under way and no count more than d late ends in `s`. */
  ghost predicate Attained(s: Scene, cfg: Setup, n: nat, d: real) {
    exists run :: Leads(run, s, cfg, n, d)
  }

  lemma {:induction false} Begin(cfg: Setup, n: nat, d: real)
    ensures Attained(OPENING, cfg, n, d)
  {
    assert Leads([], OPENING, cfg, n, d);
  }

  lemma {:induction false} OneMore(s: Scene, e: Move, t: Scene, cfg: Setup, n: nat, d: real)
    requires Attained(s, cfg, n, d) && t == Then(s, e, cfg) && |t.ready| + |t.inFlight| <= n && Prompt(s, e, d)
    ensures Attained(t, cfg, n, d)
  {
    var run :| Leads(run, s, cfg, n, d);
    assert (run + [e])[..|run|] == run;
    assert Leads(run + [e], t, cfg, n, d);
  }

  lemma {:induction false} AttainedIsIntact(s: Scene, cfg: Setup, n: nat, d: real)
    requires Attained(s, cfg, n, d)
    ensures Intact(s, cfg.window) && Timed(s)
  {
    var run :| Leads(run, s, cfg, n, d);
    AlwaysIntact(run, cfg);
    AlwaysTimed(run, cfg);
  }

  /** An id larger than all in the run. */
  function Top(run: seq<Move>): int {
    if run == [] then 0
    else
      var past, id := Top(run[..|run| - 1]), run[|run| - 1].id;
      if id < past then past else id + 1
  }

  lemma {:induction false} SeenBelowTop(run: seq<Move>, cfg: Setup)
    ensures forall i :: i in Played(run, cfg).seen ==> i < Top(run)
  {
    if run != [] {
      SeenBelowTop(run[..|run| - 1], cfg);
      SeenGrows(Played(run[..|run| - 1], cfg), run[|run| - 1], cfg);
    }
  }

  lemma {:induction false} SeenGrows(s: Scene, e: Move, cfg: Setup)
    ensures forall i :: i in Then(s, e, cfg).seen ==> i in s.seen || i == e.id
  {
  }

  lemma {:induction false} FreshId(s: Scene, cfg: Setup, n: nat, d: real) returns (id: int)
    requires Attained(s, cfg, n, d)
    ensures id !in s.seen
  {
    var run :| Leads(run, s, cfg, n, d);
    SeenBelowTop(run, cfg);
    id := Top(run);
  }

  lemma {:induction false} AddedCard(m: map<int, real>, id: int, v: real)
    requires id !in m
    ensures |m[id := v]| == |m| + 1
  {
    assert m[id := v].Keys == m.Keys + {id};
    assert |m[id := v]| == |m[id := v].Keys| && |m| == |m.Keys|;
  }

  lemma {:induction false} RemovedCard(m: map<int, real>, id: int)
    requires id in m
    ensures |m - {id}| == |m| - 1
  {
    MoveCard(map[], m, id);
  }

  lemma {:induction false} NobodyThere(m: map<int, real>)
    requires forall i: int :: i !in m
    ensures m == map[] && |m| == 0
  {
    var nobody: map<int, real> := map[];
    assert forall i: int :: i !in m.Keys;
    assert m.Keys == nobody.Keys;
  }

  /** A non-empty group has somebody in it. */
  lemma {:induction false} Somebody(m: map<int, real>) returns (id: int)
    requires |m| > 0
    ensures id in m
  {
    if forall i: int :: i !in m {
      NobodyThere(m);
    }
    id :| id in m;
  }

  // ---------------------------------------------------------------- single steps

  lemma {:induction false} Looks(s: Scene, at: real, cfg: Setup, n: nat, d: real) returns (id: int, t: Scene)
    requires Attained(s, cfg, n, d) && |s.ready| + |s.inFlight| < n && s.clock <= at
    ensures Attained(t, cfg, n, d) && id !in s.seen && t == DoLook(s, id, at) && |t.ready| == |s.ready| + 1
  {
    id := FreshId(s, cfg, n, d);
    t := DoLook(s, id, at);
    AttainedIsIntact(s, cfg, n, d);
    AddedCard(s.ready, id, at);
    OneMore(s, Look(id, at), t, cfg, n, d);
  }

  /** The scene after a call has passed its count. */
  function Passed(s: Scene, id: int, at: real, z: SortedSet): Scene
    requires id in s.ready
  {
    s.(z := z, ready := s.ready - {id}, inFlight := s.inFlight[id := s.ready[id]], clock := at)
  }

  lemma {:induction false} Passes(s: Scene, id: int, at: real, z: SortedSet, cfg: Setup, n: nat, d: real)
    requires Attained(s, cfg, n, d) && id in s.ready && s.clock <= at && at - s.ready[id] <= d
    requires |s.ready| + |s.inFlight| <= n && Tallied(s, s.ready[id], at, cfg) == z && |z.members| < cfg.limit
    ensures Attained(Passed(s, id, at, z), cfg, n, d)
    ensures |s.ready - {id}| == |s.ready| - 1 && |s.inFlight[id := s.ready[id]]| == |s.inFlight| + 1
  {
    AttainedIsIntact(s, cfg, n, d);
    RemovedCard(s.ready, id);
    AddedCard(s.inFlight, id, s.ready[id]);
    OneMore(s, Tally(id, at, NoFault), Passed(s, id, at, z), cfg, n, d);
  }

  lemma {:induction false} Stores(s: Scene, id: int, at: real, cfg: Setup, n: nat, d: real) returns (t: Scene)
    requires Attained(s, cfg, n, d) && id in s.inFlight && s.clock <= at && |s.ready| + |s.inFlight| <= n
    ensures Attained(t, cfg, n, d) && t == DoStore(s, id, at, NoFault, cfg)
    ensures |t.inFlight| == |s.inFlight| - 1 && id !in s.stored && id !in s.admitted
  {
    t := DoStore(s, id, at, NoFault, cfg);
    AttainedIsIntact(s, cfg, n, d);
    RemovedCard(s.inFlight, id);
    OneMore(s, Store(id, at, NoFault), t, cfg, n, d);
  }

  // ---------------------------------------------------------------- a crowd at time 0

  /** Time 0: m calls are admitted, f have counted, r have only looked. All clocks read 0. */
  ghost predicate Gathered(s: Scene, m: nat, f: nat, r: nat, window: real) {
    && s.clock == 0.0 && |s.z.members| == m && |s.inFlight| == f && |s.ready| == r
    && |Within(s.admitted, 0.0, window)| == m
    && (m > 0 ==> s.z.expiresAt == 0.0 + window + 1.0)
  }

  lemma {:induction false} NothingPrunedYet(s: Scene, m: nat, f: nat, r: nat, cfg: Setup)
    requires Gathered(s, m, f, r, cfg.window) && cfg.window > 0.0
    ensures Tallied(s, 0.0, 0.0, cfg).members == s.z.members
    ensures m > 0 ==> Tallied(s, 0.0, 0.0, cfg) == s.z
  {
    if m == 0 {
      assert s.z.members == map[];
    } else {
      assert Shown(s, 0.0, cfg) == s.z;
      assert Prune(s.z, 0.0, cfg.window).members == s.z.members;
    }
  }

  /** One more call looks and counts ... */
  lemma {:induction false} Enter(s: Scene, m: nat, f: nat, cfg: Setup, n: nat, d: real) returns (t: Scene)
    requires Attained(s, cfg, n, d) && Gathered(s, m, f, 0, cfg.window)
    requires f < n && m < cfg.limit && cfg.window > 0.0 && d >= 0.0
    ensures Attained(t, cfg, n, d) && Gathered(t, m, f + 1, 0, cfg.window)
  {
    var id, looked := Looks(s, 0.0, cfg, n, d);
    NothingPrunedYet(looked, m, f, 1, cfg);
    var z := Tallied(looked, 0.0, 0.0, cfg);
    Passes(looked, id, 0.0, z, cfg, n, d);
    t := Passed(looked, id, 0.0, z);
  }

  lemma {:induction false} StoredAtOnce(s: Scene, id: int, m: nat, f: nat, r: nat, cfg: Setup)
    requires Gathered(s, m, f, r, cfg.window) && id in s.inFlight && cfg.window > 0.0
    ensures DoStore(s, id, 0.0, NoFault, cfg).z
         == SortedSet(s.z.members[id := s.inFlight[id]], 0.0 + cfg.window + 1.0)
  {
    assert m == 0 ==> s.z.members == map[];
    assert Shown(s, 0.0, cfg).members == s.z.members;
  }

  lemma {:induction false} WithinGrows(m: map<int, real>, id: int, v: real, window: real)
    requires id !in m && 0.0 <= v < window
    ensures |Within(m[id := v], 0.0, window)| == |Within(m, 0.0, window)| + 1
  {
    assert Within(m[id := v], 0.0, window) == Within(m, 0.0, window) + {id};
  }

  /** ... and is admitted. */
  lemma {:induction false} Settle(s: Scene, m: nat, f: nat, cfg: Setup, n: nat, d: real) returns (t: Scene)
    requires Attained(s, cfg, n, d) && Gathered(s, m, f, 0, cfg.window) && 0 < f <= n && cfg.window > 0.0
    ensures Attained(t, cfg, n, d) && Gathered(t, m + 1, f - 1, 0, cfg.window)
  {
    var id := Somebody(s.inFlight);
    t := Stores(s, id, 0.0, cfg, n, d);
    AttainedIsIntact(s, cfg, n, d);
    StoredAtOnce(s, id, m, f, 0, cfg);
    AddedCard(s.z.members, id, s.inFlight[id]);
    WithinGrows(s.admitted, id, s.inFlight[id], cfg.window);
  }

  lemma {:induction false} FillUp(m: nat, cfg: Setup, n: nat, d: real) returns (s: Scene)
    requires m <= cfg.limit && n >= 1 && cfg.window > 0.0 && d >= 0.0
    ensures Attained(s, cfg, n, d) && Gathered(s, m, 0, 0, cfg.window)
  {
    if m == 0 {
      s := OPENING;
      Begin(cfg, n, d);
    } else {
      s := FillUp(m - 1, cfg, n, d);
      s := Enter(s, m - 1, 0, cfg, n, d);
      s := Settle(s, m - 1, 1, cfg, n, d);
    }
  }

  lemma {:induction false} CrowdIn(f: nat, cfg: Setup, n: nat, d: real) returns (s: Scene)
    requires f <= n && n >= 1 && cfg.limit >= 1 && cfg.window > 0.0 && d >= 0.0
    ensures Attained(s, cfg, n, d) && Gathered(s, cfg.limit - 1, f, 0, cfg.window)
  {
    if f == 0 {
      s := FillUp(cfg.limit - 1, cfg, n, d);
    } else {
      s := CrowdIn(f - 1, cfg, n, d);
      s := Enter(s, cfg.limit - 1, f - 1, cfg, n, d);
    }
  }

  lemma {:induction false} Release(s: Scene, m: nat, f: nat, cfg: Setup, n: nat, d: real) returns (t: Scene)
    requires Attained(s, cfg, n, d) && Gathered(s, m, f, 0, cfg.window) && f <= n && cfg.window > 0.0
    ensures Attained(t, cfg, n, d) && Gathered(t, m + f, 0, 0, cfg.window)
    decreases f
  {
    t := s;
    if f > 0 {
      t := Settle(s, m, f, cfg, n, d);
      t := Release(t, m + 1, f - 1, cfg, n, d);
    }
  }

  // ---------------------------------------------------------------- a wave of stalled calls

  ghost predicate AllAt(m: map<int, real>, v: real) {
    forall i :: i in m ==> m[i] == v
  }

  /** m calls were admitted at time 0; r have looked at time `a` since. */
  ghost predicate Stalling(s: Scene, m: nat, r: nat, a: real, window: real) {
    && 0.0 <= s.clock <= a && |Within(s.admitted, 0.0, window)| == m
    && |s.ready| == r && AllAt(s.ready, a) && |s.inFlight| == 0
    && AllAt(s.z.members, 0.0) && s.z.expiresAt == 0.0 + window + 1.0
  }

  lemma {:induction false} GatheredStalls(s: Scene, m: nat, a: real, cfg: Setup, n: nat, d: real)
    requires Attained(s, cfg, n, d) && Gathered(s, m, 0, 0, cfg.window) && m > 0 && a >= 0.0
    ensures Stalling(s, m, 0, a, cfg.window)
  {
    AttainedIsIntact(s, cfg, n, d);
    assert s.ready == map[];
  }

  lemma {:induction false} StallAll(s: Scene, m: nat, r: nat, k: nat, a: real, cfg: Setup, n: nat, d: real)
    returns (t: Scene)
    requires Attained(s, cfg, n, d) && Stalling(s, m, r, a, cfg.window) && r <= k <= n
    ensures Attained(t, cfg, n, d) && Stalling(t, m, k, a, cfg.window)
    decreases k - r
  {
    t := s;
    if r < k {
      var id, looked := Looks(s, a, cfg, n, d);
      t := StallAll(looked, m, r + 1, k, a, cfg, n, d);
    }
  }

  /** An empty set that is dead already, or not yet, at `at`. */
  predicate Hollow(z: SortedSet, at: real) {
    z == EMPTY || (z.members == map[] && at < z.expiresAt)
  }

  /** At time `at` the set is empty; of the stalled calls r have still to count and f have counted. */
  ghost predicate Counting(s: Scene, m: nat, r: nat, f: nat, a: real, at: real, window: real) {
    && s.clock == at && Hollow(s.z, at) && |Within(s.admitted, 0.0, window)| == m
    && |s.ready| == r && AllAt(s.ready, a) && |s.inFlight| == f && AllAt(s.inFlight, a)
  }

  lemma {:induction false} HollowStays(s: Scene, reading: real, at: real, cfg: Setup)
    requires Hollow(s.z, at)
    ensures Tallied(s, reading, at, cfg) == s.z
  {
    assert Prune(s.z, reading, cfg.window).members == s.z.members;
  }

  lemma {:induction false} CountAll(s: Scene, m: nat, r: nat, f: nat, a: real, at: real, cfg: Setup, n: nat, d: real)
    returns (t: Scene)
    requires Attained(s, cfg, n, d) && Counting(s, m, r, f, a, at, cfg.window)
    requires r + f <= n && cfg.limit >= 1 && at - a <= d
    ensures Attained(t, cfg, n, d) && Counting(t, m, 0, r + f, a, at, cfg.window)
    decreases r
  {
    t := s;
    if r > 0 {
      var id := Somebody(s.ready);
      HollowStays(s, s.ready[id], at, cfg);
      Passes(s, id, at, s.z, cfg, n, d);
      t := CountAll(Passed(s, id, at, s.z), m, r - 1, f + 1, a, at, cfg, n, d);
    }
  }

  /** j of the stalled calls are admitted too, f still to be. */
  ghost predicate Joining(s: Scene, total: nat, f: nat, a: real, at: real, window: real) {
    && s.clock == at && |s.ready| == 0 && |s.inFlight| == f && AllAt(s.inFlight, a)
    && |Within(s.admitted, 0.0, window)| == total
  }

  lemma {:induction false} JoinAll(s: Scene, total: nat, f: nat, a: real, at: real, cfg: Setup, n: nat, d: real)
    returns (t: Scene)
    requires Attained(s, cfg, n, d) && Joining(s, total, f, a, at, cfg.window) && f <= n && 0.0 <= a < cfg.window
    ensures Attained(t, cfg, n, d) && Joining(t, total + f, 0, a, at, cfg.window)
    decreases f
  {
    t := s;
    if f > 0 {
      var id := Somebody(s.inFlight);
      t := Stores(s, id, at, cfg, n, d);
      WithinGrows(s.admitted, id, a, cfg.window);
      t := JoinAll(t, total + 1, f - 1, a, at, cfg, n, d);
    }
  }

  /** Once the set is empty the stalled calls are all admitted: m + r + f calls of one window. */
  lemma {:induction false} WholeWave(s: Scene, m: nat, r: nat, f: nat, a: real, at: real, cfg: Setup, n: nat, d: real)
    returns (run: seq<Move>)
    requires Attained(s, cfg, n, d) && Counting(s, m, r, f, a, at, cfg.window) && r + f <= n
    requires cfg.limit >= 1 && at - a <= d && 0.0 <= a < cfg.window
    ensures AtMost(run, cfg, n) && CountsWithin(run, cfg, d)
    ensures |Within(Played(run, cfg).admitted, 0.0, cfg.window)| == m + (r + f)
  {
    var t := CountAll(s, m, r, f, a, at, cfg, n, d);
    t := JoinAll(t, m, r + f, a, at, cfg, n, d);
    run :| Leads(run, t, cfg, n, d);
  }

  // ---------------------------------------------------------------- the bound with expiry

  /** Limit + n - 1 calls admitted at time 0, and k more that look at time a. */
  lemma {:induction false} Stalled(k: nat, a: real, cfg: Setup, n: nat, d: real) returns (s: Scene)
    requires cfg.limit >= 1 && n >= 1 && k <= n && cfg.window > 0.0 && d >= 0.0 && a >= 0.0
    ensures Attained(s, cfg, n, d) && Stalling(s, cfg.limit - 1 + n, k, a, cfg.window)
  {
    s := CrowdIn(n, cfg, n, d);
    s := Release(s, cfg.limit - 1, n, cfg, n, d);
    GatheredStalls(s, cfg.limit - 1 + n, a, cfg, n, d);
    s := StallAll(s, cfg.limit - 1 + n, 0, k, a, cfg, n, d);
  }

  lemma {:induction false} DeadSetIsEmpty(s: Scene, reading: real, at: real, cfg: Setup)
    requires cfg.expiry && s.z.expiresAt <= at
    ensures Tallied(s, reading, at, cfg) == EMPTY
  {
    assert Prune(EMPTY, reading, cfg.window).members == map[];
  }

  lemma {:induction false} KeyDies(s: Scene, m: nat, r: nat, a: real, cfg: Setup, n: nat, d: real) returns (t: Scene)
    requires Attained(s, cfg, n, d) && Stalling(s, m, r, a, cfg.window) && cfg.expiry && 0 < r <= n
    requires cfg.limit >= 1 && a <= cfg.window + 1.0 && cfg.window + 1.0 - a <= d
    ensures Attained(t, cfg, n, d) && Counting(t, m, r - 1, 1, a, cfg.window + 1.0, cfg.window)
  {
    var id := Somebody(s.ready);
    DeadSetIsEmpty(s, s.ready[id], cfg.window + 1.0, cfg);
    Passes(s, id, cfg.window + 1.0, EMPTY, cfg, n, d);
    t := Passed(s, id, cfg.window + 1.0, EMPTY);
    assert s.inFlight == map[];
  }

  /**
   The bound of the limiter as it is is exact: n calls that read the clock in time and count only when the key has
   died are all admitted on top of limit + n - 1 others.
   */
  lemma {:induction false} StaleBoundIsReached(cfg: Setup, n: nat)
    requires cfg.expiry && cfg.limit >= 1 && n >= 1 && cfg.window > 0.0
    ensures exists run :: AtMost(run, cfg, n)
                       && |Within(Played(run, cfg).admitted, 0.0, cfg.window)| == cfg.limit + 2 * n - 1
  {
    var m, late := cfg.limit - 1 + n, cfg.window + 1.0;
    var s := Stalled(n, 0.0, cfg, n, late);
    s := KeyDies(s, m, n, 0.0, cfg, n, late);
    var run := WholeWave(s, m, n - 1, 1, 0.0, late, cfg, n, late);
  }

  // ---------------------------------------------------------------- the bound for prompt counts

  lemma {:induction false} FreshPrune(s: Scene, z: SortedSet, cfg: Setup)
    requires AllAt(s.z.members, 0.0) && s.z.expiresAt == 0.0 + cfg.window + 1.0
    requires z == SortedSet(map[], 0.0 + cfg.window + 1.0)
    ensures Tallied(s, cfg.window, cfg.window, cfg) == z && Hollow(z, cfg.window)
  {
    assert Shown(s, cfg.window, cfg) == s.z;
    NobodyThere(Prune(s.z, cfg.window, cfg.window).members);
  }

  lemma {:induction false} LostTally(s: Scene, id: int, at: real, z: SortedSet, cfg: Setup)
    requires May(s, Tally(id, at, LostReply)) && Tallied(s, s.ready[id], at, cfg) == z
    ensures Then(s, Tally(id, at, LostReply), cfg) == s.(z := z, ready := s.ready - {id}, clock := at)
  {
  }

  /** A call that looks at the end of the window, prunes, and never hears of it. */
  lemma {:induction false} FreshCall(s: Scene, m: nat, r: nat, a: real, cfg: Setup, n: nat, d: real)
    returns (t: Scene)
    requires Attained(s, cfg, n, d) && Stalling(s, m, r, a, cfg.window) && r < n && d >= 0.0 && a < cfg.window
    ensures Attained(t, cfg, n, d) && Counting(t, m, r, 0, a, cfg.window, cfg.window)
  {
    var w := cfg.window;
    var id, looked := Looks(s, w, cfg, n, d);
    AttainedIsIntact(s, cfg, n, d);
    var z := SortedSet(map[], 0.0 + w + 1.0);
    FreshPrune(looked, z, cfg);
    LostTally(looked, id, w, z, cfg);
    assert looked.ready - {id} == s.ready;
    t := looked.(z := z, ready := s.ready, clock := w);
    assert s.inFlight == map[];
    OneMore(looked, Tally(id, w, LostReply), t, cfg, n, d);
  }

  /** How long before the end of a window a call can look and still count within a second. */
  function Eve(window: real): real { if window > 1.0 then window - 1.0 else 0.0 }

  /**
   The bound for counts within a second is exact too, with and without expiry: n - 1 calls look at the eve of the
   window's end, a fresh one prunes at the end and loses its reply, and the n - 1 find the set empty.
   */
  lemma {:induction false} PromptBoundIsReached(cfg: Setup, n: nat)
    requires cfg.limit >= 1 && n >= 1 && cfg.window > 0.0
    ensures exists run :: AtMost(run, cfg, n) && CountsWithin(run, cfg, 1.0)
                       && |Within(Played(run, cfg).admitted, 0.0, cfg.window)| == cfg.limit + 2 * n - 2
  {
    var m, a := cfg.limit - 1 + n, Eve(cfg.window);
    var s := Stalled(n - 1, a, cfg, n, 1.0);
    s := FreshCall(s, m, n - 1, a, cfg, n, 1.0);
    var run := WholeWave(s, m, n - 1, 0, a, cfg.window, cfg, n, 1.0);
  }
}
