/**
 When a caller can tell that Redis drops idle keys: the three-step protocol compared with itself, played with and
 without expiry. A key outlives its members by a window and one second, and that second is what decides.
 */
module StaleExpiry {
  import opened RedisLimiter
  import WindowSpec
  import opened RedisProtocol
  import opened StaleClock
  import opened StaleRuns

  function On(cfg: Setup): Setup { cfg.(expiry := true) }

  function Off(cfg: Setup): Setup { cfg.(expiry := false) }

  /** The two scenes agree on everything callers see. */
  predicate SameAnswers(s: Scene, t: Scene) {
    s.(z := t.z) == t
  }

  /** And differ at most in members that had left the window for a second when the key was dropped. */
  ghost predicate SameButGone(s: Scene, t: Scene, window: real) {
    && SameAnswers(s, t)
    && s.z.members.Keys <= t.z.members.Keys
    && (forall i :: i in s.z.members ==> s.z.members[i] == t.z.members[i])
    && (forall i :: i in t.z.members && i !in s.z.members ==> t.z.members[i] <= t.clock - window - 1.0)
  }

  /** A count at most a second late finds the same members with and without expiry. */
  lemma {:induction false} TalliesAgree(s: Scene, t: Scene, reading: real, at: real, cfg: Setup)
    requires Intact(s, cfg.window) && Intact(t, cfg.window) && Timed(t) && SameButGone(s, t, cfg.window)
    requires s.clock <= at && at - reading <= 1.0
    ensures Tallied(s, reading, at, On(cfg)).members == Tallied(t, reading, at, Off(cfg)).members
  {
    var a, b := Tallied(s, reading, at, On(cfg)).members, Tallied(t, reading, at, Off(cfg)).members;
    forall i ensures i in a <==> i in b {
      if i in b {
        assert i in t.z.members && 0.0 <= t.stored[i];
        assert t.z.members[i] > reading - cfg.window;
        assert i in s.z.members;
        assert at < s.z.expiresAt;
      }
      if i in a {
        assert i in s.z.members && i in t.z.members;
      }
    }
    assert forall i :: i in a ==> a[i] == b[i];
  }

  lemma {:induction false} DecidedAlike(
      s: Scene, t: Scene, id: int, at: real, z: SortedSet, z': SortedSet, fault: Fault, limit: int, window: real)
    requires SameButGone(s, t, window) && id in s.ready && s.clock <= at && z.members == z'.members
    ensures SameButGone(Decided(s, id, at, z, fault, limit), Decided(t, id, at, z', fault, limit), window)
  {
  }

  lemma {:induction false} StoredAlike(s: Scene, t: Scene, id: int, at: real, fault: Fault, cfg: Setup)
    requires Intact(s, cfg.window) && SameButGone(s, t, cfg.window) && id in s.inFlight && s.clock <= at
    ensures SameButGone(DoStore(s, id, at, fault, On(cfg)), DoStore(t, id, at, fault, Off(cfg)), cfg.window)
  {
    var a, b := Shown(s, at, On(cfg)).members, t.z.members;
    assert forall i :: i in b && i !in a ==> b[i] <= at - cfg.window - 1.0;
  }

  lemma {:induction false} StepIgnoresExpiry(s: Scene, t: Scene, e: Move, cfg: Setup, d: real)
    requires Intact(s, cfg.window) && Intact(t, cfg.window) && Timed(t) && SameButGone(s, t, cfg.window)
    requires d <= 1.0 && Prompt(s, e, d)
    ensures SameButGone(Then(s, e, On(cfg)), Then(t, e, Off(cfg)), cfg.window)
  {
    assert May(s, e) <==> May(t, e);
    if May(s, e) {
      match e
      case Look(id, at) =>
      case Tally(id, at, fault) =>
        TalliesAgree(s, t, s.ready[id], at, cfg);
        DecidedAlike(s, t, id, at, Tallied(s, s.ready[id], at, On(cfg)), Tallied(t, t.ready[id], at, Off(cfg)),
                     fault, cfg.limit, cfg.window);
      case Store(id, at, fault) => StoredAlike(s, t, id, at, fault, cfg);
    }
  }

  /** Counts that come within a second of their clock readings cannot tell: every answer is as without expiry. */
  lemma {:induction false} PromptCountsIgnoreExpiry(run: seq<Move>, cfg: Setup, d: real)
    requires d <= 1.0 && CountsWithin(run, On(cfg), d)
    ensures SameButGone(Played(run, On(cfg)), Played(run, Off(cfg)), cfg.window)
  {
    if run != [] {
      var past := run[..|run| - 1];
      PromptCountsIgnoreExpiry(past, cfg, d);
      AlwaysIntact(past, On(cfg));
      AlwaysIntact(past, Off(cfg));
      AlwaysTimed(past, Off(cfg));
      StepIgnoresExpiry(Played(past, On(cfg)), Played(past, Off(cfg)), run[|run| - 1], cfg, d);
    }
  }

  lemma {:induction false} SameCrowd(run: seq<Move>, cfg: Setup, n: nat, d: real)
    requires d <= 1.0 && CountsWithin(run, On(cfg), d) && AtMost(run, On(cfg), n)
    ensures AtMost(run, Off(cfg), n)
  {
    PromptCountsIgnoreExpiry(run, cfg, d);
    if run != [] {
      SameCrowd(run[..|run| - 1], cfg, n, d);
    }
  }

  /**
   So for counts within a second the limiter as it is keeps the bound of one whose key never expires: no half-open
   interval of length `window` sees more than limit + 2n - 2 admissions.
   */
  lemma {:induction false} PromptOverAdmissionIsBounded(run: seq<Move>, cfg: Setup, n: nat, from: real)
    requires cfg.limit >= 1 && n >= 1 && AtMost(run, On(cfg), n) && CountsWithin(run, On(cfg), 1.0)
    ensures |Within(Played(run, On(cfg)).admitted, from, cfg.window)| <= cfg.limit + 2 * n - 2
  {
    PromptCountsIgnoreExpiry(run, cfg, 1.0);
    SameCrowd(run, cfg, n, 1.0);
    UnexpiringOverAdmissionIsBounded(run, Off(cfg), n, from);
  }

  // ---------------------------------------------------------------- a second is all there is

  lemma {:induction false} ThreeMore(run: seq<Move>, a: Move, b: Move, c: Move, cfg: Setup)
    ensures Played(run + [a, b, c], cfg) == Then(Then(Then(Played(run, cfg), a, cfg), b, cfg), c, cfg)
  {
    var x, y, z := run + [a], run + [a, b], run + [a, b, c];
    assert x[..|run|] == run && y[..|run| + 1] == x && z[..|run| + 2] == y;
    assert Played(x, cfg) == Then(Played(run, cfg), a, cfg);
    assert Played(y, cfg) == Then(Played(x, cfg), b, cfg);
    assert Played(z, cfg) == Then(Played(y, cfg), c, cfg);
  }

  lemma {:induction false} ThreeMoreWithin(run: seq<Move>, a: Move, b: Move, c: Move, cfg: Setup, d: real)
    requires CountsWithin(run, cfg, d) && !a.Tally? && !c.Tally?
    requires Prompt(Then(Played(run, cfg), a, cfg), b, d)
    ensures CountsWithin(run + [a, b, c], cfg, d)
  {
    var x, y, z := run + [a], run + [a, b], run + [a, b, c];
    assert x[..|run|] == run && y[..|run| + 1] == x && z[..|run| + 2] == y;
    assert CountsWithin(x, cfg, d) && CountsWithin(y, cfg, d);
  }

  /** A call looks at `reading`, counts at `at`, and adds: the scenes it goes through. */
  ghost predicate Latecomer(s: Scene, a: Scene, b: Scene, c: Scene, id: int, reading: real, at: real, cfg: Setup) {
    && a == Then(s, Look(id, reading), cfg)
    && b == Then(a, Tally(id, at, NoFault), cfg)
    && c == Then(b, Store(id, at, NoFault), cfg)
  }

  lemma {:induction false} LookIs(s: Scene, id: int, at: real, cfg: Setup)
    requires id !in s.seen && s.clock <= at
    ensures Then(s, Look(id, at), cfg) == DoLook(s, id, at)
  {
  }

  lemma {:induction false} PassedScene(s: Scene, id: int, at: real, cfg: Setup)
    requires May(s, Tally(id, at, NoFault)) && |Tallied(s, s.ready[id], at, cfg).members| < cfg.limit
    ensures id in Then(s, Tally(id, at, NoFault), cfg).inFlight && Then(s, Tally(id, at, NoFault), cfg).clock == at
  {
  }

  lemma {:induction false} StoredScene(s: Scene, id: int, at: real, cfg: Setup)
    requires id in s.inFlight && s.clock == at
    ensures id in Then(s, Store(id, at, NoFault), cfg).admitted
  {
  }

  /** With expiry the latecomer finds the key dead and is admitted ... */
  lemma {:induction false} LatecomerEnters(
      s: Scene, a: Scene, b: Scene, c: Scene, id: int, reading: real, at: real, cfg: Setup)
    requires Latecomer(s, a, b, c, id, reading, at, cfg) && id !in s.seen && s.clock <= reading <= at
    requires cfg.expiry && cfg.limit >= 1 && s.z.expiresAt <= at
    ensures id in c.admitted
  {
    LookIs(s, id, reading, cfg);
    DeadSetIsEmpty(a, reading, at, cfg);
    PassedScene(a, id, at, cfg);
    StoredScene(b, id, at, cfg);
  }

  /** ... without expiry it finds the set full ... */
  lemma {:induction false} NothingPruned(s: Scene, reading: real, at: real, cfg: Setup)
    requires !cfg.expiry && reading < cfg.window && forall i :: i in s.z.members ==> s.z.members[i] >= 0.0
    ensures Tallied(s, reading, at, cfg).members == s.z.members
  {
  }

  lemma {:induction false} RefusedScene(s: Scene, id: int, at: real, cfg: Setup)
    requires May(s, Tally(id, at, NoFault)) && |Tallied(s, s.ready[id], at, cfg).members| >= cfg.limit
    ensures Then(s, Tally(id, at, NoFault), cfg).inFlight == s.inFlight
    ensures Then(s, Tally(id, at, NoFault), cfg).admitted == s.admitted
  {
  }

  lemma {:induction false} StrangerCannotStore(s: Scene, id: int, at: real, cfg: Setup)
    requires id !in s.inFlight
    ensures Then(s, Store(id, at, NoFault), cfg) == s
  {
  }

  /** ... and is not. */
  lemma {:induction false} LatecomerStaysOut(
      s: Scene, a: Scene, b: Scene, c: Scene, id: int, reading: real, at: real, cfg: Setup)
    requires Latecomer(s, a, b, c, id, reading, at, cfg) && id !in s.seen && s.clock <= reading <= at
    requires id !in s.inFlight && id !in s.admitted
    requires !cfg.expiry && |s.z.members| >= cfg.limit && reading < cfg.window
    requires forall i :: i in s.z.members ==> s.z.members[i] >= 0.0
    ensures id !in c.admitted
  {
    LookIs(s, id, reading, cfg);
    NothingPruned(a, reading, at, cfg);
    RefusedScene(a, id, at, cfg);
    StrangerCannotStore(b, id, at, cfg);
  }

  lemma {:induction false} MembersAreTimed(s: Scene, window: real)
    requires Intact(s, window) && Timed(s)
    ensures forall i :: i in s.z.members ==> s.z.members[i] >= 0.0
    ensures s.inFlight.Keys <= s.seen && s.admitted.Keys <= s.seen
  {
    forall i | i in s.admitted ensures i in s.seen {
      assert i in s.stored;
    }
  }

  /** A full set at time 0 that both protocols agree on. */
  lemma {:induction false} FullSet(cfg: Setup, d: real) returns (run: seq<Move>)
    requires cfg.limit >= 1 && cfg.window > 0.0 && 0.0 <= d
    ensures CountsWithin(run, On(cfg), 0.0) && CountsWithin(run, On(cfg), d)
    ensures Gathered(Played(run, On(cfg)), cfg.limit, 0, 0, cfg.window)
    ensures Played(run, Off(cfg)).clock == 0.0 && |Played(run, Off(cfg)).z.members| >= cfg.limit
    ensures Played(run, Off(cfg)).seen == Played(run, On(cfg)).seen
  {
    var s := FillUp(cfg.limit, On(cfg), 1, 0.0);
    run :| Leads(run, s, On(cfg), 1, 0.0);
    CountsWithinMore(run, On(cfg), 0.0, d);
    PromptCountsIgnoreExpiry(run, cfg, 0.0);
    MapCard(s.z.members, Played(run, Off(cfg)).z.members);
  }

  lemma {:induction false} CountsWithinMore(run: seq<Move>, cfg: Setup, d: real, d': real)
    requires CountsWithin(run, cfg, d) && d <= d'
    ensures CountsWithin(run, cfg, d')
  {
    if run != [] {
      CountsWithinMore(run[..|run| - 1], cfg, d, d');
    }
  }

  /** The run that tells: with counts more than a second late, expiry admits a call that is refused without. */
  lemma {:induction false} LateCountSeesExpiry(cfg: Setup, d: real) returns (run: seq<Move>, id: int)
    requires cfg.limit >= 1 && cfg.window > 0.0 && d > 1.0
    ensures CountsWithin(run, On(cfg), d)
    ensures id in Played(run, On(cfg)).admitted && id !in Played(run, Off(cfg)).admitted
  {
    var full := FullSet(cfg, d);
    var late := if d <= cfg.window + 1.0 then d else cfg.window + 1.0;
    var s, t := Played(full, On(cfg)), Played(full, Off(cfg));
    SeenBelowTop(full, On(cfg));
    id := Top(full);
    var reading, at := cfg.window + 1.0 - late, cfg.window + 1.0;
    run := full + [Look(id, reading), Tally(id, at, NoFault), Store(id, at, NoFault)];
    var a, b, c := OneLatecomer(full, id, reading, at, On(cfg));
    LatecomerEnters(s, a, b, c, id, reading, at, On(cfg));
    LookIs(s, id, reading, On(cfg));
    ThreeMoreWithin(full, Look(id, reading), Tally(id, at, NoFault), Store(id, at, NoFault), On(cfg), d);
    a, b, c := OneLatecomer(full, id, reading, at, Off(cfg));
    AlwaysIntact(full, Off(cfg));
    AlwaysTimed(full, Off(cfg));
    MembersAreTimed(t, cfg.window);
    LatecomerStaysOut(t, a, b, c, id, reading, at, Off(cfg));
  }

  lemma {:induction false} OneLatecomer(run: seq<Move>, id: int, reading: real, at: real, cfg: Setup)
    returns (a: Scene, b: Scene, c: Scene)
    ensures Latecomer(Played(run, cfg), a, b, c, id, reading, at, cfg)
    ensures Played(run + [Look(id, reading), Tally(id, at, NoFault), Store(id, at, NoFault)], cfg) == c
  {
    ThreeMore(run, Look(id, reading), Tally(id, at, NoFault), Store(id, at, NoFault), cfg);
    a := Then(Played(run, cfg), Look(id, reading), cfg);
    b := Then(a, Tally(id, at, NoFault), cfg);
    c := Then(b, Store(id, at, NoFault), cfg);
  }

  /**
   The exact condition: all runs whose counts come at most d after their clock readings get the same answers with
   and without expiry if and only if d is at most one second, whatever the limit and the window.
   */
  lemma {:induction false} ExpiryIsInvisibleIff(cfg: Setup, d: real)
    requires cfg.limit >= 1 && cfg.window > 0.0
    ensures (forall run :: CountsWithin(run, On(cfg), d) ==> SameAnswers(Played(run, On(cfg)), Played(run, Off(cfg))))
       <==> d <= 1.0
  {
    if d <= 1.0 {
      forall run | CountsWithin(run, On(cfg), d) ensures SameAnswers(Played(run, On(cfg)), Played(run, Off(cfg))) {
        PromptCountsIgnoreExpiry(run, cfg, d);
      }
    } else {
      var run, id := LateCountSeesExpiry(cfg, d);
    }
  }
}
