/**
 The Redis limiter with its clock reading as a step of its own, as the code has it: a caller reads the clock, and only
 later, perhaps much later, prunes and counts with that reading, and later still adds. Fail-closed. Calls for one
 key interleave freely and any pipeline may fail.
 */
module StaleClock {
  import opened RedisLimiter
  import WindowSpec
  import opened RedisProtocol

  /** `expiry` switches Redis' own expiry of the key off, to compare runs with and without it. */
  datatype Setup = Setup(limit: int, window: real, expiry: bool)

  datatype Move =
    | Look(id: int, at: real)
    | Tally(id: int, at: real, fault: Fault)
    | Store(id: int, at: real, fault: Fault)

  /** `ready`: calls that have read the clock and not yet counted; the rest as in the two-step protocol. */
  datatype Scene = Scene(
    z: SortedSet, ready: map<int, real>, inFlight: map<int, real>, stored: map<int, real>, admitted: map<int, real>,
    seen: set<int>, clock: real)

  const OPENING := Scene(EMPTY, map[], map[], map[], map[], {}, 0.0)

  predicate May(s: Scene, e: Move) {
    e.at >= s.clock &&
    match e
    case Look(id, _) => id !in s.seen
    case Tally(id, _, _) => id in s.ready
    case Store(id, _, _) => id in s.inFlight
  }

  function DoLook(s: Scene, id: int, at: real): Scene {
    s.(ready := s.ready[id := at], seen := s.seen + {id}, clock := at)
  }

  /** What Redis holds at time `at`. */
  function Shown(s: Scene, at: real, cfg: Setup): SortedSet {
    if cfg.expiry then Visible(s.z, at) else s.z
  }

  /** The set at time `at`, pruned with the clock reading of the call. */
  function Tallied(s: Scene, reading: real, at: real, cfg: Setup): SortedSet {
    Prune(Shown(s, at, cfg), reading, cfg.window)
  }

  /** A counting call that found `z`. */
  function Decided(s: Scene, id: int, at: real, z: SortedSet, fault: Fault, limit: int): Scene
    requires id in s.ready
  {
    var done := s.(ready := s.ready - {id}, clock := at);
    match fault
    case LostRequest => done
    case LostReply => done.(z := z)
    case NoFault =>
      if |z.members| >= limit then done.(z := z)
      else done.(z := z, inFlight := s.inFlight[id := s.ready[id]])
  }

  function DoTally(s: Scene, id: int, at: real, fault: Fault, cfg: Setup): Scene
    requires id in s.ready
  {
    Decided(s, id, at, Tallied(s, s.ready[id], at, cfg), fault, cfg.limit)
  }

  function DoStore(s: Scene, id: int, at: real, fault: Fault, cfg: Setup): Scene
    requires id in s.inFlight
  {
    var score := s.inFlight[id];
    var done := s.(inFlight := s.inFlight - {id}, clock := at);
    var added := done.(z := Insert(Shown(s, at, cfg), id, score, at, cfg.window), stored := s.stored[id := score]);
    match fault
    case LostRequest => done
    case LostReply => added
    case NoFault => added.(admitted := s.admitted[id := score])
  }

  function Then(s: Scene, e: Move, cfg: Setup): Scene {
    if !May(s, e) then s
    else
      match e
      case Look(id, at) => DoLook(s, id, at)
      case Tally(id, at, fault) => DoTally(s, id, at, fault, cfg)
      case Store(id, at, fault) => DoStore(s, id, at, fault, cfg)
  }

  function Played(run: seq<Move>, cfg: Setup): Scene {
    if run == [] then OPENING else Then(Played(run[..|run| - 1], cfg), run[|run| - 1], cfg)
  }

  /** At no point of the run are more than `n` calls between their clock reading and their add. */
  ghost predicate AtMost(run: seq<Move>, cfg: Setup, n: nat) {
    && |Played(run, cfg).ready| + |Played(run, cfg).inFlight| <= n
    && (run != [] ==> AtMost(run[..|run| - 1], cfg, n))
  }

  /** This step is no count that comes more than `d` after its call's clock reading. */
  predicate Prompt(s: Scene, e: Move, d: real) {
    May(s, e) && e.Tally? ==> e.at - s.ready[e.id] <= d
  }

  /** Every count of the run comes at most `d` after its call's clock reading. */
  ghost predicate CountsWithin(run: seq<Move>, cfg: Setup, d: real) {
    run == [] || (
      && CountsWithin(run[..|run| - 1], cfg, d)
      && Prompt(Played(run[..|run| - 1], cfg), run[|run| - 1], d))
  }

  // ---------------------------------------------------------------- what every step keeps

  ghost predicate Intact(s: Scene, window: real) {
    && s.ready.Keys <= s.seen && s.inFlight.Keys <= s.seen && s.stored.Keys <= s.seen
    && s.ready.Keys !! s.inFlight.Keys && s.ready.Keys !! s.stored.Keys && s.inFlight.Keys !! s.stored.Keys
    && s.z.members.Keys <= s.stored.Keys
    && (forall i :: i in s.ready ==> s.ready[i] <= s.clock)
    && (forall i :: i in s.inFlight ==> s.inFlight[i] <= s.clock)
    && (forall i :: i in s.z.members ==> s.z.members[i] == s.stored[i])
    && (forall i :: i in s.z.members ==> s.z.members[i] <= s.clock)
    && (forall i :: i in s.z.members ==> s.z.members[i] <= s.z.expiresAt - window - 1.0)
    // a stored call that is gone from the sorted set had left the window of the latest clock
    && (forall i :: i in s.stored && i !in s.z.members ==> s.stored[i] <= s.clock - window)
    && (forall i :: i in s.admitted ==> i in s.stored && s.stored[i] == s.admitted[i])
  }

  lemma {:induction false} LookKeepsIntact(s: Scene, id: int, at: real, window: real)
    requires Intact(s, window) && May(s, Look(id, at))
    ensures Intact(DoLook(s, id, at), window)
  {
  }

  lemma {:induction false} TallyingKeepsIntact(s: Scene, reading: real, at: real, cfg: Setup)
    requires Intact(s, cfg.window) && s.clock <= at && reading <= at
    ensures Intact(s.(z := Tallied(s, reading, at, cfg), clock := at), cfg.window)
  {
  }

  lemma {:induction false} WaitingKeepsIntact(s: Scene, at: real, window: real)
    requires Intact(s, window) && s.clock <= at
    ensures Intact(s.(clock := at), window)
  {
  }

  lemma {:induction false} PassingKeepsIntact(s: Scene, id: int, window: real)
    requires Intact(s, window) && id in s.ready
    ensures Intact(s.(ready := s.ready - {id}), window)
    ensures Intact(s.(ready := s.ready - {id}, inFlight := s.inFlight[id := s.ready[id]]), window)
  {
  }

  lemma {:induction false} DecidingKeepsIntact(
      s: Scene, id: int, at: real, z: SortedSet, fault: Fault, cfg: Setup)
    requires id in s.ready && Intact(s.(clock := at), cfg.window) && Intact(s.(z := z, clock := at), cfg.window)
    ensures Intact(Decided(s, id, at, z, fault, cfg.limit), cfg.window)
  {
    var a, b, left := s.(clock := at), s.(z := z, clock := at), s.ready - {id};
    PassingKeepsIntact(a, id, cfg.window);
    PassingKeepsIntact(b, id, cfg.window);
    assert Decided(s, id, at, z, fault, cfg.limit) in
      {a.(ready := left), b.(ready := left), b.(ready := left, inFlight := s.inFlight[id := s.ready[id]])};
  }

  lemma {:induction false} TallyKeepsIntact(s: Scene, id: int, at: real, fault: Fault, cfg: Setup)
    requires Intact(s, cfg.window) && May(s, Tally(id, at, fault))
    ensures Intact(DoTally(s, id, at, fault, cfg), cfg.window)
  {
    WaitingKeepsIntact(s, at, cfg.window);
    TallyingKeepsIntact(s, s.ready[id], at, cfg);
    DecidingKeepsIntact(s, id, at, Tallied(s, s.ready[id], at, cfg), fault, cfg);
  }

  lemma {:induction false} StoreKeepsIntact(s: Scene, id: int, at: real, fault: Fault, cfg: Setup)
    requires Intact(s, cfg.window) && May(s, Store(id, at, fault))
    ensures Intact(DoStore(s, id, at, fault, cfg), cfg.window)
  {
  }

  lemma {:induction false} AlwaysIntact(run: seq<Move>, cfg: Setup)
    ensures Intact(Played(run, cfg), cfg.window)
  {
    if run != [] {
      var s, e := Played(run[..|run| - 1], cfg), run[|run| - 1];
      AlwaysIntact(run[..|run| - 1], cfg);
      if May(s, e) {
        match e
        case Look(id, at) => LookKeepsIntact(s, id, at, cfg.window);
        case Tally(id, at, fault) => TallyKeepsIntact(s, id, at, fault, cfg);
        case Store(id, at, fault) => StoreKeepsIntact(s, id, at, fault, cfg);
      }
    }
  }

  /** No clock reading is negative. */
  ghost predicate Timed(s: Scene) {
    && 0.0 <= s.clock
    && (forall i :: i in s.ready ==> 0.0 <= s.ready[i])
    && (forall i :: i in s.inFlight ==> 0.0 <= s.inFlight[i])
    && (forall i :: i in s.stored ==> 0.0 <= s.stored[i])
  }

  lemma {:induction false} DecidingKeepsTimed(s: Scene, id: int, at: real, z: SortedSet, fault: Fault, limit: int)
    requires Timed(s) && id in s.ready && s.clock <= at
    ensures Timed(Decided(s, id, at, z, fault, limit))
  {
  }

  lemma {:induction false} StoringKeepsTimed(s: Scene, id: int, at: real, fault: Fault, cfg: Setup)
    requires Timed(s) && id in s.inFlight && s.clock <= at
    ensures Timed(DoStore(s, id, at, fault, cfg))
  {
  }

  lemma {:induction false} StepKeepsTimed(s: Scene, e: Move, cfg: Setup)
    requires Timed(s)
    ensures Timed(Then(s, e, cfg))
  {
    if May(s, e) {
      match e
      case Look(id, at) =>
      case Tally(id, at, fault) =>
        DecidingKeepsTimed(s, id, at, Tallied(s, s.ready[id], at, cfg), fault, cfg.limit);
      case Store(id, at, fault) => StoringKeepsTimed(s, id, at, fault, cfg);
    }
  }

  lemma {:induction false} AlwaysTimed(run: seq<Move>, cfg: Setup)
    ensures Timed(Played(run, cfg))
  {
    if run != [] {
      AlwaysTimed(run[..|run| - 1], cfg);
      StepKeepsTimed(Played(run[..|run| - 1], cfg), run[|run| - 1], cfg);
    }
  }

  // ---------------------------------------------------------------- the bound

  /** Calls of an interval that have been counted in. */
  function Filed(s: Scene, from: real, window: real): set<int> {
    Within(s.stored, from, window) + Within(s.inFlight, from, window)
  }

  /** ... and those that may still be. */
  function Pending(s: Scene, from: real, window: real): set<int> {
    Filed(s, from, window) + Within(s.ready, from, window)
  }

  /** While the interval lasts its filed calls are few; afterwards only calls that looked in time can join them. */
  ghost predicate Limited(s: Scene, cfg: Setup, n: nat, from: real) {
    && (s.clock < from + cfg.window ==> |Filed(s, from, cfg.window)| <= cfg.limit + n - 1)
    && |Pending(s, from, cfg.window)| <= cfg.limit + 2 * n - 1
  }

  lemma {:induction false} WithinCard(m: map<int, real>, from: real, window: real)
    ensures |Within(m, from, window)| <= |m|
  {
    WindowSpec.SubsetCard(Within(m, from, window), m.Keys);
    assert |m| == |m.Keys|;
  }

  lemma {:induction false} LookKeepsLimited(s: Scene, id: int, at: real, cfg: Setup, n: nat, from: real)
    requires Limited(s, cfg, n, from) && May(s, Look(id, at)) && |DoLook(s, id, at).ready| <= n
    ensures Limited(DoLook(s, id, at), cfg, n, from)
  {
    var t := DoLook(s, id, at);
    if at < from + cfg.window {
      WithinCard(t.ready, from, cfg.window);
      UnionCard(Filed(t, from, cfg.window), Within(t.ready, from, cfg.window));
    } else {
      forall i | i in Within(t.ready, from, cfg.window) ensures i in Within(s.ready, from, cfg.window) {
        assert i in t.ready;
      }
      WindowSpec.SubsetCard(Pending(t, from, cfg.window), Pending(s, from, cfg.window));
    }
  }

  /** While an interval lasts, nothing in it has left the set. */
  lemma {:induction false} FiledIsHeld(s: Scene, window: real, from: real)
    requires Intact(s, window) && s.clock < from + window
    ensures |Filed(s, from, window)| <= |s.z.members| + |s.inFlight|
  {
    forall i | i in Filed(s, from, window) ensures i in s.z.members || i in s.inFlight {
      assert i in s.stored || i in s.inFlight;
    }
    HeldCard(Filed(s, from, window), s.z.members, s.inFlight);
  }

  lemma {:induction false} DecidedEffect(
      s: Scene, id: int, at: real, z: SortedSet, fault: Fault, cfg: Setup, from: real)
    requires id in s.ready
    ensures Pending(Decided(s, id, at, z, fault, cfg.limit), from, cfg.window) <= Pending(s, from, cfg.window)
    ensures || Filed(Decided(s, id, at, z, fault, cfg.limit), from, cfg.window) == Filed(s, from, cfg.window)
            || |Decided(s, id, at, z, fault, cfg.limit).z.members| < cfg.limit
    ensures Decided(s, id, at, z, fault, cfg.limit).clock == at
  {
    var t := Decided(s, id, at, z, fault, cfg.limit);
    assert t.stored == s.stored && (t.inFlight == s.inFlight || t.inFlight == s.inFlight[id := s.ready[id]]);
    forall i | i in Pending(t, from, cfg.window) ensures i in Pending(s, from, cfg.window) {
      assert i in t.stored || i in t.inFlight || i in t.ready;
    }
  }

  /** A step that brings nobody new, and counts somebody in only where there is room, stays within the bound. */
  lemma {:induction false} StaysLimited(s: Scene, t: Scene, cfg: Setup, n: nat, from: real)
    requires Limited(s, cfg, n, from) && s.clock <= t.clock
         && Pending(t, from, cfg.window) <= Pending(s, from, cfg.window)
    requires Filed(t, from, cfg.window) <= Filed(s, from, cfg.window)
         || (Intact(t, cfg.window) && |t.z.members| < cfg.limit && |t.inFlight| <= n)
    ensures Limited(t, cfg, n, from)
  {
    WindowSpec.SubsetCard(Pending(t, from, cfg.window), Pending(s, from, cfg.window));
    if Filed(t, from, cfg.window) <= Filed(s, from, cfg.window) {
      WindowSpec.SubsetCard(Filed(t, from, cfg.window), Filed(s, from, cfg.window));
    } else if t.clock < from + cfg.window {
      FiledIsHeld(t, cfg.window, from);
    }
  }

  lemma {:induction false} TallyKeepsLimited(
      s: Scene, id: int, at: real, fault: Fault, cfg: Setup, n: nat, from: real)
    requires Intact(s, cfg.window) && Limited(s, cfg, n, from) && May(s, Tally(id, at, fault))
    requires |DoTally(s, id, at, fault, cfg).inFlight| <= n
    ensures Limited(DoTally(s, id, at, fault, cfg), cfg, n, from)
  {
    var t := DoTally(s, id, at, fault, cfg);
    DecidedEffect(s, id, at, Tallied(s, s.ready[id], at, cfg), fault, cfg, from);
    assert Intact(t, cfg.window) by { TallyKeepsIntact(s, id, at, fault, cfg); }
    StaysLimited(s, t, cfg, n, from);
  }

  lemma {:induction false} StoreEffect(s: Scene, id: int, at: real, fault: Fault, cfg: Setup, from: real)
    requires May(s, Store(id, at, fault))
    ensures Filed(DoStore(s, id, at, fault, cfg), from, cfg.window) <= Filed(s, from, cfg.window)
    ensures DoStore(s, id, at, fault, cfg).ready == s.ready
  {
    var t := DoStore(s, id, at, fault, cfg);
    forall i | i in Filed(t, from, cfg.window) ensures i in Filed(s, from, cfg.window) {
      assert i in t.stored || i in t.inFlight;
    }
  }

  lemma {:induction false} StoreKeepsLimited(
      s: Scene, id: int, at: real, fault: Fault, cfg: Setup, n: nat, from: real)
    requires Limited(s, cfg, n, from) && May(s, Store(id, at, fault))
    ensures Limited(DoStore(s, id, at, fault, cfg), cfg, n, from)
  {
    StoreEffect(s, id, at, fault, cfg, from);
    StaysLimited(s, DoStore(s, id, at, fault, cfg), cfg, n, from);
  }

  lemma {:induction false} AlwaysLimited(run: seq<Move>, cfg: Setup, n: nat, from: real)
    requires cfg.limit >= 1 && AtMost(run, cfg, n)
    ensures Limited(Played(run, cfg), cfg, n, from)
  {
    if run == [] {
      assert Pending(OPENING, from, cfg.window) == {} && Filed(OPENING, from, cfg.window) == {};
    } else {
      var s, e := Played(run[..|run| - 1], cfg), run[|run| - 1];
      AlwaysLimited(run[..|run| - 1], cfg, n, from);
      AlwaysIntact(run[..|run| - 1], cfg);
      if May(s, e) {
        match e
        case Look(id, at) => LookKeepsLimited(s, id, at, cfg, n, from);
        case Tally(id, at, fault) => TallyKeepsLimited(s, id, at, fault, cfg, n, from);
        case Store(id, at, fault) => StoreKeepsLimited(s, id, at, fault, cfg, n, from);
      }
    }
  }

  /**
   With clocks that may be stale by any amount the bound loosens, but holds: with at most n calls between clock
   reading and add, no half-open interval of length `window` sees more than limit + 2n - 1 admissions.
   */
  lemma {:induction false} StaleOverAdmissionIsBounded(run: seq<Move>, cfg: Setup, n: nat, from: real)
    requires cfg.limit >= 1 && AtMost(run, cfg, n)
    ensures |Within(Played(run, cfg).admitted, from, cfg.window)| <= cfg.limit + 2 * n - 1
  {
    var s := Played(run, cfg);
    AlwaysLimited(run, cfg, n, from);
    AlwaysIntact(run, cfg);
    forall i | i in Within(s.admitted, from, cfg.window) ensures i in Pending(s, from, cfg.window) {
      assert i in s.admitted && i in s.stored;
    }
    WindowSpec.SubsetCard(Within(s.admitted, from, cfg.window), Pending(s, from, cfg.window));
  }

  // ---------------------------------------------------------------- the size of the set

  /** Members and calls counted in together never exceed limit + n - 1, however stale the clocks. */
  ghost predicate Spacious(s: Scene, limit: int, n: nat) {
    |s.z.members| + |s.inFlight| <= limit + n - 1
  }

  lemma {:induction false} DecidingKeepsSpace(
      s: Scene, id: int, at: real, z: SortedSet, fault: Fault, limit: int, n: nat)
    requires id in s.ready && Spacious(s, limit, n) && z.members.Keys <= s.z.members.Keys
    requires |Decided(s, id, at, z, fault, limit).inFlight| <= n
    ensures Spacious(Decided(s, id, at, z, fault, limit), limit, n)
  {
    MapCard(z.members, s.z.members);
  }

  lemma {:induction false} StoringKeepsSpace(s: Scene, id: int, at: real, fault: Fault, cfg: Setup, n: nat)
    requires id in s.inFlight && Spacious(s, cfg.limit, n)
    ensures Spacious(DoStore(s, id, at, fault, cfg), cfg.limit, n)
  {
    var held := Shown(s, at, cfg).members;
    MapCard(held, s.z.members);
    MoveCard(held, s.inFlight, id);
  }

  lemma {:induction false} MoveCard(a: map<int, real>, b: map<int, real>, id: int)
    requires id in b
    ensures |a[id := b[id]]| + |b - {id}| <= |a| + |b|
    ensures |b - {id}| == |b| - 1
  {
    assert a[id := b[id]].Keys == a.Keys + {id} && b.Keys == (b - {id}).Keys + {id};
    assert |a[id := b[id]]| == |a[id := b[id]].Keys| && |a| == |a.Keys|;
    assert |b - {id}| == |(b - {id}).Keys| && |b| == |b.Keys|;
  }

  lemma {:induction false} AlwaysSpacious(run: seq<Move>, cfg: Setup, n: nat)
    requires cfg.limit >= 1 && AtMost(run, cfg, n)
    ensures Spacious(Played(run, cfg), cfg.limit, n)
  {
    if run != [] {
      var s, e := Played(run[..|run| - 1], cfg), run[|run| - 1];
      AlwaysSpacious(run[..|run| - 1], cfg, n);
      if May(s, e) {
        match e
        case Look(id, at) =>
        case Tally(id, at, fault) =>
          DecidingKeepsSpace(s, id, at, Tallied(s, s.ready[id], at, cfg), fault, cfg.limit, n);
        case Store(id, at, fault) => StoringKeepsSpace(s, id, at, fault, cfg, n);
      }
    }
  }

  // ---------------------------------------------------------------- the bound without expiry

  /** Every stored call of the interval is still in the set. */
  ghost predicate HoldsAll(s: Scene, from: real, window: real) {
    forall i :: i in Within(s.stored, from, window) ==> i in s.z.members
  }

  /**
   Only pruning takes calls of the interval out of the set, and only a call that looked after the interval can do
   it; while it is under way one call fewer of the interval can be.
   */
  ghost predicate Capped(s: Scene, limit: int, window: real, n: nat, from: real) {
    || (HoldsAll(s, from, window) && |Filed(s, from, window)| <= limit + n - 1)
    || (s.clock >= from + window && |Pending(s, from, window)| <= limit + 2 * n - 2)
  }

  lemma {:induction false} LateLookAddsNothing(s: Scene, id: int, at: real, window: real, from: real)
    requires at >= from + window
    ensures Pending(DoLook(s, id, at), from, window) <= Pending(s, from, window)
  {
    forall i | i in Within(DoLook(s, id, at).ready, from, window) ensures i in Within(s.ready, from, window) {
      assert i in DoLook(s, id, at).ready;
    }
  }

  lemma {:induction false} LookKeepsCapped(s: Scene, id: int, at: real, limit: int, window: real, n: nat, from: real)
    requires Capped(s, limit, window, n, from) && May(s, Look(id, at))
    ensures Capped(DoLook(s, id, at), limit, window, n, from)
  {
    var t := DoLook(s, id, at);
    if !(HoldsAll(s, from, window) && |Filed(s, from, window)| <= limit + n - 1) {
      LateLookAddsNothing(s, id, at, window, from);
      WindowSpec.SubsetCard(Pending(t, from, window), Pending(s, from, window));
    }
  }

  lemma {:induction false} HeldFiledCard(s: Scene, from: real, window: real)
    requires HoldsAll(s, from, window)
    ensures |Filed(s, from, window)| <= |s.z.members| + |s.inFlight|
  {
    HeldCard(Filed(s, from, window), s.z.members, s.inFlight);
  }

  /** A call that looked after the interval leaves room for one pending call of the interval fewer. */
  lemma {:induction false} OutsiderCard(s: Scene, id: int, window: real, from: real)
    requires id in s.ready && id !in Within(s.ready, from, window)
    ensures |Pending(s, from, window)| <= |Filed(s, from, window)| + |s.ready| - 1
  {
    var others := s.ready - {id};
    assert Within(s.ready, from, window) <= others.Keys;
    WindowSpec.SubsetCard(Within(s.ready, from, window), others.Keys);
    assert |others| == |others.Keys|;
    MoveCard(map[], s.ready, id);
    UnionCard(Filed(s, from, window), Within(s.ready, from, window));
  }

  lemma {:induction false} PruningHolds(s: Scene, reading: real, window: real, from: real)
    requires Intact(s, window) && HoldsAll(s, from, window) && reading < from + window
    ensures HoldsAll(s.(z := Prune(s.z, reading, window)), from, window)
  {
  }

  lemma {:induction false} DecidedHolds(
      s: Scene, id: int, at: real, z: SortedSet, fault: Fault, limit: int, window: real, from: real)
    requires id in s.ready && HoldsAll(s, from, window) && HoldsAll(s.(z := z), from, window)
    ensures HoldsAll(Decided(s, id, at, z, fault, limit), from, window)
  {
  }

  lemma {:induction false} TallyKeepsCapped(
      s: Scene, id: int, at: real, fault: Fault, cfg: Setup, n: nat, from: real)
    requires !cfg.expiry && Intact(s, cfg.window) && Capped(s, cfg.limit, cfg.window, n, from)
    requires May(s, Tally(id, at, fault)) && |s.ready| <= n && |DoTally(s, id, at, fault, cfg).inFlight| <= n
    ensures Capped(DoTally(s, id, at, fault, cfg), cfg.limit, cfg.window, n, from)
  {
    var t, w := DoTally(s, id, at, fault, cfg), cfg.window;
    var z, reading := Tallied(s, s.ready[id], at, cfg), s.ready[id];
    DecidedEffect(s, id, at, z, fault, cfg, from);
    WindowSpec.SubsetCard(Pending(t, from, w), Pending(s, from, w));
    if HoldsAll(s, from, w) && |Filed(s, from, w)| <= cfg.limit + n - 1 {
      if reading < from + w {
        PruningHolds(s, reading, w, from);
        DecidedHolds(s, id, at, z, fault, cfg.limit, w, from);
        HeldFiledCard(t, from, w);
      } else {
        OutsiderCard(s, id, w, from);
      }
    }
  }

  lemma {:induction false} StoreHolds(s: Scene, id: int, at: real, fault: Fault, cfg: Setup, from: real)
    requires !cfg.expiry && id in s.inFlight && HoldsAll(s, from, cfg.window)
    ensures HoldsAll(DoStore(s, id, at, fault, cfg), from, cfg.window)
  {
    var t := DoStore(s, id, at, fault, cfg);
    forall i | i in Within(t.stored, from, cfg.window) ensures i in t.z.members {
      assert i == id || i in Within(s.stored, from, cfg.window);
    }
  }

  lemma {:induction false} StoreKeepsCapped(
      s: Scene, id: int, at: real, fault: Fault, cfg: Setup, n: nat, from: real)
    requires !cfg.expiry && Capped(s, cfg.limit, cfg.window, n, from) && May(s, Store(id, at, fault))
    ensures Capped(DoStore(s, id, at, fault, cfg), cfg.limit, cfg.window, n, from)
  {
    var t := DoStore(s, id, at, fault, cfg);
    StoreEffect(s, id, at, fault, cfg, from);
    WindowSpec.SubsetCard(Filed(t, from, cfg.window), Filed(s, from, cfg.window));
    WindowSpec.SubsetCard(Pending(t, from, cfg.window), Pending(s, from, cfg.window));
    if HoldsAll(s, from, cfg.window) {
      StoreHolds(s, id, at, fault, cfg, from);
    }
  }

  lemma {:induction false} AlwaysCapped(run: seq<Move>, cfg: Setup, n: nat, from: real)
    requires !cfg.expiry && cfg.limit >= 1 && AtMost(run, cfg, n)
    ensures Capped(Played(run, cfg), cfg.limit, cfg.window, n, from)
  {
    if run == [] {
      assert Filed(OPENING, from, cfg.window) == {};
    } else {
      var s, e := Played(run[..|run| - 1], cfg), run[|run| - 1];
      AlwaysCapped(run[..|run| - 1], cfg, n, from);
      AlwaysIntact(run[..|run| - 1], cfg);
      if May(s, e) {
        match e
        case Look(id, at) => LookKeepsCapped(s, id, at, cfg.limit, cfg.window, n, from);
        case Tally(id, at, fault) => TallyKeepsCapped(s, id, at, fault, cfg, n, from);
        case Store(id, at, fault) => StoreKeepsCapped(s, id, at, fault, cfg, n, from);
      }
    }
  }

  /** Were the key never to expire, one admission fewer could happen: no more than limit + 2n - 2. */
  lemma {:induction false} UnexpiringOverAdmissionIsBounded(run: seq<Move>, cfg: Setup, n: nat, from: real)
    requires !cfg.expiry && cfg.limit >= 1 && n >= 1 && AtMost(run, cfg, n)
    ensures |Within(Played(run, cfg).admitted, from, cfg.window)| <= cfg.limit + 2 * n - 2
  {
    var s, w := Played(run, cfg), cfg.window;
    AlwaysCapped(run, cfg, n, from);
    AlwaysIntact(run, cfg);
    forall i | i in Within(s.admitted, from, w) ensures i in Filed(s, from, w) {
      assert i in s.admitted && i in s.stored;
    }
    WindowSpec.SubsetCard(Within(s.admitted, from, w), Filed(s, from, w));
    WindowSpec.SubsetCard(Filed(s, from, w), Pending(s, from, w));
  }

  // ---------------------------------------------------------------- the two-step protocol is the special case

  function TwoStep(cfg: Setup): Config { Config(cfg.limit, cfg.window, false, cfg.expiry) }

  function Project(s: Scene): State {
    State(s.z, s.inFlight, s.stored, s.admitted, s.seen, s.clock)
  }

  /** A call that counts at the instant it looks makes the read step of the two-step protocol. */
  lemma {:induction false} PromptCallsRead(s: Scene, id: int, at: real, fault: Fault, cfg: Setup)
    requires Intact(s, cfg.window) && May(s, Look(id, at))
    ensures Project(Then(DoLook(s, id, at), Tally(id, at, fault), cfg))
         == Next(Project(s), Read(id, at, fault), TwoStep(cfg))
    ensures Then(DoLook(s, id, at), Tally(id, at, fault), cfg).ready == s.ready
  {
    var z := Counted(Project(s), at, TwoStep(cfg));
    LookThenTally(s, id, at, fault, cfg);
    DecidedIsRead(s, id, at, z, fault, cfg);
    ReadIsOutcome(Project(s), id, at, z, fault, TwoStep(cfg));
    DecidedLeaves(s, id, at, z, fault, cfg.limit);
  }

  lemma {:induction false} ReadIsOutcome(p: State, id: int, at: real, z: SortedSet, fault: Fault, c: Config)
    requires Enabled(p, Read(id, at, fault)) && z == Counted(p, at, c)
    ensures Next(p, Read(id, at, fault), c) == ReadOutcome(p, id, at, z, fault, c)
  {
  }

  lemma {:induction false} DecidedLeaves(s: Scene, id: int, at: real, z: SortedSet, fault: Fault, limit: int)
    requires id !in s.ready
    ensures Decided(DoLook(s, id, at), id, at, z, fault, limit).ready == s.ready
  {
    assert s.ready[id := at] - {id} == s.ready;
  }

  lemma {:induction false} LookThenTally(s: Scene, id: int, at: real, fault: Fault, cfg: Setup)
    requires May(s, Look(id, at))
    ensures Then(DoLook(s, id, at), Tally(id, at, fault), cfg)
         == Decided(DoLook(s, id, at), id, at, Counted(Project(s), at, TwoStep(cfg)), fault, cfg.limit)
  {
    assert Tallied(DoLook(s, id, at), at, at, cfg) == Counted(Project(s), at, TwoStep(cfg));
  }

  lemma {:induction false} DecidedIsRead(
      s: Scene, id: int, at: real, z: SortedSet, fault: Fault, cfg: Setup)
    ensures Project(Decided(DoLook(s, id, at), id, at, z, fault, cfg.limit))
         == ReadOutcome(Project(s), id, at, z, fault, TwoStep(cfg))
  {
  }

  /** And its add is the add step. */
  lemma {:induction false} StoresAreAdds(s: Scene, id: int, at: real, fault: Fault, cfg: Setup)
    ensures Project(Then(s, Store(id, at, fault), cfg))
         == Next(Project(s), Add(id, at, fault), TwoStep(cfg))
  {
  }
}
