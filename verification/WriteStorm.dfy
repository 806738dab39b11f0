/**
 The write-storm lab: one events table, a write budget, and the ledger a live run reports. The row count
 rests on event ids that never collide, within a batch or between tenants.
 */
module WriteStorm {
  import opened Text
  import opened LikePattern
  import GovernanceDb

  const WRITE_STORM_ID_PREFIX := "boundary-layer-write-storm-"
  const HARDENED_WRITE_BUDGET := 50
  const MIN_REQUESTED_WRITES := 1
  const MAX_REQUESTED_WRITES := 1000

  // ---------------------------------------------------------------- zero-padded numbers

  function Digit(d: int): char
    requires 0 <= d < 10
  {
    ('0' as int + d) as char
  }

  function Decimal(n: nat): string {
    if n < 10 then [Digit(n)] else Decimal(n / 10) + [Digit(n % 10)]
  }

  function Pad(s: string, width: nat): string
    decreases width - |s|
  {
    if |s| < width then Pad("0" + s, width) else s
  }

  /** The format `{index:05d}`. */
  function Index(n: nat): string { Pad(Decimal(n), 5) }

  function Value(s: string): int {
    if s == "" then 0 else 10 * Value(s[..|s| - 1]) + (s[|s| - 1] as int - '0' as int)
  }

  lemma {:induction false} ValueOfDecimal(n: nat)
    ensures Value(Decimal(n)) == n && Lacks(Decimal(n), ':')
  {
    if n >= 10 {
      ValueOfDecimal(n / 10);
      assert Decimal(n)[..|Decimal(n)| - 1] == Decimal(n / 10);
    } else {
      assert [Digit(n)][..0] == "";
    }
  }

  lemma {:induction false} LeadingZero(s: string)
    ensures Value("0" + s) == Value(s)
  {
    if s == "" {
      assert "0" + s == "0" && "0"[..0] == "";
    } else {
      var n := |s| - 1;
      LeadingZero(s[..n]);
      assert ("0" + s)[..n + 1] == "0" + s[..n];
    }
  }

  lemma {:induction false} PadKeepsValue(s: string, width: nat)
    requires Lacks(s, ':')
    ensures Value(Pad(s, width)) == Value(s) && Lacks(Pad(s, width), ':')
    decreases width - |s|
  {
    if |s| < width {
      PadKeepsValue("0" + s, width);
      LeadingZero(s);
    }
  }

  /** Padding is read back: the number of a padded index is the index. */
  lemma {:induction false} IndexReadsBack(n: nat)
    ensures Value(Index(n)) == n && Lacks(Index(n), ':')
  {
    ValueOfDecimal(n);
    PadKeepsValue(Decimal(n), 5);
  }

  lemma {:induction false} DecimalDigits(n: nat, width: nat)
    requires n < Power(10, width) && width >= 1
    ensures 1 <= |Decimal(n)| <= width && forall i :: 0 <= i < |Decimal(n)| ==> '0' <= Decimal(n)[i] <= '9'
  {
    if n >= 10 {
      assert width > 1 && Power(10, width) == 10 * Power(10, width - 1);
      DecimalDigits(n / 10, width - 1);
    }
  }

  function Power(b: nat, e: nat): nat {
    if e == 0 then 1 else b * Power(b, e - 1)
  }

  lemma {:induction false} PadFills(s: string, width: nat)
    requires |s| <= width && forall i :: 0 <= i < |s| ==> '0' <= s[i] <= '9'
    ensures |Pad(s, width)| == width && forall i :: 0 <= i < width ==> '0' <= Pad(s, width)[i] <= '9'
    decreases width - |s|
  {
    if |s| < width {
      PadFills("0" + s, width);
    }
  }

  /** The index of any batch the lab can ask for is five decimal digits. */
  lemma {:induction false} IndexIsFiveDigits(n: nat)
    requires n < 100000
    ensures |Index(n)| == 5 && forall i :: 0 <= i < 5 ==> '0' <= Index(n)[i] <= '9'
  {
    assert Power(10, 5) == 100000 by {
      assert Power(10, 1) == 10 && Power(10, 2) == 100 && Power(10, 3) == 1000 && Power(10, 4) == 10000;
    }
    DecimalDigits(n, 5);
    PadFills(Decimal(n), 5);
  }

  // ---------------------------------------------------------------- ids

  function Prefix(tenant: string): string { WRITE_STORM_ID_PREFIX + tenant + ":" }

  function Pattern(tenant: string): string { Prefix(tenant) + "%" }

  function EventId(tenant: string, batch: string, i: nat): string {
    Prefix(tenant) + batch + "-event-" + Index(i)
  }

  /** What an event id looks like. */
  lemma {:induction false} EventIdIs(tenant: string, batch: string, i: nat)
    ensures EventId(tenant, batch, i) == "boundary-layer-write-storm-" + (tenant + ":" + (batch + "-event-" + Index(i)))
  {
    assert Prefix(tenant) + batch + "-event-" + Index(i) == Prefix(tenant) + (batch + "-event-" + Index(i));
  }

  /** An id issued to a tenant: its prefix, then no further colon. */
  ghost predicate IssuedTo(id: string, tenant: string) {
    exists rest :: Lacks(rest, ':') && id == Prefix(tenant) + rest
  }

  /** No id is issued to two tenants, whatever characters their names hold. */
  lemma {:induction false} OneIssuer(id: string, t: string, u: string)
    requires IssuedTo(id, t) && IssuedTo(id, u)
    ensures t == u
  {
    var h := WRITE_STORM_ID_PREFIX;
    var x :| Lacks(x, ':') && id == Prefix(t) + x;
    var y :| Lacks(y, ':') && id == Prefix(u) + y;
    assert id == h + (t + ":" + x) == h + (u + ":" + y);
    CancelHead(h, t + ":" + x, u + ":" + y);
    TailIsUnique(t, x, u, y, ':');
  }

  lemma {:induction false} EventIdIsIssued(tenant: string, batch: string, i: nat)
    requires Lacks(batch, ':')
    ensures IssuedTo(EventId(tenant, batch, i), tenant)
  {
    IndexReadsBack(i);
    var rest := batch + "-event-" + Index(i);
    assert EventId(tenant, batch, i) == Prefix(tenant) + rest;
    assert Lacks(rest, ':');
  }

  lemma {:induction false} EventIdsDiffer(tenant: string, batch: string, i: nat, j: nat)
    requires EventId(tenant, batch, i) == EventId(tenant, batch, j)
    ensures i == j
  {
    var h := Prefix(tenant) + batch + "-event-";
    CancelHead(h, Index(i), Index(j));
    IndexReadsBack(i);
    IndexReadsBack(j);
  }

  ghost function Batch(tenant: string, batch: string, n: nat): (ids: set<string>)
    ensures forall i: nat :: i < n ==> EventId(tenant, batch, i) in ids
    ensures forall id :: id in ids ==> exists i: nat :: i < n && id == EventId(tenant, batch, i)
  {
    if n == 0 then {} else Batch(tenant, batch, n - 1) + {EventId(tenant, batch, n - 1)}
  }

  lemma {:induction false} BatchCard(tenant: string, batch: string, n: nat)
    ensures |Batch(tenant, batch, n)| == n
  {
    if n > 0 {
      BatchCard(tenant, batch, n - 1);
      if EventId(tenant, batch, n - 1) in Batch(tenant, batch, n - 1) {
        var i: nat :| i < n - 1 && EventId(tenant, batch, n - 1) == EventId(tenant, batch, i);
        EventIdsDiffer(tenant, batch, n - 1, i);
      }
    }
  }

  // ---------------------------------------------------------------- the table

  datatype Event = Event(tenant: string, promptId: string, kind: string, payload: string)

  type Events = map<string, Event>

  function NewEvent(tenant: string, i: nat): Event {
    Event(tenant, GovernanceDb.PromptId(tenant), "prompt_log", "synthetic write storm event " + Decimal(i))
  }

  predicate Selected(events: Events, id: string, tenant: string)
    requires id in events
  {
    events[id].tenant == tenant && Like(id, Pattern(tenant))
  }

  function Reset(events: Events, tenant: string): Events {
    map id | id in events && !Selected(events, id, tenant) :: events[id]
  }

  /** INSERT ... ON CONFLICT (id) DO NOTHING */
  function PutNew(events: Events, id: string, e: Event): Events {
    if id in events then events else events[id := e]
  }

  /** The first `n` rows of a batch inserted. */
  function Insert(events: Events, n: nat, batch: string, tenant: string): Events {
    if n == 0 then events
    else PutNew(Insert(events, n - 1, batch, tenant), EventId(tenant, batch, n - 1), NewEvent(tenant, n - 1))
  }

  function Counted(events: Events, tenant: string): set<string> {
    set id | id in events && Selected(events, id, tenant)
  }

  /** Every old row is still there as it was, and the new ids all belong to the tenant. */
  predicate Grown(before: Events, after: Events, ids: set<string>, tenant: string) {
    && after.Keys == before.Keys + ids
    && (forall id :: id in before ==> after[id] == before[id])
    && (forall id :: id in after && id !in before ==> after[id].tenant == tenant)
  }

  lemma {:induction false} InsertAddsTheBatch(events: Events, n: nat, batch: string, tenant: string)
    ensures Grown(events, Insert(events, n, batch, tenant), Batch(tenant, batch, n), tenant)
  {
    if n > 0 {
      InsertAddsTheBatch(events, n - 1, batch, tenant);
      GrowByOne(events, Insert(events, n - 1, batch, tenant), Batch(tenant, batch, n - 1),
                EventId(tenant, batch, n - 1), NewEvent(tenant, n - 1));
    }
  }

  lemma {:induction false} GrowByOne(before: Events, mid: Events, ids: set<string>, id: string, e: Event)
    requires Grown(before, mid, ids, e.tenant)
    ensures Grown(before, PutNew(mid, id, e), ids + {id}, e.tenant)
  {
  }

  /** Row i of a batch says whose it is, which prompt it belongs to, and its own number. */
  lemma {:induction false} InsertedRowIs(events: Events, n: nat, batch: string, tenant: string, i: nat)
    requires i < n && EventId(tenant, batch, i) !in events
    ensures EventId(tenant, batch, i) in Insert(events, n, batch, tenant)
    ensures Insert(events, n, batch, tenant)[EventId(tenant, batch, i)]
         == Event(tenant, GovernanceDb.PromptId(tenant), "prompt_log", "synthetic write storm event " + Decimal(i))
  {
    var past := Insert(events, n - 1, batch, tenant);
    if i < n - 1 {
      InsertedRowIs(events, n - 1, batch, tenant, i);
      PutKeeps(past, EventId(tenant, batch, i), EventId(tenant, batch, n - 1), NewEvent(tenant, n - 1));
    } else {
      NotInsertedYet(events, n - 1, batch, tenant);
    }
  }

  lemma {:induction false} PutKeeps(events: Events, id: string, other: string, e: Event)
    requires id in events
    ensures id in PutNew(events, other, e) && PutNew(events, other, e)[id] == events[id]
  {
  }

  lemma {:induction false} NotInsertedYet(events: Events, n: nat, batch: string, tenant: string)
    requires EventId(tenant, batch, n) !in events
    ensures EventId(tenant, batch, n) !in Insert(events, n, batch, tenant)
  {
    InsertAddsTheBatch(events, n, batch, tenant);
    if EventId(tenant, batch, n) in Batch(tenant, batch, n) {
      var j: nat :| j < n && EventId(tenant, batch, n) == EventId(tenant, batch, j);
      EventIdsDiffer(tenant, batch, n, j);
    }
  }

  // ---------------------------------------------------------------- reachable tables

  datatype Op = ResetOp(tenant: string) | InsertOp(tenant: string, batch: string, n: nat)

  function Apply(events: Events, op: Op): Events {
    match op
    case ResetOp(t) => Reset(events, t)
    case InsertOp(t, batch, n) => Insert(events, n, batch, t)
  }

  function ApplyAll(events: Events, ops: seq<Op>): Events {
    if ops == [] then events else Apply(ApplyAll(events, ops[..|ops| - 1]), ops[|ops| - 1])
  }

  /** Batch names are hexadecimal, so they hold no colon. */
  predicate HexBatches(ops: seq<Op>) {
    forall k :: 0 <= k < |ops| && ops[k].InsertOp? ==> Lacks(ops[k].batch, ':')
  }

  /** Every row sits under an id issued to its own tenant. */
  ghost predicate Owned(events: Events) {
    forall id :: id in events ==> IssuedTo(id, events[id].tenant)
  }

  lemma {:induction false} InsertKeepsOwned(events: Events, n: nat, batch: string, tenant: string)
    requires Owned(events) && Lacks(batch, ':')
    ensures Owned(Insert(events, n, batch, tenant))
  {
    if n > 0 {
      InsertKeepsOwned(events, n - 1, batch, tenant);
      EventIdIsIssued(tenant, batch, n - 1);
    }
  }

  lemma {:induction false} ReachableIsOwned(events: Events, ops: seq<Op>)
    requires Owned(events) && HexBatches(ops)
    ensures Owned(ApplyAll(events, ops))
  {
    if ops != [] {
      var past, op := ops[..|ops| - 1], ops[|ops| - 1];
      ReachableIsOwned(events, past);
      if op.InsertOp? {
        InsertKeepsOwned(ApplyAll(events, past), op.n, op.batch, op.tenant);
      }
    }
  }

  /** The work of other tenants, none of it for `t`. */
  predicate Foreign(ops: seq<Op>, t: string) {
    HexBatches(ops) && forall k :: 0 <= k < |ops| ==> ops[k].tenant != t
  }

  lemma {:induction false} ForeignOpsKeepTheCount(events: Events, ops: seq<Op>, t: string)
    requires Foreign(ops, t)
    ensures Counted(ApplyAll(events, ops), t) == Counted(events, t)
  {
    if ops != [] {
      var past, op := ops[..|ops| - 1], ops[|ops| - 1];
      ForeignOpsKeepTheCount(events, past, t);
      if op.InsertOp? {
        InsertAddsTheBatch(ApplyAll(events, past), op.n, op.batch, op.tenant);
      }
    }
  }

  // ---------------------------------------------------------------- a live run

  datatype Report = Report(inserted: nat, blocked: nat, total: nat)

  datatype Outcome = Reported(report: Report) | InvalidRequest

  function Admitted(mode: string, requested: nat): nat {
    if mode == "vulnerable" || requested <= HARDENED_WRITE_BUDGET then requested else HARDENED_WRITE_BUDGET
  }

  /**
   The table when the run counts its rows, with `between` and `after` the work other tenants slip in around the
   insert.
   */
  function TableAtCount(
      events: Events, allowed: nat, batch: string, t: string, between: seq<Op>, after: seq<Op>): Events {
    ApplyAll(Insert(ApplyAll(Reset(events, t), between), allowed, batch, t), after)
  }

  /** The ids of the batch that the tenant's own pattern selects. */
  ghost function Matched(tenant: string, batch: string, n: nat): set<string> {
    set id | id in Batch(tenant, batch, n) && Like(id, Pattern(tenant))
  }

  /** The count of a run is the number of its own ids the pattern selects, whoever else works on the table. */
  lemma {:induction false} CountIsTheMatchedBatch(
      events: Events, n: nat, batch: string, t: string, between: seq<Op>, after: seq<Op>)
    requires Owned(events) && Lacks(batch, ':') && Foreign(between, t) && Foreign(after, t)
    ensures Counted(TableAtCount(events, n, batch, t, between, after), t) == Matched(t, batch, n)
  {
    var clean := Reset(events, t);
    var start := ApplyAll(clean, between);
    ReachableIsOwned(clean, between);
    ForeignOpsKeepTheCount(clean, between, t);
    assert Counted(start, t) == {};
    InsertAddsTheBatch(start, n, batch, t);
    var filled := Insert(start, n, batch, t);
    forall id | id in Matched(t, batch, n) ensures id in Counted(filled, t) {
      var i: nat :| i < n && id == EventId(t, batch, i);
      EventIdIsIssued(t, batch, i);
      if id in start {
        OneIssuer(id, t, start[id].tenant);
      }
    }
    assert Counted(filled, t) == Matched(t, batch, n);
    ForeignOpsKeepTheCount(filled, after, t);
  }

  /** The pattern of u selects all event ids of t or none, whatever batch and index. */
  lemma {:induction false} EventIdMatchesIff(t: string, batch: string, i: nat, u: string)
    requires Lacks(batch, ':')
    ensures Like(EventId(t, batch, i), Pattern(u)) <==> Reaches(u, t)
  {
    var rest := batch + "-event-" + Index(i);
    assert EventId(t, batch, i) == Prefix(t) + rest;
    IndexReadsBack(i);
    MatchesIffReaches(WRITE_STORM_ID_PREFIX, t, rest, u);
  }

  lemma {:induction false} MatchedIsAllOrNothing(t: string, batch: string, n: nat)
    requires Lacks(batch, ':')
    ensures Matched(t, batch, n) == if Reaches(t, t) then Batch(t, batch, n) else {}
  {
    forall i: nat | i < n ensures Like(EventId(t, batch, i), Pattern(t)) <==> Reaches(t, t) {
      EventIdMatchesIff(t, batch, i, t);
    }
  }

  /** On an owned table a reset takes all rows of a tenant that reaches itself, none of one that does not. */
  lemma {:induction false} ResetTakesOwnRows(events: Events, tenant: string)
    requires Owned(events)
    ensures forall id ::
      id in Reset(events, tenant) <==> id in events && !(events[id].tenant == tenant && Reaches(tenant, tenant))
    ensures forall id :: id in Reset(events, tenant) ==> Reset(events, tenant)[id] == events[id]
  {
    forall id | id in events && events[id].tenant == tenant
      ensures Like(id, Pattern(tenant)) <==> Reaches(tenant, tenant)
    {
      var rest :| Lacks(rest, ':') && id == Prefix(tenant) + rest;
      MatchesIffReaches(WRITE_STORM_ID_PREFIX, tenant, rest, tenant);
    }
  }

  /**
   On every owned table, with other tenants working in between and whatever the random batch name, the row count
   equals the reported insert count if and only if nothing was inserted or the tenant reaches itself; otherwise it is 0.
   */
  lemma {:induction false} LedgerBalancesIff(
      events: Events, n: nat, batch: string, t: string, between: seq<Op>, after: seq<Op>)
    requires Owned(events) && Lacks(batch, ':') && Foreign(between, t) && Foreign(after, t)
    ensures |Counted(TableAtCount(events, n, batch, t, between, after), t)| == n <==> n == 0 || Reaches(t, t)
    ensures !Reaches(t, t) ==> Counted(TableAtCount(events, n, batch, t, between, after), t) == {}
  {
    CountIsTheMatchedBatch(events, n, batch, t, between, after);
    MatchedIsAllOrNothing(t, batch, n);
    BatchCard(t, batch, n);
  }

  /**
   A tenant without a backslash always gets a balanced ledger: inserted plus blocked is what was requested, the
   rows counted are the rows inserted, and a hardened run leaves at most the budget.
   */
  lemma {:induction false} LedgerBalances(
      ops: seq<Op>, mode: string, requested: nat, batch: string, t: string, between: seq<Op>, after: seq<Op>)
    requires HexBatches(ops) && Lacks(batch, ':') && Foreign(between, t) && Foreign(after, t) && NoEscape(t)
    ensures var inserted := Admitted(mode, requested);
      var total := |Counted(TableAtCount(ApplyAll(map[], ops), inserted, batch, t, between, after), t)|;
      && total == inserted && inserted <= requested
      && (mode != "vulnerable" ==> total == if requested <= 50 then requested else 50)
      && (mode == "vulnerable" ==> total == requested)
  {
    ReachableIsOwned(map[], ops);
    EscapeFreeReachesItself(t);
    LedgerBalancesIff(ApplyAll(map[], ops), Admitted(mode, requested), batch, t, between, after);
  }

  /** The failing input: the tenant named by a backslash inserts rows and counts none of them. */
  lemma {:induction false} BackslashTenantCountsNothing(events: Events, n: nat, batch: string)
    requires Owned(events) && Lacks(batch, ':')
    ensures Counted(TableAtCount(events, n, batch, "\\", [], []), "\\") == {}
  {
    BackslashReachesNothingOfItself();
    LedgerBalancesIff(events, n, batch, "\\", [], []);
  }

  // ---------------------------------------------------------------- the procedures

  class EventStore {
    var events: Events

    method ResetWriteStormEvents(tenant: string)
      modifies this
      ensures events == Reset(old(events), tenant)
    {
      events := map id | id in events && !Selected(events, id, tenant) :: events[id];
    }

    method InsertWriteStormEvents(count: int, batch: string, tenant: string) returns (inserted: nat)
      modifies this
      ensures inserted == if count <= 0 then 0 else count
      ensures events == Insert(old(events), inserted, batch, tenant)
    {
      if count <= 0 {
        return 0;
      }
      var rows: seq<(string, Event)> := [];
      for i := 0 to count
        invariant |rows| == i
        invariant forall j :: 0 <= j < i ==> rows[j] == (EventId(tenant, batch, j), NewEvent(tenant, j))
      {
        rows := rows + [(EventId(tenant, batch, i), NewEvent(tenant, i))];
      }
      for i := 0 to |rows|
        invariant events == Insert(old(events), i, batch, tenant)
      {
        if rows[i].0 !in events {
          events := events[rows[i].0 := rows[i].1];
        }
      }
      inserted := count;
    }

    method CountWriteStormEvents(tenant: string) returns (total: nat)
      ensures total == |Counted(events, tenant)|
    {
      total := |set id | id in events && Selected(events, id, tenant)|;
    }

    /** A whole live run with the table to itself. */
    method RunWriteStormLab(mode: string, requested: int, batch: string, tenant: string) returns (r: Outcome)
      modifies this
      ensures r.InvalidRequest? <==> !(1 <= requested <= 1000)
      ensures r.InvalidRequest? ==> events == old(events)
      ensures r.Reported? ==>
        && r.report.inserted == (if mode == "vulnerable" || requested <= 50 then requested else 50)
        && r.report.inserted + r.report.blocked == requested
        && events == TableAtCount(old(events), r.report.inserted, batch, tenant, [], [])
        && r.report.total == |Counted(events, tenant)|
    {
      if requested < MIN_REQUESTED_WRITES || requested > MAX_REQUESTED_WRITES {
        return InvalidRequest;
      }
      ResetWriteStormEvents(tenant);
      var inserted, blocked, total;
      if mode == "vulnerable" {
        inserted := InsertWriteStormEvents(requested, batch, tenant);
        blocked := 0;
      } else {
        var allowed := if requested < HARDENED_WRITE_BUDGET then requested else HARDENED_WRITE_BUDGET;
        blocked := requested - allowed;
        inserted := InsertWriteStormEvents(allowed, batch, tenant);
      }
      total := CountWriteStormEvents(tenant);
      r := Reported(Report(inserted, blocked, total));
    }
  }
}
