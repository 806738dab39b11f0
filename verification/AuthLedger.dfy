/** The audit ledger of the auth gate over whole runs of requests. */
module AuthLedger {
  import opened Text
  import Jwks
  import opened AuthGate

  function Rows(s: Settings, run: seq<Request>): seq<Row> {
    if run == [] then [] else Rows(s, run[..|run| - 1]) + RequestRows(s, run[|run| - 1])
  }

  /** How many requests of a run have a property. */
  function Count(run: seq<Request>, f: Request -> bool): nat {
    if run == [] then 0 else Count(run[..|run| - 1], f) + if f(run[|run| - 1]) then 1 else 0
  }

  lemma {:induction false} CountIsZeroIff(run: seq<Request>, f: Request -> bool)
    ensures Count(run, f) == 0 <==> forall i :: 0 <= i < |run| ==> !f(run[i])
  {
    if run != [] {
      var n := |run| - 1;
      CountIsZeroIff(run[..n], f);
      assert forall i :: 0 <= i < n ==> run[..n][i] == run[i];
    }
  }

  /** Requests that got a context attached. */
  function Attached(s: Settings, run: seq<Request>): nat {
    Count(run, q => RequestReply(s, q).attached.Some?)
  }

  predicate IsDenial(r: Reply) { r.status == 401 || r.status == 403 }

  function Denials(s: Settings, run: seq<Request>): nat {
    Count(run, q => IsDenial(RequestReply(s, q)))
  }

  /** A 503 whose insert had already committed: its row is in the ledger, its caller was turned away. */
  predicate Stranded(s: Settings, q: Request) {
    && s.auditEnabled
    && if OverrideDenied(s, q) then q.second.CommittedThenFailed?
       else VerdictRow(Judge(s, q)).Some? && q.first.CommittedThenFailed?
  }

  function Strandings(s: Settings, run: seq<Request>): nat {
    Count(run, q => Stranded(s, q))
  }

  /** Requests turned away for their mode: a 403 without a row. */
  function Unrecorded(s: Settings, run: seq<Request>): nat {
    Count(run, q => VulnerableRefused(s, q))
  }

  lemma {:induction false} OneRequestBalances(s: Settings, q: Request)
    requires s.auditEnabled
    ensures |RequestRows(s, q)| + (if VulnerableRefused(s, q) then 1 else 0)
         == (if RequestReply(s, q).attached.Some? then 1 else 0) + (if IsDenial(RequestReply(s, q)) then 1 else 0)
          + (if Stranded(s, q) then 1 else 0)
    ensures Stranded(s, q) ==> RequestReply(s, q).status == 503
  {
    if OverrideDenied(s, q) {
      assert Judge(s, q).Admitted? && q.first.Committed?;
    }
  }

  /**
   The ledger: with auditing on, the rows committed by any run and its unrecorded refusals of a mode are the contexts
   attached plus the 401 and 403 replies plus the 503s whose insert failed only after its commit.
   */
  lemma {:induction false} LedgerBalances(s: Settings, run: seq<Request>)
    requires s.auditEnabled
    ensures |Rows(s, run)| + Unrecorded(s, run) == Attached(s, run) + Denials(s, run) + Strandings(s, run)
  {
    if run != [] {
      LedgerBalances(s, run[..|run| - 1]);
      OneRequestBalances(s, run[|run| - 1]);
    }
  }

  ghost predicate NoLateFailures(run: seq<Request>) {
    forall i :: 0 <= i < |run| ==> !run[i].first.CommittedThenFailed? && !run[i].second.CommittedThenFailed?
  }

  lemma {:induction false} NothingStranded(s: Settings, run: seq<Request>)
    requires NoLateFailures(run)
    ensures Strandings(s, run) == 0
  {
    forall i | 0 <= i < |run| ensures !Stranded(s, run[i]) {
    }
    CountIsZeroIff(run, q => Stranded(s, q));
  }

  /** No request of the run that enters the gate asks for a mode this environment refuses. */
  ghost predicate NobodyAsksForRefusedMode(s: Settings, run: seq<Request>) {
    forall i, ctx :: 0 <= i < |run| && Entitled(s, run[i], ctx) ==> !ModeRefused(s, run[i].endpoint)
  }

  ghost predicate Entitled(s: Settings, q: Request, ctx: AuthContext) {
    Proves(s, q, ctx) && MayEnter(q, ctx) && (s.auditEnabled ==> q.first.Committed?)
  }

  lemma {:induction false} RefusedIffEntitled(s: Settings, q: Request)
    ensures VulnerableRefused(s, q) <==> ModeRefused(s, q.endpoint) && exists ctx :: Entitled(s, q, ctx)
  {
    forall ctx ensures GateReply(s, q).attached == Some(ctx) <==> Entitled(s, q, ctx) {
      AttachedIffAdmitted(s, q, ctx);
      AttachedIffEntitled(s, q, ctx);
    }
    if VulnerableRefused(s, q) {
      assert Entitled(s, q, GateReply(s, q).attached.value);
    }
  }

  /**
   Rows equal contexts plus denials on a run with clean inserts if and only if none of its admitted requests asks
   for a refused mode.
   */
  lemma {:induction false} PlainBalanceIff(s: Settings, run: seq<Request>)
    requires s.auditEnabled && NoLateFailures(run)
    ensures |Rows(s, run)| == Attached(s, run) + Denials(s, run) <==> NobodyAsksForRefusedMode(s, run)
  {
    LedgerBalances(s, run);
    NothingStranded(s, run);
    CountIsZeroIff(run, q => VulnerableRefused(s, q));
    forall i | 0 <= i < |run|
      ensures VulnerableRefused(s, run[i])
           <==> ModeRefused(s, run[i].endpoint) && exists ctx :: Entitled(s, run[i], ctx)
    {
      RefusedIffEntitled(s, run[i]);
    }
  }

  /** On the runs without such requests, plain balance holds always if and only if auditing is on. */
  lemma {:induction false} PlainBalanceIffAudited(s: Settings)
    ensures (forall run :: NoLateFailures(run) && NobodyAsksForRefusedMode(s, run) ==>
               |Rows(s, run)| == Attached(s, run) + Denials(s, run))
       <==> s.auditEnabled
  {
    if s.auditEnabled {
      forall run | NoLateFailures(run) && NobodyAsksForRefusedMode(s, run)
        ensures |Rows(s, run)| == Attached(s, run) + Denials(s, run)
      {
        PlainBalanceIff(s, run);
      }
    } else {
      UnauditedDenial(s);
    }
  }

  lemma {:induction false} UnauditedDenial(s: Settings)
    requires !s.auditEnabled
    ensures exists run :: NoLateFailures(run) && NobodyAsksForRefusedMode(s, run)
                       && |Rows(s, run)| != Attached(s, run) + Denials(s, run)
  {
    var q := Request(None, NO_TOKEN, None, Listing, Committed, Committed);
    assert Judge(s, q) == NoToken;
    assert GateReply(s, q) == Reply(401, None, None) && GateRows(s, q) == [];
    assert RequestRows(s, q) == [] + [] && IsDenial(RequestReply(s, q));
    OneRequestRun(s, q);
    assert NoLateFailures([q]) && NobodyAsksForRefusedMode(s, [q]);
  }

  const NO_TOKEN := TokenFacts(false, None, 0.0, Jwks.Unreachable, Refused)

  lemma {:induction false} CountOfOne(q: Request, f: Request -> bool)
    ensures Count([q], f) == if f(q) then 1 else 0
  {
    assert [q][..0] == [];
  }

  lemma {:induction false} OneRequestRun(s: Settings, q: Request)
    ensures Rows(s, [q]) == RequestRows(s, q)
    ensures Attached(s, [q]) == if RequestReply(s, q).attached.Some? then 1 else 0
    ensures Denials(s, [q]) == if IsDenial(RequestReply(s, q)) then 1 else 0
  {
    CountOfOne(q, q => RequestReply(s, q).attached.Some?);
    CountOfOne(q, q => IsDenial(RequestReply(s, q)));
    assert [q][..0] == [];
    assert [] + RequestRows(s, q) == RequestRows(s, q);
  }

  // ---------------------------------------------------------------- a request that unbalances the ledger

  /** A member with a lab runner's token, under production settings, asking for the vulnerable mode. */
  const SETTINGS := Settings(true, "", "", "", [], "sub", "tenant", "roles", true, false)

  const CLAIMS: Claims := map["sub" := One(Str("ann")), "tenant" := One(Str("acme")), "roles" := One(Str("lab_runner"))]

  const ANN := AuthContext("ann", "acme", ["lab_runner"])

  const ASKS_FOR_VULNERABLE := Request(
    Some("Bearer x"), NO_TOKEN.(decoding := Decoded(CLAIMS)),
    Some(Directory(map["ann" := "7"], map[("acme", "7") := "active"])),
    Lab("vulnerable"), Committed, Committed)

  lemma {:induction false} ClaimIsRead(claims: Claims, name: string, v: string, default: string)
    requires name in claims && claims[name] == One(Str(v))
    requires name != "" && !IsSpace(name[0]) && !IsSpace(name[|name| - 1])
    requires v != "" && !IsSpace(v[0]) && !IsSpace(v[|v| - 1])
    ensures OrDefault(name, default) == name && ClaimText(claims, name) == Some(v)
  {
    StripsToItself(name);
    StripsToItself(v);
  }

  lemma {:induction false} AnnsClaims()
    ensures "sub" in CLAIMS && CLAIMS["sub"] == One(Str("ann"))
    ensures "tenant" in CLAIMS && CLAIMS["tenant"] == One(Str("acme"))
    ensures "roles" in CLAIMS && CLAIMS["roles"] == One(Str("lab_runner"))
  {
    assert |"sub"| == 3 && |"tenant"| == 6 && |"roles"| == 5;
  }

  lemma {:induction false} AnnIsKnown()
    ensures BuildAuthContext(SETTINGS, CLAIMS) == Some(ANN)
  {
    AnnsClaims();
    ClaimIsRead(CLAIMS, "sub", "ann", "sub");
    ClaimIsRead(CLAIMS, "tenant", "acme", "https://boundarylayer.dev/tenant_id");
    ClaimIsRead(CLAIMS, "roles", "lab_runner", "https://boundarylayer.dev/roles");
    StripsToItself("");
  }

  lemma {:induction false} AnnBearsAToken()
    ensures ParseAuthorizationHeader(Some("Bearer x")) == Some("x")
  {
    assert Lower("Bearer") == "bearer";
    StripsToItself("x");
    BearerTokenIff("Bearer", "x", "x");
    assert "Bearer" + " " + "x" == "Bearer x";
  }

  lemma {:induction false} AnnIsIdentified()
    ensures Identify(SETTINGS, ASKS_FOR_VULNERABLE) == Known(ANN)
  {
    AnnIsKnown();
    AnnBearsAToken();
  }

  lemma {:induction false} AnnMayEnter()
    ensures MayEnter(ASKS_FOR_VULNERABLE, ANN)
  {
    assert ANN.roles[0] == "lab_runner";
  }

  lemma {:induction false} AnnIsAdmitted()
    ensures Judge(SETTINGS, ASKS_FOR_VULNERABLE) == Admitted(ANN)
  {
    AnnIsIdentified();
    AnnMayEnter();
    AdmitIs(ASKS_FOR_VULNERABLE, ANN);
  }

  /** Whoever is admitted and asks for a refused mode leaves one row, against one context and one 403. */
  lemma {:induction false} RefusedModeCosts(s: Settings, q: Request, ctx: AuthContext)
    requires s.auditEnabled && Judge(s, q) == Admitted(ctx) && q.first.Committed? && ModeRefused(s, q.endpoint)
    ensures RequestRows(s, q) == [AllowedRow(ctx)] && RequestReply(s, q) == Reply(403, Some(ctx), None)
  {
    assert GateReply(s, q) == Reply(200, Some(ctx), None) && GateRows(s, q) == [AllowedRow(ctx)];
    assert RequestRows(s, q) == [AllowedRow(ctx)] + [];
  }

  /** The run that shows it: one row, one context, one denial. */
  lemma {:induction false} RefusedModeUnbalancesTheLedger()
    ensures Rows(SETTINGS, [ASKS_FOR_VULNERABLE]) == [AllowedRow(ANN)]
    ensures Attached(SETTINGS, [ASKS_FOR_VULNERABLE]) == 1 && Denials(SETTINGS, [ASKS_FOR_VULNERABLE]) == 1
  {
    AnnIsAdmitted();
    RefusedModeCosts(SETTINGS, ASKS_FOR_VULNERABLE, ANN);
    OneRequestRun(SETTINGS, ASKS_FOR_VULNERABLE);
  }

  // ---------------------------------------------------------------- requests that nobody handles

  /** The same caller where the gate fetches keys: the token names an elliptic-curve key for an RSA algorithm. */
  const OIDC_SETTINGS := SETTINGS.(testProvider := false, jwksUrl := "u")

  const NAMES_WRONG_KEY := ASKS_FOR_VULNERABLE.(
    token := TokenFacts(true, Some("k"), 0.0, Jwks.Fetched(map["k" := "an elliptic-curve key"], 0.0), Raises))

  lemma {:induction false} WrongKeyIsUnreadable()
    ensures Unreadable(OIDC_SETTINGS, NAMES_WRONG_KEY.token)
  {
    StripsToItself("u");
  }

  /** An unhandled failure and no row, although the header was accepted and the key was found. */
  lemma {:induction false} WrongKeyGoesUnhandled()
    ensures RequestReply(OIDC_SETTINGS, NAMES_WRONG_KEY).status == 500
    ensures RequestRows(OIDC_SETTINGS, NAMES_WRONG_KEY) == []
  {
    AnnBearsAToken();
    TokenIffBearer(Some("Bearer x"));
    WrongKeyIsUnreadable();
    UnhandledIffUnreadable(OIDC_SETTINGS, NAMES_WRONG_KEY);
  }

  // ---------------------------------------------------------------- each context has its own row

  lemma {:induction false} RowsAppend(s: Settings, run: seq<Request>, k: nat)
    requires k <= |run|
    ensures Rows(s, run[..k]) <= Rows(s, run)
  {
    if k == |run| {
      assert run[..k] == run;
    } else {
      var past := run[..|run| - 1];
      assert past[..k] == run[..k];
      RowsAppend(s, past, k);
    }
  }

  /**
   The context of request k has the row right after those of the requests before it: an auth_allowed row for its
   tenant and subject, which no other request wrote.
   */
  lemma {:induction false} ContextsHaveTheirOwnRows(s: Settings, run: seq<Request>, k: nat)
    requires s.auditEnabled && k < |run| && RequestReply(s, run[k]).attached.Some?
    ensures |Rows(s, run[..k])| < |Rows(s, run[..k + 1])| <= |Rows(s, run)|
    ensures var ctx := RequestReply(s, run[k]).attached.value;
      Rows(s, run)[|Rows(s, run[..k])|] == Row("auth_allowed", "allowed", Some(ctx.tenant), Some(ctx.subject))
  {
    assert run[..k + 1][..k] == run[..k];
    RowsAppend(s, run, k + 1);
    assert RequestRows(s, run[k])[0] == AllowedRow(RequestReply(s, run[k]).attached.value);
  }

  /** The one reason for which a request may leave this row. */
  ghost predicate Explains(s: Settings, q: Request, row: Row) {
    || (row == Row("auth_missing_token", "denied", None, None) && !IsBearer(q.authorization))
    || (row == Row("auth_invalid_token", "denied", None, None) && IsBearer(q.authorization)
        && !exists ctx :: Proves(s, q, ctx))
    || (row == Row("auth_cross_tenant_denied", "denied", None, None)
        && exists ctx :: Proves(s, q, ctx) && q.directory.Some? && !MayEnter(q, ctx))
    || (exists ctx :: Proves(s, q, ctx) && MayEnter(q, ctx) && (Admits(ctx, row) || AskedForAnother(q, ctx, row)))
  }

  predicate Admits(ctx: AuthContext, row: Row) {
    row == Row("auth_allowed", "allowed", Some(ctx.tenant), Some(ctx.subject))
  }

  predicate AskedForAnother(q: Request, ctx: AuthContext, row: Row) {
    && row == Row("auth_cross_tenant_denied", "denied", Some(ctx.tenant), Some(ctx.subject))
    && "platform_admin" !in ctx.roles
    && q.endpoint.TenantLab? && q.endpoint.requested.Some?
    && Strip(q.endpoint.requested.value) != "" && Strip(q.endpoint.requested.value) != ctx.tenant
  }

  lemma {:induction false} StrangerRowExplained(s: Settings, q: Request)
    requires Judge(s, q).NoToken? || Judge(s, q).Invalid?
    ensures Explains(s, q, VerdictRow(Judge(s, q)).value)
  {
    StrangerWasWeighed(s, q);
    TokenIffBearer(q.authorization);
    if Judge(s, q).Invalid? {
      KnownIff(s, q);
    }
  }

  lemma {:induction false} IdentityRowExplained(s: Settings, q: Request)
    requires Judge(s, q).Forbidden? || Judge(s, q).Admitted?
    ensures Explains(s, q, VerdictRow(Judge(s, q)).value)
  {
    var ctx := WhoWasJudged(s, q);
    RowOfTheKnown(Judge(s, q), ctx, MayEnter(q, ctx));
    if MayEnter(q, ctx) {
      AdmissionExplained(s, q, ctx, VerdictRow(Judge(s, q)).value);
    } else {
      RefusalExplained(s, q, ctx, VerdictRow(Judge(s, q)).value);
    }
  }

  lemma {:induction false} RowOfTheKnown(v: Verdict, ctx: AuthContext, enters: bool)
    requires v == if enters then Admitted(ctx) else Forbidden
    ensures VerdictRow(v).Some?
    ensures enters ==> Admits(ctx, VerdictRow(v).value)
    ensures !enters ==> VerdictRow(v).value == Row("auth_cross_tenant_denied", "denied", None, None)
  {
  }

  lemma {:induction false} AdmissionExplained(s: Settings, q: Request, ctx: AuthContext, row: Row)
    requires Proves(s, q, ctx) && MayEnter(q, ctx) && Admits(ctx, row)
    ensures Explains(s, q, row)
  {
  }

  lemma {:induction false} RefusalExplained(s: Settings, q: Request, ctx: AuthContext, row: Row)
    requires Proves(s, q, ctx) && q.directory.Some? && !MayEnter(q, ctx)
    requires row == Row("auth_cross_tenant_denied", "denied", None, None)
    ensures Explains(s, q, row)
  {
  }

  lemma {:induction false} OverrideRowExplained(s: Settings, q: Request)
    requires OverrideDenied(s, q)
    ensures Explains(s, q, OverrideRow(GateReply(s, q).attached.value))
  {
    var ctx := GateReply(s, q).attached.value;
    AttachedIffAdmitted(s, q, ctx);
    AdmittedIffEntitled(s, q, ctx);
    assert AskedForAnother(q, ctx, OverrideRow(ctx));
  }

  lemma {:induction false} GateRowExplained(s: Settings, q: Request)
    requires GateRows(s, q) != []
    ensures |GateRows(s, q)| == 1 && Explains(s, q, GateRows(s, q)[0])
  {
    var v := Judge(s, q);
    if v.NoToken? || v.Invalid? {
      StrangerRowExplained(s, q);
    } else {
      IdentityRowExplained(s, q);
    }
  }

  lemma {:induction false} RequestRowExplained(s: Settings, q: Request, i: nat)
    requires i < |RequestRows(s, q)|
    ensures Explains(s, q, RequestRows(s, q)[i])
  {
    if i < |GateRows(s, q)| {
      GateRowExplained(s, q);
    } else {
      OverrideRowExplained(s, q);
    }
  }

  /** Nothing else gets into the ledger: every row of every run is there because of what some request did. */
  lemma {:induction false} EveryRowIsExplained(s: Settings, run: seq<Request>, i: nat)
    requires i < |Rows(s, run)|
    ensures exists k :: 0 <= k < |run| && Explains(s, run[k], Rows(s, run)[i])
  {
    var n := |run| - 1;
    var past := Rows(s, run[..n]);
    if i < |past| {
      EveryRowIsExplained(s, run[..n], i);
      var k :| 0 <= k < n && Explains(s, run[..n][k], past[i]);
      assert run[k] == run[..n][k];
    } else {
      RequestRowExplained(s, run[n], i - |past|);
    }
  }

  predicate IsAttachedAs(s: Settings, q: Request, tenant: string, subject: string) {
    var a := RequestReply(s, q).attached;
    a.Some? && a.value.tenant == tenant && a.value.subject == subject
  }

  /** Requests attached as this tenant and subject. */
  function AttachedAs(s: Settings, run: seq<Request>, tenant: string, subject: string): nat {
    Count(run, q => IsAttachedAs(s, q, tenant, subject))
  }

  function CountRow(rows: seq<Row>, row: Row): nat {
    if rows == [] then 0 else CountRow(rows[..|rows| - 1], row) + if rows[|rows| - 1] == row then 1 else 0
  }

  lemma {:induction false} CountAppended(rows: seq<Row>, more: seq<Row>, row: Row)
    ensures CountRow(rows + more, row) == CountRow(rows, row) + CountRow(more, row)
  {
    if more == [] {
      assert rows + more == rows;
    } else {
      assert (rows + more)[..|rows + more| - 1] == rows + more[..|more| - 1];
      CountAppended(rows, more[..|more| - 1], row);
    }
  }

  lemma {:induction false} CountOne(row: Row, wanted: Row)
    ensures CountRow([row], wanted) == if row == wanted then 1 else 0
  {
  }

  /** Admitted as this tenant and subject, but turned away because the insert failed after its commit. */
  predicate IsStrandedAs(s: Settings, q: Request, tenant: string, subject: string) {
    var v := Judge(s, q);
    && s.auditEnabled && q.first.CommittedThenFailed?
    && v.Admitted? && v.context.tenant == tenant && v.context.subject == subject
  }

  function StrandedAs(s: Settings, run: seq<Request>, tenant: string, subject: string): nat {
    Count(run, q => IsStrandedAs(s, q, tenant, subject))
  }

  /** What the rows for one verdict say about an identity. */
  lemma {:induction false} AllowedRowsFor(s: Settings, v: Verdict, insert: Insert, tenant: string, subject: string)
    requires s.auditEnabled
    ensures CountRow(RowsFor(s, v, insert), Row("auth_allowed", "allowed", Some(tenant), Some(subject)))
         == if v.Admitted? && v.context.tenant == tenant && v.context.subject == subject && !insert.Lost? then 1 else 0
  {
    var rows := RowsFor(s, v, insert);
    if rows != [] {
      CountOne(rows[0], Row("auth_allowed", "allowed", Some(tenant), Some(subject)));
    }
  }

  lemma {:induction false} OverrideRowsAreNotAllowed(
      s: Settings, ctx: AuthContext, insert: Insert, tenant: string, subject: string)
    ensures CountRow(Logged(s, OverrideRow(ctx), insert),
                     Row("auth_allowed", "allowed", Some(tenant), Some(subject))) == 0
  {
    CountOne(OverrideRow(ctx), Row("auth_allowed", "allowed", Some(tenant), Some(subject)));
  }

  lemma {:induction false} AdmittedAs(s: Settings, q: Request, tenant: string, subject: string)
    requires s.auditEnabled
    ensures (if IsAttachedAs(s, q, tenant, subject) then 1 else 0)
          + (if IsStrandedAs(s, q, tenant, subject) then 1 else 0)
         == if && Judge(s, q).Admitted? && Judge(s, q).context.tenant == tenant
               && Judge(s, q).context.subject == subject && !q.first.Lost? then 1 else 0
  {
    AttachedAtTheGate(s, q);
    if Judge(s, q).Admitted? {
      AttachedFor(s, Judge(s, q), q.first, Judge(s, q).context);
    }
  }

  lemma {:induction false} OneRequestAllows(s: Settings, q: Request, tenant: string, subject: string)
    requires s.auditEnabled
    ensures CountRow(RequestRows(s, q), Row("auth_allowed", "allowed", Some(tenant), Some(subject)))
         == (if IsAttachedAs(s, q, tenant, subject) then 1 else 0)
          + (if IsStrandedAs(s, q, tenant, subject) then 1 else 0)
  {
    var allowed := Row("auth_allowed", "allowed", Some(tenant), Some(subject));
    CountAppended(GateRows(s, q), FinishRows(s, GateReply(s, q), q.endpoint, q.second), allowed);
    AllowedRowsFor(s, Judge(s, q), q.first, tenant, subject);
    AdmittedAs(s, q, tenant, subject);
    if OverrideDenied(s, q) {
      OverrideRowsAreNotAllowed(s, GateReply(s, q).attached.value, q.second, tenant, subject);
    }
  }

  /**
   The ledger per identity: over every run it holds one auth_allowed row for each request attached as that tenant
   and subject and for each admitted as them and stranded, no fewer and no more.
   */
  lemma {:induction false} AllowedRowsCountTheContexts(s: Settings, run: seq<Request>, tenant: string, subject: string)
    requires s.auditEnabled
    ensures CountRow(Rows(s, run), Row("auth_allowed", "allowed", Some(tenant), Some(subject)))
         == AttachedAs(s, run, tenant, subject) + StrandedAs(s, run, tenant, subject)
  {
    if run != [] {
      var past, q := run[..|run| - 1], run[|run| - 1];
      AllowedRowsCountTheContexts(s, past, tenant, subject);
      CountAppended(Rows(s, past), RequestRows(s, q), Row("auth_allowed", "allowed", Some(tenant), Some(subject)));
      OneRequestAllows(s, q, tenant, subject);
    }
  }
}
