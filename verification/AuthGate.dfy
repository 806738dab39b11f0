/**
 The production-saas auth gate: a fail-closed decision whose audit ledger has to balance against its replies,
 whatever the token service, the membership tables and the audit inserts do.
 */
module AuthGate {
  import opened Text
  import Jwks

  // ---------------------------------------------------------------- bearer header

  function Lower(s: string): (r: string)
    ensures |r| == |s|
  {
    if s == "" then ""
    else [if 'A' <= s[0] <= 'Z' then (s[0] as int + 32) as char else s[0]] + Lower(s[1..])
  }

  lemma {:induction false} LowerIs(s: string, i: nat)
    requires i < |s|
    ensures Lower(s)[i] == if 'A' <= s[i] <= 'Z' then (s[i] as int - 'A' as int + 'a' as int) as char else s[i]
  {
    if i > 0 {
      LowerIs(s[1..], i - 1);
    }
  }

  /** str.partition(" "), without the separator. */
  function Partition(s: string): (string, string) {
    if s == "" then ("", "")
    else if s[0] == ' ' then ("", s[1..])
    else
      var (head, tail) := Partition(s[1..]);
      ([s[0]] + head, tail)
  }

  function ParseAuthorizationHeader(authorization: Option<string>): (token: Option<string>)
    ensures token.Some? ==> token.value != ""
  {
    if authorization.None? then None
    else
      var (scheme, token) := Partition(authorization.value);
      if Lower(scheme) != "bearer" || Strip(token) == "" then None else Some(Strip(token))
  }

  lemma {:induction false} PartitionAtFirstSpace(head: string, tail: string)
    requires Lacks(head, ' ')
    ensures Partition(head + " " + tail) == (head, tail)
  {
    var s := head + " " + tail;
    if head == "" {
      assert s[1..] == tail;
    } else {
      assert s[1..] == head[1..] + " " + tail && s[0] == head[0];
      PartitionAtFirstSpace(head[1..], tail);
      assert [head[0]] + head[1..] == head;
    }
  }

  lemma {:induction false} PartitionWithoutSpace(s: string)
    requires Lacks(s, ' ')
    ensures Partition(s) == (s, "")
  {
    if s != "" {
      PartitionWithoutSpace(s[1..]);
      assert [s[0]] + s[1..] == s;
    }
  }

  /** A header yields a token exactly when it is the scheme `bearer` in any case, a space, and a non-blank rest. */
  lemma {:induction false} BearerTokenIff(scheme: string, rest: string, token: string)
    requires Lacks(scheme, ' ')
    ensures ParseAuthorizationHeader(Some(scheme + " " + rest)) == Some(token)
       <==> Lower(scheme) == "bearer" && token == Strip(rest) && token != ""
    ensures ParseAuthorizationHeader(Some(scheme)) == None
  {
    PartitionAtFirstSpace(scheme, rest);
    PartitionWithoutSpace(scheme);
  }

  // ---------------------------------------------------------------- tokens and claims

  datatype Scalar = Str(text: string) | NotStr(printed: string)

  /** A claim's JSON value: null, one value, or a list; `printed` is what str() makes of it. */
  datatype Claim = Null | One(value: Scalar) | Many(items: seq<Scalar>, printed: string)

  type Claims = map<string, Claim>

  function ScalarText(v: Scalar): string {
    match v
    case Str(t) => t
    case NotStr(t) => t
  }

  datatype Settings = Settings(
    testProvider: bool, jwksUrl: string, issuer: string, audience: string, requiredClaims: seq<string>,
    subjectClaim: string, tenantClaim: string, rolesClaim: string, auditEnabled: bool, allowVulnerable: bool)

  /**
   What the JWT library says about the token of one request, and what the key set's URL delivers for it. A header
   that is refused, for its shape or its algorithm, raises an error nothing converts.
   */
  datatype TokenFacts = TokenFacts(
    headerAccepted: bool, kid: Option<string>, now: real, fetch: Jwks.Fetch, decoding: Decoding)

  /** Verified claims, an error of the JWT library, or any other error, such as a key of the wrong kind. */
  datatype Decoding = Decoded(claims: Claims) | Refused | Raises

  const JWKS_TTL := 300

  /** Every token is verified with a client of its own. */
  function SigningKey(t: TokenFacts): Jwks.Result {
    Jwks.Lookup(Jwks.NEW_CLIENT, JWKS_TTL, t.kid, t.now, t.fetch)
  }

  datatype Verified = Payload(claims: Claims) | AuthError | Unhandled

  function Outcome(d: Decoding): Verified {
    match d
    case Decoded(claims) => Payload(claims)
    case Refused => AuthError
    case Raises => Unhandled
  }

  function VerifyJwtToken(s: Settings, t: TokenFacts): Verified {
    if s.testProvider then
      Outcome(t.decoding)
    else if Strip(s.jwksUrl) == "" then AuthError
    else if !t.headerAccepted then Unhandled
    else
      match SigningKey(t)
      case Err(error) => if error.Uncaught? then Unhandled else AuthError
      case Ok(_) => Outcome(t.decoding)
  }

  predicate AudienceAccepted(aud: Option<Claim>, audience: string) {
    if aud.Some? && aud.value.Many? then Str(audience) in aud.value.items
    else aud == Some(One(Str(audience)))
  }

  function Get(claims: Claims, name: string): Option<Claim> {
    if name in claims then Some(claims[name]) else None
  }

  /** The first failing check decides; here only whether there is one. */
  predicate ClaimsAccepted(s: Settings, claims: Claims) {
    if Strip(s.issuer) != "" && Get(claims, "iss") != Some(One(Str(Strip(s.issuer)))) then false
    else if Strip(s.audience) != "" && !AudienceAccepted(Get(claims, "aud"), Strip(s.audience)) then false
    else forall i :: 0 <= i < |s.requiredClaims| ==> s.requiredClaims[i] in claims
  }

  /** A claim as stripped text; absent, null and blank all count as missing. */
  function ClaimText(claims: Claims, name: string): (r: Option<string>)
    ensures r.Some? ==> r.value != ""
  {
    if name !in claims || claims[name].Null? then None
    else
      var text := Strip(if claims[name].One? then ScalarText(claims[name].value) else claims[name].printed);
      if text == "" then None else Some(text)
  }

  function OrDefault(name: string, default: string): string {
    if Strip(name) != "" then Strip(name) else default
  }

  function Texts(items: seq<Scalar>): seq<string> {
    if items == [] then [] else [ScalarText(items[0])] + Texts(items[1..])
  }

  function Roles(s: Settings, claims: Claims): seq<string> {
    var name := OrDefault(s.rolesClaim, "https://boundarylayer.dev/roles");
    var value := if name in claims then Get(claims, name) else Get(claims, "roles");
    if value.None? then []
    else
      match value.value
      case One(Str(role)) => [role]
      case Many(items, _) => Texts(items)
      case _ => []
  }

  datatype AuthContext = AuthContext(subject: string, tenant: string, roles: seq<string>) {
    predicate IsPlatformAdmin() { "platform_admin" in roles }
  }

  function BuildAuthContext(s: Settings, claims: Claims): Option<AuthContext> {
    if !ClaimsAccepted(s, claims) then None
    else
      var subject := ClaimText(claims, OrDefault(s.subjectClaim, "sub"));
      var tenant := ClaimText(claims, OrDefault(s.tenantClaim, "https://boundarylayer.dev/tenant_id"));
      if subject.None? || tenant.None? then None
      else Some(AuthContext(subject.value, tenant.value, Roles(s, claims)))
  }

  // ---------------------------------------------------------------- membership and roles

  /** `users` is unique by subject and `memberships` by (tenant, user), as the schema's indexes say. */
  datatype Directory = Directory(users: map<string, string>, memberships: map<(string, string), string>)

  function MembershipStatus(d: Directory, tenant: string, subject: string): Option<string> {
    if subject !in d.users || (tenant, d.users[subject]) !in d.memberships then None
    else Some(d.memberships[(tenant, d.users[subject])])
  }

  predicate RoleAccepted(ctx: AuthContext, roles: seq<string>) {
    ctx.IsPlatformAdmin() || exists i :: 0 <= i < |roles| && roles[i] in ctx.roles
  }

  const GATE_ROLES := ["lab_runner", "tenant_admin", "platform_admin"]

  // ---------------------------------------------------------------- one request

  /** What became of one audit insert: an exception may also come after the commit. */
  datatype Insert = Committed | Lost | CommittedThenFailed

  /** A route without a mode, a lab run in a mode, and the lab that also takes a tenant. */
  datatype Endpoint = Listing | Lab(mode: string) | TenantLab(mode: string, requested: Option<string>)

  /** A request with everything its environment will answer; `directory` is None when the lookup fails. */
  datatype Request = Request(
    authorization: Option<string>, token: TokenFacts, directory: Option<Directory>, endpoint: Endpoint,
    first: Insert, second: Insert)

  datatype Row = Row(action: string, result: string, tenant: Option<string>, subject: Option<string>)

  datatype Reply = Reply(status: int, attached: Option<AuthContext>, tenant: Option<string>)

  const MISSING_TOKEN := Row("auth_missing_token", "denied", None, None)
  const INVALID_TOKEN := Row("auth_invalid_token", "denied", None, None)
  const GATE_DENIED := Row("auth_cross_tenant_denied", "denied", None, None)

  function AllowedRow(ctx: AuthContext): Row {
    Row("auth_allowed", "allowed", Some(ctx.tenant), Some(ctx.subject))
  }

  function OverrideRow(ctx: AuthContext): Row {
    Row("auth_cross_tenant_denied", "denied", Some(ctx.tenant), Some(ctx.subject))
  }

  function Logged(s: Settings, row: Row, insert: Insert): seq<Row> {
    if s.auditEnabled && !insert.Lost? then [row] else []
  }

  predicate LogFails(s: Settings, insert: Insert) {
    s.auditEnabled && !insert.Committed?
  }

  datatype Verdict = NoToken | Invalid | Crash | LookupFailed | Forbidden | Admitted(context: AuthContext)

  /** Who a request says it is: nobody, somebody not believed, an error on the way, or a context. */
  datatype Identity = Anonymous | Rejected | Broken | Known(context: AuthContext)

  function Identify(s: Settings, q: Request): Identity {
    if ParseAuthorizationHeader(q.authorization).None? then Anonymous
    else
      match VerifyJwtToken(s, q.token)
      case Unhandled => Broken
      case AuthError => Rejected
      case Payload(claims) =>
        var ctx := BuildAuthContext(s, claims);
        if ctx.None? then Rejected else Known(ctx.value)
  }

  function Admit(directory: Option<Directory>, ctx: AuthContext): Verdict {
    if directory.None? then LookupFailed
    else if MembershipStatus(directory.value, ctx.tenant, ctx.subject) != Some("active") then Forbidden
    else if !RoleAccepted(ctx, GATE_ROLES) then Forbidden
    else Admitted(ctx)
  }

  function Weigh(i: Identity, directory: Option<Directory>): Verdict {
    match i
    case Anonymous => NoToken
    case Rejected => Invalid
    case Broken => Crash
    case Known(ctx) => Admit(directory, ctx)
  }

  function Judge(s: Settings, q: Request): Verdict { Weigh(Identify(s, q), q.directory) }

  /** The row a verdict has to leave, if any. */
  function VerdictRow(v: Verdict): Option<Row> {
    match v
    case NoToken => Some(MISSING_TOKEN)
    case Invalid => Some(INVALID_TOKEN)
    case Forbidden => Some(GATE_DENIED)
    case Admitted(ctx) => Some(AllowedRow(ctx))
    case _ => None
  }

  function VerdictStatus(v: Verdict): int {
    match v
    case NoToken => 401
    case Invalid => 401
    case Crash => 500
    case LookupFailed => 503
    case Forbidden => 403
    case Admitted(_) => 200
  }

  function RowsFor(s: Settings, v: Verdict, insert: Insert): seq<Row> {
    if VerdictRow(v).Some? then Logged(s, VerdictRow(v).value, insert) else []
  }

  function ReplyFor(s: Settings, v: Verdict, insert: Insert): Reply {
    if VerdictRow(v).Some? && LogFails(s, insert) then Reply(503, None, None)
    else Reply(VerdictStatus(v), if v.Admitted? then Some(v.context) else None, None)
  }

  function GateRows(s: Settings, q: Request): seq<Row> { RowsFor(s, Judge(s, q), q.first) }

  function GateReply(s: Settings, q: Request): Reply { ReplyFor(s, Judge(s, q), q.first) }

  /** The tenant a request may act for, None when it asks for somebody else's. */
  function RequestTenant(ctx: AuthContext, requested: Option<string>): Option<string> {
    if requested.None? || Strip(requested.value) == "" then Some(ctx.tenant)
    else if ctx.IsPlatformAdmin() || Strip(requested.value) == ctx.tenant then Some(Strip(requested.value))
    else None
  }

  predicate ModeRefused(s: Settings, e: Endpoint) {
    !e.Listing? && e.mode == "vulnerable" && !s.allowVulnerable
  }

  predicate RefusedAt(s: Settings, gate: Reply, e: Endpoint) {
    gate.attached.Some? && ModeRefused(s, e)
  }

  predicate DeniedAt(s: Settings, gate: Reply, e: Endpoint) {
    && gate.attached.Some? && e.TenantLab? && !ModeRefused(s, e)
    && RequestTenant(gate.attached.value, e.requested).None?
  }

  /** What becomes of a request that got `gate` from the gate. */
  function Finish(s: Settings, gate: Reply, e: Endpoint, second: Insert): Reply {
    if RefusedAt(s, gate, e) then gate.(status := 403)
    else if DeniedAt(s, gate, e) then gate.(status := if LogFails(s, second) then 503 else 403)
    else if gate.attached.Some? && e.TenantLab? then gate.(tenant := RequestTenant(gate.attached.value, e.requested))
    else gate
  }

  function FinishRows(s: Settings, gate: Reply, e: Endpoint, second: Insert): seq<Row> {
    if DeniedAt(s, gate, e) then Logged(s, OverrideRow(gate.attached.value), second) else []
  }

  /** Past the gate, but asking for a mode this environment does not run: a denial nobody records. */
  predicate VulnerableRefused(s: Settings, q: Request) { RefusedAt(s, GateReply(s, q), q.endpoint) }

  predicate OverrideDenied(s: Settings, q: Request) { DeniedAt(s, GateReply(s, q), q.endpoint) }

  function RequestRows(s: Settings, q: Request): seq<Row> {
    GateRows(s, q) + FinishRows(s, GateReply(s, q), q.endpoint, q.second)
  }

  function RequestReply(s: Settings, q: Request): Reply {
    Finish(s, GateReply(s, q), q.endpoint, q.second)
  }

  class Gate {
    const settings: Settings
    var auditRows: seq<Row>

    constructor (settings: Settings)
      ensures this.settings == settings && auditRows == []
    {
      this.settings := settings;
      auditRows := [];
    }

    /** `ok` is false when the caller gets 503. */
    method RecordAuthAuditEvent(row: Row, insert: Insert) returns (ok: bool)
      modifies this
      ensures auditRows == old(auditRows) + Logged(settings, row, insert)
      ensures ok == !LogFails(settings, insert)
    {
      if !settings.auditEnabled {
        return true;
      }
      match insert {
        case Committed =>
          auditRows := auditRows + [row];
          return true;
        case CommittedThenFailed =>
          auditRows := auditRows + [row];
          return false;
        case Lost =>
          return false;
      }
    }

    method VerifyProductionSaasAccess(q: Request) returns (reply: Reply)
      modifies this
      ensures auditRows == old(auditRows) + GateRows(settings, q)
      ensures reply == GateReply(settings, q)
    {
      var verdict := Judge(settings, q);
      match verdict {
        case Crash =>
          return Reply(500, None, None);
        case LookupFailed =>
          return Reply(503, None, None);
        case NoToken =>
          var ok := RecordAuthAuditEvent(MISSING_TOKEN, q.first);
          return Reply(if ok then 401 else 503, None, None);
        case Invalid =>
          var ok := RecordAuthAuditEvent(INVALID_TOKEN, q.first);
          return Reply(if ok then 401 else 503, None, None);
        case Forbidden =>
          var ok := RecordAuthAuditEvent(GATE_DENIED, q.first);
          return Reply(if ok then 403 else 503, None, None);
        case Admitted(ctx) =>
          var ok := RecordAuthAuditEvent(AllowedRow(ctx), q.first);
          if !ok {
            return Reply(503, None, None);
          }
          return Reply(200, Some(ctx), None);
      }
    }

    method ResolveRequestTenant(ctx: AuthContext, requested: Option<string>, insert: Insert)
      returns (status: int, tenant: Option<string>)
      modifies this
      ensures tenant == RequestTenant(ctx, requested)
      ensures requested.None? || Strip(requested.value) == "" ==> tenant == Some(ctx.tenant)
      ensures requested.Some? && Strip(requested.value) != "" ==>
        tenant == if Strip(requested.value) == ctx.tenant || "platform_admin" in ctx.roles
                  then Some(Strip(requested.value)) else None
      ensures status == if tenant.Some? then 200 else if LogFails(settings, insert) then 503 else 403
      ensures auditRows == old(auditRows) + if tenant.Some? then [] else Logged(settings, OverrideRow(ctx), insert)
    {
      if requested.Some? && Strip(requested.value) != "" {
        var wanted := Strip(requested.value);
        if ctx.IsPlatformAdmin() {
          return 200, Some(wanted);
        }
        if wanted != ctx.tenant {
          var ok := RecordAuthAuditEvent(OverrideRow(ctx), insert);
          return if ok then 403 else 503, None;
        }
        return 200, Some(wanted);
      }
      return 200, Some(ctx.tenant);
    }

    /** False when the caller gets 403. */
    method EnforceVulnerableAllowed(mode: string) returns (ok: bool)
      ensures ok <==> mode != "vulnerable" || settings.allowVulnerable
    {
      if mode != "vulnerable" {
        return true;
      }
      return settings.allowVulnerable;
    }

    /** Gate, then the mode, then the tenant, as far as the endpoint has them. */
    method Serve(q: Request) returns (reply: Reply)
      modifies this
      ensures auditRows == old(auditRows) + RequestRows(settings, q)
      ensures reply == RequestReply(settings, q)
    {
      reply := VerifyProductionSaasAccess(q);
      reply := Proceed(reply, q.endpoint, q.second);
    }

    /** The endpoint's part, behind the gate. */
    method Proceed(gate: Reply, e: Endpoint, second: Insert) returns (reply: Reply)
      requires gate.attached.Some? ==> gate.status == 200 && gate.tenant.None?
      modifies this
      ensures auditRows == old(auditRows) + FinishRows(settings, gate, e, second)
      ensures reply == Finish(settings, gate, e, second)
    {
      reply := gate;
      if gate.attached.None? || e.Listing? {
        return;
      }
      var ok := EnforceVulnerableAllowed(e.mode);
      if !ok {
        return Reply(403, gate.attached, None);
      }
      if e.TenantLab? {
        var status, tenant := ResolveRequestTenant(gate.attached.value, e.requested, second);
        reply := Reply(status, gate.attached, tenant);
      }
    }
  }

  // ---------------------------------------------------------------- what one request may get

  /** The scheme `bearer` in any case, a space, and something that is not blank. */
  ghost predicate IsBearer(authorization: Option<string>) {
    exists scheme, rest :: Lacks(scheme, ' ') && authorization == Some(scheme + " " + rest)
                        && Lower(scheme) == "bearer" && Strip(rest) != ""
  }

  /** The key set fetched for the token holds its key. */
  predicate KeyPublished(t: TokenFacts) {
    Jwks.HasKid(t.kid) && t.fetch.Fetched? && t.kid.value in t.fetch.keys
  }

  /** The identity a request proves: a bearer token whose verified claims the settings accept. */
  ghost predicate Proves(s: Settings, q: Request, ctx: AuthContext) {
    && IsBearer(q.authorization)
    && q.token.decoding.Decoded?
    && (s.testProvider || (Strip(s.jwksUrl) != "" && q.token.headerAccepted && KeyPublished(q.token)))
    && Vouches(s, q.token.decoding.claims, ctx)
  }

  /** The audience claim of section 4.1.3 of RFC 7519: a single value, or a list that holds it. */
  ghost predicate AddressedTo(aud: Claim, audience: string) {
    || aud == One(Str(audience))
    || (aud.Many? && exists i :: 0 <= i < |aud.items| && aud.items[i] == Str(audience))
  }

  /** A claim of that name, neither null nor blank, reads as `text` once stripped. */
  ghost predicate Reads(claims: Claims, name: string, text: string) {
    && text != "" && name in claims
    && match claims[name]
       case Null => false
       case One(Str(v)) => text == Strip(v)
       case One(NotStr(v)) => text == Strip(v)
       case Many(_, v) => text == Strip(v)
  }

  ghost predicate Holds(items: seq<Scalar>, text: string) {
    exists i :: 0 <= i < |items| && (items[i] == Str(text) || items[i] == NotStr(text))
  }

  /** The configured roles claim, or failing that the claim `roles`, grants the role. */
  ghost predicate Grants(s: Settings, claims: Claims, role: string) {
    var own := if Strip(s.rolesClaim) == "" then "https://boundarylayer.dev/roles" else Strip(s.rolesClaim);
    var name := if own in claims then own else "roles";
    && name in claims
    && match claims[name]
       case One(Str(v)) => role == v
       case Many(items, _) => Holds(items, role)
       case _ => false
  }

  /** The claims come from the right issuer, for the right audience, are complete, and name this caller. */
  ghost predicate Vouches(s: Settings, claims: Claims, ctx: AuthContext) {
    && (Strip(s.issuer) != "" ==> "iss" in claims && claims["iss"] == One(Str(Strip(s.issuer))))
    && (Strip(s.audience) != "" ==> "aud" in claims && AddressedTo(claims["aud"], Strip(s.audience)))
    && (forall i :: 0 <= i < |s.requiredClaims| ==> s.requiredClaims[i] in claims)
    && Reads(claims, if Strip(s.subjectClaim) == "" then "sub" else Strip(s.subjectClaim), ctx.subject)
    && Reads(claims, if Strip(s.tenantClaim) == "" then "https://boundarylayer.dev/tenant_id" else Strip(s.tenantClaim),
             ctx.tenant)
    && ctx.roles == Roles(s, claims)
  }

  lemma {:induction false} RolesAreGranted(s: Settings, claims: Claims, role: string)
    ensures role in Roles(s, claims) <==> Grants(s, claims, role)
  {
    var own := OrDefault(s.rolesClaim, "https://boundarylayer.dev/roles");
    var name := if own in claims then own else "roles";
    if name in claims && claims[name].Many? {
      TextsHold(claims[name].items, role);
      assert Roles(s, claims) == Texts(claims[name].items);
      assert Grants(s, claims, role) <==> Holds(claims[name].items, role);
    } else if name in claims && claims[name].One? {
      assert Roles(s, claims) == if claims[name].value.Str? then [claims[name].value.text] else [];
    }
  }

  lemma {:induction false} TextsHold(items: seq<Scalar>, role: string)
    ensures role in Texts(items) <==> Holds(items, role)
  {
    if items != [] {
      TextsHold(items[1..], role);
      if role in Texts(items[1..]) {
        var i :| 0 <= i < |items[1..]| && (items[1..][i] == Str(role) || items[1..][i] == NotStr(role));
        assert items[i + 1] == items[1..][i];
      }
      forall i | 1 <= i < |items| && (items[i] == Str(role) || items[i] == NotStr(role))
        ensures role in Texts(items[1..])
      {
        assert items[1..][i - 1] == items[i];
      }
    }
  }

  lemma {:induction false} ClaimTextIs(claims: Claims, name: string, text: string)
    ensures ClaimText(claims, name) == Some(text) <==> Reads(claims, name, text)
  {
  }

  lemma {:induction false} ClaimsAcceptedIs(s: Settings, claims: Claims)
    ensures ClaimsAccepted(s, claims)
       <==> && (Strip(s.issuer) != "" ==> "iss" in claims && claims["iss"] == One(Str(Strip(s.issuer))))
            && (Strip(s.audience) != "" ==> "aud" in claims && AddressedTo(claims["aud"], Strip(s.audience)))
            && (forall i :: 0 <= i < |s.requiredClaims| ==> s.requiredClaims[i] in claims)
  {
  }

  lemma {:induction false} ContextIff(s: Settings, claims: Claims, ctx: AuthContext)
    ensures BuildAuthContext(s, claims) == Some(ctx) <==> Vouches(s, claims, ctx)
  {
    ClaimsAcceptedIs(s, claims);
    ClaimTextIs(claims, OrDefault(s.subjectClaim, "sub"), ctx.subject);
    ClaimTextIs(claims, OrDefault(s.tenantClaim, "https://boundarylayer.dev/tenant_id"), ctx.tenant);
  }

  /** An active membership row of the caller in the token's own tenant, and one of the roles the gate knows. */
  predicate MayEnter(q: Request, ctx: AuthContext) {
    && q.directory.Some? && ctx.subject in q.directory.value.users
    && (ctx.tenant, q.directory.value.users[ctx.subject]) in q.directory.value.memberships
    && q.directory.value.memberships[(ctx.tenant, q.directory.value.users[ctx.subject])] == "active"
    && ("lab_runner" in ctx.roles || "tenant_admin" in ctx.roles || "platform_admin" in ctx.roles)
  }

  lemma {:induction false} PartitionRebuilds(s: string)
    ensures Partition(s) == (s, "") || s == Partition(s).0 + " " + Partition(s).1
    ensures Lacks(Partition(s).0, ' ')
  {
    if s != "" && s[0] != ' ' {
      PartitionRebuilds(s[1..]);
      assert s == [s[0]] + s[1..];
    }
  }

  lemma {:induction false} TokenIffBearer(authorization: Option<string>)
    ensures ParseAuthorizationHeader(authorization).Some? <==> IsBearer(authorization)
  {
    if authorization.Some? {
      var (scheme, rest) := Partition(authorization.value);
      PartitionRebuilds(authorization.value);
      if ParseAuthorizationHeader(authorization).Some? {
        assert authorization == Some(scheme + " " + rest);
      }
      forall a, b | Lacks(a, ' ') && authorization == Some(a + " " + b) ensures (a, b) == (scheme, rest) {
        PartitionAtFirstSpace(a, b);
      }
    }
  }

  lemma {:induction false} PayloadIff(s: Settings, t: TokenFacts, claims: Claims)
    ensures VerifyJwtToken(s, t) == Payload(claims)
       <==> && t.decoding == Decoded(claims)
            && (s.testProvider || (Strip(s.jwksUrl) != "" && t.headerAccepted && KeyPublished(t)))
  {
  }

  lemma {:induction false} GateRolesAre(ctx: AuthContext)
    ensures RoleAccepted(ctx, GATE_ROLES)
       <==> "lab_runner" in ctx.roles || "tenant_admin" in ctx.roles || "platform_admin" in ctx.roles
  {
    assert GATE_ROLES[0] == "lab_runner" && GATE_ROLES[1] == "tenant_admin" && GATE_ROLES[2] == "platform_admin";
  }

  lemma {:induction false} ProvesIff(s: Settings, q: Request, ctx: AuthContext)
    ensures Proves(s, q, ctx) <==> Identify(s, q) == Known(ctx)
  {
    TokenIffBearer(q.authorization);
    if q.token.decoding.Decoded? {
      PayloadIff(s, q.token, q.token.decoding.claims);
      ContextIff(s, q.token.decoding.claims, ctx);
    }
    if VerifyJwtToken(s, q.token).Payload? {
      PayloadIff(s, q.token, VerifyJwtToken(s, q.token).claims);
    }
  }

  lemma {:induction false} KnownIff(s: Settings, q: Request)
    ensures Identify(s, q).Known? <==> exists ctx :: Proves(s, q, ctx)
  {
    if Identify(s, q).Known? {
      ProvesIff(s, q, Identify(s, q).context);
    }
    forall ctx | Proves(s, q, ctx) ensures Identify(s, q).Known? {
      ProvesIff(s, q, ctx);
    }
  }

  lemma {:induction false} AdmitIs(q: Request, ctx: AuthContext)
    ensures Admit(q.directory, ctx)
         == if q.directory.None? then LookupFailed else if MayEnter(q, ctx) then Admitted(ctx) else Forbidden
  {
    GateRolesAre(ctx);
  }

  lemma {:induction false} AdmittedIffEntitled(s: Settings, q: Request, ctx: AuthContext)
    ensures Judge(s, q) == Admitted(ctx) <==> Proves(s, q, ctx) && MayEnter(q, ctx)
  {
    ProvesIff(s, q, ctx);
    if Identify(s, q).Known? {
      AdmitIs(q, Identify(s, q).context);
    }
  }

  lemma {:induction false} KnownWasWeighed(i: Identity, q: Request) returns (ctx: AuthContext)
    requires Weigh(i, q.directory).Forbidden? || Weigh(i, q.directory).Admitted?
    ensures i == Known(ctx) && q.directory.Some?
    ensures Weigh(i, q.directory) == if MayEnter(q, ctx) then Admitted(ctx) else Forbidden
  {
    ctx := i.context;
    AdmitIs(q, ctx);
  }

  /** A verdict on membership and roles is a verdict on a proven identity. */
  lemma {:induction false} WhoWasJudged(s: Settings, q: Request) returns (ctx: AuthContext)
    requires Judge(s, q).Forbidden? || Judge(s, q).Admitted?
    ensures Proves(s, q, ctx) && q.directory.Some?
    ensures Judge(s, q) == if MayEnter(q, ctx) then Admitted(ctx) else Forbidden
  {
    ctx := KnownWasWeighed(Identify(s, q), q);
    ProvesIff(s, q, ctx);
  }

  lemma {:induction false} StrangerWasWeighed(s: Settings, q: Request)
    ensures Judge(s, q).NoToken? ==> ParseAuthorizationHeader(q.authorization).None?
    ensures Judge(s, q).Invalid? ==> ParseAuthorizationHeader(q.authorization).Some? && !Identify(s, q).Known?
  {
  }

  lemma {:induction false} StatusIs(s: Settings, v: Verdict, insert: Insert)
    requires !LogFails(s, insert)
    ensures ReplyFor(s, v, insert).status == VerdictStatus(v)
  {
  }

  /** What the gate answers a caller who proves an identity. */
  lemma {:induction false} IdentifiedCallersGet(s: Settings, q: Request, ctx: AuthContext)
    requires !LogFails(s, q.first) && Proves(s, q, ctx)
    ensures GateReply(s, q).status == if q.directory.None? then 503 else if MayEnter(q, ctx) then 200 else 403
  {
    ProvesIff(s, q, ctx);
    KnownGets(s, Identify(s, q), q, ctx);
  }

  lemma {:induction false} KnownGets(s: Settings, i: Identity, q: Request, ctx: AuthContext)
    requires !LogFails(s, q.first) && i == Known(ctx)
    ensures ReplyFor(s, Weigh(i, q.directory), q.first).status
         == if q.directory.None? then 503 else if MayEnter(q, ctx) then 200 else 403
  {
    AdmitIs(q, ctx);
    StatusIs(s, Weigh(i, q.directory), q.first);
  }

  /** Nobody gets into a tenant they are no member of, whatever else they are a member of. */
  lemma {:induction false} NonMembersStayOut(s: Settings, q: Request, ctx: AuthContext)
    requires Proves(s, q, ctx) && q.directory.Some?
    requires ctx.subject in q.directory.value.users ==>
      (ctx.tenant, q.directory.value.users[ctx.subject]) !in q.directory.value.memberships
    ensures GateReply(s, q).attached.None? && GateReply(s, q).status in {403, 503}
    ensures !LogFails(s, q.first) ==> GateReply(s, q).status == 403
  {
    ProvesIff(s, q, ctx);
    AdmitIs(q, ctx);
  }

  lemma {:induction false} StrangersAreWeighed(i: Identity, directory: Option<Directory>)
    ensures VerdictStatus(Weigh(i, directory)) in {401, 500} <==> !i.Known?
  {
  }

  /** Everybody else gets 401 or, where token or key set cannot be read, 500, and nobody but them does. */
  lemma {:induction false} StrangersGet(s: Settings, q: Request)
    requires !LogFails(s, q.first)
    ensures GateReply(s, q).status == 401 || GateReply(s, q).status == 500 <==> !(exists ctx :: Proves(s, q, ctx))
  {
    KnownIff(s, q);
    StrangersAreWeighed(Identify(s, q), q.directory);
    StatusIs(s, Judge(s, q), q.first);
  }

  lemma {:induction false} AttachedFor(s: Settings, v: Verdict, insert: Insert, ctx: AuthContext)
    ensures ReplyFor(s, v, insert).attached == Some(ctx) <==> v == Admitted(ctx) && !LogFails(s, insert)
  {
  }

  lemma {:induction false} AttachedAtTheGate(s: Settings, q: Request)
    ensures RequestReply(s, q).attached == GateReply(s, q).attached
  {
  }

  lemma {:induction false} AttachedIffAdmitted(s: Settings, q: Request, ctx: AuthContext)
    ensures RequestReply(s, q).attached == GateReply(s, q).attached
    ensures GateReply(s, q).attached == Some(ctx) <==> Judge(s, q) == Admitted(ctx) && !LogFails(s, q.first)
  {
    AttachedAtTheGate(s, q);
    AttachedFor(s, Judge(s, q), q.first, ctx);
  }

  /** Fail closed: a context is attached exactly when every check holds and its audit row is safely stored. */
  lemma {:induction false} AttachedIffEntitled(s: Settings, q: Request, ctx: AuthContext)
    ensures RequestReply(s, q).attached == Some(ctx)
       <==> Proves(s, q, ctx) && MayEnter(q, ctx) && (s.auditEnabled ==> q.first.Committed?)
  {
    AttachedIffAdmitted(s, q, ctx);
    AdmittedIffEntitled(s, q, ctx);
  }

  /** A caller acts for the tenant of its own token, or is a platform administrator. */
  lemma {:induction false} NobodyActsForAnotherTenant(s: Settings, q: Request)
    requires RequestReply(s, q).tenant.Some?
    ensures exists ctx :: Proves(s, q, ctx) && MayEnter(q, ctx)
                       && (RequestReply(s, q).tenant == Some(ctx.tenant) || "platform_admin" in ctx.roles)
  {
    var ctx := GateReply(s, q).attached.value;
    AttachedAtTheGate(s, q);
    AttachedIffEntitled(s, q, ctx);
    OwnTenantOrAdmin(ctx, q.endpoint.requested);
  }

  /** Past the gate and in a mode that runs, a request for a tenant gets it, or is turned away, exactly so. */
  lemma {:induction false} RequestedTenantIs(s: Settings, q: Request, ctx: AuthContext)
    requires GateReply(s, q).attached == Some(ctx) && q.endpoint.TenantLab? && !ModeRefused(s, q.endpoint)
    ensures var asked := if q.endpoint.requested.None? then "" else Strip(q.endpoint.requested.value);
      if asked == "" || asked == ctx.tenant then RequestReply(s, q) == Reply(200, Some(ctx), Some(ctx.tenant))
      else if "platform_admin" in ctx.roles then RequestReply(s, q) == Reply(200, Some(ctx), Some(asked))
      else && RequestReply(s, q).tenant.None? && RequestReply(s, q).attached == Some(ctx)
           && RequestReply(s, q).status == if LogFails(s, q.second) then 503 else 403
  {
    AttachedIsOk(s, Judge(s, q), q.first, ctx);
  }

  lemma {:induction false} AttachedIsOk(s: Settings, v: Verdict, insert: Insert, ctx: AuthContext)
    requires ReplyFor(s, v, insert).attached == Some(ctx)
    ensures ReplyFor(s, v, insert) == Reply(200, Some(ctx), None)
  {
  }

  lemma {:induction false} OwnTenantOrAdmin(ctx: AuthContext, requested: Option<string>)
    requires RequestTenant(ctx, requested).Some?
    ensures RequestTenant(ctx, requested) == Some(ctx.tenant) || "platform_admin" in ctx.roles
  {
  }

  /**
   The errors nobody handles: a refused token header, a key set that could not be read for some unforeseen reason,
   and a decoding that fails other than by an error of the JWT library.
   */
  predicate Unreadable(s: Settings, t: TokenFacts) {
    if s.testProvider then t.decoding.Raises?
    else
      && Strip(s.jwksUrl) != ""
      && (|| !t.headerAccepted
          || (Jwks.HasKid(t.kid) && t.fetch.Unforeseen?)
          || (KeyPublished(t) && t.decoding.Raises?))
  }

  lemma {:induction false} UnhandledIff(s: Settings, t: TokenFacts)
    ensures VerifyJwtToken(s, t).Unhandled? <==> Unreadable(s, t)
  {
    var key := if KeyPublished(t) then t.fetch.keys[t.kid.value] else "";
    Jwks.NewClientLooksUp(JWKS_TTL, t.kid, t.now, t.fetch, key);
  }

  lemma {:induction false} CrashIff(i: Identity, directory: Option<Directory>)
    ensures Weigh(i, directory).Crash? <==> i.Broken?
  {
  }

  lemma {:induction false} StatusFiveHundredIff(s: Settings, q: Request)
    ensures RequestReply(s, q).status == 500 <==> Judge(s, q).Crash?
    ensures Judge(s, q).Crash? ==> RequestRows(s, q) == []
  {
  }

  /**
   The way past the ledger: a bearer token that is unreadable, or whose key set is, gets an unhandled failure and
   leaves no row, and nothing else does.
   */
  lemma {:induction false} UnhandledIffUnreadable(s: Settings, q: Request)
    ensures RequestReply(s, q).status == 500 <==> IsBearer(q.authorization) && Unreadable(s, q.token)
    ensures RequestReply(s, q).status == 500 ==> RequestRows(s, q) == []
  {
    StatusFiveHundredIff(s, q);
    CrashIff(Identify(s, q), q.directory);
    UnhandledIff(s, q.token);
    TokenIffBearer(q.authorization);
  }
}
