/** Tenant-scoped object keys: how they are built, parsed, and resolved for a caller. */
module ObjectKeys {
  import opened Text

  datatype StorageError = TenantRequired | TenantScopeRequired | CrossTenantDenied | NotFound

  datatype Result<T> = Ok(value: T) | Err(error: StorageError)

  const SEGMENT := "tenants"

  function NormalizedPrefix(prefix: string): string { TrimRight(Strip(prefix), '/') }

  /** The key of a stripped tenant and a relative key under a normalized prefix. */
  function Place(np: string, tenant: string, relative: string): string {
    if EndsWith(np, SEGMENT) then np + "/" + tenant + "/" + relative
    else
      var tenantPart := SEGMENT + "/" + tenant + "/" + relative;
      if np != "" then np + "/" + tenantPart else tenantPart
  }

  function Build(tenant: string, relativeKey: string, prefix: string, requireTenant: bool): Result<string> {
    if requireTenant && Strip(tenant) == "" then Err(TenantRequired)
    else Ok(Place(NormalizedPrefix(prefix), Strip(tenant), TrimLeft(relativeKey, '/')))
  }

  /** The match of ^tenants/([^/]+)/ on the key without leading slashes. */
  function Extract(key: string): Option<string> {
    var normalized := TrimLeft(key, '/');
    if !(SEGMENT + "/" <= normalized) then None
    else
      var rest := normalized[|SEGMENT| + 1..];
      var segment := Before(rest, '/');
      if segment != "" && |segment| < |rest| then Some(segment) else None
  }

  function Access(tenant: string, key: string): Option<StorageError> {
    var owner := Extract(key);
    if owner.None? then Some(TenantScopeRequired)
    else if owner.value != Strip(tenant) then Some(CrossTenantDenied)
    else None
  }

  function Granted(tenant: string, key: string): Result<string> {
    var denied := Access(tenant, key);
    if denied.Some? then Err(denied.value) else Ok(key)
  }

  function Resolve(key: string, tenant: string, prefix: string, requireTenant: bool): Result<string> {
    if Strip(tenant) != "" then
      if SEGMENT + "/" <= key then Granted(tenant, key)
      else
        var built := Build(tenant, key, prefix, requireTenant);
        if built.Err? then built else Granted(tenant, built.value)
    else if requireTenant then Err(TenantRequired)
    else
      var p := Strip(prefix);
      Ok(if p != "" && !(p <= key) then TrimRight(p, '/') + "/" + TrimLeft(key, '/') else key)
  }

  // ---------------------------------------------------------------- the parser inverts the printer

  /** The head every key of a tenant must have, leading slashes aside. */
  function Scope(tenant: string): string { SEGMENT + "/" + tenant + "/" }

  /** A key parses to a tenant exactly when it starts with that tenant's scope. */
  lemma {:induction false} ExtractReadsTheScope(key: string, t: string)
    ensures Extract(key) == Some(t) <==> t != "" && Lacks(t, '/') && Scope(t) <= TrimLeft(key, '/')
  {
    var n := TrimLeft(key, '/');
    var h := SEGMENT + "/";
    if h <= n {
      var rest := n[|h|..];
      assert n == h + rest && Scope(t) == h + (t + "/");
      assert Scope(t) <= n <==> t + "/" <= rest by {
        assert t + "/" <= rest ==> n[..|Scope(t)|] == Scope(t);
        assert Scope(t) <= n ==> rest[..|t| + 1] == n[|h|..|Scope(t)|] == t + "/";
      }
      BeforeIsTheHead(rest, t);
    } else {
      assert Scope(t) <= n ==> h <= n;
    }
  }

  lemma {:induction false} BeforeIsTheHead(rest: string, t: string)
    ensures Lacks(t, '/') && t + "/" <= rest <==> Before(rest, '/') == t && |t| < |rest|
  {
    var b := Before(rest, '/');
    if Lacks(t, '/') && t + "/" <= rest {
      assert rest[|t|] == '/' && (forall i :: 0 <= i < |t| ==> rest[i] == t[i]);
      assert forall i :: 0 <= i < |b| ==> rest[i] == b[i];
      assert |b| == |t|;
      assert b == rest[..|b|] && t == rest[..|t|];
    }
  }

  /** Whatever key and prefix, a key resolved for a tenant parses back to that tenant. */
  lemma {:induction false} ResolvedKeysParseBack(key: string, tenant: string, prefix: string, requireTenant: bool)
    requires Strip(tenant) != "" && Resolve(key, tenant, prefix, requireTenant).Ok?
    ensures Extract(Resolve(key, tenant, prefix, requireTenant).value) == Some(Strip(tenant))
  {
  }

  /** Where a tenant is required, nobody gets a key outside a scope of their own. */
  lemma {:induction false} RequiredTenantsAreScoped(key: string, tenant: string, prefix: string)
    requires Resolve(key, tenant, prefix, true).Ok?
    ensures Strip(tenant) != "" && Extract(Resolve(key, tenant, prefix, true).value) == Some(Strip(tenant))
  {
    ResolvedKeysParseBack(key, tenant, prefix, true);
  }

  /** Why resolution fails: no tenant where one is required, a key in no scope, or a key in another tenant's. */
  lemma {:induction false} ResolveFailsWith(key: string, tenant: string, prefix: string, requireTenant: bool)
    ensures Resolve(key, tenant, prefix, requireTenant) == Err(TenantRequired) <==> Strip(tenant) == "" && requireTenant
    ensures Strip(tenant) != "" ==>
      var k := if SEGMENT + "/" <= key then key else Place(NormalizedPrefix(prefix), Strip(tenant), TrimLeft(key, '/'));
      && (Resolve(key, tenant, prefix, requireTenant) == Err(TenantScopeRequired) <==> Extract(k).None?)
      && (Resolve(key, tenant, prefix, requireTenant) == Err(CrossTenantDenied)
          <==> Extract(k).Some? && Extract(k).value != Strip(tenant))
      && (Resolve(key, tenant, prefix, requireTenant).Ok? ==> Resolve(key, tenant, prefix, requireTenant).value == k)
  {
  }

  /** An unscoped key, where allowed, is the caller's own behind the stripped prefix, once. */
  lemma {:induction false} UnscopedKeyIs(key: string, tenant: string, prefix: string)
    requires Strip(tenant) == ""
    ensures Resolve(key, tenant, prefix, false).Ok?
    ensures Strip(prefix) == "" || Strip(prefix) <= key ==> Resolve(key, tenant, prefix, false).value == key
    ensures Strip(prefix) != "" && !(Strip(prefix) <= key) ==>
      && NormalizedPrefix(prefix) + "/" <= Resolve(key, tenant, prefix, false).value
      && Resolve(key, tenant, prefix, false).value[|NormalizedPrefix(prefix)| + 1..] == TrimLeft(key, '/')
  {
  }

  /** A storage prefix loses the white space around it, then the slashes at its end, and nothing else. */
  lemma {:induction false} NormalizedPrefixIs(prefix: string) returns (left: string, slashes: string, right: string)
    ensures prefix == left + NormalizedPrefix(prefix) + slashes + right && Blank(left) && Blank(right)
    ensures forall i :: 0 <= i < |slashes| ==> slashes[i] == '/'
    ensures !EndsWith(NormalizedPrefix(prefix), "/")
  {
    left, right := StripIs(prefix);
    TrimRightIs(Strip(prefix), '/');
    slashes := Strip(prefix)[|NormalizedPrefix(prefix)|..];
    assert Strip(prefix) == NormalizedPrefix(prefix) + slashes;
  }

  /** A built key starts with the prefix and ends in the tenant's scope and the relative key; nothing is in between. */
  lemma {:induction false} PlaceIs(np: string, t: string, relative: string)
    ensures EndsWith(Place(np, t, relative), SEGMENT + "/" + t + "/" + relative) && np <= Place(np, t, relative)
    ensures |Place(np, t, relative)| == |np| + |t| + |relative| + 2
      + if EndsWith(np, SEGMENT) then 0 else if np == "" then |SEGMENT| else |SEGMENT| + 1
  {
    if EndsWith(np, SEGMENT) {
      var head := np[..|np| - |SEGMENT|];
      assert np == head + SEGMENT;
      assert Place(np, t, relative) == head + (SEGMENT + "/" + t + "/" + relative);
    } else if np != "" {
      assert Place(np, t, relative) == (np + "/") + (SEGMENT + "/" + t + "/" + relative);
    }
  }

  /** So two tenants never resolve to one key, for any inputs and any prefixes. */
  lemma {:induction false} TenantsNeverShareAKey(
      k1: string, t1: string, p1: string, r1: bool, k2: string, t2: string, p2: string, r2: bool)
    requires Strip(t1) != "" && Strip(t2) != ""
    requires Resolve(k1, t1, p1, r1).Ok? && Resolve(k2, t2, p2, r2).Ok?
    requires Resolve(k1, t1, p1, r1).value == Resolve(k2, t2, p2, r2).value
    ensures Strip(t1) == Strip(t2)
  {
    ResolvedKeysParseBack(k1, t1, p1, r1);
    ResolvedKeysParseBack(k2, t2, p2, r2);
  }

  // ---------------------------------------------------------------- when resolution succeeds

  /** A storage prefix under which a tenant's relative keys land in its own scope. */
  predicate PrefixAdmits(prefix: string, t: string) {
    var p := TrimLeft(NormalizedPrefix(prefix), '/');
    p == "" || p == SEGMENT || Scope(t) <= p + "/"
  }

  predicate Resolvable(key: string, tenant: string, prefix: string) {
    var t := Strip(tenant);
    Lacks(t, '/') && if SEGMENT + "/" <= key then Scope(t) <= key else PrefixAdmits(prefix, t)
  }

  lemma {:induction false} TrimLeftOfBuilt(np: string, rest: string)
    requires TrimLeft(np, '/') != ""
    ensures TrimLeft(np + rest, '/') == TrimLeft(np, '/') + rest
  {
    if np[0] == '/' {
      assert (np + rest)[1..] == np[1..] + rest;
      TrimLeftOfBuilt(np[1..], rest);
    }
  }

  lemma {:induction false} TrimLeftKeepsSolid(np: string)
    requires np != "" && np[|np| - 1] != '/'
    ensures TrimLeft(np, '/') != "" && EndsWith(np, TrimLeft(np, '/'))
  {
    if np[0] == '/' {
      TrimLeftKeepsSolid(np[1..]);
      assert np == [np[0]] + np[1..];
    }
  }

  /** A scope crosses a slash only at its own segment boundaries. */
  lemma {:induction false} ScopeAcrossSlash(t: string, p: string, tail: string)
    requires Lacks(t, '/')
    ensures Scope(t) <= p + "/" + tail <==> Scope(t) <= p + "/" || (p == SEGMENT && t + "/" <= tail)
  {
    var s, whole := Scope(t), p + "/" + tail;
    assert whole[|p|] == '/';
    assert forall i :: 0 <= i < |s| - 1 && i != |SEGMENT| ==> s[i] != '/';
    if |s| <= |p| + 1 {
      assert forall i :: 0 <= i < |s| ==> whole[i] == (p + "/")[i];
    } else if p == SEGMENT {
      assert s == p + "/" + (t + "/");
      assert forall i :: |p| + 1 <= i < |whole| ==> whole[i] == tail[i - |p| - 1];
      if s <= whole {
        assert forall i :: 0 <= i < |t| + 1 ==> tail[i] == whole[i + |p| + 1] == s[i + |p| + 1];
      }
    } else {
      assert |p| == |SEGMENT| ==> exists i :: 0 <= i < |p| && p[i] != s[i];
      assert forall i :: 0 <= i < |p| ==> whole[i] == p[i];
    }
  }

  /** What follows the prefix and its slash in a built key. */
  function Tail(np: string, t: string, relative: string): string {
    if EndsWith(np, SEGMENT) then t + "/" + relative else Scope(t) + relative
  }

  lemma {:induction false} PlaceShape(np: string, t: string, relative: string)
    ensures Place(np, t, relative)
         == if np == "" then Scope(t) + relative else np + ("/" + Tail(np, t, relative))
  {
    if EndsWith(np, SEGMENT) {
      assert np + "/" + t + "/" + relative == np + ("/" + (t + "/" + relative));
    } else {
      assert np + "/" + (SEGMENT + "/" + t + "/" + relative) == np + ("/" + (Scope(t) + relative));
    }
  }

  lemma {:induction false} PlaceTrimmed(np: string, t: string, relative: string)
    requires np != "" && np[|np| - 1] != '/'
    ensures TrimLeft(Place(np, t, relative), '/') == TrimLeft(np, '/') + "/" + Tail(np, t, relative)
    ensures TrimLeft(np, '/') != ""
    ensures TrimLeft(np, '/') == SEGMENT ==> t + "/" <= Tail(np, t, relative)
  {
    var tail := Tail(np, t, relative);
    PlaceShape(np, t, relative);
    TrimLeftKeepsSolid(np);
    TrimLeftOfBuilt(np, "/" + tail);
    assert TrimLeft(np, '/') + ("/" + tail) == TrimLeft(np, '/') + "/" + tail;
  }

  lemma {:induction false} ScopedUnderPrefix(np: string, t: string, relative: string)
    requires np != "" ==> np[|np| - 1] != '/'
    requires Lacks(t, '/')
    ensures var p := TrimLeft(np, '/');
      Scope(t) <= TrimLeft(Place(np, t, relative), '/') <==> p == "" || p == SEGMENT || Scope(t) <= p + "/"
  {
    if np == "" {
      PlaceShape(np, t, relative);
      assert (Scope(t) + relative)[0] == 't';
    } else {
      PlaceTrimmed(np, t, relative);
      ScopeAcrossSlash(t, TrimLeft(np, '/'), Tail(np, t, relative));
    }
  }

  lemma {:induction false} GrantedIff(tenant: string, key: string)
    requires Strip(tenant) != ""
    ensures Granted(tenant, key).Ok? <==> Lacks(Strip(tenant), '/') && Scope(Strip(tenant)) <= TrimLeft(key, '/')
  {
    ExtractReadsTheScope(key, Strip(tenant));
  }

  lemma {:induction false} RelativeResolvesIff(key: string, tenant: string, prefix: string)
    requires Strip(tenant) != ""
    ensures Granted(tenant, Place(NormalizedPrefix(prefix), Strip(tenant), TrimLeft(key, '/'))).Ok?
       <==> Lacks(Strip(tenant), '/') && PrefixAdmits(prefix, Strip(tenant))
  {
    var t, np, relative := Strip(tenant), NormalizedPrefix(prefix), TrimLeft(key, '/');
    GrantedIff(tenant, Place(np, t, relative));
    if Lacks(t, '/') {
      ScopedUnderPrefix(np, t, relative);
    }
  }

  /**
   Resolution succeeds exactly on the inputs that can be checked beforehand: for a blank tenant whenever none is
   required, for any other when key and prefix lead into its own scope.
   */
  lemma {:induction false} ResolveSucceedsIff(key: string, tenant: string, prefix: string, requireTenant: bool)
    ensures Resolve(key, tenant, prefix, requireTenant).Ok?
       <==> if Strip(tenant) == "" then !requireTenant else Resolvable(key, tenant, prefix)
  {
    if Strip(tenant) == "" {
    } else if SEGMENT + "/" <= key {
      GrantedIff(tenant, key);
      assert key[0] == 't' && TrimLeft(key, '/') == key;
    } else {
      RelativeResolvesIff(key, tenant, prefix);
    }
  }

  lemma {:induction false} RelativeKeysArePlaced(key: string, tenant: string, prefix: string, requireTenant: bool)
    requires Strip(tenant) != "" && !(SEGMENT + "/" <= key) && Resolve(key, tenant, prefix, requireTenant).Ok?
    ensures Resolve(key, tenant, prefix, requireTenant).value
         == Place(NormalizedPrefix(prefix), Strip(tenant), TrimLeft(key, '/'))
  {
  }

  lemma {:induction false} ResolvingScopedKeyAgain(
      key: string, tenant: string, prefix: string, requireTenant: bool, k: string)
    requires Strip(tenant) != "" && Resolve(key, tenant, prefix, requireTenant) == Ok(k)
    ensures Resolve(k, tenant, prefix, requireTenant) == Ok(k) <==> SEGMENT + "/" <= k
  {
    if !(SEGMENT + "/" <= k) {
      var np, t, relative := NormalizedPrefix(prefix), Strip(tenant), TrimLeft(key, '/');
      assert !(SEGMENT + "/" <= key);
      RelativeKeysArePlaced(key, tenant, prefix, requireTenant);
      assert np != "" by {
        PlaceShape(np, t, relative);
        assert SEGMENT + "/" <= Scope(t) + relative;
      }
      RebuildingGrows(np, t, relative);
      if Resolve(k, tenant, prefix, requireTenant).Ok? {
        RelativeKeysArePlaced(k, tenant, prefix, requireTenant);
      }
    }
  }

  /** A built key starts with a slash exactly when its prefix does. */
  lemma {:induction false} PlaceStartsWithSlash(np: string, t: string, relative: string)
    ensures "/" <= Place(np, t, relative) <==> "/" <= np
  {
    PlaceShape(np, t, relative);
    if np == "" {
      assert (Scope(t) + relative)[0] == 't';
    } else {
      assert Place(np, t, relative)[0] == np[0];
    }
  }

  lemma {:induction false} ResolvedIsScopedIff(
      key: string, tenant: string, prefix: string, requireTenant: bool, k: string)
    requires Strip(tenant) != "" && Resolve(key, tenant, prefix, requireTenant) == Ok(k)
    ensures SEGMENT + "/" <= k <==> SEGMENT + "/" <= key || !("/" <= NormalizedPrefix(prefix))
  {
    if !(SEGMENT + "/" <= key) {
      RelativeKeysArePlaced(key, tenant, prefix, requireTenant);
      PlaceStartsWithSlash(NormalizedPrefix(prefix), Strip(tenant), TrimLeft(key, '/'));
      ResolvedKeysParseBack(key, tenant, prefix, requireTenant);
      ExtractReadsTheScope(k, Strip(tenant));
      assert SEGMENT + "/" <= Scope(Strip(tenant));
      if !("/" <= k) {
        assert TrimLeft(k, '/') == k;
      } else {
        assert k[0] == '/' && (SEGMENT + "/")[0] == 't';
      }
    }
  }

  /**
   Resolving a resolved key again is the identity if and only if the first key was already scoped or the storage
   prefix does not start with a slash.
   */
  lemma {:induction false} ResolvingAgain(key: string, tenant: string, prefix: string, requireTenant: bool, k: string)
    requires Strip(tenant) != "" && Resolve(key, tenant, prefix, requireTenant) == Ok(k)
    ensures Resolve(k, tenant, prefix, requireTenant) == Ok(k)
       <==> SEGMENT + "/" <= key || !("/" <= NormalizedPrefix(prefix))
  {
    ResolvingScopedKeyAgain(key, tenant, prefix, requireTenant, k);
    ResolvedIsScopedIff(key, tenant, prefix, requireTenant, k);
  }

  lemma {:induction false} RebuildingGrows(np: string, t: string, relative: string)
    requires np != "" && np[|np| - 1] != '/'
    ensures |Place(np, t, TrimLeft(Place(np, t, relative), '/'))| > |Place(np, t, relative)|
  {
    PlaceShape(np, t, relative);
    PlaceShape(np, t, TrimLeft(Place(np, t, relative), '/'));
    TrimLeftKeepsSolid(np);
    TrimLeftOfBuilt(np, "/" + Tail(np, t, relative));
  }

  lemma {:induction false} OwnScopeIsGranted(tenant: string, relative: string)
    requires Strip(tenant) != "" && Lacks(Strip(tenant), '/')
    ensures Granted(tenant, Scope(Strip(tenant)) + relative) == Ok(Scope(Strip(tenant)) + relative)
    ensures SEGMENT + "/" <= Scope(Strip(tenant)) + relative
  {
    var k := Scope(Strip(tenant)) + relative;
    assert k[0] == 't' && TrimLeft(k, '/') == k;
    ExtractReadsTheScope(k, Strip(tenant));
  }

  lemma {:induction false} DocumentedPrefixes(t: string, relative: string)
    ensures Place(NormalizedPrefix(""), t, relative) == Scope(t) + relative
    ensures Place(NormalizedPrefix("tenants/"), t, relative) == Scope(t) + relative
  {
    assert Strip("tenants/") == "tenants/";
    assert "tenants/"[..7] == SEGMENT && TrimRight(SEGMENT, '/') == SEGMENT;
  }

  /**
   The documented layouts: with prefix empty or "tenants/" and a slash-free tenant, every key resolves, once and for
   all.
   */
  lemma {:induction false} DocumentedPrefixesAlwaysResolve(
      key: string, tenant: string, prefix: string, requireTenant: bool)
    requires prefix == "" || prefix == "tenants/"
    requires Strip(tenant) != "" && Lacks(Strip(tenant), '/') && !(SEGMENT + "/" <= key)
    ensures var r := Resolve(key, tenant, prefix, requireTenant);
      && r == Ok(Scope(Strip(tenant)) + TrimLeft(key, '/'))
      && Resolve(r.value, tenant, prefix, requireTenant) == r
  {
    DocumentedPrefixes(Strip(tenant), TrimLeft(key, '/'));
    OwnScopeIsGranted(tenant, TrimLeft(key, '/'));
  }

  // ---------------------------------------------------------------- prefixes that do not keep the promise

  lemma {:induction false} SlashedPrefix()
    ensures NormalizedPrefix("/tenants") == "/tenants" && TrimLeft("/tenants", '/') == SEGMENT
    ensures EndsWith("/tenants", SEGMENT)
  {
    assert Strip("/tenants") == "/tenants";
    assert "/tenants"[1..] == SEGMENT;
  }

  /** Under the prefix "/tenants" every relative key resolves, and resolves again to a longer key. */
  lemma {:induction false} SlashedPrefixResolvesToLonger(key: string, tenant: string, requireTenant: bool)
    requires Strip(tenant) != "" && Lacks(Strip(tenant), '/') && !(SEGMENT + "/" <= key)
    ensures Resolve(key, tenant, "/tenants", requireTenant).Ok?
    ensures Resolve(Resolve(key, tenant, "/tenants", requireTenant).value, tenant, "/tenants", requireTenant).Ok?
    ensures |Resolve(Resolve(key, tenant, "/tenants", requireTenant).value, tenant, "/tenants", requireTenant).value|
          > |Resolve(key, tenant, "/tenants", requireTenant).value|
  {
    var t := Strip(tenant);
    SlashedPrefix();
    ResolveSucceedsIff(key, tenant, "/tenants", requireTenant);
    var k := Resolve(key, tenant, "/tenants", requireTenant).value;
    RelativeKeysArePlaced(key, tenant, "/tenants", requireTenant);
    PlaceStartsWithSlash("/tenants", t, TrimLeft(key, '/'));
    assert !(SEGMENT + "/" <= k);
    ResolveSucceedsIff(k, tenant, "/tenants", requireTenant);
    RelativeKeysArePlaced(k, tenant, "/tenants", requireTenant);
    RebuildingGrows("/tenants", t, TrimLeft(key, '/'));
  }

  /** Under the prefix "uploads" no tenant can resolve any relative key. */
  lemma {:induction false} UploadsPrefixRejects(key: string, tenant: string, requireTenant: bool)
    requires Strip(tenant) != "" && !(SEGMENT + "/" <= key)
    ensures Resolve(key, tenant, "uploads", requireTenant).Err?
  {
    assert Strip("uploads") == "uploads" && NormalizedPrefix("uploads") == "uploads";
    assert TrimLeft("uploads", '/') == "uploads" && ("uploads" + "/")[0] == 'u';
    assert Scope(Strip(tenant))[0] == 't';
    ResolveSucceedsIff(key, tenant, "uploads", requireTenant);
  }
}
