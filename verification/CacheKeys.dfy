/** Tenant-scoped Redis keys and the prompt-cache keys built from them. They are only ever printed, never parsed. */
module CacheKeys {
  import opened Text

  const TENANT_REDIS_PREFIX := "boundary_layer:tenant"
  const CACHE_KEY_PREFIX := "boundary_layer:lab:prompt_cache:"
  const LOCAL_LAB_TENANT_ID := "local-lab"

  function NormalizeTenant(tenant: string): string {
    if Strip(tenant) != "" then Strip(tenant) else LOCAL_LAB_TENANT_ID
  }

  function Replace(s: string, from: char, to: char): (r: string)
    ensures |r| == |s| && forall i :: 0 <= i < |s| ==> r[i] == if s[i] == from then to else s[i]
  {
    if s == "" then "" else [if s[0] == from then to else s[0]] + Replace(s[1..], from, to)
  }

  function NormalizeLab(lab: string): (r: string)
    ensures Lacks(r, ':')
  {
    Replace(Strip(lab), ':', '_')
  }

  function NormalizeKey(key: string): string { TrimLeft(Strip(key), ':') }

  function TenantRedisKey(tenant: string, lab: string, key: string): string {
    (TENANT_REDIS_PREFIX + ":") + NormalizeTenant(tenant) + (":lab:" + NormalizeLab(lab) + ":") + NormalizeKey(key)
  }

  lemma {:induction false} Regroup(h: string, n: string, lab: string, k: string)
    ensures h + n + (":lab:" + lab + ":") + k == h + (n + ":" + ("lab:" + (lab + ":" + k)))
  {
  }

  lemma {:induction false} NamesAreUnique(
      h: string, n: string, lab: string, k: string, n': string, lab': string, k': string)
    requires Lacks(n, ':') && Lacks(n', ':') && Lacks(lab, ':') && Lacks(lab', ':')
    requires h + n + (":lab:" + lab + ":") + k == h + n' + (":lab:" + lab' + ":") + k'
    ensures n == n' && lab == lab' && k == k'
  {
    Regroup(h, n, lab, k);
    Regroup(h, n', lab', k');
    CancelHead(h, n + ":" + ("lab:" + (lab + ":" + k)), n' + ":" + ("lab:" + (lab' + ":" + k')));
    HeadIsUnique(n, "lab:" + (lab + ":" + k), n', "lab:" + (lab' + ":" + k'), ':');
    CancelHead("lab:", lab + ":" + k, lab' + ":" + k');
    HeadIsUnique(lab, k, lab', k', ':');
  }

  /** For colon-free tenants a key determines the tenant, the lab and the name it was built from. */
  lemma {:induction false} TenantRedisKeysAreInjective(
      t: string, lab: string, key: string, t': string, lab': string, key': string)
    requires Lacks(NormalizeTenant(t), ':') && Lacks(NormalizeTenant(t'), ':')
    ensures TenantRedisKey(t, lab, key) == TenantRedisKey(t', lab', key') <==>
      && NormalizeTenant(t) == NormalizeTenant(t') && NormalizeLab(lab) == NormalizeLab(lab')
      && NormalizeKey(key) == NormalizeKey(key')
  {
    if TenantRedisKey(t, lab, key) == TenantRedisKey(t', lab', key') {
      NamesAreUnique(TENANT_REDIS_PREFIX + ":", NormalizeTenant(t), NormalizeLab(lab), NormalizeKey(key),
                     NormalizeTenant(t'), NormalizeLab(lab'), NormalizeKey(key'));
    }
  }

  lemma {:induction false} StrippedAlready(s: string)
    requires s != "" && !IsSpace(s[0]) && !IsSpace(s[|s| - 1])
    ensures Strip(s) == s && NormalizeTenant(s) == s
    ensures s[0] != ':' ==> NormalizeKey(s) == s
    ensures |s| == 1 && s[0] != ':' ==> NormalizeLab(s) == s
  {
  }

  lemma {:induction false} NamesCanCoincide(h: string, a: string, b: string, c: string, d: string)
    ensures h + (a + ":lab:" + b) + (":lab:" + c + ":") + d == h + a + (":lab:" + b + ":") + ("lab:" + c + ":" + d)
  {
  }

  /** A colon in a tenant id can make two tenants share keys. */
  lemma {:induction false} ColonTenantsCanShareKeys(a: char, b: char, c: char, d: char)
    requires forall x :: x in {a, b, c, d} ==> !IsSpace(x) && x != ':'
    ensures TenantRedisKey([a] + ":lab:" + [b], [c], [d]) == TenantRedisKey([a], [b], "lab:" + [c] + ":" + [d])
  {
    StrippedAlready([a] + ":lab:" + [b]);
    StrippedAlready("lab:" + [c] + ":" + [d]);
    StrippedAlready([a]);
    StrippedAlready([b]);
    StrippedAlready([c]);
    StrippedAlready([d]);
    NamesCanCoincide(TENANT_REDIS_PREFIX + ":", [a], [b], [c], [d]);
  }

  /** A key says where it belongs: a fixed head, tenant and lab, then the name; a blank tenant is the local lab. */
  lemma {:induction false} TenantRedisKeyIs(t: string, lab: string, key: string)
    ensures "boundary_layer:tenant:" + NormalizeTenant(t) + ":lab:" <= TenantRedisKey(t, lab, key)
    ensures EndsWith(TenantRedisKey(t, lab, key), ":" + NormalizeKey(key))
    ensures |TenantRedisKey(t, lab, key)|
         == |"boundary_layer:tenant:"| + |NormalizeTenant(t)| + |":lab:"| + |Strip(lab)| + 1 + |NormalizeKey(key)|
    ensures Strip(t) == "" ==> NormalizeTenant(t) == "local-lab"
    ensures Strip(t) != "" ==> NormalizeTenant(t) == Strip(t)
  {
    assert TENANT_REDIS_PREFIX + ":" == "boundary_layer:tenant:";
    KeyParts(TENANT_REDIS_PREFIX + ":", NormalizeTenant(t), NormalizeLab(lab), NormalizeKey(key));
  }

  lemma {:induction false} KeyParts(h: string, n: string, l: string, k: string)
    ensures h + n + ":lab:" <= h + n + (":lab:" + l + ":") + k
    ensures EndsWith(h + n + (":lab:" + l + ":") + k, ":" + k)
    ensures |h + n + (":lab:" + l + ":") + k| == |h| + |n| + 5 + |l| + 1 + |k|
  {
    assert h + n + (":lab:" + l + ":") + k == (h + n + ":lab:") + (l + ":" + k);
    assert h + n + (":lab:" + l + ":") + k == (h + n + (":lab:" + l)) + (":" + k);
  }

  // ---------------------------------------------------------------- which tenants share keys

  /** What lab names and key names are normalised to. */
  predicate LabName(lab: string) { Lacks(lab, ':') && Strip(lab) == lab }

  predicate KeyName(k: string) { k == "" || (k[0] != ':' && !IsSpace(k[|k| - 1])) }

  lemma {:induction false} LabsNormalize(lab: string)
    ensures LabName(NormalizeLab(lab))
  {
    if NormalizeLab(lab) != "" {
      StrippedAlready(NormalizeLab(lab));
    }
  }

  lemma {:induction false} LabNamesAreNormal(lab: string)
    requires LabName(lab)
    ensures NormalizeLab(lab) == lab
  {
    assert Replace(lab, ':', '_') == lab;
  }

  lemma {:induction false} TrimLeftKeepsLast(s: string, c: char)
    ensures TrimLeft(s, c) != "" ==> s != "" && TrimLeft(s, c)[|TrimLeft(s, c)| - 1] == s[|s| - 1]
  {
    if s != "" && s[0] == c {
      TrimLeftKeepsLast(s[1..], c);
    }
  }

  lemma {:induction false} KeysNormalize(k: string)
    ensures KeyName(NormalizeKey(k))
    ensures KeyName(k) ==> NormalizeKey(":" + k) == k
  {
    TrimLeftKeepsLast(Strip(k), ':');
    if KeyName(k) {
      StrippedAlready(":" + k);
      assert (":" + k)[1..] == k && TrimLeft(k, ':') == k;
    }
  }

  /** A key without its fixed head. */
  function Body(n: string, lab: string, k: string): string { n + (":lab:" + (lab + ":" + k)) }

  lemma {:induction false} Regrouped(h: string, n: string, lab: string, k: string)
    ensures h + n + (":lab:" + lab + ":") + k == h + Body(n, lab, k)
  {
    assert (":lab:" + lab + ":") + k == ":lab:" + (lab + ":" + k);
  }

  lemma {:induction false} KeyIsBody(t: string, lab: string, key: string)
    ensures TenantRedisKey(t, lab, key)
         == (TENANT_REDIS_PREFIX + ":") + Body(NormalizeTenant(t), NormalizeLab(lab), NormalizeKey(key))
  {
    Regrouped(TENANT_REDIS_PREFIX + ":", NormalizeTenant(t), NormalizeLab(lab), NormalizeKey(key));
  }

  /** What a longer tenant may add after ":lab:" and still be read as a lab and a key of the shorter one. */
  predicate ReadsAsLab(x: string) {
    var lab := Before(x, ':');
    Strip(lab) == lab && (|lab| < |x| ==> |lab| + 1 < |x| && x[|lab| + 1] != ':')
  }

  /** The longer tenant is the shorter one followed by something that reads as the rest of a key. */
  predicate Extends(n: string, longer: string) {
    longer == n + ":lab" || (n + ":lab:" <= longer && ReadsAsLab(longer[|n| + 5..]))
  }

  predicate SameKey(t: string, lab: string, key: string, t': string, lab': string, key': string) {
    TenantRedisKey(t, lab, key) == TenantRedisKey(t', lab', key')
  }

  /** The two ways a string can continue after the shorter tenant. */
  lemma {:induction false} Continuations(w: string, rest: string, rest': string)
    requires w != "" && ":lab:" + rest == w + (":lab:" + rest')
    ensures w == ":lab" || (":lab:" <= w && rest == w[5..] + (":lab:" + rest'))
  {
    var s, s' := ":lab:" + rest, w + (":lab:" + rest');
    assert s'[|w|] == ':';
    if |w| < 5 {
      assert s[|w|] == ":lab:"[|w|] && |w| == 4;
      assert w == s'[..4] && s[..4] == ":lab";
    } else {
      assert ":lab:" == s[..5] && s'[..5] == w[..5];
      assert rest == s[5..] && s'[5..] == w[5..] + (":lab:" + rest');
    }
  }

  /** What a lab and a key of the shorter tenant can spell. */
  lemma {:induction false} SpelledAsLab(lab: string, k: string, x: string, rest': string)
    requires LabName(lab) && KeyName(k) && lab + ":" + k == x + (":lab:" + rest')
    ensures ReadsAsLab(x)
  {
    var a := Before(x, ':');
    if |a| == |x| {
      assert x + (":lab:" + rest') == x + ":" + ("lab:" + rest');
      HeadIsUnique(lab, k, x, "lab:" + rest', ':');
      assert a == x;
    } else {
      var b := x[|a| + 1..];
      assert x == a + ":" + b;
      assert x + (":lab:" + rest') == a + ":" + (b + (":lab:" + rest'));
      HeadIsUnique(lab, k, a, b + (":lab:" + rest'), ':');
      assert k[0] == (b + (":lab:" + rest'))[0];
    }
  }

  lemma {:induction false} SharingExtends(n: string, lab: string, k: string, n': string, lab': string, k': string)
    requires LabName(lab) && KeyName(k) && n != n' && |n| <= |n'| && Body(n, lab, k) == Body(n', lab', k')
    ensures Extends(n, n')
  {
    var rest, rest' := lab + ":" + k, lab' + ":" + k';
    var s, s' := n + (":lab:" + rest), n' + (":lab:" + rest');
    assert s[..|n|] == n && s'[..|n|] == n'[..|n|];
    var w := n'[|n|..];
    assert n' == n + w;
    assert s' == n + (w + (":lab:" + rest'));
    CancelHead(n, ":lab:" + rest, w + (":lab:" + rest'));
    Continuations(w, rest, rest');
    if w != ":lab" {
      SpelledAsLab(lab, k, w[5..], rest');
      assert n'[|n| + 5..] == w[5..];
      assert n + ":lab:" == n'[..|n| + 5];
    }
  }

  lemma {:induction false} SharedBy(t: string, lab: string, k: string, t': string, lab': string, k': string)
    requires LabName(lab) && KeyName(k) && LabName(lab') && KeyName(k')
    requires Body(NormalizeTenant(t), lab, k) == Body(NormalizeTenant(t'), lab', k')
    ensures SameKey(t, lab, ":" + k, t', lab', ":" + k')
  {
    LabNamesAreNormal(lab);
    LabNamesAreNormal(lab');
    KeysNormalize(k);
    KeysNormalize(k');
    KeyIsBody(t, lab, ":" + k);
    KeyIsBody(t', lab', ":" + k');
  }

  lemma {:induction false} PlainLab(s: string)
    requires s != "" && Lacks(s, ':') && !IsSpace(s[0]) && !IsSpace(s[|s| - 1])
    ensures LabName(s)
  {
    StrippedAlready(s);
  }

  lemma {:induction false} BodiesMeetAtLab(n: string)
    ensures Body(n, "lab", "a:") == Body(n + ":lab", "a", "")
  {
    assert ":lab:" + ("lab" + ":" + "a:") == ":lab" + (":lab:" + ("a" + ":" + ""));
  }

  lemma {:induction false} BodiesMeet(n: string, x: string, lab: string, k: string)
    requires lab + ":" + k == x + ":lab:a:"
    ensures Body(n, lab, k) == Body(n + ":lab:" + x, "a", "")
  {
    assert ":lab:" + ("a" + ":" + "") == ":lab:a:";
    assert n + ":lab:" + x + ":lab:a:" == n + (":lab:" + (x + ":lab:a:"));
  }

  lemma {:induction false} ReadAsLab(x: string) returns (lab: string, k: string)
    requires ReadsAsLab(x)
    ensures LabName(lab) && KeyName(k) && lab + ":" + k == x + ":lab:a:"
  {
    lab := Before(x, ':');
    if |lab| == |x| {
      k := "lab:a:";
      assert lab == x;
    } else {
      k := x[|lab| + 1..] + ":lab:a:";
      assert x == lab + ":" + x[|lab| + 1..];
    }
  }

  /** Lab and key of the shorter tenant that spell the longer's name. */
  lemma {:induction false} Spelling(n: string, longer: string) returns (lab: string, k: string)
    requires Extends(n, longer)
    ensures LabName(lab) && KeyName(k) && Body(n, lab, k) == Body(longer, "a", "")
  {
    if longer == n + ":lab" {
      lab, k := "lab", "a:";
      PlainLab(lab);
      BodiesMeetAtLab(n);
    } else {
      var x := longer[|n| + 5..];
      assert longer == n + ":lab:" + x;
      lab, k := ReadAsLab(x);
      BodiesMeet(n, x, lab, k);
    }
  }

  ghost predicate CanShare(t: string, t': string) {
    exists lab, key, lab', key' :: SameKey(t, lab, key, t', lab', key')
  }

  lemma {:induction false} SharingIsMutual(t: string, t': string)
    requires CanShare(t, t')
    ensures CanShare(t', t)
  {
    var lab, key, lab', key' :| SameKey(t, lab, key, t', lab', key');
    assert SameKey(t', lab', key', t, lab, key);
  }

  lemma {:induction false} ExtendingCanShare(t: string, t': string)
    requires Extends(NormalizeTenant(t), NormalizeTenant(t'))
    ensures CanShare(t, t') && CanShare(t', t)
  {
    var lab, k := Spelling(NormalizeTenant(t), NormalizeTenant(t'));
    assert LabName("a") by { PlainLab("a"); }
    SharedBy(t, lab, k, t', "a", "");
    SharingIsMutual(t, t');
  }

  /**
   Two different tenants can share a key if and only if one extends the other: it is the other followed by ":lab",
   or by ":lab:" and something that reads as a lab name, or as a lab name, a colon and the start of a key.
   */
  lemma {:induction false} TenantsShareAKeyIff(t: string, t': string)
    requires NormalizeTenant(t) != NormalizeTenant(t')
    ensures CanShare(t, t')
       <==> Extends(NormalizeTenant(t), NormalizeTenant(t')) || Extends(NormalizeTenant(t'), NormalizeTenant(t))
  {
    if CanShare(t, t') {
      var lab, key, lab', key' :| SameKey(t, lab, key, t', lab', key');
      SameKeyExtends(t, lab, key, t', lab', key');
    } else if Extends(NormalizeTenant(t), NormalizeTenant(t')) {
      ExtendingCanShare(t, t');
    } else if Extends(NormalizeTenant(t'), NormalizeTenant(t)) {
      ExtendingCanShare(t', t);
    }
  }

  lemma {:induction false} SameKeyExtends(t: string, lab: string, key: string, t': string, lab': string, key': string)
    requires NormalizeTenant(t) != NormalizeTenant(t') && SameKey(t, lab, key, t', lab', key')
    ensures Extends(NormalizeTenant(t), NormalizeTenant(t')) || Extends(NormalizeTenant(t'), NormalizeTenant(t))
  {
    var n, l, k := NormalizeTenant(t), NormalizeLab(lab), NormalizeKey(key);
    var n', l', k' := NormalizeTenant(t'), NormalizeLab(lab'), NormalizeKey(key');
    KeyIsBody(t, lab, key);
    KeyIsBody(t', lab', key');
    CancelHead(TENANT_REDIS_PREFIX + ":", Body(n, l, k), Body(n', l', k'));
    LabsNormalize(lab);
    LabsNormalize(lab');
    KeysNormalize(key);
    KeysNormalize(key');
    if |n| <= |n'| {
      SharingExtends(n, l, k, n', l', k');
    } else {
      SharingExtends(n', l', k', n, l, k);
    }
  }

  // ---------------------------------------------------------------- prompt cache

  /** The first 16 characters of a hex digest. */
  predicate Digest(h: string) {
    |h| == 16 && forall i :: 0 <= i < |h| ==> !IsSpace(h[i]) && h[i] != ':'
  }

  function GlobalCacheKey(digest: string): string { CACHE_KEY_PREFIX + "global:" + digest }

  function TenantCacheKey(tenant: string, digest: string, tenantScopedRedis: bool): string {
    if tenantScopedRedis then TenantRedisKey(tenant, "prompt_cache", digest)
    else CACHE_KEY_PREFIX + tenant + ":" + digest
  }

  /** The name under which the cache tells tenants apart. */
  function CacheTenant(tenant: string, tenantScopedRedis: bool): string {
    if tenantScopedRedis then NormalizeTenant(tenant) else tenant
  }

  lemma {:induction false} SuffixOfEqualLength(x: string, d: string, y: string, e: string)
    requires x + d == y + e && |d| == |e|
    ensures x == y && d == e
  {
    assert |x| == |x + d| - |d|;
    assert x == (x + d)[..|x|] && y == (y + e)[..|x|] && d == (x + d)[|x|..] && e == (y + e)[|x|..];
  }

  lemma {:induction false} DigestIsNormal(d: string)
    requires Digest(d)
    ensures NormalizeKey(d) == d
  {
  }

  /** A digest printed after two names wrapped in the same text leaves the names readable. */
  lemma {:induction false} WrappedNamesAreUnique(h: string, n: string, mid: string, d: string, n': string, e: string)
    requires h + n + mid + d == h + n' + mid + e && |d| == |e|
    ensures n == n' && d == e
  {
    SuffixOfEqualLength(h + n + mid, d, h + n' + mid, e);
    CancelTail(h + n, h + n', mid);
    CancelHead(h, n, n');
  }

  /**
   Entries of the hardened cache are shared exactly by equal tenants with equal digests, whatever the tenants'
   names; for one and the same digest this needs nothing of the hash.
   */
  lemma {:induction false} CacheKeysSeparateTenants(t: string, d: string, u: string, e: string, scoped: bool)
    requires d == e || (Digest(d) && Digest(e))
    ensures TenantCacheKey(t, d, scoped) == TenantCacheKey(u, e, scoped)
       <==> CacheTenant(t, scoped) == CacheTenant(u, scoped) && d == e
  {
    if Digest(d) && Digest(e) {
      DigestIsNormal(d);
      DigestIsNormal(e);
    }
    if TenantCacheKey(t, d, scoped) == TenantCacheKey(u, e, scoped) {
      if scoped {
        var h, mid := TENANT_REDIS_PREFIX + ":", ":lab:" + NormalizeLab("prompt_cache") + ":";
        WrappedNamesAreUnique(h, NormalizeTenant(t), mid, NormalizeKey(d), NormalizeTenant(u), NormalizeKey(e));
      } else {
        WrappedNamesAreUnique(CACHE_KEY_PREFIX, t, ":", d, u, e);
      }
    }
  }

  /** What the keys of the two modes look like. */
  lemma {:induction false} CacheKeysAre(tenant: string, digest: string)
    ensures GlobalCacheKey(digest) == "boundary_layer:lab:prompt_cache:global:" + digest
    ensures TenantCacheKey(tenant, digest, false) == "boundary_layer:lab:prompt_cache:" + (tenant + ":" + digest)
  {
    assert CACHE_KEY_PREFIX + "global:" == "boundary_layer:lab:prompt_cache:global:";
    assert CACHE_KEY_PREFIX + tenant + ":" + digest == CACHE_KEY_PREFIX + (tenant + ":" + digest);
  }

  /**
   One tenant name is special, and no other: the tenant called "global" uses the shared key of the vulnerable mode.
   */
  lemma {:induction false} OnlyGlobalUsesTheSharedKey(tenant: string, digest: string)
    ensures TenantCacheKey(tenant, digest, false) == GlobalCacheKey(digest) <==> tenant == "global"
  {
    assert GlobalCacheKey(digest) == CACHE_KEY_PREFIX + "global" + ":" + digest;
    if TenantCacheKey(tenant, digest, false) == GlobalCacheKey(digest) {
      WrappedNamesAreUnique(CACHE_KEY_PREFIX, tenant, ":", digest, "global", digest);
    }
  }

  /**
   The fallback run of the lab: tenant A writes, tenant B looks up. In vulnerable mode B always hits; hardened, B
   hits exactly when it is the same tenant.
   */
  method RunFallback(
      mode: string, tenantA: string, tenantB: string, digest: string, payload: string, tenantScopedRedis: bool)
    returns (hit: bool)
    ensures mode == "vulnerable" ==> hit
    ensures mode != "vulnerable"
         ==> (hit <==> CacheTenant(tenantA, tenantScopedRedis) == CacheTenant(tenantB, tenantScopedRedis))
  {
    var store: map<string, string> := map[];
    var keyA, keyB := GlobalCacheKey(digest), GlobalCacheKey(digest);
    if mode == "vulnerable" {
      store := store[keyA := payload];
      return keyB in store;
    }
    keyA := TenantCacheKey(tenantA, digest, tenantScopedRedis);
    keyB := TenantCacheKey(tenantB, digest, tenantScopedRedis);
    store := store[keyA := payload];
    hit := keyB in store;
    CacheKeysSeparateTenants(tenantA, digest, tenantB, digest, tenantScopedRedis);
  }
}
