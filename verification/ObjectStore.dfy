/** The in-memory object store, and the per-tenant map it stands for. */
module ObjectStore {
  import opened Text
  import opened ObjectKeys

  datatype Object = Object(data: seq<int>, contentType: string)

  datatype Metadata = Metadata(key: string, sizeBytes: nat, contentType: string)

  type Objects = map<string, Object>

  datatype Backend = Backend(prefix: string, requireTenant: bool)

  function FullKey(b: Backend, key: string, tenant: string): Result<string> {
    if Strip(tenant) != "" || b.requireTenant then Build(tenant, key, b.prefix, b.requireTenant)
    else Ok(TrimRight(b.prefix, '/') + "/" + TrimLeft(key, '/'))
  }

  function Describe(key: string, o: Object): Metadata { Metadata(key, |o.data|, o.contentType) }

  datatype Op =
    | Put(key: string, content: Object, tenant: string)
    | Stat(key: string, tenant: string)
    | Delete(key: string, tenant: string)

  datatype Reply = Found(metadata: Metadata) | Deleted | Failed(error: StorageError)

  function ReplyTo(b: Backend, objects: Objects, op: Op): Reply {
    var k := FullKey(b, op.key, op.tenant);
    if k.Err? then Failed(k.error)
    else if op.Put? then Found(Describe(k.value, op.content))
    else if k.value !in objects then Failed(NotFound)
    else if op.Stat? then Found(Describe(k.value, objects[k.value]))
    else Deleted
  }

  function After(b: Backend, objects: Objects, op: Op): Objects {
    var k := FullKey(b, op.key, op.tenant);
    if k.Err? || op.Stat? then objects
    else if op.Put? then objects[k.value := op.content]
    else objects - {k.value}
  }

  class LocalMemoryStorageBackend {
    const b: Backend
    var objects: Objects

    constructor (b: Backend)
      ensures this.b == b && objects == map[]
    {
      this.b := b;
      objects := map[];
    }

    method PutObject(key: string, data: seq<int>, contentType: string, tenant: string) returns (r: Reply)
      modifies this
      ensures r == ReplyTo(b, old(objects), Put(key, Object(data, contentType), tenant))
      ensures objects == After(b, old(objects), Put(key, Object(data, contentType), tenant))
    {
      var k := FullKey(b, key, tenant);
      if k.Err? {
        return Failed(k.error);
      }
      objects := objects[k.value := Object(data, contentType)];
      return Found(Metadata(k.value, |data|, contentType));
    }

    method GetObjectMetadata(key: string, tenant: string) returns (r: Reply)
      ensures r == ReplyTo(b, objects, Stat(key, tenant))
    {
      var k := FullKey(b, key, tenant);
      if k.Err? {
        return Failed(k.error);
      }
      if k.value !in objects {
        return Failed(NotFound);
      }
      var o := objects[k.value];
      return Found(Metadata(k.value, |o.data|, o.contentType));
    }

    method DeleteObject(key: string, tenant: string) returns (r: Reply)
      modifies this
      ensures r == ReplyTo(b, old(objects), Delete(key, tenant))
      ensures objects == After(b, old(objects), Delete(key, tenant))
    {
      var k := FullKey(b, key, tenant);
      if k.Err? {
        return Failed(k.error);
      }
      if k.value !in objects {
        assert objects - {k.value} == objects;
        return Failed(NotFound);
      }
      objects := objects - {k.value};
      return Deleted;
    }
  }

  /** The name of an object, and the one way of not getting one. */
  lemma {:induction false} FullKeyIs(b: Backend, key: string, tenant: string)
    ensures FullKey(b, key, tenant) == Err(TenantRequired) <==> Strip(tenant) == "" && b.requireTenant
    ensures FullKey(b, key, tenant).Err? ==> FullKey(b, key, tenant) == Err(TenantRequired)
    ensures Strip(tenant) != "" ==>
      FullKey(b, key, tenant) == Ok(Place(NormalizedPrefix(b.prefix), Strip(tenant), TrimLeft(key, '/')))
    ensures Strip(tenant) == "" && !b.requireTenant ==>
      FullKey(b, key, tenant) == Ok(TrimRight(b.prefix, '/') + "/" + TrimLeft(key, '/'))
  {
  }

  // ---------------------------------------------------------------- names do not clash

  /** What all tenants' names under a prefix start with. */
  function Head(np: string): string {
    if EndsWith(np, SEGMENT) then np + "/" else if np != "" then np + "/" + SEGMENT + "/" else SEGMENT + "/"
  }

  lemma {:induction false} PlaceIsHeadAndPath(np: string, t: string, r: string)
    ensures Place(np, t, r) == Head(np) + (t + "/" + r)
  {
    if EndsWith(np, SEGMENT) {
      assert np + "/" + t + "/" + r == np + "/" + (t + "/" + r);
    } else {
      var part := SEGMENT + "/" + t + "/" + r;
      assert part == SEGMENT + "/" + (t + "/" + r);
      assert np + "/" + part == np + "/" + SEGMENT + "/" + (t + "/" + r);
    }
  }

  /** Two keys of non-blank tenants are stored under one name exactly when tenant/key spell the same path. */
  lemma {:induction false} PlacesClashIff(np: string, t: string, r: string, t': string, r': string)
    ensures Place(np, t, r) == Place(np, t', r') <==> t + "/" + r == t' + "/" + r'
  {
    PlaceIsHeadAndPath(np, t, r);
    PlaceIsHeadAndPath(np, t', r');
    if Place(np, t, r) == Place(np, t', r') {
      CancelHead(Head(np), t + "/" + r, t' + "/" + r');
    }
  }

  lemma {:induction false} SlashFreeTenantsNeverClash(np: string, t: string, r: string, t': string, r': string)
    requires Lacks(t, '/') && Lacks(t', '/') && Place(np, t, r) == Place(np, t', r')
    ensures t == t' && r == r'
  {
    PlacesClashIff(np, t, r, t', r');
    HeadIsUnique(t, r, t', r', '/');
  }

  // ---------------------------------------------------------------- which tenants share objects

  predicate SameName(b: Backend, key: string, t: string, key': string, t': string) {
    FullKey(b, key, t) == FullKey(b, key', t')
  }

  ghost predicate CanShare(b: Backend, t: string, t': string) {
    exists key, key' :: SameName(b, key, t, key', t')
  }

  /** The longer tenant is the shorter one, a slash, and the start of a relative key. */
  predicate Extends(n: string, longer: string) {
    n + "/" <= longer && longer[|n| + 1..] != "" && longer[|n| + 1] != '/'
  }

  lemma {:induction false} SameNameIff(b: Backend, key: string, t: string, key': string, t': string)
    requires Strip(t) != "" && Strip(t') != ""
    ensures SameName(b, key, t, key', t')
       <==> Strip(t) + "/" + TrimLeft(key, '/') == Strip(t') + "/" + TrimLeft(key', '/')
  {
    PlacesClashIff(NormalizedPrefix(b.prefix), Strip(t), TrimLeft(key, '/'), Strip(t'), TrimLeft(key', '/'));
  }

  lemma {:induction false} SharingExtends(n: string, r: string, n': string, r': string)
    requires n != n' && |n| <= |n'| && n + "/" + r == n' + "/" + r' && (r != "" ==> r[0] != '/')
    ensures Extends(n, n')
  {
    var s, s' := n + "/" + r, n' + "/" + r';
    assert s[..|n|] == n && s'[..|n|] == n'[..|n|];
    assert |n| < |n'| && s'[|n|] == n'[|n|] == '/';
    assert n + "/" == n'[..|n| + 1];
    var x := n'[|n| + 1..];
    assert r == s[|n| + 1..] && s'[|n| + 1..] == x + "/" + r';
    assert r[0] == (x + "/" + r')[0];
  }

  lemma {:induction false} ExtendingShares(b: Backend, t: string, t': string)
    requires Strip(t) != "" && Strip(t') != "" && Extends(Strip(t), Strip(t'))
    ensures SameName(b, Strip(t')[|Strip(t)| + 1..] + "/", t, "", t')
  {
    var n, n' := Strip(t), Strip(t');
    var x := n'[|n| + 1..];
    assert n' == n + "/" + x;
    assert TrimLeft(x + "/", '/') == x + "/" && TrimLeft("", '/') == "";
    assert n + "/" + (x + "/") == n' + "/" + "";
    SameNameIff(b, x + "/", t, "", t');
  }

  /** Two different tenants can share an object if and only if one extends the other, under every prefix. */
  lemma {:induction false} TenantsShareAnObjectIff(b: Backend, t: string, t': string)
    requires Strip(t) != "" && Strip(t') != "" && Strip(t) != Strip(t')
    ensures CanShare(b, t, t') <==> Extends(Strip(t), Strip(t')) || Extends(Strip(t'), Strip(t))
  {
    if CanShare(b, t, t') {
      var key, key' :| SameName(b, key, t, key', t');
      SameNameIff(b, key, t, key', t');
      if |Strip(t)| <= |Strip(t')| {
        SharingExtends(Strip(t), TrimLeft(key, '/'), Strip(t'), TrimLeft(key', '/'));
      } else {
        SharingExtends(Strip(t'), TrimLeft(key', '/'), Strip(t), TrimLeft(key, '/'));
      }
    } else if Extends(Strip(t), Strip(t')) {
      ExtendingShares(b, t, t');
    } else if Extends(Strip(t'), Strip(t)) {
      ExtendingShares(b, t', t);
      assert SameName(b, "", t, Strip(t)[|Strip(t')| + 1..] + "/", t');
    }
  }

  /** The smallest such pair. */
  lemma {:induction false} SlashTenantsCanClash(b: Backend)
    ensures FullKey(b, "c", "a/b") == FullKey(b, "b/c", "a")
  {
    assert Strip("a/b") == "a/b" && Strip("a") == "a";
    assert TrimLeft("c", '/') == "c" && TrimLeft("b/c", '/') == "b/c";
    assert "a/b" + "/" + "c" == "a" + "/" + "b/c";
    PlacesClashIff(NormalizedPrefix(b.prefix), "a/b", "c", "a", "b/c");
  }

  // ---------------------------------------------------------------- blank tenants

  /** A blank tenant, where allowed, and a slash-free one store under the same name. */
  predicate Clash(prefix: string, key: string, t: string, key': string) {
    && Strip(t) != "" && Lacks(Strip(t), '/')
    && FullKey(Backend(prefix, false), key, "") == FullKey(Backend(prefix, false), key', t)
  }

  lemma {:induction false} TailStart(np: string, t: string, relative: string)
    requires t != "" && !IsSpace(t[0]) && Lacks(t, '/')
    ensures Tail(np, t, relative) != "" && !IsSpace(Tail(np, t, relative)[0]) && Tail(np, t, relative)[0] != '/'
  {
  }

  /** A prefix that starts with white space gives a blank tenant names no other tenant has. */
  lemma {:induction false} SpacedPrefixDiffers(prefix: string, r: string, t: string, relative: string)
    requires prefix != "" && IsSpace(prefix[0])
    ensures TrimRight(prefix, '/') + "/" + r != Place(NormalizedPrefix(prefix), t, relative)
  {
    var np := NormalizedPrefix(prefix);
    TrimRightIs(prefix, '/');
    TrimRightIs(Strip(prefix), '/');
    PlaceShape(np, t, relative);
    assert (TrimRight(prefix, '/') + "/" + r)[0] == prefix[0];
    assert np == "" ==> (Scope(t) + relative)[0] == 't';
    assert np != "" ==> Place(np, t, relative)[0] == np[0] == Strip(prefix)[0];
  }

  /** So does a prefix of nothing but slashes, or none. */
  lemma {:induction false} BarePrefixDiffers(prefix: string, r: string, t: string, relative: string)
    requires prefix == "" || !IsSpace(prefix[0])
    requires NormalizedPrefix(prefix) == ""
    ensures TrimRight(prefix, '/') + "/" + r != Place("", t, relative)
  {
    StripRightShape(prefix);
    TrimRightIs(Strip(prefix), '/');
    TrimRightIs(prefix, '/');
    PlaceShape("", t, relative);
    assert (Scope(t) + relative)[0] == 't';
    assert prefix != "" ==> prefix[0] == '/';
    assert (TrimRight(prefix, '/') + "/" + r)[0] == '/';
  }

  /** And one that ends in white space. */
  lemma {:induction false} TrailingSpaceDiffers(prefix: string, r: string, t: string, relative: string)
    requires t != "" && !IsSpace(t[0]) && Lacks(t, '/')
    requires prefix != "" && !IsSpace(prefix[0]) && Strip(prefix) != prefix && NormalizedPrefix(prefix) != ""
    ensures TrimRight(prefix, '/') + "/" + r != Place(NormalizedPrefix(prefix), t, relative)
  {
    var np, q := NormalizedPrefix(prefix), Strip(prefix);
    StripRightShape(prefix);
    TrimRightIs(q, '/');
    PlaceShape(np, t, relative);
    TailStart(np, t, relative);
    var tail := Tail(np, t, relative);
    var blank, name := prefix + "/" + r, np + ("/" + tail);
    assert IsSpace(prefix[|prefix| - 1]) && TrimRight(prefix, '/') == prefix;
    assert name[|np|] == '/' && name[|np| + 1] == tail[0];
    assert blank[|q|] == prefix[|q|] && IsSpace(blank[|q|]);
    assert |q| > |np| + 1 ==> blank[|np| + 1] == q[|np| + 1] == '/';
  }

  /** Under a stripped, non-empty prefix a blank tenant names any object of any tenant outright. */
  lemma {:induction false} BlankTenantNamesOthers(prefix: string, t: string, key: string)
    requires Strip(prefix) == prefix && NormalizedPrefix(prefix) != ""
    requires Strip(t) != "" && Lacks(Strip(t), '/')
    ensures Clash(prefix, Tail(NormalizedPrefix(prefix), Strip(t), TrimLeft(key, '/')), t, key)
  {
    var np, relative := NormalizedPrefix(prefix), TrimLeft(key, '/');
    var tail := Tail(np, Strip(t), relative);
    TailStart(np, Strip(t), relative);
    PlaceShape(np, Strip(t), relative);
    assert TrimLeft(tail, '/') == tail;
    assert np + "/" + tail == np + ("/" + tail);
    assert Strip("") == "";
  }

  lemma {:induction false} ClashNeedsStrippedPrefix(prefix: string, key: string, t: string, key': string)
    requires Clash(prefix, key, t, key')
    ensures Strip(prefix) == prefix && NormalizedPrefix(prefix) != ""
  {
    var r, relative := TrimLeft(key, '/'), TrimLeft(key', '/');
    assert Strip("") == "";
    if prefix != "" && IsSpace(prefix[0]) {
      SpacedPrefixDiffers(prefix, r, Strip(t), relative);
    } else if NormalizedPrefix(prefix) == "" {
      BarePrefixDiffers(prefix, r, Strip(t), relative);
    } else if Strip(prefix) != prefix {
      TrailingSpaceDiffers(prefix, r, Strip(t), relative);
    }
  }

  /** A blank tenant can clash with another if and only if the prefix is stripped and more than slashes. */
  lemma {:induction false} BlankTenantCanClashIff(prefix: string)
    ensures (exists key, t, key' :: Clash(prefix, key, t, key'))
       <==> Strip(prefix) == prefix && NormalizedPrefix(prefix) != ""
  {
    if Strip(prefix) == prefix && NormalizedPrefix(prefix) != "" {
      assert Strip("a") == "a";
      BlankTenantNamesOthers(prefix, "a", "");
    }
    forall key, t, key' | Clash(prefix, key, t, key')
      ensures Strip(prefix) == prefix && NormalizedPrefix(prefix) != ""
    {
      ClashNeedsStrippedPrefix(prefix, key, t, key');
    }
  }

  // ---------------------------------------------------------------- the per-tenant map

  datatype Slot = Slot(tenant: string, key: string)

  type Model = map<Slot, Object>

  predicate Scoped(op: Op) {
    Strip(op.tenant) != "" && Lacks(Strip(op.tenant), '/')
  }

  function SlotOf(op: Op): Slot { Slot(Strip(op.tenant), TrimLeft(op.key, '/')) }

  function Name(b: Backend, s: Slot): string { Place(NormalizedPrefix(b.prefix), s.tenant, s.key) }

  function ModelReply(b: Backend, m: Model, op: Op): Reply {
    var s := SlotOf(op);
    if op.Put? then Found(Metadata(Name(b, s), |op.content.data|, op.content.contentType))
    else if s !in m then Failed(NotFound)
    else if op.Stat? then Found(Metadata(Name(b, s), |m[s].data|, m[s].contentType))
    else Deleted
  }

  function ModelAfter(m: Model, op: Op): Model {
    match op
    case Put(_, o, _) => m[SlotOf(op) := o]
    case Stat(_, _) => m
    case Delete(_, _) => m - {SlotOf(op)}
  }

  ghost predicate Stands(b: Backend, objects: Objects, m: Model) {
    && (forall s :: s in m ==> Lacks(s.tenant, '/'))
    && (forall s: Slot :: Lacks(s.tenant, '/') ==> (Name(b, s) in objects <==> s in m))
    && (forall s :: s in m ==> Name(b, s) in objects && objects[Name(b, s)] == m[s])
  }

  lemma {:induction false} OneOp(b: Backend, objects: Objects, m: Model, op: Op)
    requires Stands(b, objects, m) && Scoped(op)
    ensures ReplyTo(b, objects, op) == ModelReply(b, m, op)
    ensures Stands(b, After(b, objects, op), ModelAfter(m, op))
  {
    var s := SlotOf(op);
    assert FullKey(b, op.key, op.tenant) == Ok(Name(b, s));
    forall s': Slot | Lacks(s'.tenant, '/') && Name(b, s') == Name(b, s) ensures s' == s {
      SlashFreeTenantsNeverClash(NormalizedPrefix(b.prefix), s'.tenant, s'.key, s.tenant, s.key);
    }
  }

  function Run(b: Backend, ops: seq<Op>): (Objects, seq<Reply>) {
    if ops == [] then (map[], [])
    else
      var (objects, replies) := Run(b, ops[..|ops| - 1]);
      var op := ops[|ops| - 1];
      (After(b, objects, op), replies + [ReplyTo(b, objects, op)])
  }

  function ModelRun(b: Backend, ops: seq<Op>): (Model, seq<Reply>) {
    if ops == [] then (map[], [])
    else
      var (m, replies) := ModelRun(b, ops[..|ops| - 1]);
      var op := ops[|ops| - 1];
      (ModelAfter(m, op), replies + [ModelReply(b, m, op)])
  }

  predicate AllScoped(ops: seq<Op>) {
    forall i :: 0 <= i < |ops| ==> Scoped(ops[i])
  }

  /** Every sequence of tenant operations is answered as the per-tenant map answers it. */
  lemma {:induction false} StoreRefinesTheMap(b: Backend, ops: seq<Op>)
    requires AllScoped(ops)
    ensures Run(b, ops).1 == ModelRun(b, ops).1
    ensures Stands(b, Run(b, ops).0, ModelRun(b, ops).0)
  {
    if ops != [] {
      StoreRefinesTheMap(b, ops[..|ops| - 1]);
      OneOp(b, Run(b, ops[..|ops| - 1]).0, ModelRun(b, ops[..|ops| - 1]).0, ops[|ops| - 1]);
    }
  }

  // ---------------------------------------------------------------- tenants do not see each other

  function OpsOf(ops: seq<Op>, t: string): seq<Op> {
    if ops == [] then []
    else
      var n := |ops| - 1;
      OpsOf(ops[..n], t) + if Strip(ops[n].tenant) == t then [ops[n]] else []
  }

  function RepliesOf(ops: seq<Op>, replies: seq<Reply>, t: string): seq<Reply>
    requires |replies| == |ops|
  {
    if ops == [] then []
    else
      var n := |ops| - 1;
      RepliesOf(ops[..n], replies[..n], t) + if Strip(ops[n].tenant) == t then [replies[n]] else []
  }

  lemma {:induction false} RunLengths(b: Backend, ops: seq<Op>)
    ensures |ModelRun(b, ops).1| == |ops|
  {
    if ops != [] {
      RunLengths(b, ops[..|ops| - 1]);
    }
  }

  function Own(m: Model, t: string): Model {
    map s | s in m && s.tenant == t :: m[s]
  }

  lemma {:induction false} OwnAfter(m: Model, op: Op, t: string)
    ensures Own(ModelAfter(m, op), t) == if Strip(op.tenant) == t then ModelAfter(Own(m, t), op) else Own(m, t)
  {
  }

  lemma {:induction false} ModelIsolates(b: Backend, ops: seq<Op>, t: string)
    ensures |ModelRun(b, ops).1| == |ops|
    ensures RepliesOf(ops, ModelRun(b, ops).1, t) == ModelRun(b, OpsOf(ops, t)).1
    ensures Own(ModelRun(b, ops).0, t) == ModelRun(b, OpsOf(ops, t)).0
  {
    RunLengths(b, ops);
    if ops != [] {
      var n := |ops| - 1;
      var op, mine := ops[n], OpsOf(ops[..n], t);
      ModelIsolates(b, ops[..n], t);
      OwnAfter(ModelRun(b, ops[..n]).0, op, t);
      assert ModelRun(b, ops).1[..n] == ModelRun(b, ops[..n]).1;
      if Strip(op.tenant) == t {
        assert (mine + [op])[..|mine|] == mine;
      } else {
        assert OpsOf(ops, t) == mine;
      }
    }
  }

  lemma {:induction false} OpsOfScoped(ops: seq<Op>, t: string)
    requires AllScoped(ops)
    ensures AllScoped(OpsOf(ops, t))
  {
    if ops != [] {
      OpsOfScoped(ops[..|ops| - 1], t);
    }
  }

  /** In every interleaving each tenant gets the replies it would get with the store to itself. */
  lemma {:induction false} TenantsDoNotInterfere(b: Backend, ops: seq<Op>, t: string)
    requires AllScoped(ops)
    ensures |Run(b, ops).1| == |ops|
    ensures RepliesOf(ops, Run(b, ops).1, t) == Run(b, OpsOf(ops, t)).1
  {
    StoreRefinesTheMap(b, ops);
    OpsOfScoped(ops, t);
    StoreRefinesTheMap(b, OpsOf(ops, t));
    ModelIsolates(b, ops, t);
  }
}
