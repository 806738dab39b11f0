/**
 The governance procedures as they are written, over four separate child tables updated table by table
 and row by row, each proved to be the transaction on the merged tables.
 */
module GovernanceStore {
  import opened Text
  import opened LikePattern
  import opened GovernanceDb
  import opened GovernanceRun

  type Rows = map<string, Child>

  const TABLES := [PromptLogs, ToolRecords, EvaluationQueue, TrainingQueue]

  ghost function Keys(tables: map<Table, Rows>): (keys: set<Key>)
    ensures forall k: Key :: k in keys <==> k.table in tables && k.id in tables[k.table]
  {
    var keys := set t, id | t in tables && id in tables[t] :: Key(t, id);
    assert forall k: Key :: k.table in tables && k.id in tables[k.table] ==> k == Key(k.table, k.id) && k in keys;
    keys
  }

  /** One map for the four tables. */
  ghost function Merge(tables: map<Table, Rows>): map<Key, Child> {
    map k | k in Keys(tables) :: tables[k.table][k.id]
  }

  // ---------------------------------------------------------------- one table

  function ResetRows(rows: Rows, pattern: string): Rows {
    map id | id in rows && !(Like(rows[id].parent, pattern) || Like(id, pattern)) :: rows[id]
  }

  function RetireRows(rows: Rows, promptId: string, now: int): Rows {
    map id | id in rows :: if LiveChildOf(rows[id], promptId) then rows[id].(deletedAt := Some(now)) else rows[id]
  }

  /** SELECT COUNT(*) FROM table JOIN prompt_requests ... */
  function JoinCount(rows: Rows, prompts: map<string, Prompt>, promptId: string, tenant: string): nat {
    |Joined(rows, prompts, promptId, tenant)|
  }

  /** The loops over TABLES reach every table once. */
  lemma {:induction false} TablesAreAll()
    ensures forall t: Table :: t in TABLES
    ensures forall i, j :: 0 <= i < j < |TABLES| ==> TABLES[i] != TABLES[j]
  {
    forall t: Table ensures t in TABLES {
      match t
      case PromptLogs => assert TABLES[0] == t;
      case ToolRecords => assert TABLES[1] == t;
      case EvaluationQueue => assert TABLES[2] == t;
      case TrainingQueue => assert TABLES[3] == t;
    }
  }

  predicate Complete(tables: map<Table, Rows>) {
    forall t: Table :: t in tables
  }

  lemma {:induction false} MergeAt(tables: map<Table, Rows>, k: Key)
    requires Complete(tables)
    ensures k in Merge(tables) <==> k.id in tables[k.table]
    ensures k in Merge(tables) ==> Merge(tables)[k] == tables[k.table][k.id]
  {
  }

  lemma {:induction false} SameRows(a: map<Key, Child>, b: map<Key, Child>)
    requires forall k: Key :: (k in a <==> k in b) && (k in a ==> a[k] == b[k])
    ensures a == b
  {
  }

  lemma {:induction false} ResetAt(before: map<Table, Rows>, after: map<Table, Rows>, db: Db, tenant: string, k: Key)
    requires Complete(before) && Complete(after) && db.children == Merge(before)
    requires after[k.table] == ResetRows(before[k.table], Prefix(tenant) + "%")
    ensures k in Merge(after) <==> k in Reset(db, tenant).children
    ensures k in Merge(after) ==> Merge(after)[k] == Reset(db, tenant).children[k]
  {
    MergeAt(before, k);
    MergeAt(after, k);
  }

  lemma {:induction false} MergeReset(before: map<Table, Rows>, after: map<Table, Rows>, db: Db, tenant: string)
    requires Complete(before) && Complete(after) && db.children == Merge(before)
    requires forall t: Table :: after[t] == ResetRows(before[t], Prefix(tenant) + "%")
    ensures Merge(after) == Reset(db, tenant).children
  {
    var a, b := Merge(after), Reset(db, tenant).children;
    forall k: Key ensures (k in a <==> k in b) && (k in a ==> a[k] == b[k]) {
      ResetAt(before, after, db, tenant, k);
    }
    SameRows(a, b);
  }

  lemma {:induction false} RetireAt(
      before: map<Table, Rows>, after: map<Table, Rows>, promptId: string, now: int, k: Key)
    requires Complete(before) && Complete(after)
    requires after[k.table] == RetireRows(before[k.table], promptId, now)
    ensures k in Merge(after) <==> k in Retire(Merge(before), promptId, now)
    ensures k in Merge(after) ==> Merge(after)[k] == Retire(Merge(before), promptId, now)[k]
  {
    MergeAt(before, k);
    MergeAt(after, k);
  }

  lemma {:induction false} MergeRetire(before: map<Table, Rows>, after: map<Table, Rows>, promptId: string, now: int)
    requires Complete(before) && Complete(after)
    requires forall t: Table :: after[t] == RetireRows(before[t], promptId, now)
    ensures Merge(after) == Retire(Merge(before), promptId, now)
  {
    var a, b := Merge(after), Retire(Merge(before), promptId, now);
    forall k: Key ensures (k in a <==> k in b) && (k in a ==> a[k] == b[k]) {
      RetireAt(before, after, promptId, now, k);
    }
    SameRows(a, b);
  }

  lemma {:induction false} MergeUpdate(tables: map<Table, Rows>, k: Key, row: Child)
    requires Complete(tables)
    ensures Merge(tables[k.table := tables[k.table][k.id := row]]) == Merge(tables)[k := row]
    ensures k in Merge(tables) <==> k.id in tables[k.table]
    ensures k in Merge(tables) ==> Merge(tables)[k] == tables[k.table][k.id]
  {
  }

  lemma {:induction false} MergeUpsert(
      tables: map<Table, Rows>, k: Key, parent: string, tool: string, content: string, row: Child)
    requires Complete(tables)
    requires row == if k.id in tables[k.table] then tables[k.table][k.id].(content := content, deletedAt := None)
                    else Child(parent, tool, content, None)
    ensures Merge(tables[k.table := tables[k.table][k.id := row]]) == Upsert(Merge(tables), k, parent, tool, content)
  {
    MergeAt(tables, k);
    MergeUpdate(tables, k, row);
  }

  lemma {:induction false} UpsertOneMore(children: map<Key, Child>, seeds: seq<Seed>, i: nat, tenant: string)
    requires i < |seeds|
    ensures UpsertAll(children, seeds[..i + 1], tenant)
         == Upsert(UpsertAll(children, seeds[..i], tenant), SeedKey(seeds[i], tenant),
                   PromptId(tenant), seeds[i].tool, seeds[i].content)
  {
    assert seeds[..i + 1][..i] == seeds[..i];
  }

  // ---------------------------------------------------------------- the four counts are one set

  lemma {:induction false} TaggedCard(ids: set<string>, t: Table)
    ensures |set id | id in ids :: Key(t, id)| == |ids|
  {
    if ids == {} {
      assert (set id | id in ids :: Key(t, id)) == {};
    } else {
      var x :| x in ids;
      TaggedCard(ids - {x}, t);
      assert (set id | id in ids :: Key(t, id)) == (set id | id in ids - {x} :: Key(t, id)) + {Key(t, x)};
    }
  }

  function InTable(keys: set<Key>, t: Table): set<Key> {
    set k | k in keys && k.table == t
  }

  lemma {:induction false} InTableGrows(keys: set<Key>, x: Key, t: Table)
    requires x !in keys
    ensures |InTable(keys + {x}, t)| == |InTable(keys, t)| + if x.table == t then 1 else 0
  {
    assert InTable(keys + {x}, t) == if x.table == t then InTable(keys, t) + {x} else InTable(keys, t);
  }

  lemma {:induction false} PartitionCard(keys: set<Key>)
    ensures |keys| == |InTable(keys, PromptLogs)| + |InTable(keys, ToolRecords)|
                    + |InTable(keys, EvaluationQueue)| + |InTable(keys, TrainingQueue)|
  {
    if keys == {} {
      assert forall t: Table :: InTable(keys, t) == {};
    } else {
      var x :| x in keys;
      var rest := keys - {x};
      PartitionCard(rest);
      assert keys == rest + {x};
      InTableGrows(rest, x, PromptLogs);
      InTableGrows(rest, x, ToolRecords);
      InTableGrows(rest, x, EvaluationQueue);
      InTableGrows(rest, x, TrainingQueue);
    }
  }

  /** The rows the join selects. */
  function Joined(rows: Rows, prompts: map<string, Prompt>, promptId: string, tenant: string): set<string> {
    set id | id in rows && rows[id].parent in prompts && rows[id].parent == promptId
             && prompts[rows[id].parent].tenant == tenant
             && prompts[rows[id].parent].deletedAt.Some? && rows[id].deletedAt.None?
  }

  lemma {:induction false} JoinedIsOrphaned(db: Db, tables: map<Table, Rows>, k: Key, promptId: string, tenant: string)
    requires Complete(tables) && db.children == Merge(tables)
    ensures k.id in Joined(tables[k.table], db.prompts, promptId, tenant) <==> k in Orphans(db, promptId, tenant)
  {
    MergeAt(tables, k);
  }

  lemma {:induction false} JoinCountsOrphans(
      db: Db, tables: map<Table, Rows>, t: Table, promptId: string, tenant: string)
    requires Complete(tables) && db.children == Merge(tables)
    ensures JoinCount(tables[t], db.prompts, promptId, tenant) == |InTable(Orphans(db, promptId, tenant), t)|
  {
    var ids := Joined(tables[t], db.prompts, promptId, tenant);
    var tagged := set id | id in ids :: Key(t, id);
    TaggedCard(ids, t);
    forall k: Key ensures k in tagged <==> k in InTable(Orphans(db, promptId, tenant), t) {
      JoinedIsOrphaned(db, tables, k, promptId, tenant);
      assert k.table == t ==> k == Key(t, k.id);
    }
    assert tagged == InTable(Orphans(db, promptId, tenant), t);
  }

  /** The four join counts add up to the number of orphans over all child tables. */
  lemma {:induction false} FourCountsAreOneSet(db: Db, tables: map<Table, Rows>, promptId: string, tenant: string)
    requires Complete(tables) && db.children == Merge(tables)
    ensures JoinCount(tables[PromptLogs], db.prompts, promptId, tenant)
          + JoinCount(tables[ToolRecords], db.prompts, promptId, tenant)
          + JoinCount(tables[EvaluationQueue], db.prompts, promptId, tenant)
          + JoinCount(tables[TrainingQueue], db.prompts, promptId, tenant)
         == |Orphans(db, promptId, tenant)|
  {
    JoinCountsOrphans(db, tables, PromptLogs, promptId, tenant);
    JoinCountsOrphans(db, tables, ToolRecords, promptId, tenant);
    JoinCountsOrphans(db, tables, EvaluationQueue, promptId, tenant);
    JoinCountsOrphans(db, tables, TrainingQueue, promptId, tenant);
    PartitionCard(Orphans(db, promptId, tenant));
  }

  // ---------------------------------------------------------------- the procedures

  class Postgres {
    var prompts: map<string, Prompt>
    var tables: map<Table, Rows>
    var audits: map<string, Audit>

    ghost predicate Valid() reads this {
      Complete(tables)
    }

    ghost function Contents(): Db reads this {
      Db(prompts, Merge(tables), audits)
    }

    /** The loop over the child tables that deletes what the pattern matches. */
    method ResetTables(pattern: string)
      requires Valid()
      modifies this`tables
      ensures Valid() && forall t: Table :: tables[t] == ResetRows(old(tables)[t], pattern)
    {
      TablesAreAll();
      for i := 0 to |TABLES|
        invariant Valid()
        invariant forall t: Table ::
          tables[t] == if t in TABLES[..i] then ResetRows(old(tables)[t], pattern) else old(tables)[t]
      {
        assert TABLES[i] !in TABLES[..i];
        tables := tables[TABLES[i] := ResetRows(tables[TABLES[i]], pattern)];
        assert TABLES[..i + 1] == TABLES[..i] + [TABLES[i]];
      }
      assert TABLES[..|TABLES|] == TABLES;
    }

    /** The loop over the child tables that marks the prompt's live records. */
    method RetireTables(promptId: string, now: int)
      requires Valid()
      modifies this`tables
      ensures Valid() && forall t: Table :: tables[t] == RetireRows(old(tables)[t], promptId, now)
    {
      TablesAreAll();
      for i := 0 to |TABLES|
        invariant Valid()
        invariant forall t: Table ::
          tables[t] == if t in TABLES[..i] then RetireRows(old(tables)[t], promptId, now) else old(tables)[t]
      {
        assert TABLES[i] !in TABLES[..i];
        tables := tables[TABLES[i] := RetireRows(tables[TABLES[i]], promptId, now)];
        assert TABLES[..i + 1] == TABLES[..i] + [TABLES[i]];
      }
      assert TABLES[..|TABLES|] == TABLES;
    }

    method ResetGovernanceLabRecords(tenant: string)
      requires Valid()
      modifies this
      ensures Valid() && Contents() == Reset(old(Contents()), tenant)
    {
      var pattern := Prefix(tenant) + "%";
      audits := map id | id in audits && !Like(audits[id].parent, pattern) :: audits[id];
      ResetTables(pattern);
      prompts := map id | id in prompts && !(Like(id, pattern) && prompts[id].tenant == tenant) :: prompts[id];
      MergeReset(old(tables), tables, old(Contents()), tenant);
    }

    /** One upsert of one record. */
    method UpsertRecord(k: Key, parent: string, tool: string, content: string)
      requires Valid()
      modifies this`tables
      ensures Valid() && Merge(tables) == Upsert(old(Merge(tables)), k, parent, tool, content)
    {
      var rows := tables[k.table];
      var row := if k.id in rows then rows[k.id].(content := content, deletedAt := None)
                 else Child(parent, tool, content, None);
      MergeUpsert(tables, k, parent, tool, content, row);
      tables := tables[k.table := rows[k.id := row]];
    }

    method CreatePromptLifecycleRecords(tenant: string) returns (promptId: string)
      requires Valid()
      modifies this
      ensures Valid() && Contents() == Create(old(Contents()), tenant) && promptId == PromptId(tenant)
    {
      promptId := PromptId(tenant);
      prompts := prompts[promptId := Prompt(tenant, PROMPT_TEXT, None)];
      ghost var children := Merge(tables);
      for i := 0 to |SEEDS|
        invariant Valid() && audits == old(audits)
        invariant prompts == old(prompts)[promptId := Prompt(tenant, PROMPT_TEXT, None)]
        invariant Merge(tables) == UpsertAll(children, SEEDS[..i], tenant)
      {
        UpsertRecord(SeedKey(SEEDS[i], tenant), promptId, SEEDS[i].tool, SEEDS[i].content);
        UpsertOneMore(children, SEEDS, i, tenant);
      }
      assert SEEDS[..|SEEDS|] == SEEDS;
    }

    method VerifyPromptTenant(promptId: string, tenant: string) returns (failure: Option<Failure>)
      ensures failure == Verify(Contents(), promptId, tenant)
      ensures failure == Some(PromptNotFound) <==> promptId !in prompts
      ensures failure == Some(CrossTenant) <==> promptId in prompts && prompts[promptId].tenant != tenant
    {
      if promptId !in prompts {
        return Some(PromptNotFound);
      }
      if prompts[promptId].tenant != tenant {
        return Some(CrossTenant);
      }
      return None;
    }

    method DeletePrimaryOnly(promptId: string, tenant: string, now: int) returns (failure: Option<Failure>)
      requires Valid()
      modifies this`prompts
      ensures Valid() && failure == Verify(old(Contents()), promptId, tenant)
      ensures Contents()
           == if failure.None? then GovernanceDb.DeletePrimaryOnly(old(Contents()), promptId, now) else old(Contents())
    {
      failure := VerifyPromptTenant(promptId, tenant);
      if failure.None? {
        prompts := prompts[promptId := prompts[promptId].(deletedAt := Some(now))];
      }
    }

    method DeleteAllPromptLifecycleRecords(
        promptId: string, tenant: string, now: int)
      returns (failure: Option<Failure>)
      requires Valid()
      modifies this`prompts, this`tables
      ensures Valid() && failure == Verify(old(Contents()), promptId, tenant)
      ensures Contents() == if failure.None? then DeleteAll(old(Contents()), promptId, now) else old(Contents())
    {
      failure := VerifyPromptTenant(promptId, tenant);
      if failure.Some? {
        return;
      }
      RetireTables(promptId, now);
      prompts := prompts[promptId := prompts[promptId].(deletedAt := Some(now))];
      MergeRetire(old(tables), tables, promptId, now);
    }

    method CountOrphanRecords(promptId: string, tenant: string) returns (failure: Option<Failure>, count: nat)
      requires Valid()
      ensures failure == Verify(Contents(), promptId, tenant)
      ensures failure.None? ==> count == |Orphans(Contents(), promptId, tenant)|
    {
      count := 0;
      failure := VerifyPromptTenant(promptId, tenant);
      if failure.None? {
        var logCount := JoinCount(tables[PromptLogs], prompts, promptId, tenant);
        var toolCount := JoinCount(tables[ToolRecords], prompts, promptId, tenant);
        var evalCount := JoinCount(tables[EvaluationQueue], prompts, promptId, tenant);
        var trainCount := JoinCount(tables[TrainingQueue], prompts, promptId, tenant);
        count := logCount + toolCount + evalCount + trainCount;
        FourCountsAreOneSet(Contents(), tables, promptId, tenant);
      }
    }

    method InsertDeletionAudit(
        promptId: string, mode: string, orphanCount: int, complete: bool, tenant: string, auditId: string)
      returns (failure: Option<Failure>)
      modifies this`audits
      ensures var v := Verify(old(Contents()), promptId, tenant);
        failure == if v.Some? then v else if auditId in old(audits) then Some(DuplicateAudit) else None
      ensures audits
           == if failure.None? then old(audits)[auditId := Audit(promptId, mode, orphanCount, complete)]
              else old(audits)
    {
      failure := VerifyPromptTenant(promptId, tenant);
      if failure.None? {
        if auditId in audits {
          return Some(DuplicateAudit);
        }
        audits := audits[auditId := Audit(promptId, mode, orphanCount, complete)];
      }
    }

    // The rest of a run, once its prompt exists: the tenant check in front of every step is bound to pass.
    method ConcludeVulnerable(promptId: string, job: Job) returns (outcome: Local)
      requires Valid() && promptId == PromptId(job.tenant) && job.mode == "vulnerable"
      requires Verify(Contents(), promptId, job.tenant).None?
      modifies this
      ensures Valid() && (Contents(), outcome) == Conclude(old(Contents()), job)
    {
      var failure := DeletePrimaryOnly(promptId, job.tenant, job.deletedAt);
      var orphanCount;
      failure, orphanCount := CountOrphanRecords(promptId, job.tenant);
      outcome := Finished(orphanCount, None);
    }

    method ConcludeHardened(promptId: string, job: Job) returns (outcome: Local)
      requires Valid() && promptId == PromptId(job.tenant) && job.mode != "vulnerable"
      requires Verify(Contents(), promptId, job.tenant).None?
      modifies this
      ensures Valid() && (Contents(), outcome) == Conclude(old(Contents()), job)
    {
      var failure := DeleteAllPromptLifecycleRecords(promptId, job.tenant, job.deletedAt);
      var orphanCount;
      failure, orphanCount := CountOrphanRecords(promptId, job.tenant);
      failure := InsertDeletionAudit(promptId, job.mode, orphanCount, orphanCount == 0, job.tenant, AuditId(job));
      outcome := if failure.Some? then Aborted(failure.value) else Finished(orphanCount, Some(AuditId(job)));
    }

    /** The live lab from the first reset to the last audit row. */
    method RunGovernanceLive(job: Job) returns (outcome: Local)
      requires Valid()
      modifies this
      ensures Valid() && (Contents(), outcome) == Alone(old(Contents()), job, 8)
    {
      WholeRun(Contents(), job);
      AfterCreate(Contents(), job);
      ResetGovernanceLabRecords(job.tenant);
      var promptId := CreatePromptLifecycleRecords(job.tenant);
      if job.mode == "vulnerable" {
        outcome := ConcludeVulnerable(promptId, job);
      } else {
        outcome := ConcludeHardened(promptId, job);
      }
    }
  }
}
