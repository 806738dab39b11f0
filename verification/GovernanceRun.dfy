/**
 A live governance run as the sequence of transactions it commits, started alone on any database.
 */
module GovernanceRun {
  import opened Text
  import opened LikePattern
  import opened GovernanceDb

  /** `deletedAt` is the time of the deleting transaction; `auditTag` the random part of the audit id. */
  datatype Job = Job(tenant: string, mode: string, deletedAt: int, auditTag: string)

  function AuditId(job: Job): string { Prefix(job.tenant) + "audit-" + job.auditTag }

  datatype Local =
    | Running(pc: nat, orphans: nat)
    | Finished(orphans: nat, auditId: Option<string>)
    | Aborted(failure: Failure)

  const START := Running(0, 0)

  function Checked(db: Db, l: Local, job: Job): Local
    requires l.Running?
  {
    var v := Verify(db, PromptId(job.tenant), job.tenant);
    if v.Some? then Aborted(v.value) else Running(l.pc + 1, l.orphans)
  }

  function Delete(db: Db, job: Job): Db {
    if job.mode == "vulnerable" then DeletePrimaryOnly(db, PromptId(job.tenant), job.deletedAt)
    else DeleteAll(db, PromptId(job.tenant), job.deletedAt)
  }

  function Count(db: Db, job: Job): Local {
    var n := |Orphans(db, PromptId(job.tenant), job.tenant)|;
    if job.mode == "vulnerable" then Finished(n, None) else Running(6, n)
  }

  function AuditRow(l: Local, job: Job): Audit
    requires l.Running?
  {
    Audit(PromptId(job.tenant), job.mode, l.orphans, l.orphans == 0)
  }

  /** The next transaction of a run. */
  function Step(db: Db, l: Local, job: Job): (Db, Local) {
    if !l.Running? then (db, l)
    else if l.pc == 0 then (Reset(db, job.tenant), Running(1, 0))
    else if l.pc == 1 then (Create(db, job.tenant), Running(2, 0))
    else if l.pc == 2 || l.pc == 4 || l.pc == 6 then (db, Checked(db, l, job))
    else if l.pc == 3 then (Delete(db, job), Running(4, 0))
    else if l.pc == 5 then (db, Count(db, job))
    else if AuditId(job) in db.audits then (db, Aborted(DuplicateAudit))
    else (db.(audits := db.audits[AuditId(job) := AuditRow(l, job)]), Finished(l.orphans, Some(AuditId(job))))
  }

  /** The database and the run's own state after `n` transactions of a run that has the database to itself. */
  function Alone(db: Db, job: Job, n: nat): (Db, Local) {
    if n == 0 then (db, START)
    else var (d, l) := Alone(db, job, n - 1); Step(d, l, job)
  }

  // ---------------------------------------------------------------- after create

  function SeedKeys(seeds: seq<Seed>, tenant: string): set<Key> {
    set s | s in seeds :: SeedKey(s, tenant)
  }

  predicate Seeded(before: map<Key, Child>, after: map<Key, Child>, seeded: set<Key>, parent: string) {
    && after.Keys == before.Keys + seeded
    && (forall k :: k in after && k !in seeded ==> after[k] == before[k])
    && (forall k :: k in after && k in seeded ==> after[k].deletedAt.None?)
    && (forall k :: k in after && k in seeded ==> after[k].parent == if k in before then before[k].parent else parent)
  }

  lemma {:induction false} UpsertAllSeeds(children: map<Key, Child>, seeds: seq<Seed>, tenant: string)
    ensures Seeded(children, UpsertAll(children, seeds, tenant), SeedKeys(seeds, tenant), PromptId(tenant))
  {
    if seeds != [] {
      var n := |seeds| - 1;
      UpsertAllSeeds(children, seeds[..n], tenant);
      assert seeds == seeds[..n] + [seeds[n]];
      assert SeedKeys(seeds, tenant) == SeedKeys(seeds[..n], tenant) + {SeedKey(seeds[n], tenant)};
    }
  }

  predicate DistinctSeeds(seeds: seq<Seed>) {
    forall i, j :: 0 <= i < j < |seeds| ==> seeds[i].table != seeds[j].table || seeds[i].suffix != seeds[j].suffix
  }

  lemma {:induction false} SeedKeysCard(seeds: seq<Seed>, tenant: string)
    requires DistinctSeeds(seeds)
    ensures |SeedKeys(seeds, tenant)| == |seeds|
  {
    if seeds == [] {
      assert SeedKeys(seeds, tenant) == {};
    } else {
      var n := |seeds| - 1;
      var k := SeedKey(seeds[n], tenant);
      SeedKeysCard(seeds[..n], tenant);
      assert seeds == seeds[..n] + [seeds[n]];
      assert SeedKeys(seeds, tenant) == SeedKeys(seeds[..n], tenant) + {k};
      forall i | 0 <= i < n ensures SeedKey(seeds[i], tenant) != k {
        if SeedKey(seeds[i], tenant) == k {
          CancelHead(Prefix(tenant), seeds[i].suffix, seeds[n].suffix);
        }
      }
    }
  }

  lemma {:induction false} SeedKeysDiffer(seeds: seq<Seed>, i: nat, j: nat, tenant: string)
    requires DistinctSeeds(seeds) && i < j < |seeds|
    ensures SeedKey(seeds[i], tenant) != SeedKey(seeds[j], tenant)
  {
    if SeedKey(seeds[i], tenant) == SeedKey(seeds[j], tenant) {
      CancelHead(Prefix(tenant), seeds[i].suffix, seeds[j].suffix);
    }
  }

  /** What an upsert makes of the row under its key. */
  function Upserted(before: Option<Child>, parent: string, tool: string, content: string): Child {
    if before.Some? then Child(before.value.parent, before.value.tool, content, None)
    else Child(parent, tool, content, None)
  }

  function RowAt(children: map<Key, Child>, k: Key): Option<Child> {
    if k in children then Some(children[k]) else None
  }

  lemma {:induction false} UpsertAt(
      children: map<Key, Child>, k: Key, parent: string, tool: string, content: string, other: Key)
    ensures RowAt(Upsert(children, k, parent, tool, content), k)
         == Some(Upserted(RowAt(children, k), parent, tool, content))
    ensures other != k ==> RowAt(Upsert(children, k, parent, tool, content), other) == RowAt(children, other)
  {
  }

  lemma {:induction false} UpsertAllElsewhere(children: map<Key, Child>, seeds: seq<Seed>, tenant: string, k: Key)
    requires forall j :: 0 <= j < |seeds| ==> SeedKey(seeds[j], tenant) != k
    ensures RowAt(UpsertAll(children, seeds, tenant), k) == RowAt(children, k)
  {
    if seeds != [] {
      var n := |seeds| - 1;
      var mid := UpsertAll(children, seeds[..n], tenant);
      UpsertAllElsewhere(children, seeds[..n], tenant, k);
      UpsertAt(mid, SeedKey(seeds[n], tenant), PromptId(tenant), seeds[n].tool, seeds[n].content, k);
    }
  }

  /** Every seeded record carries its own content and no deletion mark; a new one also its own tool and prompt. */
  lemma {:induction false} SeededRecordIs(children: map<Key, Child>, seeds: seq<Seed>, i: nat, tenant: string)
    requires DistinctSeeds(seeds) && i < |seeds|
    ensures RowAt(UpsertAll(children, seeds, tenant), SeedKey(seeds[i], tenant))
         == Some(Upserted(RowAt(children, SeedKey(seeds[i], tenant)), PromptId(tenant),
                          seeds[i].tool, seeds[i].content))
  {
    var n, k := |seeds| - 1, SeedKey(seeds[i], tenant);
    var mid := UpsertAll(children, seeds[..n], tenant);
    UpsertAt(mid, SeedKey(seeds[n], tenant), PromptId(tenant), seeds[n].tool, seeds[n].content, k);
    if i < n {
      SeededRecordIs(children, seeds[..n], i, tenant);
      SeedKeysDiffer(seeds, i, n, tenant);
    } else {
      forall j | 0 <= j < n ensures SeedKey(seeds[..n][j], tenant) != k {
        SeedKeysDiffer(seeds, j, n, tenant);
      }
      UpsertAllElsewhere(children, seeds[..n], tenant, k);
    }
  }

  /** The records a run starts from, in full. */
  lemma {:induction false} CreatedFromNothing(tenant: string)
    ensures UpsertAll(map[], SEEDS, tenant).Keys == SeedKeys(SEEDS, tenant)
    ensures RowAt(UpsertAll(map[], SEEDS, tenant), Key(PromptLogs, Prefix(tenant) + "log-200"))
         == Some(Child(PromptId(tenant), "", "Prompt invocation log A", None))
    ensures RowAt(UpsertAll(map[], SEEDS, tenant), Key(PromptLogs, Prefix(tenant) + "log-201"))
         == Some(Child(PromptId(tenant), "", "Prompt invocation log B", None))
    ensures RowAt(UpsertAll(map[], SEEDS, tenant), Key(ToolRecords, Prefix(tenant) + "tool-300"))
         == Some(Child(PromptId(tenant), "summarize_feedback", "Tool output", None))
    ensures RowAt(UpsertAll(map[], SEEDS, tenant), Key(EvaluationQueue, Prefix(tenant) + "eval-400"))
         == Some(Child(PromptId(tenant), "", "Queued for offline eval", None))
    ensures RowAt(UpsertAll(map[], SEEDS, tenant), Key(TrainingQueue, Prefix(tenant) + "train-500"))
         == Some(Child(PromptId(tenant), "", "Queued for training pipeline", None))
  {
    assert DistinctSeeds(SEEDS) by { assert SEEDS[0].suffix[6] == '0' && SEEDS[1].suffix[6] == '1'; }
    UpsertAllSeeds(map[], SEEDS, tenant);
    SeededRecordIs(map[], SEEDS, 0, tenant);
    SeededRecordIs(map[], SEEDS, 1, tenant);
    SeededRecordIs(map[], SEEDS, 2, tenant);
    SeededRecordIs(map[], SEEDS, 3, tenant);
    SeededRecordIs(map[], SEEDS, 4, tenant);
  }

  /** Create leaves a live prompt of the tenant, whatever was there, and no other prompt and no audit row changes. */
  lemma {:induction false} CreatedPromptIs(db: Db, tenant: string)
    ensures PromptId(tenant) in Create(db, tenant).prompts
    ensures Create(db, tenant).prompts[PromptId(tenant)]
         == Prompt(tenant, "Summarize customer feedback for product team.", None)
    ensures forall id :: id != PromptId(tenant) ==>
      && (id in Create(db, tenant).prompts <==> id in db.prompts)
      && (id in db.prompts ==> Create(db, tenant).prompts[id] == db.prompts[id])
    ensures Create(db, tenant).audits == db.audits
  {
  }

  /** In front of the deletion, the count and the audit row a run makes sure that its prompt is there and its own. */
  lemma {:induction false} EveryStepIsChecked(db: Db, l: Local, job: Job)
    requires l.Running? && l.pc in {2, 4, 6}
    ensures Step(db, l, job).0 == db
    ensures Step(db, l, job).1
         == if PromptId(job.tenant) !in db.prompts then Aborted(PromptNotFound)
            else if db.prompts[PromptId(job.tenant)].tenant != job.tenant then Aborted(CrossTenant)
            else Running(l.pc + 1, l.orphans)
  {
  }

  /** An audit row names its prompt, its mode and the orphans counted, and calls itself complete only without any. */
  lemma {:induction false} AuditRowTells(db: Db, l: Local, job: Job)
    requires l.Running? && l.pc == 7 && AuditId(job) !in db.audits
    ensures Step(db, l, job).1 == Finished(l.orphans, Some(AuditId(job)))
    ensures Step(db, l, job).0
         == db.(audits := db.audits[AuditId(job) := Audit(PromptId(job.tenant), job.mode, l.orphans, l.orphans == 0)])
  {
  }

  /** Runs with different random tags write different audit rows. */
  lemma {:induction false} AuditIdsDiffer(a: Job, b: Job)
    requires a.tenant == b.tenant
    ensures AuditId(a) == AuditId(b) <==> a.auditTag == b.auditTag
  {
    if AuditId(a) == AuditId(b) {
      CancelHead(Prefix(a.tenant) + "audit-", a.auditTag, b.auditTag);
    }
  }

  lemma {:induction false} FiveSeeds(tenant: string)
    ensures |SeedKeys(SEEDS, tenant)| == 5
  {
    assert SEEDS[0].suffix[6] == '0' && SEEDS[1].suffix[6] == '1';
    assert DistinctSeeds(SEEDS);
    SeedKeysCard(SEEDS, tenant);
  }

  // ---------------------------------------------------------------- hardened runs

  /**
   From any database, for any tenant, a hardened run ends with orphan count 0, a complete audit row and no live
   child of its prompt, provided only that its random audit id is new.
   */
  lemma {:induction false} HardenedRunLeavesNoOrphan(db: Db, job: Job)
    requires job.mode != "vulnerable" && AuditId(job) !in db.audits
    ensures Alone(db, job, 8).1 == Finished(0, Some(AuditId(job)))
    ensures AuditId(job) in Alone(db, job, 8).0.audits
    ensures Alone(db, job, 8).0.audits[AuditId(job)] == Audit(PromptId(job.tenant), job.mode, 0, true)
    ensures LiveChildren(Alone(db, job, 8).0, PromptId(job.tenant)) == {}
  {
    var deleted := DeleteAll(Create(Reset(db, job.tenant), job.tenant), PromptId(job.tenant), job.deletedAt);
    WholeRun(db, job);
    assert LiveChildren(deleted, PromptId(job.tenant)) == {};
  }

  lemma {:induction false} AfterCreate(db: Db, job: Job)
    ensures Alone(db, job, 2) == (Create(Reset(db, job.tenant), job.tenant), Running(2, 0))
    ensures Verify(Create(Reset(db, job.tenant), job.tenant), PromptId(job.tenant), job.tenant).None?
  {
    assert Alone(db, job, 0) == (db, START);
    assert Alone(db, job, 1) == (Reset(db, job.tenant), Running(1, 0));
  }

  /** What a run deletes, counts and records once its records exist. */
  function Conclude(created: Db, job: Job): (Db, Local) {
    var deleted := Delete(created, job);
    var n := |Orphans(deleted, PromptId(job.tenant), job.tenant)|;
    if job.mode == "vulnerable" then (deleted, Finished(n, None))
    else if AuditId(job) in deleted.audits then (deleted, Aborted(DuplicateAudit))
    else (deleted.(audits := deleted.audits[AuditId(job) := Audit(PromptId(job.tenant), job.mode, n, n == 0)]),
          Finished(n, Some(AuditId(job))))
  }

  /** After a run has created its records: deletion and both checks around it. */
  lemma {:induction false} AfterDelete(db: Db, job: Job)
    ensures Alone(db, job, 5) == (Delete(Create(Reset(db, job.tenant), job.tenant), job), Running(5, 0))
    ensures Verify(Alone(db, job, 5).0, PromptId(job.tenant), job.tenant).None?
  {
    var created := Create(Reset(db, job.tenant), job.tenant);
    var deleted := Delete(created, job);
    AfterCreate(db, job);
    assert Alone(db, job, 3) == (created, Running(3, 0));
    assert Alone(db, job, 4) == (deleted, Running(4, 0));
  }

  lemma {:induction false} WholeRun(db: Db, job: Job)
    ensures Alone(db, job, 8) == Conclude(Create(Reset(db, job.tenant), job.tenant), job)
  {
    AfterDelete(db, job);
    var deleted := Alone(db, job, 5).0;
    var n := |Orphans(deleted, PromptId(job.tenant), job.tenant)|;
    assert Alone(db, job, 6) == (deleted, Count(deleted, job));
    assert Alone(db, job, 7) == (deleted, if job.mode == "vulnerable" then Finished(n, None) else Running(7, n));
  }

  // ---------------------------------------------------------------- vulnerable runs

  lemma {:induction false} NamesMatchIff(t: string, suffix: string, u: string)
    requires Lacks(suffix, ':')
    ensures Like(Prefix(t) + suffix, Prefix(u) + "%") <==> Reaches(u, t)
  {
    MatchesIffReaches(GOVERNANCE_ID_PREFIX, t, suffix, u);
  }

  lemma {:induction false} SeedNamesMatchIff(t: string, u: string)
    ensures Like(PromptId(t), Prefix(u) + "%") <==> Reaches(u, t)
    ensures forall s :: s in SEEDS ==> (Like(SeedKey(s, t).id, Prefix(u) + "%") <==> Reaches(u, t))
  {
    NamesMatchIff(t, "prompt-001", u);
    forall s | s in SEEDS ensures Like(SeedKey(s, t).id, Prefix(u) + "%") <==> Reaches(u, t) {
      NamesMatchIff(t, s.suffix, u);
    }
  }

  /** A vulnerable run reports the live children of its prompt right after create. */
  lemma {:induction false} VulnerableRunCounts(db: Db, job: Job)
    requires job.mode == "vulnerable"
    ensures Alone(db, job, 6).1
         == Finished(|LiveChildren(Create(Reset(db, job.tenant), job.tenant), PromptId(job.tenant))|, None)
  {
    AfterDelete(db, job);
    AfterCreate(db, job);
    PrimaryOnlyOrphansTheLiveChildren(Create(Reset(db, job.tenant), job.tenant), PromptId(job.tenant),
                                      job.tenant, job.deletedAt);
  }

  lemma {:induction false} ReachingRunReportsFive(db: Db, tenant: string)
    requires Reaches(tenant, tenant)
    ensures |LiveChildren(Create(Reset(db, tenant), tenant), PromptId(tenant))| == 5
  {
    var clean := Reset(db, tenant);
    var seeded := SeedKeys(SEEDS, tenant);
    SeedNamesMatchIff(tenant, tenant);
    UpsertAllSeeds(clean.children, SEEDS, tenant);
    assert forall k :: k in clean.children ==> k !in seeded && clean.children[k].parent != PromptId(tenant);
    assert LiveChildren(Create(clean, tenant), PromptId(tenant)) == seeded;
    FiveSeeds(tenant);
  }

  /** A live child of the tenant's prompt that its reset does not match. */
  function StrayDb(tenant: string): Db {
    Db(map[], map[Key(PromptLogs, "") := Child(PromptId(tenant), "", "", None)], map[])
  }

  lemma {:induction false} StrayIsCounted(tenant: string)
    requires !Reaches(tenant, tenant)
    ensures |LiveChildren(Create(Reset(StrayDb(tenant), tenant), tenant), PromptId(tenant))| == 6
  {
    var clean, stray, seeded := Reset(StrayDb(tenant), tenant), Key(PromptLogs, ""), SeedKeys(SEEDS, tenant);
    SeedNamesMatchIff(tenant, tenant);
    assert (Prefix(tenant) + "%")[0] == 'b';
    assert clean.children == StrayDb(tenant).children;
    UpsertAllSeeds(clean.children, SEEDS, tenant);
    assert stray !in seeded;
    assert LiveChildren(Create(clean, tenant), PromptId(tenant)) == seeded + {stray};
    FiveSeeds(tenant);
  }

  /** A vulnerable run reports exactly five orphans from every database if and only if the tenant reaches itself. */
  lemma {:induction false} VulnerableRunReportsFiveIff(job: Job)
    requires job.mode == "vulnerable"
    ensures (forall db :: Alone(db, job, 6).1 == Finished(5, None)) <==> Reaches(job.tenant, job.tenant)
  {
    var tenant := job.tenant;
    if Reaches(tenant, tenant) {
      forall db ensures Alone(db, job, 6).1 == Finished(5, None) {
        VulnerableRunCounts(db, job);
        ReachingRunReportsFive(db, tenant);
      }
    } else {
      VulnerableRunCounts(StrayDb(tenant), job);
      StrayIsCounted(tenant);
    }
  }
}
