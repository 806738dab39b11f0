/**
 Governance runs of different tenants interleaved transaction by transaction on one database.
 */
module GovernanceIsolation {
  import opened Text
  import opened LikePattern
  import opened GovernanceDb
  import opened GovernanceRun

  /** An id made for a tenant: its prefix, then no further colon. */
  predicate Owns(tenant: string, id: string) {
    Prefix(tenant) <= id && Lacks(id[|Prefix(tenant)|..], ':')
  }

  /** A well-formed database: a record and its prompt are named after the same tenant. */
  ghost predicate Coherent(db: Db) {
    && (forall k, t :: k in db.children ==> (Owns(t, k.id) <==> Owns(t, db.children[k].parent)))
    && (forall id, t :: id in db.audits ==> (Owns(t, id) <==> Owns(t, db.audits[id].parent)))
  }

  function ViewPrompts(prompts: map<string, Prompt>, t: string): map<string, Prompt> {
    map id | id in prompts && Owns(t, id) :: prompts[id]
  }

  function ViewChildren(children: map<Key, Child>, t: string): map<Key, Child> {
    map k | k in children && Owns(t, k.id) :: children[k]
  }

  function ViewAudits(audits: map<string, Audit>, t: string): map<string, Audit> {
    map id | id in audits && Owns(t, id) :: audits[id]
  }

  /** The rows named after a tenant. */
  function View(db: Db, t: string): Db {
    Db(ViewPrompts(db.prompts, t), ViewChildren(db.children, t), ViewAudits(db.audits, t))
  }

  // ---------------------------------------------------------------- names

  lemma {:induction false} PrefixShape(t: string, rest: string)
    ensures Prefix(t) + rest == GOVERNANCE_ID_PREFIX + (t + ":" + rest)
  {
  }

  /** No id is made for two tenants, whatever characters their names hold. */
  lemma {:induction false} OneOwner(t: string, u: string, id: string)
    requires Owns(t, id) && Owns(u, id)
    ensures t == u
  {
    var h := GOVERNANCE_ID_PREFIX;
    var x, y := id[|Prefix(t)|..], id[|Prefix(u)|..];
    PrefixShape(t, x);
    PrefixShape(u, y);
    assert id == Prefix(t) + x && id == Prefix(u) + y;
    CancelHead(h, t + ":" + x, u + ":" + y);
    TailIsUnique(t, x, u, y, ':');
  }

  lemma {:induction false} OwnsItsNames(t: string, u: string, suffix: string)
    requires Lacks(suffix, ':')
    ensures Owns(t, Prefix(u) + suffix) <==> t == u
  {
    assert (Prefix(u) + suffix)[|Prefix(u)|..] == suffix;
    assert Owns(u, Prefix(u) + suffix);
    if Owns(t, Prefix(u) + suffix) {
      OneOwner(t, u, Prefix(u) + suffix);
    }
  }

  /** Of a tenant's names the pattern of u matches all or none. */
  lemma {:induction false} OwnedMatchesIff(t: string, u: string, id: string)
    requires Owns(t, id)
    ensures Like(id, Prefix(u) + "%") <==> Reaches(u, t)
  {
    assert id == Prefix(t) + id[|Prefix(t)|..];
    NamesMatchIff(t, id[|Prefix(t)|..], u);
  }

  // ---------------------------------------------------------------- reset

  lemma {:induction false} ResetCommutes(db: Db, t: string)
    ensures View(Reset(db, t), t) == Reset(View(db, t), t)
  {
    var a, b := View(Reset(db, t), t), Reset(View(db, t), t);
    assert a.prompts == b.prompts;
    assert a.children == b.children;
    assert a.audits == b.audits;
  }

  lemma {:induction false} AllOwnedMatchIff(t: string, u: string)
    ensures forall id :: Owns(t, id) ==> (Like(id, Prefix(u) + "%") <==> Reaches(u, t))
  {
    forall id | Owns(t, id) ensures Like(id, Prefix(u) + "%") <==> Reaches(u, t) {
      OwnedMatchesIff(t, u, id);
    }
  }

  lemma {:induction false} ResetFrames(db: Db, u: string, t: string)
    requires Coherent(db) && !Reaches(u, t)
    ensures View(Reset(db, u), t) == View(db, t)
  {
    AllOwnedMatchIff(t, u);
    var a, b := View(Reset(db, u), t), View(db, t);
    assert a.prompts == b.prompts;
    assert a.children == b.children;
    assert a.audits == b.audits;
  }

  lemma {:induction false} ResetReaps(db: Db, u: string, t: string)
    requires Coherent(db) && Reaches(u, t)
    ensures View(Reset(db, u), t).children == map[] && View(Reset(db, u), t).audits == map[]
  {
    AllOwnedMatchIff(t, u);
  }

  /**
   When one tenant's reset touches another's rows: it leaves them all alone if and only if it does not reach that
   tenant, and otherwise takes every child and audit row.
   */
  lemma {:induction false} ResetSparesIff(db: Db, u: string, t: string)
    requires Coherent(db) && (View(db, t).children != map[] || View(db, t).audits != map[])
    ensures View(Reset(db, u), t) == View(db, t) <==> !Reaches(u, t)
    ensures Reaches(u, t) ==> View(Reset(db, u), t).children == map[] && View(Reset(db, u), t).audits == map[]
  {
    if Reaches(u, t) {
      ResetReaps(db, u, t);
    } else {
      ResetFrames(db, u, t);
    }
  }

  /**
   What a reset does to the prompts named after a tenant it reaches, itself or another: those that are its own go,
   the rest stay as they are; a tenant it does not reach keeps them all.
   */
  lemma {:induction false} ResetOfPrompts(db: Db, u: string, t: string, id: string)
    requires id in db.prompts && Owns(t, id)
    ensures id in Reset(db, u).prompts <==> !(Reaches(u, t) && db.prompts[id].tenant == u)
    ensures id in Reset(db, u).prompts ==> Reset(db, u).prompts[id] == db.prompts[id]
  {
    OwnedMatchesIff(t, u, id);
  }

  lemma {:induction false} ResetKeepsCoherence(db: Db, u: string)
    requires Coherent(db)
    ensures Coherent(Reset(db, u))
  {
  }

  // ---------------------------------------------------------------- create

  lemma {:induction false} UpsertViewed(
      children: map<Key, Child>, k: Key, parent: string, tool: string, content: string, t: string)
    ensures ViewChildren(Upsert(children, k, parent, tool, content), t)
         == if Owns(t, k.id) then Upsert(ViewChildren(children, t), k, parent, tool, content)
            else ViewChildren(children, t)
  {
  }

  lemma {:induction false} UpsertAllViewed(children: map<Key, Child>, seeds: seq<Seed>, u: string, t: string)
    requires forall i :: 0 <= i < |seeds| ==> Lacks(seeds[i].suffix, ':')
    ensures ViewChildren(UpsertAll(children, seeds, u), t)
         == if t == u then UpsertAll(ViewChildren(children, t), seeds, u) else ViewChildren(children, t)
  {
    if seeds != [] {
      var n := |seeds| - 1;
      UpsertAllViewed(children, seeds[..n], u, t);
      OwnsItsNames(t, u, seeds[n].suffix);
      UpsertViewed(UpsertAll(children, seeds[..n], u), SeedKey(seeds[n], u), PromptId(u),
                   seeds[n].tool, seeds[n].content, t);
    }
  }

  lemma {:induction false} SuffixesAreColonFree()
    ensures forall i :: 0 <= i < |SEEDS| ==> Lacks(SEEDS[i].suffix, ':')
    ensures Lacks("prompt-001", ':')
  {
  }

  lemma {:induction false} CreateViewed(db: Db, u: string, t: string)
    ensures View(Create(db, u), t) == if t == u then Create(View(db, t), u) else View(db, t)
  {
    SuffixesAreColonFree();
    var pid, row := PromptId(u), Prompt(u, PROMPT_TEXT, None);
    assert ViewPrompts(db.prompts[pid := row], t)
        == if t == u then ViewPrompts(db.prompts, t)[pid := row] else ViewPrompts(db.prompts, t) by {
      OwnsItsNames(t, u, "prompt-001");
    }
    UpsertAllViewed(db.children, SEEDS, u, t);
  }

  lemma {:induction false} CreateKeepsCoherence(db: Db, u: string)
    requires Coherent(db)
    ensures Coherent(Create(db, u))
  {
    var after := Create(db, u);
    SuffixesAreColonFree();
    UpsertAllSeeds(db.children, SEEDS, u);
    forall k, t | k in after.children ensures Owns(t, k.id) <==> Owns(t, after.children[k].parent) {
      if k !in db.children {
        var s :| s in SEEDS && SeedKey(s, u) == k;
        OwnsItsNames(t, u, s.suffix);
        OwnsItsNames(t, u, "prompt-001");
      }
    }
  }

  // ---------------------------------------------------------------- delete, verify and count

  lemma {:induction false} RetireViewed(children: map<Key, Child>, promptId: string, now: int, t: string)
    ensures ViewChildren(Retire(children, promptId, now), t) == Retire(ViewChildren(children, t), promptId, now)
  {
  }

  lemma {:induction false} MarkViewed(db: Db, t: string, now: int)
    ensures View(DeletePrimaryOnly(db, PromptId(t), now), t) == DeletePrimaryOnly(View(db, t), PromptId(t), now)
  {
  }

  lemma {:induction false} DeleteCommutes(db: Db, job: Job)
    ensures View(Delete(db, job), job.tenant) == Delete(View(db, job.tenant), job)
  {
    var t, pid := job.tenant, PromptId(job.tenant);
    MarkViewed(db, t, job.deletedAt);
    if job.mode != "vulnerable" {
      RetireViewed(db.children, pid, job.deletedAt, t);
      assert DeleteAll(db, pid, job.deletedAt)
          == DeletePrimaryOnly(db, pid, job.deletedAt).(children := Retire(db.children, pid, job.deletedAt));
    }
  }

  lemma {:induction false} MarkFrames(prompts: map<string, Prompt>, promptId: string, now: int, t: string)
    requires !Owns(t, promptId)
    ensures ViewPrompts(MarkPrompt(prompts, promptId, now), t) == ViewPrompts(prompts, t)
  {
  }

  lemma {:induction false} RetireFrames(children: map<Key, Child>, promptId: string, now: int, t: string)
    requires forall k :: k in children && Owns(t, k.id) ==> children[k].parent != promptId
    ensures ViewChildren(Retire(children, promptId, now), t) == ViewChildren(children, t)
  {
  }

  lemma {:induction false} DeleteFrames(db: Db, job: Job, t: string)
    requires Coherent(db) && t != job.tenant
    ensures View(Delete(db, job), t) == View(db, t)
  {
    var pid := PromptId(job.tenant);
    OwnsItsNames(t, job.tenant, "prompt-001");
    MarkFrames(db.prompts, pid, job.deletedAt, t);
    forall k | k in db.children && Owns(t, k.id) ensures db.children[k].parent != pid {
      assert Owns(t, db.children[k].parent);
    }
    RetireFrames(db.children, pid, job.deletedAt, t);
  }

  lemma {:induction false} VerifyViewed(db: Db, t: string)
    ensures Verify(View(db, t), PromptId(t), t) == Verify(db, PromptId(t), t)
    ensures SoftDeleted(View(db, t), PromptId(t), t) == SoftDeleted(db, PromptId(t), t)
  {
  }

  lemma {:induction false} OrphansViewed(db: Db, t: string)
    requires Coherent(db)
    ensures Orphans(View(db, t), PromptId(t), t) == Orphans(db, PromptId(t), t)
  {
  }

  // ---------------------------------------------------------------- one transaction

  /** The random part of an audit id is hexadecimal, so it holds no colon. */
  predicate HexTag(job: Job) {
    Lacks(job.auditTag, ':')
  }

  lemma {:induction false} AuditIdName(job: Job)
    ensures AuditId(job) == Prefix(job.tenant) + ("audit-" + job.auditTag)
  {
  }

  lemma {:induction false} AuditInsertCommutes(db: Db, job: Job, row: Audit)
    requires HexTag(job)
    ensures AuditId(job) in View(db, job.tenant).audits <==> AuditId(job) in db.audits
    ensures View(db.(audits := db.audits[AuditId(job) := row]), job.tenant)
         == View(db, job.tenant).(audits := View(db, job.tenant).audits[AuditId(job) := row])
  {
  }

  /** A run's next transaction does to its tenant's rows what it would do on those rows alone. */
  lemma {:induction false} StepCommutes(db: Db, l: Local, job: Job)
    requires Coherent(db) && HexTag(job)
    ensures Step(View(db, job.tenant), l, job) == (View(Step(db, l, job).0, job.tenant), Step(db, l, job).1)
  {
    var t := job.tenant;
    if l.Running? {
      if l.pc == 0 {
        ResetCommutes(db, t);
      } else if l.pc == 1 {
        CreateViewed(db, t, t);
      } else if l.pc == 2 || l.pc == 4 || l.pc == 6 {
        VerifyViewed(db, t);
      } else if l.pc == 3 {
        DeleteCommutes(db, job);
      } else if l.pc == 5 {
        OrphansViewed(db, t);
      } else {
        AuditInsertCommutes(db, job, AuditRow(l, job));
      }
    }
  }

  /** ... and leaves alone the rows of every other tenant its pattern does not reach. */
  lemma {:induction false} StepFrames(db: Db, l: Local, job: Job, t: string)
    requires Coherent(db) && HexTag(job) && t != job.tenant && !Reaches(job.tenant, t)
    ensures View(Step(db, l, job).0, t) == View(db, t)
  {
    if l.Running? {
      if l.pc == 0 {
        ResetFrames(db, job.tenant, t);
      } else if l.pc == 1 {
        CreateViewed(db, job.tenant, t);
      } else if l.pc == 3 {
        DeleteFrames(db, job, t);
      } else if l.pc > 6 {
        AuditIdName(job);
        OwnsItsNames(t, job.tenant, "audit-" + job.auditTag);
        assert View(Step(db, l, job).0, t).audits == View(db, t).audits;
      }
    }
  }

  lemma {:induction false} StepKeepsCoherence(db: Db, l: Local, job: Job)
    requires Coherent(db) && HexTag(job)
    ensures Coherent(Step(db, l, job).0)
  {
    if l.Running? {
      if l.pc == 0 {
        ResetKeepsCoherence(db, job.tenant);
      } else if l.pc == 1 {
        CreateKeepsCoherence(db, job.tenant);
      } else if l.pc > 6 {
        AuditIdName(job);
        forall t ensures Owns(t, AuditId(job)) <==> Owns(t, PromptId(job.tenant)) {
          OwnsItsNames(t, job.tenant, "audit-" + job.auditTag);
          OwnsItsNames(t, job.tenant, "prompt-001");
        }
      }
    }
  }

  // ---------------------------------------------------------------- every interleaving

  datatype System = System(db: Db, locals: map<string, Local>)

  /** One run per tenant, each for its own tenant. */
  predicate Jobs(jobs: map<string, Job>) {
    forall t :: t in jobs ==> jobs[t].tenant == t && HexTag(jobs[t])
  }

  /** No other tenant's pattern reaches t. */
  predicate Unreached(jobs: map<string, Job>, t: string) {
    forall u :: u in jobs && u != t ==> !Reaches(u, t)
  }

  /** The system after the tenants have moved in the order of the schedule, one transaction per turn. */
  function Interleave(db: Db, jobs: map<string, Job>, schedule: seq<string>): (s: System)
    ensures s.locals.Keys == jobs.Keys
  {
    if schedule == [] then System(db, map t | t in jobs :: START)
    else
      var s, t := Interleave(db, jobs, schedule[..|schedule| - 1]), schedule[|schedule| - 1];
      if t !in jobs then s
      else var (d, l) := Step(s.db, s.locals[t], jobs[t]); System(d, s.locals[t := l])
  }

  function Turns(schedule: seq<string>, t: string): nat {
    if schedule == [] then 0
    else Turns(schedule[..|schedule| - 1], t) + if schedule[|schedule| - 1] == t then 1 else 0
  }

  lemma {:induction false} AloneKeepsCoherence(db: Db, job: Job, n: nat)
    requires Coherent(db) && HexTag(job)
    ensures Coherent(Alone(db, job, n).0)
  {
    if n > 0 {
      AloneKeepsCoherence(db, job, n - 1);
      StepKeepsCoherence(Alone(db, job, n - 1).0, Alone(db, job, n - 1).1, job);
    }
  }

  lemma {:induction false} InterleavingKeepsCoherence(db: Db, jobs: map<string, Job>, schedule: seq<string>)
    requires Coherent(db) && Jobs(jobs)
    ensures Coherent(Interleave(db, jobs, schedule).db)
  {
    if schedule != [] {
      var past, t := schedule[..|schedule| - 1], schedule[|schedule| - 1];
      InterleavingKeepsCoherence(db, jobs, past);
      if t in jobs {
        StepKeepsCoherence(Interleave(db, jobs, past).db, Interleave(db, jobs, past).locals[t], jobs[t]);
      }
    }
  }

  /** The tenant's run is in the state, and its rows are the rows, of the same number of transactions run alone. */
  ghost predicate Invisible(db: Db, jobs: map<string, Job>, schedule: seq<string>, t: string)
    requires t in jobs
  {
    && Interleave(db, jobs, schedule).locals[t] == Alone(db, jobs[t], Turns(schedule, t)).1
    && View(Interleave(db, jobs, schedule).db, t) == View(Alone(db, jobs[t], Turns(schedule, t)).0, t)
  }

  /**
   Non-interference: however the runs are interleaved on a well-formed database, a tenant that no other one reaches
   sees nothing of them.
   */
  lemma {:induction false} InterleavingIsInvisible(db: Db, jobs: map<string, Job>, schedule: seq<string>, t: string)
    requires Coherent(db) && Jobs(jobs) && t in jobs && Unreached(jobs, t)
    ensures Invisible(db, jobs, schedule, t)
  {
    if schedule != [] {
      var past, u := schedule[..|schedule| - 1], schedule[|schedule| - 1];
      var s, alone := Interleave(db, jobs, past), Alone(db, jobs[t], Turns(past, t));
      InterleavingIsInvisible(db, jobs, past, t);
      InterleavingKeepsCoherence(db, jobs, past);
      if u == t {
        AloneKeepsCoherence(db, jobs[t], Turns(past, t));
        StepCommutes(s.db, s.locals[t], jobs[t]);
        StepCommutes(alone.0, alone.1, jobs[t]);
      } else if u in jobs {
        StepFrames(s.db, s.locals[u], jobs[u], t);
      }
    }
  }

  const EMPTY_DB := Db(map[], map[], map[])

  lemma {:induction false} ThreeTurns(jobs: map<string, Job>, t: string, u: string)
    requires Jobs(jobs) && t in jobs && u in jobs && u != t
    ensures Interleave(EMPTY_DB, jobs, [t, t, u]).db == Reset(Create(Reset(EMPTY_DB, t), t), u)
    ensures Turns([t, t, u], t) == 2
  {
    var a, b, c: seq<string> := [t], [t, t], [t, t, u];
    assert a[..0] == [] && b[..1] == a && c[..2] == b;
    assert Interleave(EMPTY_DB, jobs, []).locals[t] == START && Interleave(EMPTY_DB, jobs, []).locals[u] == START;
    assert Interleave(EMPTY_DB, jobs, a).locals[t] == Running(1, 0);
    assert Interleave(EMPTY_DB, jobs, a).locals[u] == START;
    assert Interleave(EMPTY_DB, jobs, b).locals[u] == START;
    assert Turns([], t) == 0 && Turns(a, t) == 1 && Turns(b, t) == 2;
  }

  lemma {:induction false} SeededRowsAreViewed(db: Db, t: string)
    ensures View(Create(db, t), t).children != map[]
  {
    var s := SEEDS[0];
    SuffixesAreColonFree();
    UpsertAllSeeds(db.children, SEEDS, t);
    OwnsItsNames(t, t, s.suffix);
    assert s in SEEDS && SeedKey(s, t) in View(Create(db, t), t).children;
  }

  /** A tenant that reaches another can be seen by it: two turns of the one, a reset of the other. */
  lemma {:induction false} ReachIsVisible(jobs: map<string, Job>, t: string, u: string)
    requires Jobs(jobs) && t in jobs && u in jobs && u != t && Reaches(u, t)
    ensures Coherent(EMPTY_DB) && !Invisible(EMPTY_DB, jobs, [t, t, u], t)
  {
    var created := Create(Reset(EMPTY_DB, t), t);
    ThreeTurns(jobs, t, u);
    AfterCreate(EMPTY_DB, jobs[t]);
    AloneKeepsCoherence(EMPTY_DB, jobs[t], 2);
    ResetReaps(created, u, t);
    SeededRowsAreViewed(Reset(EMPTY_DB, t), t);
  }

  /**
   The exact condition: the runs of other tenants are invisible to t on every well-formed database and under every
   interleaving if and only if none of their patterns reaches it.
   */
  lemma {:induction false} InvisibleIffUnreached(jobs: map<string, Job>, t: string)
    requires Jobs(jobs) && t in jobs
    ensures (forall db, schedule :: Coherent(db) ==> Invisible(db, jobs, schedule, t)) <==> Unreached(jobs, t)
  {
    if Unreached(jobs, t) {
      forall db, schedule | Coherent(db) ensures Invisible(db, jobs, schedule, t) {
        InterleavingIsInvisible(db, jobs, schedule, t);
      }
    } else {
      var u :| u in jobs && u != t && Reaches(u, t);
      ReachIsVisible(jobs, t, u);
    }
  }

  /** Tenants free of LIKE metacharacters and colons never reach each other. */
  lemma {:induction false} CleanTenantsAreUnreached(jobs: map<string, Job>, t: string)
    requires forall u :: u in jobs ==> Plain(u) && Lacks(u, ':')
    requires t in jobs
    ensures Unreached(jobs, t) && Reaches(t, t)
  {
    forall u | u in jobs ensures Reaches(u, t) <==> u == t {
      PlainReachesOnlyItself(u, t);
    }
  }

  lemma {:induction false} FinishedStays(db: Db, job: Job, n: nat, m: nat)
    requires n <= m && !Alone(db, job, n).1.Running?
    ensures Alone(db, job, m) == Alone(db, job, n)
  {
    if n < m {
      FinishedStays(db, job, n, m - 1);
    }
  }

  /** So under every interleaving a vulnerable run that has had its turns reports five orphans ... */
  lemma {:induction false} InterleavedVulnerableRun(db: Db, jobs: map<string, Job>, schedule: seq<string>, t: string)
    requires Coherent(db) && Jobs(jobs) && t in jobs && Unreached(jobs, t) && Reaches(t, t)
    requires jobs[t].mode == "vulnerable" && Turns(schedule, t) >= 6
    ensures Interleave(db, jobs, schedule).locals[t] == Finished(5, None)
  {
    InterleavingIsInvisible(db, jobs, schedule, t);
    VulnerableRunReportsFiveIff(jobs[t]);
    FinishedStays(db, jobs[t], 6, Turns(schedule, t));
  }

  /** ... and a hardened one no orphan, with its complete audit row in the shared table. */
  lemma {:induction false} InterleavedHardenedRun(db: Db, jobs: map<string, Job>, schedule: seq<string>, t: string)
    requires Coherent(db) && Jobs(jobs) && t in jobs && Unreached(jobs, t)
    requires jobs[t].mode != "vulnerable" && AuditId(jobs[t]) !in db.audits && Turns(schedule, t) >= 8
    ensures Interleave(db, jobs, schedule).locals[t] == Finished(0, Some(AuditId(jobs[t])))
    ensures AuditId(jobs[t]) in Interleave(db, jobs, schedule).db.audits
    ensures Interleave(db, jobs, schedule).db.audits[AuditId(jobs[t])] == Audit(PromptId(t), jobs[t].mode, 0, true)
  {
    var job, shared := jobs[t], Interleave(db, jobs, schedule).db;
    InterleavingIsInvisible(db, jobs, schedule, t);
    HardenedRunLeavesNoOrphan(db, job);
    FinishedStays(db, job, 8, Turns(schedule, t));
    AuditIdName(job);
    OwnsItsNames(t, t, "audit-" + job.auditTag);
    assert AuditId(job) in View(Alone(db, job, 8).0, t).audits;
    assert AuditId(job) in View(shared, t).audits;
  }

  /** The family of wildcards that shows the condition is needed: a_b takes every record of each acb. */
  lemma {:induction false} WildcardTenantDeletesOthers(db: Db, a: string, c: char, b: string)
    requires Coherent(db) && Plain(a) && Plain(b)
    ensures View(Create(db, a + [c] + b), a + [c] + b).children != map[]
    ensures View(Reset(Create(db, a + [c] + b), a + "_" + b), a + [c] + b).children == map[]
  {
    var t, u := a + [c] + b, a + "_" + b;
    UnderscoreReaches(a, c, b);
    SeededRowsAreViewed(db, t);
    CreateKeepsCoherence(db, t);
    ResetSparesIff(Create(db, t), u, t);
  }
}
