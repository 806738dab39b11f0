/**
 The tables behind the governance lab and the transactions on them. A table is a map from primary
 key to row; the four child tables are read together as one map keyed by table and id.
 */
module GovernanceDb {
  import opened Text
  import opened LikePattern

  datatype Table = PromptLogs | ToolRecords | EvaluationQueue | TrainingQueue

  datatype Key = Key(table: Table, id: string)

  datatype Prompt = Prompt(tenant: string, text: string, deletedAt: Option<int>)

  datatype Child = Child(parent: string, tool: string, content: string, deletedAt: Option<int>)

  datatype Audit = Audit(parent: string, mode: string, orphans: int, complete: bool)

  datatype Db = Db(prompts: map<string, Prompt>, children: map<Key, Child>, audits: map<string, Audit>)

  const GOVERNANCE_ID_PREFIX := "boundary-layer-governance-"

  const PROMPT_TEXT := "Summarize customer feedback for product team."

  function Prefix(tenant: string): string { GOVERNANCE_ID_PREFIX + tenant + ":" }

  function PromptId(tenant: string): string { Prefix(tenant) + "prompt-001" }

  // ---------------------------------------------------------------- transactions

  function Reset(db: Db, tenant: string): Db {
    var pattern := Prefix(tenant) + "%";
    Db(
      map id | id in db.prompts && !(Like(id, pattern) && db.prompts[id].tenant == tenant) :: db.prompts[id],
      map k | k in db.children && !(Like(db.children[k].parent, pattern) || Like(k.id, pattern)) :: db.children[k],
      map id | id in db.audits && !Like(db.audits[id].parent, pattern) :: db.audits[id])
  }

  datatype Seed = Seed(table: Table, suffix: string, tool: string, content: string)

  const SEEDS := [
    Seed(PromptLogs, "log-200", "", "Prompt invocation log A"),
    Seed(PromptLogs, "log-201", "", "Prompt invocation log B"),
    Seed(ToolRecords, "tool-300", "summarize_feedback", "Tool output"),
    Seed(EvaluationQueue, "eval-400", "", "Queued for offline eval"),
    Seed(TrainingQueue, "train-500", "", "Queued for training pipeline")
  ]

  function SeedKey(s: Seed, tenant: string): Key { Key(s.table, Prefix(tenant) + s.suffix) }

  /** INSERT ... ON CONFLICT (id) DO UPDATE SET deleted_at = NULL, content = EXCLUDED.content */
  function Upsert(children: map<Key, Child>, k: Key, parent: string, tool: string, content: string): map<Key, Child> {
    children[k := if k in children then children[k].(content := content, deletedAt := None)
                  else Child(parent, tool, content, None)]
  }

  function UpsertAll(children: map<Key, Child>, seeds: seq<Seed>, tenant: string): map<Key, Child> {
    if seeds == [] then children
    else
      var n := |seeds| - 1;
      Upsert(UpsertAll(children, seeds[..n], tenant), SeedKey(seeds[n], tenant),
             PromptId(tenant), seeds[n].tool, seeds[n].content)
  }

  function Create(db: Db, tenant: string): Db {
    db.(prompts := db.prompts[PromptId(tenant) := Prompt(tenant, PROMPT_TEXT, None)],
        children := UpsertAll(db.children, SEEDS, tenant))
  }

  datatype Failure = PromptNotFound | CrossTenant | DuplicateAudit

  function Verify(db: Db, promptId: string, tenant: string): Option<Failure> {
    if promptId !in db.prompts then Some(PromptNotFound)
    else if db.prompts[promptId].tenant != tenant then Some(CrossTenant)
    else None
  }

  function MarkPrompt(prompts: map<string, Prompt>, promptId: string, now: int): map<string, Prompt> {
    if promptId in prompts then prompts[promptId := prompts[promptId].(deletedAt := Some(now))] else prompts
  }

  function DeletePrimaryOnly(db: Db, promptId: string, now: int): Db {
    db.(prompts := MarkPrompt(db.prompts, promptId, now))
  }

  predicate LiveChildOf(c: Child, promptId: string) {
    c.parent == promptId && c.deletedAt.None?
  }

  function Retire(children: map<Key, Child>, promptId: string, now: int): map<Key, Child> {
    map k | k in children ::
      if LiveChildOf(children[k], promptId) then children[k].(deletedAt := Some(now)) else children[k]
  }

  function DeleteAll(db: Db, promptId: string, now: int): Db {
    db.(prompts := MarkPrompt(db.prompts, promptId, now), children := Retire(db.children, promptId, now))
  }

  function LiveChildren(db: Db, promptId: string): set<Key> {
    set k | k in db.children && LiveChildOf(db.children[k], promptId)
  }

  predicate SoftDeleted(db: Db, promptId: string, tenant: string) {
    promptId in db.prompts && db.prompts[promptId].tenant == tenant && db.prompts[promptId].deletedAt.Some?
  }

  /** The live children of a soft-deleted prompt. */
  function Orphans(db: Db, promptId: string, tenant: string): set<Key> {
    if SoftDeleted(db, promptId, tenant) then LiveChildren(db, promptId) else {}
  }

  /** The names of a tenant's records. */
  lemma {:induction false} NamesAre(tenant: string, suffix: string)
    ensures Prefix(tenant) + suffix == "boundary-layer-governance-" + (tenant + ":" + suffix)
    ensures PromptId(tenant) == "boundary-layer-governance-" + (tenant + ":prompt-001")
  {
    assert PromptId(tenant) == "boundary-layer-governance-" + (tenant + ":" + "prompt-001");
    assert ":" + "prompt-001" == ":prompt-001";
  }

  // ---------------------------------------------------------------- what deletion does to the children

  /** Deleting only the prompt turns exactly its live children into orphans. */
  lemma {:induction false} PrimaryOnlyOrphansTheLiveChildren(db: Db, promptId: string, tenant: string, now: int)
    requires Verify(db, promptId, tenant).None?
    ensures Orphans(DeletePrimaryOnly(db, promptId, now), promptId, tenant) == LiveChildren(db, promptId)
  {
  }

  /** Cascade deletion leaves no orphan, and re-marks no child that was already deleted or belongs elsewhere. */
  lemma {:induction false} CascadeLeavesNoOrphan(db: Db, promptId: string, tenant: string, now: int)
    ensures Orphans(DeleteAll(db, promptId, now), promptId, tenant) == {}
    ensures DeleteAll(db, promptId, now).children.Keys == db.children.Keys
    ensures forall k :: k in db.children ==>
      DeleteAll(db, promptId, now).children[k] == db.children[k].(deletedAt :=
        if k in LiveChildren(db, promptId) then Some(now) else db.children[k].deletedAt)
  {
  }

  /** Both deletions mark the prompt with the time they happen, and touch no other prompt and no audit row. */
  lemma {:induction false} DeletionMarksThePrompt(db: Db, promptId: string, tenant: string, now: int)
    requires Verify(db, promptId, tenant).None?
    ensures forall after :: after in {DeletePrimaryOnly(db, promptId, now), DeleteAll(db, promptId, now)} ==>
      && after.prompts == db.prompts[promptId := Prompt(tenant, db.prompts[promptId].text, Some(now))]
      && after.audits == db.audits
    ensures DeletePrimaryOnly(db, promptId, now).children == db.children
  {
  }

  // ---------------------------------------------------------------- what a reset removes

  /**
   For a tenant free of metacharacters a reset removes exactly the children and audit rows whose prompt is named after
   it, the children that are, and its own prompts that are; everything else stays as it is.
   */
  lemma {:induction false} ResetRemovesByPrefix(db: Db, tenant: string)
    requires Plain(tenant)
    ensures forall id ::
      id in Reset(db, tenant).prompts <==>
        id in db.prompts && !(Prefix(tenant) <= id && db.prompts[id].tenant == tenant)
    ensures forall k ::
      k in Reset(db, tenant).children <==>
        k in db.children && !(Prefix(tenant) <= k.id) && !(Prefix(tenant) <= db.children[k].parent)
    ensures forall id ::
      id in Reset(db, tenant).audits <==> id in db.audits && !(Prefix(tenant) <= db.audits[id].parent)
  {
    assert Plain(Prefix(tenant));
    forall id ensures Like(id, Prefix(tenant) + "%") <==> Prefix(tenant) <= id {
      PlainPrefix(id, Prefix(tenant));
    }
  }

  /** Whatever a reset leaves, it leaves unchanged, and a prompt of another tenant it always leaves. */
  lemma {:induction false} ResetChangesNothingItLeaves(db: Db, tenant: string)
    ensures forall id :: id in Reset(db, tenant).prompts ==>
      id in db.prompts && Reset(db, tenant).prompts[id] == db.prompts[id]
    ensures forall k :: k in Reset(db, tenant).children ==>
      k in db.children && Reset(db, tenant).children[k] == db.children[k]
    ensures forall id :: id in Reset(db, tenant).audits ==>
      id in db.audits && Reset(db, tenant).audits[id] == db.audits[id]
    ensures forall id :: id in db.prompts && db.prompts[id].tenant != tenant ==> id in Reset(db, tenant).prompts
  {
  }
}
