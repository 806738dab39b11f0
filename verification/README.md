# BoundaryLayer verification

A Dafny 4.11 model of the stateful parts of BoundaryLayer and of what they guarantee over whole runs. Check it with
`dafny verify dfyconfig.toml`. Nothing here executes the original program.

What is modelled, module by module:

- **Rate limiting** (`WindowSpec`, `MemoryLimiter`, `RedisLimiter`, `Backends`, `RedisProtocol`, `StaleClock`,
  `StaleRuns`, `StaleExpiry`, `ClientKey`).
  `WindowSpec` is the sliding window stated over the full history of calls. Both limiters are proved to refine it, one
  with a closed and one with a half-open edge, and they are proved interchangeable exactly on the runs without an edge
  hit. `RedisProtocol` takes the Redis limiter apart into its two pipelines and lets any number of callers interleave
  and any pipeline fail, before or after taking effect. `StaleClock` also separates the clock reading from the count
  that uses it, as the code does, and finds the bound that then holds, a looser one; `StaleRuns` constructs runs that
  reach the bounds, and `StaleExpiry` says exactly when a caller can tell that Redis drops idle keys.
- **Governance lab** (`LikePattern`, `GovernanceDb`, `GovernanceRun`, `GovernanceIsolation`, `GovernanceStore`).
  Tables are maps from primary key to row, `LIKE` is a real matcher, a run is the sequence of transactions it commits,
  and `GovernanceStore` holds the procedures with their loops over four separate child tables.
- **Write-storm lab** (`WriteStorm`): the events table, zero-padded ids, the write budget and the ledger.
- **Time-bounded caches** (`Jwks`, `Secrets`): one client object over its life, with a clock that never runs backwards.
- **Tenant key grammar** (`ObjectKeys`, `ObjectStore`, `CacheKeys`): printer, parser and resolver of object keys, the
  in-memory store, Redis keys and prompt-cache keys.
- **Auth gate** (`AuthGate`, `AuthLedger`): bearer header, claims, key look-up, membership, roles, mode and tenant
  override of one request, and the audit ledger over runs of them.
- **Environment and alerts** (`IsolatedEnv`, `AlertStore`): save and restore of the environment, the bounded store.
- `Text` holds the Python string operations the rest relies on.

Where the code and its apparent intent differ, the model follows the code:

- The backends disagree about an admission aged exactly one window (`Backends.BackendsAgreeIffNoEdgeHit`).
- Tenants go into `LIKE` patterns unescaped. One match of `t:` against `u:%` decides whether the pattern of tenant u
  reaches the records of tenant t. A backslash can keep a tenant from reaching its own records, a wildcard makes it
  reach others' (`GovernanceRun.VulnerableRunReportsFiveIff`, `GovernanceIsolation.InvisibleIffUnreached`,
  `WriteStorm.LedgerBalancesIff`).
- A request that passes the gate and then asks for a mode the environment refuses gets a 403 that no audit row records
  (`AuthLedger.PlainBalanceIff`).
- The environment secret provider caches under the raw name and refreshes the canonical one
  (`Secrets.RefreshIsCurrentIff`).
- Resolving an object key again is not always the identity, and not every storage prefix admits its tenants
  (`ObjectKeys.ResolvingAgain`, `ObjectKeys.ResolveSucceedsIff`).
- Some errors on the way to an identity are not turned into authentication errors: a `JwksError` raised while the
  token's header is read, a key set that is cut short or no JSON object, a key of the wrong kind for the algorithm. The
  caller gets an unhandled failure and the ledger gets no row (`AuthGate.UnhandledIffUnreadable`).
- Redis dropping an idle key is invisible only to calls that count within a second of reading the clock
  (`StaleExpiry.ExpiryIsInvisibleIff`).
- Tenant ids with a colon can share Redis keys (`CacheKeys.TenantsShareAKeyIff`), and a blank tenant of the in-memory
  store can name other tenants' objects (`ObjectStore.BlankTenantCanClashIff`).
- In `HttpJwksClient.refresh` the handler for time-outs can never run, because a time-out is an `OSError` and the
  handler before it takes those; the model reports a time-out as a failed fetch.
- A refused alert batch can leave its leading alerts in the store (`AlertStore.RefusedBatchLeavesTraceIff`).

## Model

| member | source | states |
|---|---|---|
| `WindowSpec.BurstNeverExceedsLimit` | apps/api/rate_limit.py:23-34 | for every run of calls, no interval of length window holds more than limit admissions of a key |
| `WindowSpec.LiveNeverExceedsLimit` | apps/api/rate_limit.py:27-31 | the closed window a call looks back over never holds more than limit admissions |
| `WindowSpec.RefusedCallsAreInvisible` | apps/api/rate_limit.py:30-31 | leaving a refused call out of a run changes no other reply, so refusals never delay anybody |
| `WindowSpec.KeysAreIndependent` | apps/api/rate_limit.py:21-25 | each client gets the replies it would get if it were the only one |
| `WindowSpec.RepliesCountTheWindow` | apps/api/rate_limit.py:30-34 | a call is allowed exactly when fewer than limit admissions of its key are in the window, and remaining is what the limit leaves with this call counted, 0 when refused |
| `MemoryLimiter.InMemoryRateLimiter.constructor` | apps/api/rate_limit.py:20-21 | a new limiter has no events |
| `MemoryLimiter.InMemoryRateLimiter.Allow` | apps/api/rate_limit.py:23-34 | the loop pops exactly the expired head of the key's deque; reply and new deques are those of the step function the refinement is about |
| `MemoryLimiter.RunRefinesWindow` | apps/api/rate_limit.py:23-34 | every chronological run is answered as the full-history closed window answers it, remaining counts included |
| `RedisLimiter.RedisRateLimiter.constructor` | apps/api/rate_limit.py:40-43 | a new limiter starts on an empty key space |
| `RedisLimiter.RedisRateLimiter.Allow` | apps/api/rate_limit.py:45-76 | sorted set and answer after a call for every combination of pipeline failures; fail-closed, an answer means no pipeline it needed went wrong; fail-open, there is always one, and an uncounted call is allowed with the whole limit remaining |
| `RedisLimiter.RunRefinesWindow` | apps/api/rate_limit.py:57-76 | every sequential chronological run, key expiry included, is answered as the half-open window answers it |
| `Backends.BackendsAgreeIffNoEdgeHit` | apps/api/rate_limit.py:23-76 | the two backends return identical sequences on a run if and only if no call comes exactly window after an admission of its own key |
| `Backends.BackendsAgreeOffTheEdge` | apps/api/rate_limit.py:23-76 | they agree on every run in which no two request times differ by exactly window |
| `Backends.BackendsDisagreeOnTheEdge` | apps/api/rate_limit.py:27-64 | limit 1 and a second call exactly one window later: refused in memory, admitted by Redis |
| `RedisProtocol.AlwaysSound` | apps/api/rate_limit.py:57-76 | what every step of every interleaving keeps: members are stored calls, a stored call missing from the set has left the window, the key outlives its members |
| `RedisProtocol.AlwaysBacked` | apps/api/rate_limit.py:45-55 | fail-closed, only calls whose add took effect are ever admitted |
| `RedisProtocol.AlwaysBounded` | apps/api/rate_limit.py:57-76 | members plus calls in flight, and the claims on any window, stay within limit + n - 1 in every reachable state |
| `RedisProtocol.OverAdmissionIsBounded` | apps/api/rate_limit.py:45-76 | under every interleaving and failure pattern with at most n calls in flight, fail-closed, no half-open window sees more than limit + n - 1 admissions and the set never holds more members |
| `RedisProtocol.OverAdmissionBoundIsReached` | apps/api/rate_limit.py:57-76 | for every limit and n some run reaches that bound exactly |
| `RedisProtocol.FailOpenIsUnbounded` | apps/api/rate_limit.py:53-54 | fail-open, any number of calls can be admitted at one instant with none in flight |
| `RedisProtocol.ExpiryIsInvisible` | apps/api/rate_limit.py:63-75 | where the clock is read together with the count, every run admits, refuses and keeps in flight the same calls with and without expiry of the key |
| `RedisProtocol.UninterruptedCall` | apps/api/rate_limit.py:45-76 | a call without interference is one read step and one add step whatever its pipelines do: it is among the admitted exactly when the limiter answers allowed, and Redis holds the same members |
| `StaleClock.AlwaysIntact` | apps/api/rate_limit.py:57-76 | what every step keeps when clock reading, count and add are three separate steps with any delay between them |
| `StaleClock.StaleOverAdmissionIsBounded` | apps/api/rate_limit.py:57-76 | under every interleaving and failure pattern, however stale the clocks, with at most n calls between clock reading and add no half-open window sees more than limit + 2n - 1 admissions, fail-closed |
| `StaleClock.AlwaysSpacious` | apps/api/rate_limit.py:63-75 | however stale the clocks, members of the set plus calls counted in never exceed limit + n - 1 |
| `StaleClock.UnexpiringOverAdmissionIsBounded` | apps/api/rate_limit.py:57-76 | were the key never to expire, no half-open window would see more than limit + 2n - 2 admissions |
| `StaleRuns.StaleBoundIsReached` | apps/api/rate_limit.py:58-75 | for every limit and n some run reaches limit + 2n - 1, by calls that count when the key has expired |
| `StaleRuns.PromptBoundIsReached` | apps/api/rate_limit.py:58-75 | for every limit and n some run whose counts come within a second of their clock readings reaches limit + 2n - 2, with and without expiry |
| `StaleExpiry.PromptCountsIgnoreExpiry` | apps/api/rate_limit.py:58-75 | in every run whose counts come within a second of their clock readings, every call is where it would be without expiry, and the set lacks only members that left the window a second before |
| `StaleExpiry.LateCountSeesExpiry` | apps/api/rate_limit.py:58-75 | for every limit and window and every delay over a second, a run with counts no later than that admits a call with expiry that it refuses without |
| `StaleExpiry.ExpiryIsInvisibleIff` | apps/api/rate_limit.py:58-75 | all runs whose counts come at most d after their clock readings get the same answers with and without expiry if and only if d is at most one second |
| `StaleExpiry.PromptOverAdmissionIsBounded` | apps/api/rate_limit.py:57-76 | so with counts within a second no half-open window sees more than limit + 2n - 2 admissions |
| `StaleClock.PromptCallsRead` | apps/api/rate_limit.py:58-66 | a call that counts at the instant it reads the clock makes exactly the read step of the two-step protocol |
| `StaleClock.StoresAreAdds` | apps/api/rate_limit.py:71-76 | the add of either protocol is the same step |
| `ClientKey.EarlierHopsAreIgnored` | apps/api/middleware.py:125-135 | behind a trusted proxy the key is the last hop, whatever text stands before it |
| `ClientKey.SpoofingChangesNoAnswer` | apps/api/middleware.py:125-135 | rewriting, adding or leaving out the client's part of every forwarded header changes no answer of either backend in any run |
| `ClientKey.KeyIs` | apps/api/middleware.py:125-135 | the client is the last non-blank hop of a trusted header that has one, else its address, else unknown |
| `LikePattern.PlainPrefix` | apps/api/db.py:161-167 | with a prefix free of metacharacters, prefix% matches exactly the strings that start with it |
| `LikePattern.PercentIsAnyRun` | apps/api/db.py:161-167 | a percent sign matches any run of characters, the empty one included |
| `LikePattern.PrefixMatchesItself` | apps/api/db.py:161-167 | a prefix without backslash, wildcards or not, matches every string that starts with it |
| `GovernanceDb.PrimaryOnlyOrphansTheLiveChildren` | apps/api/db.py:269-280 | deleting only the prompt turns exactly its live children into orphans |
| `GovernanceDb.CascadeLeavesNoOrphan` | apps/api/db.py:283-311 | cascade deletion leaves no orphan, loses no row and keeps the deletion times and contents of all other children |
| `GovernanceDb.DeletionMarksThePrompt` | apps/api/db.py:269-311 | both deletions mark the prompt with their own time and change no other prompt and no audit row; the primary-only one changes no child |
| `GovernanceDb.ResetRemovesByPrefix` | apps/api/db.py:157-187 | for a tenant free of metacharacters, which prompts, children and audit rows a reset removes, on any database |
| `GovernanceDb.ResetChangesNothingItLeaves` | apps/api/db.py:157-187 | rows a reset leaves are unchanged, and prompts of other tenants are always left |
| `GovernanceDb.NamesAre` | apps/api/db.py:9-16 | the names of a tenant's records |
| `GovernanceRun.UpsertAllSeeds` | apps/api/db.py:225-265 | after create every seeded record exists and is live, keeps the parent it had if it existed, and no other record changed |
| `GovernanceRun.SeededRecordIs` | apps/api/db.py:225-265 | every seeded record has its own content and no deletion mark; an existing one keeps its prompt and tool, a new one gets its own |
| `GovernanceRun.CreatedFromNothing` | apps/api/db.py:193-265 | the five records of a fresh run, with table, id, tool and content |
| `GovernanceRun.CreatedPromptIs` | apps/api/db.py:211-224 | create leaves a live prompt of the tenant whatever was there, and no other prompt changes |
| `GovernanceRun.EveryStepIsChecked` | apps/api/db.py:23-38 | in front of deletion, count and audit row a run aborts with its reason unless its prompt is there and its own |
| `GovernanceRun.AuditRowTells` | labs/governance.py:190-192 | an audit row names its prompt and mode, the orphans counted, and is complete exactly when there were none |
| `GovernanceRun.AuditIdsDiffer` | apps/api/db.py:384 | runs with different random tags write different audit rows |
| `GovernanceRun.HardenedRunLeavesNoOrphan` | labs/governance.py:162-208 | from any database and for any tenant a hardened run ends with orphan count 0, a complete audit row and no live child, if only its random audit id is new |
| `GovernanceRun.VulnerableRunCounts` | labs/governance.py:167-184 | a vulnerable run reports the number of live children its prompt has right after create |
| `GovernanceRun.VulnerableRunReportsFiveIff` | labs/governance.py:162-184 | a vulnerable run reports exactly five orphans from every database if and only if the tenant's pattern reaches the tenant itself |
| `LikePattern.MatchesIffReaches` | apps/api/db.py:15-20 | of all names made for tenant t, the pattern of tenant u matches all or none, and which is decided by one match of t: against u:% |
| `LikePattern.EscapeFreeReachesItself` | apps/api/db.py:15-16 | every tenant id without a backslash reaches itself |
| `LikePattern.PlainReachesOnlyItself` | apps/api/db.py:15-16 | a tenant id without metacharacters and colons reaches, among colon-free ones, only itself |
| `LikePattern.UnderscoreReaches` | apps/api/db.py:15-16 | a_b reaches every acb |
| `LikePattern.BackslashReachesNothingOfItself` | apps/api/db.py:15-16 | the tenant id consisting of a backslash does not reach itself |
| `GovernanceRun.WholeRun` | labs/governance.py:147-208 | eight transactions from reset on amount to reset, create, delete, count and audit |
| `GovernanceIsolation.OneOwner` | apps/api/db.py:15-16 | no id is made for two different tenants, whatever characters their names hold |
| `GovernanceIsolation.StepCommutes` | apps/api/db.py:157-395 | each transaction of a tenant does to that tenant's rows what it would do on those rows alone, and tells it the same |
| `GovernanceIsolation.StepFrames` | apps/api/db.py:157-395 | each transaction leaves unchanged the rows of every other tenant its pattern does not reach |
| `GovernanceIsolation.StepKeepsCoherence` | apps/api/db.py:157-395 | each transaction keeps the database well formed |
| `GovernanceIsolation.ResetSparesIff` | apps/api/db.py:157-187 | on every well-formed database the reset of u leaves the rows of t alone if and only if u does not reach t, and otherwise takes all of t's child and audit rows |
| `GovernanceIsolation.ResetOfPrompts` | apps/api/db.py:181-187 | a prompt named after t goes at the reset of u exactly when u reaches t and owns the row; otherwise it stays as it is |
| `GovernanceIsolation.InterleavingIsInvisible` | labs/governance.py:147-208 | under every interleaving on a well-formed database, the run of a tenant no other one reaches has the state and rows of the same transactions run alone |
| `GovernanceIsolation.InvisibleIffUnreached` | labs/governance.py:147-208 | the runs of others are invisible to a tenant on all well-formed databases and interleavings if and only if none of them reaches it |
| `GovernanceIsolation.CleanTenantsAreUnreached` | labs/governance.py:147-208 | tenants free of metacharacters and colons meet that condition |
| `GovernanceIsolation.InterleavedVulnerableRun` | labs/governance.py:167-184 | so every interleaved vulnerable run of a tenant that only it reaches reports five orphans |
| `GovernanceIsolation.InterleavedHardenedRun` | labs/governance.py:186-208 | and every interleaved hardened run reports none and has its complete audit row in the shared table |
| `GovernanceIsolation.WildcardTenantDeletesOthers` | apps/api/db.py:157-187 | the failing family: after any tenant acb has created its records, the reset of a_b leaves none of them |
| `GovernanceStore.FourCountsAreOneSet` | apps/api/db.py:314-373 | the four join counts add up to the size of one set, the live children of the soft-deleted prompt |
| `GovernanceStore.Postgres.ResetGovernanceLabRecords` | apps/api/db.py:157-187 | the loop over the child tables and the two other deletes are the reset of the merged tables |
| `GovernanceStore.Postgres.CreatePromptLifecycleRecords` | apps/api/db.py:190-266 | the upserts, record by record, are create on the merged tables |
| `GovernanceStore.Postgres.VerifyPromptTenant` | apps/api/db.py:23-42 | not found, owned by another tenant, or fine |
| `GovernanceStore.Postgres.DeletePrimaryOnly` | apps/api/db.py:269-280 | marks the prompt, or fails and changes nothing |
| `GovernanceStore.Postgres.DeleteAllPromptLifecycleRecords` | apps/api/db.py:283-311 | the table-by-table update is the cascade on the merged tables, or fails and changes nothing |
| `GovernanceStore.Postgres.CountOrphanRecords` | apps/api/db.py:314-373 | the sum of four counts is the number of orphans |
| `GovernanceStore.Postgres.InsertDeletionAudit` | apps/api/db.py:376-395 | one new audit row, or a failure and no change; an id already taken is a failure |
| `GovernanceStore.Postgres.RunGovernanceLive` | labs/governance.py:147-208 | the procedure ends in the database and outcome of the transaction sequence run alone |
| `WriteStorm.IndexReadsBack` | apps/api/db.py:431 | a zero-padded index reads back as its number, so padding is injective beyond five digits too |
| `WriteStorm.IndexIsFiveDigits` | apps/api/db.py:431 | below a hundred thousand an index is five decimal digits |
| `WriteStorm.EventIdIs` | apps/api/db.py:425-431 | what an event id looks like |
| `WriteStorm.InsertedRowIs` | apps/api/db.py:428-449 | row i of a batch carries its tenant, the tenant's prompt, the event type and its own number |
| `WriteStorm.OneIssuer` | apps/api/db.py:19-20 | no event id is ever issued to two tenants, whatever their names hold |
| `WriteStorm.BatchCard` | apps/api/db.py:428-437 | a batch of n rows has n distinct ids |
| `WriteStorm.ReachableIsOwned` | apps/api/db.py:404-450 | in every table reachable from an owned one each row sits under an id issued to its own tenant |
| `WriteStorm.CountIsTheMatchedBatch` | labs/postgres_write_storm.py:107-148 | a run's count is the set of its own ids its pattern selects, whatever other tenants do in between |
| `WriteStorm.EventIdMatchesIff` | apps/api/db.py:431-463 | the pattern of u selects all event ids of t or none, whatever the random batch name, and one test on the tenants tells |
| `WriteStorm.ResetTakesOwnRows` | apps/api/db.py:404-414 | on every owned table a reset takes all rows of a tenant that reaches itself, none of one that does not, and nobody else's |
| `WriteStorm.LedgerBalancesIff` | labs/postgres_write_storm.py:107-148 | the count equals the reported inserts if and only if nothing was inserted or the tenant reaches itself; otherwise it is 0 |
| `WriteStorm.LedgerBalances` | labs/postgres_write_storm.py:93-164 | for tenants without a backslash, from every reachable table: rows counted equal rows inserted, a vulnerable run stores all requested, a hardened one as many up to 50 |
| `WriteStorm.BackslashTenantCountsNothing` | apps/api/db.py:453-465 | the failing input: the tenant named by a backslash counts none of the rows it inserted |
| `WriteStorm.EventStore.ResetWriteStormEvents` | apps/api/db.py:404-414 | removes the tenant's rows its pattern matches and nothing else |
| `WriteStorm.EventStore.InsertWriteStormEvents` | apps/api/db.py:417-450 | inserts the batch row by row, skipping taken ids, and reports the requested count |
| `WriteStorm.EventStore.CountWriteStormEvents` | apps/api/db.py:453-465 | the number of the tenant's rows its pattern matches |
| `WriteStorm.EventStore.RunWriteStormLab` | labs/postgres_write_storm.py:93-175 | out-of-range requests change nothing; otherwise inserted plus blocked is requested and the total counts the table left behind |
| `Jwks.HttpJwksClient.constructor` | apps/api/jwks.py:75-80 | a new client has no keys, no cached keys and fetch time 0 |
| `Jwks.HttpJwksClient.RefreshKeys` | apps/api/jwks.py:97-119 | a fetch replaces the set, empties the cache and stamps the time; every failure changes nothing, one that is neither an OSError nor an error of the JWT library leaving the client as it came |
| `Jwks.HttpJwksClient.GetSigningKey` | apps/api/jwks.py:82-95 | answer and new client state for every branch |
| `Jwks.AlwaysCoherent` | apps/api/jwks.py:82-119 | in every reachable state the key set is the last one fetched and every cached key is its key, with an expiry at most 2 ttl after the fetch |
| `Jwks.LookupAnswers` | apps/api/jwks.py:82-115 | exactly what a look-up answers over every life: the last fetched key from a live entry, else from a recent enough set or the one now fetched, else unknown; a fetch error only where a fetch was needed, and which |
| `Jwks.MissingKidIs` | apps/api/jwks.py:83-84 | no key id, no key and no change |
| `Jwks.LookedUpKeysAreCached` | apps/api/jwks.py:86-95 | a key that was looked up answers from its entry, without change, for the next ttl |
| `Jwks.ReturnedKeysAreFresh` | apps/api/jwks.py:82-95 | a returned key is the last fetched one for its id, at most ttl old on a direct look-up and less than 2 ttl on a hit |
| `Jwks.HitsReachAlmostTwiceTtl` | apps/api/jwks.py:85-95 | every age from ttl up to 2 ttl is returned in some life of a client |
| `Jwks.FetchesAreSpaced` | apps/api/jwks.py:89-90 | without manual refreshes and empty sets, successful fetches are more than ttl apart |
| `Jwks.FetchRateIsBounded` | apps/api/jwks.py:89-119 | a run of duration d makes at most floor(d / ttl) + 1 successful fetches |
| `Secrets.SecretProvider.CacheGet` | apps/api/secrets.py:59-67 | a live entry is returned, an expired one dropped |
| `Secrets.SecretProvider.GetSecret` | apps/api/secrets.py:79-94 | cached value, or the source's value and a new entry, or missing |
| `Secrets.SecretProvider.RefreshSecret` | apps/api/secrets.py:112-149 | drops the provider's key for the name, then looks it up |
| `Secrets.AnswersAreRecent` | apps/api/secrets.py:59-94 | every value returned was read from the source under the same name by this call, or by one that finished less than ttl ago |
| `Secrets.CurrentIs` | apps/api/secrets.py:83-86 | the source's value without the white space around it, missing exactly when absent or blank |
| `Secrets.MissingMeansMissing` | apps/api/secrets.py:79-86 | a call without an answer found none in the source now |
| `Secrets.ReadValuesAreCached` | apps/api/secrets.py:59-94 | a value just read is given again, whatever the source then holds, until ttl after the read |
| `Secrets.SlowReadsStretchTheBound` | apps/api/secrets.py:69-93 | the entry's life starts when the read has ended: with a read of duration d, answers of every age below ttl + d occur |
| `Secrets.NoTtlMeansCurrent` | apps/api/secrets.py:64-93 | with ttl at most 0 every answer is the current value |
| `Secrets.RefreshIsCurrentIff` | apps/api/secrets.py:112-149 | refresh gives the current value after every history if and only if nothing is cached, the provider is a cloud one, or the name is canonical |
| `ObjectKeys.ExtractReadsTheScope` | apps/api/storage.py:96-101 | a key parses to a tenant exactly when, slashes aside, it starts with that tenant's scope |
| `ObjectKeys.ResolvedKeysParseBack` | apps/api/storage.py:124-151 | a key resolved for a non-blank tenant parses back to the stripped tenant |
| `ObjectKeys.TenantsNeverShareAKey` | apps/api/storage.py:124-151 | two tenants never resolve to one key, for any keys and prefixes |
| `ObjectKeys.ResolveSucceedsIff` | apps/api/storage.py:74-151 | resolution succeeds for a blank tenant exactly when none is required, for any other exactly on the keys and prefixes that a stated check admits |
| `ObjectKeys.ResolveFailsWith` | apps/api/storage.py:104-147 | which error each failure gives, and that a success is the key itself or the built one |
| `ObjectKeys.RequiredTenantsAreScoped` | apps/api/storage.py:131-147 | where a tenant is required every resolved key parses back to the caller's non-blank tenant |
| `ObjectKeys.UnscopedKeyIs` | apps/api/storage.py:148-151 | an unscoped key, where allowed, is the caller's own behind the stripped prefix, once |
| `ObjectKeys.NormalizedPrefixIs` | apps/api/storage.py:87 | a prefix loses surrounding white space, then trailing slashes, and nothing else |
| `ObjectKeys.PlaceIs` | apps/api/storage.py:86-93 | a built key starts with the prefix and ends in the tenant's scope and the relative key, with nothing in between |
| `ObjectKeys.ResolvingAgain` | apps/api/storage.py:131-142 | resolving a resolved key again is the identity if and only if the key was already scoped or the storage prefix does not start with a slash |
| `ObjectKeys.SlashedPrefixResolvesToLonger` | apps/api/storage.py:86-142 | the failing inputs: under prefix /tenants every relative key re-resolves to a longer one |
| `ObjectKeys.UploadsPrefixRejects` | apps/api/storage.py:86-142 | under prefix uploads every relative key of every tenant is refused |
| `ObjectKeys.DocumentedPrefixesAlwaysResolve` | apps/api/storage.py:74-142 | with prefix empty or tenants/ and a slash-free tenant, every other key resolves into the tenant's scope and re-resolves to itself |
| `ObjectStore.LocalMemoryStorageBackend.constructor` | apps/api/storage.py:154-160 | a new store is empty |
| `ObjectStore.LocalMemoryStorageBackend.PutObject` | apps/api/storage.py:172-186 | reply and store after a put, error path included |
| `ObjectStore.LocalMemoryStorageBackend.GetObjectMetadata` | apps/api/storage.py:188-202 | the object's description, or not found |
| `ObjectStore.LocalMemoryStorageBackend.DeleteObject` | apps/api/storage.py:204-208 | the object is gone, or not found |
| `ObjectStore.FullKeyIs` | apps/api/storage.py:162-170 | the name an object gets, and that it gets none exactly when a required tenant is blank |
| `ObjectStore.PlacesClashIff` | apps/api/storage.py:86-93 | two keys are stored under one name exactly when tenant and key spell the same path |
| `ObjectStore.TenantsShareAnObjectIff` | apps/api/storage.py:162-170 | two different tenants can share an object, for some keys, if and only if one is the other, a slash and something that does not start with a slash, under every prefix |
| `ObjectStore.SlashTenantsCanClash` | apps/api/storage.py:162-170 | the smallest such pair: tenants a/b and a |
| `ObjectStore.BlankTenantCanClashIff` | apps/api/storage.py:162-170 | without a required tenant a blank one can share a name with a slash-free one if and only if the prefix is stripped and more than slashes |
| `ObjectStore.BlankTenantNamesOthers` | apps/api/storage.py:162-170 | under such a prefix it can name every object of every such tenant |
| `ObjectStore.StoreRefinesTheMap` | apps/api/storage.py:162-208 | every sequence of operations of slash-free tenants is answered as a map from tenant and key to object answers it |
| `ObjectStore.TenantsDoNotInterfere` | apps/api/storage.py:162-208 | in every sequence each tenant gets the replies it would get with the store to itself |
| `CacheKeys.TenantRedisKeysAreInjective` | apps/api/tenancy.py:253-267 | for colon-free tenants keys are equal exactly when normalised tenant, lab and key are |
| `CacheKeys.TenantRedisKeyIs` | apps/api/tenancy.py:253-267 | what a key looks like; a blank tenant is the local lab |
| `CacheKeys.CacheKeysAre` | labs/prompt_cache_isolation.py:42-58 | what the keys of the two modes look like |
| `CacheKeys.TenantsShareAKeyIff` | apps/api/tenancy.py:253-267 | two different tenants can share a key, for some labs and keys, if and only if one is the other followed by :lab, or by :lab: and text that reads as a lab name and a key |
| `CacheKeys.ColonTenantsCanShareKeys` | apps/api/tenancy.py:253-261 | a family of such tenants with the labs and keys that coincide |
| `CacheKeys.CacheKeysSeparateTenants` | labs/prompt_cache_isolation.py:47-58 | hardened cache keys are equal exactly for equal tenants and equal digests, for every tenant name |
| `CacheKeys.OnlyGlobalUsesTheSharedKey` | labs/prompt_cache_isolation.py:42-58 | a tenant's key is the shared key of the vulnerable mode if and only if the tenant is called global |
| `CacheKeys.RunFallback` | labs/prompt_cache_isolation.py:83-164 | vulnerable, tenant B always hits; hardened, it hits exactly when it is the same tenant, for any hash |
| `AuthGate.BearerTokenIff` | apps/api/auth.py:74-80 | a header yields a token exactly when it is bearer in any case, a space and a non-blank rest (section 2.1 of RFC 6750) |
| `AuthGate.ContextIff` | apps/api/auth.py:87-166 | claims yield a context exactly when issuer, audience (section 4.1.3 of RFC 7519) and required claims are right and subject and tenant are named, and then that context |
| `AuthGate.RolesAreGranted` | apps/api/auth.py:87-94 | the roles of a context are those of the configured claim, or failing that of the claim roles |
| `AuthGate.Gate.constructor` | apps/api/security.py:69-73 | a gate starts with its settings and an empty ledger |
| `AuthGate.Gate.RecordAuthAuditEvent` | apps/api/tenancy.py:318-352 | what is in the ledger, and whether the caller gets 503, when an insert commits, is lost, or fails after its commit |
| `AuthGate.Gate.VerifyProductionSaasAccess` | apps/api/security.py:69-125 | rows and reply for every verdict and every insert outcome |
| `AuthGate.Gate.ResolveRequestTenant` | apps/api/auth.py:256-287 | the tenant acted for, or a recorded denial |
| `AuthGate.Gate.EnforceVulnerableAllowed` | apps/api/security.py:165-173 | refuses the vulnerable mode unless the settings allow it |
| `AuthGate.Gate.Serve` | apps/api/main.py:659-672 | gate, then mode, then tenant, as far as the endpoint has them: rows and reply for every request |
| `AuthGate.AttachedIffEntitled` | apps/api/security.py:87-125 | a context is attached exactly when bearer token, verification, claims, active membership and role all hold and its audit row is stored |
| `AuthGate.IdentifiedCallersGet` | apps/api/security.py:87-117 | a caller who proves an identity gets 503, 200 or 403 as lookup, membership and role decide |
| `AuthGate.NonMembersStayOut` | apps/api/tenancy.py:135-179 | a caller without a membership row in the token's own tenant never has a context attached and gets 403, or 503 where the denial could not be recorded |
| `AuthGate.StrangersGet` | apps/api/security.py:74-107 | 401 or 500 is given exactly to callers who prove no identity |
| `AuthGate.NobodyActsForAnotherTenant` | apps/api/auth.py:256-287 | a served tenant is the one in the caller's own token, unless the caller is a platform administrator |
| `AuthGate.RequestedTenantIs` | apps/api/auth.py:266-287 | past the gate a request gets its own tenant, the one it asks for if it is an administrator, or a recorded 403 |
| `AuthGate.UnhandledIffUnreadable` | apps/api/auth.py:169-217 | an unhandled failure occurs exactly for a bearer token whose header is refused, whose key set fails in a way the client does not convert, or whose decoding fails other than by an error of the JWT library, and leaves no row |
| `AuthLedger.WrongKeyGoesUnhandled` | apps/api/auth.py:186-212 | a request that shows it: header accepted, key found but of the wrong kind, status 500 and no row |
| `AuthLedger.LedgerBalances` | apps/api/security.py:69-173 | over every run with auditing on, committed rows plus unrecorded refusals of a mode equal contexts attached plus 401 and 403 replies plus the 503s whose insert failed after its commit |
| `AuthLedger.PlainBalanceIff` | apps/api/main.py:489-494 | on a run with clean inserts, rows equal contexts plus denials if and only if no admitted request asks for a refused mode |
| `AuthLedger.RefusedModeUnbalancesTheLedger` | apps/api/main.py:489-494 | the failing run: one admitted request for the vulnerable mode leaves one row against one context and one 403 |
| `AuthLedger.PlainBalanceIffAudited` | apps/api/config.py:434-435 | on the runs without such requests the plain balance always holds if and only if auditing is on |
| `AuthLedger.ContextsHaveTheirOwnRows` | apps/api/security.py:118-124 | every attached context has its own auth_allowed row for its tenant and subject, at a position of its own |
| `AuthLedger.AllowedRowsCountTheContexts` | apps/api/security.py:118-124 | over every run and for every tenant and subject, the ledger holds exactly as many auth_allowed rows as requests were attached as them or admitted as them and turned away by an insert that failed after its commit |
| `AuthLedger.EveryRowIsExplained` | apps/api/security.py:69-125 | every row of every run is in the ledger because some request gave its one reason: no bearer token, no provable identity, no right to enter, admission, or asking for another tenant |
| `IsolatedEnv.Environ.PopAll` | apps/api/config_check.py:196-197 | the loop removes exactly the given keys |
| `IsolatedEnv.Environ.Update` | apps/api/config_check.py:198 | sets items in order up to the first the platform refuses |
| `IsolatedEnv.Environ.IsolatedEnv` | apps/api/config_check.py:192-205 | on normal and exceptional exit the saved keys have exactly their original value or absence and every other key what the block left |
| `IsolatedEnv.RestoredOtherwiseOverridden` | apps/api/config_check.py:192-205 | after a block that leaves the environment alone, every other key is the original overridden by merged |
| `IsolatedEnv.RestoredExactlyIff` | apps/api/config_check.py:192-205 | restoration is exact if and only if merged agrees with the original outside the saved keys |
| `IsolatedEnv.NothingLeaksIn` | apps/api/config_check.py:196-199 | of the saved keys the block sees exactly what merged gives, whatever the process environment was |
| `AlertStore.AlertReceiver.ReceiveAlerts` | apps/alert_webhook/main.py:50-85 | response and store for every payload; the loop keeps the objects before the first non-object |
| `AlertStore.AlertReceiver.ClearAlerts` | apps/alert_webhook/main.py:93-97 | the store is empty and the old count is returned |
| `AlertStore.ResponseIs` | apps/alert_webhook/main.py:52-85 | which payloads get which response, exactly |
| `AlertStore.ReceiveAppends` | apps/alert_webhook/main.py:80-83 | a batch that fits is appended in order up to its first non-object; nothing else changes the store |
| `AlertStore.RefusedBatchLeavesTraceIff` | apps/alert_webhook/main.py:80-83 | a refused batch changes the store exactly when it fits, starts with an object and holds a non-object |
| `AlertStore.StoreIsAccountedFor` | apps/alert_webhook/main.py:50-97 | over every run the store stays within its bound, holds only objects, and counts as many as were acknowledged or left over since the last clear |

## Left out

- RedisProtocol.OverAdmissionIsBounded: stated for clocks read together with the count; StaleClock.StaleOverAdmissionIsBounded is the statement without that.
- RedisProtocol.ExpiryIsInvisible: stated for clocks read together with the count; StaleExpiry.ExpiryIsInvisibleIff is the exact statement for the code's own order.
- RedisLimiter.RedisRateLimiter.Allow: one time stands for the whole of a sequential call, and a member's random part is taken to be new.
- MemoryLimiter.InMemoryRateLimiter.Allow: times are real numbers; floating-point rounding of clock differences is not modelled.
- GovernanceIsolation.InterleavingIsInvisible: one run per tenant; the code promises nothing for concurrent runs of one tenant. Rows' creation times are not modelled. The random part of an audit id is taken to hold no colon, being hexadecimal.
- GovernanceStore.Postgres.RunGovernanceLive: the connection check and schema creation in front of the run are not modelled, nor is a connection lost between two transactions.
- Secrets.SecretProvider.GetSecret: Unicode upper-casing and the vault path enter as the parameter `path`, so any of them is covered; the error texts are not modelled.
- Jwks.HttpJwksClient.GetSigningKey: the set a fetch brings is a parameter, and which failures are errors of the JWT library is a fact about that library, whose code is not part of this model; `build_jwks_client` makes a new client for every verified token, so in the running service these caches live no longer than one token.
- AuthGate.Gate.VerifyProductionSaasAccess: the signature check and the algorithm test enter as facts about the token, and what the key set's URL delivers as a parameter; a row's metadata and the error texts are not modelled; case folding of the scheme covers ASCII letters, the only ones that fold to `bearer`.
- AuthGate.Gate.Serve: what a lab does once the mode and the tenant are settled, and the 404, 422 and 503 replies it can still give, are not modelled; they write no audit row.
- IsolatedEnv.Environ.IsolatedEnv: the list of readiness keys is a parameter, and so is which items the platform accepts.
- Cloud SDK adapters (object stores and secret managers): foreign calls; only key resolution and cache logic are modelled.
- Presigned URLs and the ttl cap: one-line arithmetic.
- `InMemoryJwksClient`: a simpler form of the cache in `Jwks`, used in unit tests.
- The in-memory fallbacks of the governance and write-storm labs: constant inputs.
- `RateLimitMiddleware.dispatch` and switching limiter backends in mid-run: request plumbing, and no promise is made there.
- JWT signatures, HMAC, SHA-256, base64 and JSON parsing.
- FastAPI routing, logging, Prometheus metrics, lab event lists and summary texts.
- Settings validators beyond the audit flag, and the managed-service policy checks: long lists of independent tests.
- The other labs: authorization, circuit breaker, SSE exhaustion, file upload and tool router work on constant inputs or by one-line arithmetic, and the Redis state lab rests on an HMAC and a JSON parser.
