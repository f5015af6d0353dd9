# A verified model of mqttctl's stateful core

mqttctl is a control plane for an MQTT broker: an API server, a broker agent and an MCP server. This project
models the parts of it whose correctness depends on state, ordering or failure, and proves what each is for.
Asynchronous code is modelled as atomic steps between awaits, and the theorems quantify over every interleaving
of those steps, every failure they allow and every input.

| file | models |
|---|---|
| `Basics.dfy`, `Options.dfy`, `Sorting.dfy` | shared text and number operations; optional values; stable sort and uniqueness of a sorted listing |
| `PromiseQueue.dfy` | a chain of promises: mutual exclusion and call order derived from the links |
| `AuditChain.dfy`, `AuditLog.dfy` | the hash-linked audit log: backfill, append, verification, concurrent `record` calls |
| `DynsecBootstrap.dfy` | bootstrap of the managed roles, legacy migration and startup retries |
| `DynsecAcls.dfy`, `DynsecMembership.dfy` | the effective policy of an ACL list; the merge of two membership views |
| `ReplayCache.dfy`, `RateLimiter.dfy` | request proofs and their bounded replay cache; the fixed-window limiter |
| `EventStream.dfy`, `MessageBuffer.dfy` | server-sent events from printer to parser; the doubly bounded message queue |
| `TopicFilter.dfy`, `Explorer.dfy` | MQTT topic matching; the explorer's counters and eviction |
| `AccountSessions.dfy` | the session-version protocol under racing logins and updates |
| `BrokerConfig.dfy` | compare-and-set configuration pushes through the job queue, down to the bytes of the file |

`dafny verify dfyconfig.toml` checks everything. Specification functions carry the reasoning; each class holds the
fields the program updates, and its methods' contracts equate the new state with those functions. Fields and
tuple parts named as history in a comment (received messages, settled jobs, snapshots read) exist only to state
theorems about runs.

## Where the code falls short of a property

Each is proved as an exact condition or as a concrete run.

- Audit backfill on Postgres: a missing sequence number is read as `Number(null)`, which is 0, so a first row with
  a null number and already correct hashes is left alone. Postgres sorts that null last, so verification fails.
  `BackfillThenAlwaysIntact` shows that this is the only exception. The program never writes such a row itself: a
  table whose rows carry both a number and a hash or neither keeps that shape through backfill, runs and restarts, and
  always verifies (`AllOrNoneAlwaysIntact`).
- Default role: `read-all` is selected wherever runs stop exactly if a managed default is stored or the installation
  is unmarked, without a default and without custom roles (`DefaultSelectionCrashSafety`). An installation already
  marked initialized, with neither, has lost the selection for good exactly when the legacy role is gone before the
  default is stored (`SelectionLostExactly`), as it is after a stop at the deletion (`StoppedAfterDelete`).
- Bootstrap: a reference to `mqttctl-default` that outlived the role is never removed. A completed bootstrap leaves no
  reference to it exactly if none pointed at a missing role at the start (`BootstrapConverges`).
- Membership: a reference list that repeats a name can make the two views disagree (`ViewsAgreeExactly`).
- Replay: with any clock a proof is refused as a replay exactly while an acceptance of its jti has not been cleared,
  that is, while no call that reached the cache since then came after its expiry (`ReplayedExactly`). So a proof is
  accepted again when the clock passes its expiry and goes back (`AcceptedAgainExactly`, `ReplayAfterClockJump`), and
  only then (`SameProofTwiceNeedsClockBack`).
- Message buffer: `close()` that joins a cleanup in flight, itself not closing, never closes, whatever follows
  (`CloseTakesEffect`).
- Sessions: the repository's documentation promises that sessions end on a password reset. They do while the updates
  to the account are serialised; what happens to other accounts makes no difference. An account's first update
  computed from a stale row writes a session version that the account already had (`StaleBumpExactly`,
  `StaleWriteExactly`, `RacingResetsLoseABump`). In any run, sessions from earlier reads are ended for good exactly if
  each of those reads that may log in carries a smaller version than the row (`EndedForGoodExactly`).
- Event stream: an event named by an empty value keeps the empty name, where the standard gives the default one
  (`AgreesOnAnyText`).
- Local config write: the fallback does not look at how many bytes were stored, so a short write is reported as
  success (`ShortLocalWriteExactly`).

## Model

| member | source | states |
|---|---|---|
| `PromiseQueue.ReadyIsNext` | mqttctl/mqttctl-api/src/lib/server/jobs/queue.ts:4-8 | a job may start only when every earlier call is settled and no later one has started, from the promise links alone |
| `PromiseQueue.ReadyIsNextInLine` | mqttctl/mqttctl-api/src/lib/server/jobs/queue.ts:4-8 | a job may start if and only if it has not and every earlier call is settled, whether fulfilled or rejected: nothing blocks it |
| `PromiseQueue.ActiveIsAlone` | mqttctl/mqttctl-api/src/lib/server/jobs/queue.ts:4-8 | at most one job runs at a time |
| `PromiseQueue.EnqueueSerial` | mqttctl/mqttctl-api/src/lib/server/jobs/queue.ts:5-7 | enqueueing keeps the chain serial |
| `PromiseQueue.AdvanceSerial` | mqttctl/mqttctl-api/src/lib/server/jobs/queue.ts:5-7 | starting, fulfilling or rejecting the job whose turn it is keeps the chain serial: a rejection blocks nothing |
| `PromiseQueue.ResultsAdvance` | mqttctl/mqttctl-api/src/lib/server/jobs/queue.ts:5-8 | results accumulate in call order |
| `AuditChain.PayloadEvidence` | mqttctl/mqttctl-api/src/lib/server/db/index.ts:145-191 | two hash payloads are equal if and only if the previous hash and everything the payload records agree, a null author counting as System and missing auth or address as N/A |
| `AuditChain.SameHashSameChain` | mqttctl/mqttctl-api/src/lib/server/db/index.ts:193-238 | with a collision-free hash, equal final hashes force equal lengths and equal payloads all the way back |
| `AuditChain.MatchesIsRowOk` | mqttctl/mqttctl-api/src/lib/server/db/index.ts:829-833 | the three comparisons made against the running hash hold exactly when the row has its place, its predecessor's hash and its own in the chain the entries determine |
| `AuditChain.VerdictMeaning` | mqttctl/mqttctl-api/src/lib/server/db/index.ts:829-852 | verified if and only if the whole log is intact; otherwise the count is the length of the longest intact prefix |
| `AuditChain.AppDatabase.VerifyAuditIntegrity` | mqttctl/mqttctl-api/src/lib/server/db/index.ts:802-853 | the verdict's count is the longest verified prefix and its hash is that prefix's hash |
| `AuditChain.VerifiedLogsAgree` | mqttctl/mqttctl-api/src/lib/server/db/index.ts:809-852 | two verified logs with the same latest hash have the same length and agree row by row on payloads and stored hashes |
| `AuditChain.AppDatabase.BackfillAuditLogChain` | mqttctl/mqttctl-api/src/lib/server/db/index.ts:419-465 | when no UPDATE fails every row ends as the chain in time order dictates, except rows already matching, and nothing but the three chain columns changes; when one fails, that holds of the rows visited so far, and the loop finishes exactly if as many UPDATEs succeed as rows do not match |
| `AuditChain.StopsDoNotMatter` | mqttctl/mqttctl-api/src/lib/server/db/index.ts:419-465 | the backfill runs outside a transaction: however many backfills stop after any statement, the first that finishes leaves the very table an uninterrupted one leaves |
| `AuditChain.SameTimeOrder` | mqttctl/mqttctl-api/src/lib/server/db/index.ts:420-424 | a table that was rechained up to some row is read in the same order again, with the rows rechained so far in place |
| `AuditChain.BackfillLinks` | mqttctl/mqttctl-api/src/lib/server/db/index.ts:419-465 | unless nulls sort last and the oldest row hides a null number, the table read in sequence order is the rechained table, intact and numbered |
| `AuditChain.NullHeadExists` | mqttctl/mqttctl-api/src/lib/server/db/index.ts:446-454 | for every entry there is a one-row table with the right hash, no number, and nothing for the backfill to repair |
| `AuditChain.AllOrNoneHasNoNullHead` | mqttctl/mqttctl-api/src/lib/server/db/index.ts:446-461 | a table whose rows carry both number and hash or neither hides no null number |
| `AuditChain.LatestIsLast` | mqttctl/mqttctl-api/src/lib/server/db/index.ts:735-740 | the row read by the descending query is the last of the ascending one |
| `AuditChain.AppDatabase.PrepareAppend` | mqttctl/mqttctl-api/src/lib/server/db/index.ts:735-758 | the prepared row takes the next number and is hashed together with the newest row's hash |
| `AuditChain.AppDatabase.InsertAuditRow` | mqttctl/mqttctl-api/src/lib/server/db/index.ts:760-783 | the insert appends the row, or fails without effect when the database fails or the id exists |
| `AuditChain.AppendLinks` | mqttctl/mqttctl-api/src/lib/server/db/index.ts:732-783 | appending the prepared row to an intact table leaves an intact table that lists the old rows and then the new one |
| `AuditLog.AuditService.RecordEvent` | mqttctl/mqttctl-api/src/lib/server/audit/service.ts:201-203 | a call chains its write to the queue's tail and becomes the tail |
| `AuditLog.AuditService.BeginWrite` | mqttctl/mqttctl-api/src/lib/server/audit/service.ts:170-186 | the read of the newest row happens only in the write's turn |
| `AuditLog.AuditService.FinishWrite` | mqttctl/mqttctl-api/src/lib/server/audit/service.ts:170-202 | the insert settles the promise: fulfilled exactly if the row was stored and the answer came; a row whose answer is lost is stored all the same |
| `AuditLog.RunKeepsInv` | mqttctl/mqttctl-api/src/lib/server/audit/service.ts:170-203 | in every interleaving a running write's prepared row is still the row the table calls for, and the table is the old one plus the stored rows |
| `AuditLog.ReachableLogs` | mqttctl/mqttctl-api/src/lib/server/audit/service.ts:170-203 | every reachable log verifies, is numbered 0 to n-1, and lists the old rows followed by the stored rows in call order: one for every successful call, each with the event its call recorded, and otherwise only rows of calls whose answer was lost |
| `AuditLog.AnsweredRowsAreResults` | mqttctl/mqttctl-api/src/lib/server/audit/service.ts:170-203 | while no answer is lost, the stored rows are exactly what the successful calls resolved with, in call order |
| `AuditLog.WritesAreCalls` | mqttctl/mqttctl-api/src/lib/server/audit/service.ts:201-203 | there is one write for every call, in call order, with the event the call was given |
| `AuditLog.QueuedCallIsStored` | mqttctl/mqttctl-api/src/lib/server/audit/service.ts:170-202 | in any run, a call whose turn has come and whose read and insert work under a free id is fulfilled, whatever else happens in between, with a row that records its event at the time it began, and the log is the old one plus that row |
| `AuditLog.RejectedExactly` | mqttctl/mqttctl-api/src/lib/server/audit/service.ts:170-202 | in any run, a call is rejected if and only if in its turn its read failed, or its insert failed, its id was taken or its answer was lost |
| `AuditLog.WritesAreExclusive` | mqttctl/mqttctl-api/src/lib/server/audit/service.ts:201-202 | no write starts before every earlier call is settled |
| `AuditLog.NullHeadBreaksLongLog` | mqttctl/mqttctl-api/src/lib/server/db/index.ts:446-461 | the left-over null number breaks verification of any Postgres log of two or more rows |
| `AuditLog.NullHeadBreaksNextAppend` | mqttctl/mqttctl-api/src/lib/server/db/index.ts:735-742 | on a one-row log the next append shows the damage |
| `AuditLog.BackfillThenAlwaysIntact` | mqttctl/mqttctl-api/src/lib/server/db/index.ts:419-465 | after the backfill every reachable log verifies if and only if the database is SQLite or the oldest row did not hide a null number |
| `AuditLog.AllOrNoneAlwaysIntact` | mqttctl/mqttctl-api/src/lib/server/db/index.ts:419-465 | on either database, a table whose rows were chained completely or not at all gives, after backfill and any run, a log that verifies and has that shape again |
| `DynsecBootstrap.RolePlanEffect` | mqttctl/mqttctl-api/src/lib/server/dynsec/service.ts:726-799 | the commands for one role grant it exactly its required ACLs besides those it has, touch nothing else, and are safe at every step |
| `DynsecBootstrap.HoldersPlanEffect` | mqttctl/mqttctl-api/src/lib/server/dynsec/service.ts:811-857 | every listed holder of the legacy role ends with the new role in its place, at the legacy priority unless it had the role already; nobody else changes; every step is safe |
| `DynsecBootstrap.ManagedRun` | mqttctl/mqttctl-api/src/lib/server/dynsec/service.ts:876-901 | a complete managed run leaves both roles with their ACLs, no legacy role and the settings it should have written; no reference to the legacy role is left exactly if none dangled before |
| `DynsecBootstrap.PlanIsSafe` | mqttctl/mqttctl-api/src/lib/server/dynsec/service.ts:983-1077 | on every path no command takes the legacy role from someone unless they hold the new one with its four ACLs, gives the new role before it has them, or deletes the legacy role while held |
| `DynsecBootstrap.SafeAtEveryPrefix` | mqttctl/mqttctl-api/src/lib/server/dynsec/service.ts:751-891 | after any number of runs each stopped after any command, everyone who held `mqttctl-default` holds it or holds `read-write-all` with its four ACLs; a newly given role has the legacy priority; other assignments are untouched; no ACL is lost and none granted but the required ones |
| `DynsecBootstrap.ManagedIsQuiet` | mqttctl/mqttctl-api/src/lib/server/dynsec/service.ts:983-1077 | once both roles are ready and the legacy one is gone, a run issues no broker command |
| `DynsecBootstrap.OthersLeftAlone` | mqttctl/mqttctl-api/src/lib/server/dynsec/service.ts:983-1070 | an installation without the legacy role, with another default, or without one but custom roles or marked initialized: however many runs stop where, its broker and its default stay as they are, and a complete run marks it |
| `DynsecBootstrap.BootstrapConverges` | mqttctl/mqttctl-api/src/lib/server/context.ts:148-230 | however many attempts stop early, the first complete one leaves both roles with their ACLs and no legacy role, later runs issue no broker command and change nothing, and no reference to the legacy role is left exactly if none dangled at the start |
| `DynsecBootstrap.StoppedAfterDelete` | mqttctl/mqttctl-api/src/lib/server/dynsec/service.ts:893-901 | on an initialized installation without a default or custom roles a complete run would select `read-all`; after a stop at the deletion nothing is left to do, and no number of later runs ever selects a default |
| `DynsecBootstrap.SelectionLostExactly` | mqttctl/mqttctl-api/src/lib/server/dynsec/service.ts:983-1077 | wherever the attempts of such an installation have stopped, no later attempt ever stores a default if and only if the legacy role is gone and none is stored |
| `DynsecBootstrap.DefaultSelectionCrashSafety` | mqttctl/mqttctl-api/src/lib/server/dynsec/service.ts:1026-1077 | for every installation: however many attempts stop after any command, the first complete one leaves `read-all` as the default, if and only if a managed default is stored, or the installation is unmarked, without a default and without custom roles |
| `DynsecBootstrap.IssueAllIsPrefix` | mqttctl/mqttctl-api/src/lib/server/dynsec/service.ts:983-1082 | a run that fails at some command has executed exactly the commands before it |
| `DynsecBootstrap.RetriesSucceed` | mqttctl/mqttctl-api/src/lib/server/context.ts:148-231 | while only errors that are retried occur, one attempt with none is enough for the loop to succeed, whatever stopped the attempts before it |
| `DynsecBootstrap.DynsecService.EnsureBootstrapRole` | mqttctl/mqttctl-api/src/lib/server/dynsec/service.ts:751-799 | the method issues the role's plan until a command fails |
| `DynsecBootstrap.DynsecService.MigrateLegacyBootstrapRole` | mqttctl/mqttctl-api/src/lib/server/dynsec/service.ts:801-865 | the loops over clients and groups issue the migration plan in order |
| `DynsecBootstrap.DynsecService.EnsureManagedBootstrapRoles` | mqttctl/mqttctl-api/src/lib/server/dynsec/service.ts:867-923 | both roles, then the migration, then the default if asked |
| `DynsecBootstrap.DynsecService.EnsureBootstrapDefaultRole` | mqttctl/mqttctl-api/src/lib/server/dynsec/service.ts:983-1082 | one run takes the path its one read decides and issues exactly that plan until a command fails |
| `DynsecBootstrap.DynsecService.EnsureWithRetries` | mqttctl/mqttctl-api/src/lib/server/context.ts:133-231 | the retry loop is a sequence of stopped runs, at most one without an agent; it succeeds exactly if some attempt completes before an error that is not retried; access is preserved throughout, and success on a managed installation means that the roles are ready and the legacy one is gone |
| `DynsecAcls.Resolve` | mqttctl/mqttctl-api/src/lib/server/dynsec/service.ts:253-276 | the loop over the Map computes the specified resolution |
| `DynsecAcls.FoldResolves` | mqttctl/mqttctl-api/src/lib/server/dynsec/service.ts:253-273 | the Map holds one entry per key present, one of the given ACLs, at the key's highest priority and allowing only if all at that priority allow |
| `DynsecAcls.ResolutionIsCanonical` | mqttctl/mqttctl-api/src/lib/server/dynsec/service.ts:241-276 | the result lists exactly the winning rules, each once, by priority, then deny first, then key |
| `DynsecAcls.SameWinnersSameResolution` | mqttctl/mqttctl-api/src/lib/server/dynsec/service.ts:253-276 | lists with the same winners resolve to the same list |
| `DynsecAcls.PermutationInvariant` | mqttctl/mqttctl-fe/src/routes/(app)/mqtt/+page.server.ts:5-35 | lists with the same elements, in any order and with any repetitions, resolve to the same rules in the same order |
| `DynsecAcls.ResolveIncrementally` | mqttctl/mqttctl-fe/src/routes/(app)/mqtt/+page.server.ts:12-35 | resolving a resolved part together with the rest equals resolving everything |
| `DynsecAcls.KeySeparates` | mqttctl/mqttctl-api/src/lib/server/dynsec/service.ts:257 | keys agree exactly when type and topic do, since types hold no colon |
| `DynsecMembership.CollectMemberships` | mqttctl/mqttctl-api/src/lib/server/dynsec/service.ts:360-382 | the nested Maps hold, per target, the highest priority each node mentions it at |
| `DynsecMembership.Normalize` | mqttctl/mqttctl-api/src/lib/server/dynsec/service.ts:319-418 | the loops compute the specified normalisation of clients, groups and roles |
| `DynsecMembership.LookupMergeAll` | mqttctl/mqttctl-api/src/lib/server/dynsec/service.ts:387-392 | merging keeps names distinct and gives each the maximum of its own and the mentioned priorities |
| `DynsecMembership.ViewsAgree` | mqttctl/mqttctl-api/src/lib/server/dynsec/service.ts:384-418 | a listed client and group agree on their membership and its priority, the larger of what the raw sides said, and the result is well formed |
| `DynsecMembership.ViewsAgreeExactly` | mqttctl/mqttctl-api/src/lib/server/dynsec/service.ts:384-418 | with repeated references the views agree if and only if the side with the strictly higher priority does not also list a lower one |
| `DynsecMembership.NormalizeIdempotent` | mqttctl/mqttctl-api/src/lib/server/dynsec/service.ts:319-418 | normalising the result again returns the same lists in the same order |
| `DynsecMembership.NormalizedIsSorted` | mqttctl/mqttctl-api/src/lib/server/dynsec/service.ts:394-417 | every list, ACLs included, is sorted by falling priority |
| `DynsecMembership.NormalizeKeeps` | mqttctl/mqttctl-api/src/lib/server/dynsec/service.ts:319-418 | the same clients, groups and roles in the same order; the role references of each and the ACLs of every role are all kept, unchanged, only sorted by falling priority with equal ones in their old order |
| `DynsecMembership.RepeatedReferencesDisagree` | mqttctl/mqttctl-api/src/lib/server/dynsec/service.ts:385-392 | a client that lists a group twice shows the lower priority while the group shows the higher |
| `ReplayCache.McpAuthService.PurgeReplayCache` | mqttctl/mqttctl-api/src/lib/server/auth/mcp.ts:300-304 | exactly the entries that expired before now are removed |
| `ReplayCache.McpAuthService.RememberJti` | mqttctl/mqttctl-api/src/lib/server/auth/mcp.ts:306-335 | purge, refuse a known jti, refuse when full, otherwise remember |
| `ReplayCache.McpAuthService.ValidateClaims` | mqttctl/mqttctl-api/src/lib/server/auth/mcp.ts:348-448 | the checks are made in order, missing or mistyped claims first; the call reaches the cache, to be accepted or refused as replayed or for lack of room, if and only if its claims are admissible, and otherwise leaves the cache as it was |
| `ReplayCache.PassesExactly` | mqttctl/mqttctl-api/src/lib/server/auth/mcp.ts:348-434 | a proof passes if and only if it says claim by claim: the issuer, this audience, read or readwrite, the service or a valid name, the method, target and body digest of this request, a time window around now; and read access only reads or makes one of six passing requests, and the service only sends heartbeats |
| `ReplayCache.FirstFailure` | mqttctl/mqttctl-api/src/lib/server/auth/mcp.ts:348-434 | which of the checks a refused call is told of: the first that fails in the order of the program |
| `ReplayCache.AcceptedExactly` | mqttctl/mqttctl-api/src/lib/server/auth/mcp.ts:300-442 | with any clock, a call is accepted if and only if its claims are admissible, no acceptance of its jti is held and the entries not yet expired leave room |
| `ReplayCache.CachedExactly` | mqttctl/mqttctl-api/src/lib/server/auth/mcp.ts:300-335 | with any clock the cache holds a jti with an expiry exactly if some call accepted that proof and no call that reached the cache since then came after the expiry |
| `ReplayCache.ReuseOnlyAfterLapse` | mqttctl/mqttctl-api/src/lib/server/auth/mcp.ts:388-398 | with a clock that never goes back, a jti is accepted again only after the earlier proof left its window, by the exact inequalities used |
| `ReplayCache.NoProofAcceptedTwice` | mqttctl/mqttctl-api/src/lib/server/auth/mcp.ts:306-335 | with a clock that never goes back no proof is accepted twice in any run |
| `ReplayCache.ReplayedWhileLive` | mqttctl/mqttctl-api/src/lib/server/auth/mcp.ts:312-320 | with a clock that never goes back, refused as a replay means that an accepted proof with the jti is still in its window |
| `ReplayCache.ReplayedExactly` | mqttctl/mqttctl-api/src/lib/server/auth/mcp.ts:312-320 | with any clock a proof that passes the checks is refused as a replay if and only if an acceptance of its jti has been cleared neither since then nor by this call's own purge |
| `ReplayCache.AcceptedAgainExactly` | mqttctl/mqttctl-api/src/lib/server/auth/mcp.ts:300-335 | with any clock, a proof that passes the checks has its jti accepted again if and only if the jti was accepted before, every such acceptance has been cleared and the entries not yet expired leave room |
| `ReplayCache.SameProofTwiceNeedsClockBack` | mqttctl/mqttctl-api/src/lib/server/auth/mcp.ts:300-335 | the same proof is accepted twice only if a call in between came after its expiry and later than the second acceptance |
| `ReplayCache.LiveIsEver` | mqttctl/mqttctl-api/src/lib/server/auth/mcp.ts:388-398 | with one expiry per jti, still in its window means ever accepted, for any proof that passes the checks |
| `ReplayCache.DecidedAsByUnboundedSet` | mqttctl/mqttctl-api/src/lib/server/auth/mcp.ts:300-335 | each call is refused as a replay exactly if its jti was ever accepted, and otherwise accepted or turned away for lack of room, in every run with a nondecreasing clock and one expiry per jti |
| `ReplayCache.SameOutcomes` | mqttctl/mqttctl-api/src/lib/server/auth/mcp.ts:300-335 | every such run has exactly the outcomes of a set that never forgets and is full when the cache is |
| `ReplayCache.CacheBounded` | mqttctl/mqttctl-api/src/lib/server/auth/mcp.ts:322-334 | the cache never exceeds `replayCacheMaxEntries`, whatever the clock does |
| `ReplayCache.CacheFullMeansBusy` | mqttctl/mqttctl-api/src/lib/server/config/schema.ts:226-228 | with any clock, a cache-full refusal means that at least that many distinct proofs were accepted no longer ago than the maximum proof age plus twice the skew |
| `ReplayCache.ReplayAfterClockJump` | mqttctl/mqttctl-api/src/lib/server/auth/mcp.ts:300-304 | a run for every proof and clock: past the expiry and back, the proof is accepted a second time |
| `ReplayCache.ClockJumpAllowsReplay` | mqttctl/mqttctl-api/src/lib/server/auth/mcp.ts:363 | a concrete run in which one proof is accepted twice |
| `RateLimiter.ParseTokenEntriesExactly` | mcp/src/config.js:32-40 | a list loads if and only if every name fits the pattern and every entry has a secret; otherwise the error names the first entry that fails and how |
| `RateLimiter.LoadTokensExactly` | mcp/src/config.js:50-64 | the tokens load if and only if both lists do and no name occurs twice across them; they are then the entries in order with their access |
| `RateLimiter.KeySeparates` | mcp/src/rateLimit.js:7 | keys agree exactly when identity and category do, since token names hold no colon |
| `RateLimiter.Limiter.Check` | mcp/src/rateLimit.js:5-22 | the decision and the stored window are those of the fixed-window rule |
| `RateLimiter.RunKeepsWindowInv` | mcp/src/rateLimit.js:10-14 | the current window and the one before bound the calls allowed since any time |
| `RateLimiter.TwiceTheLimit` | mcp/src/rateLimit.js:5-22 | at most twice the limit is allowed in any closed interval of one window length, one fewer in any shorter one |
| `RateLimiter.TwiceTheLimitReached` | mcp/src/rateLimit.js:10-16 | for every positive limit some run reaches twice the limit |
| `RateLimiter.PairsAreIndependent` | mcp/src/rateLimit.js:7-14 | a decision depends only on earlier calls of the same identity and category |
| `RateLimiter.RetryAfterIsEnough` | mcp/src/rateLimit.js:10-20 | the next call on the pair after `retryAfterSeconds` is allowed, whatever others did meanwhile |
| `RateLimiter.ShorterWaitIsRefused` | mcp/src/rateLimit.js:10-20 | after any smaller number of whole seconds a refused pair is refused again |
| `RateLimiter.AllowanceExactly` | mcp/src/rateLimit.js:5-20 | in a window opened by the pair's first call, exactly as many calls as the category's own configured number are allowed; each is told that limit, what remains of it and how many whole seconds the window still lasts |
| `RateLimiter.RemainingIsExact` | mcp/src/rateLimit.js:10-19 | after any call, `remaining` is how many more of the pair are allowed before the window ends |
| `EventStream.SseParser.Push` | mcp/src/mqttBuffer.js:15-24 | a push emits the events of the complete frames of pending text plus chunk and keeps the rest; the loop ends because pending shrinks |
| `EventStream.SseParser.ParseFrameInto` | mcp/src/mqttBuffer.js:26-38 | the line loop computes the specified frame meaning |
| `EventStream.SeparatorStable` | mcp/src/mqttBuffer.js:17-23 | text that arrives later never changes where the first complete frame ends |
| `EventStream.ParseAppend` | mcp/src/mqttBuffer.js:15-24 | parsing a text and then more equals parsing both together |
| `EventStream.ChunkInvariance` | mcp/src/mqttBuffer.js:15-24 | every way of cutting a text into chunks yields the same events and the same pending text as one push |
| `EventStream.RoundTrip` | mqttctl/mqttctl-fe/src/routes/api/mqtt/events/+server.ts:15-40 | whatever the route prints, in any chunking, arrives as exactly the state and message events in order with their JSON text; pings vanish and nothing stays pending |
| `EventStream.AgreesWithStandard` | mqttctl/mqttctl-fe/src/routes/api/mqtt/events/+server.ts:15-40 | on these frames the parser agrees with the interpretation of section 9.2.6 of the WHATWG HTML Living Standard |
| `EventStream.AgreesOnAnyText` | mcp/src/mqttBuffer.js:15-39 | on every text without carriage returns the parser emits exactly the events of the standard's algorithm, except that an empty event name is left empty |
| `EventStream.SeparatorExactly` | mcp/src/mqttBuffer.js:17-20 | a frame ends at two line feeds in a row, each with or without a carriage return before it |
| `EventStream.FrameAsStandard` | mcp/src/mqttBuffer.js:26-39 | inside a frame, any mixture of CRLF, LF and CR ends lines as in the standard, and the event is the one the standard dispatches after them |
| `MessageBuffer.LongestSuffixThatFits` | mcp/src/mqttBuffer.js:97-106 | what the dropping loop leaves fits both bounds, and no longer suffix does |
| `MessageBuffer.MqttMessageBuffer.AppendMessage` | mcp/src/mqttBuffer.js:87-123 | append changes the buffer exactly as the step does: queue, byte count and both drop counters |
| `MessageBuffer.MqttMessageBuffer.DropOldest` | mcp/src/mqttBuffer.js:97-106 | the loop drops exactly the messages in excess and never needs its defensive break |
| `MessageBuffer.MqttMessageBuffer.PollMessages` | mcp/src/mqttBuffer.js:228-252 | poll returns the oldest messages, as many as asked within bounds, and removes them |
| `MessageBuffer.MqttMessageBuffer.ClearMessages` | mcp/src/mqttBuffer.js:273-280 | clear discards the queue and resets the counters |
| `MessageBuffer.MqttMessageBuffer.Expire` | mcp/src/mqttBuffer.js:302-313 | an idle session past its deadline starts a cleanup, any other is left alone |
| `MessageBuffer.MqttMessageBuffer.StartCleanup` | mcp/src/mqttBuffer.js:315-349 | a cleanup joins one in flight, or resets at once or after the upstream answers |
| `MessageBuffer.EveryRunConserves` | mcp/src/mqttBuffer.js:87-349 | in every interleaving accepted messages are the settled ones followed by the queued ones in order; the byte count is the exact sum; both bounds hold; the counters count the drops since the last reset |
| `MessageBuffer.AppendEffect` | mcp/src/mqttBuffer.js:87-106 | in any run an open buffer accepts the message and drops only the oldest, as few as both bounds demand; the new one stays exactly if it fits alone; a closed buffer ignores it |
| `MessageBuffer.PollEffect` | mcp/src/mqttBuffer.js:228-252 | in any run a poll delivers as many of the oldest messages as it names, or the default, but at least one and at most the maximum, as far as there are any, and puts the expiry a whole period after now |
| `MessageBuffer.ClearEffect` | mcp/src/mqttBuffer.js:273-280 | in any run clearing discards the whole queue, resets the counters and changes nothing else |
| `MessageBuffer.CleanupEffect` | mcp/src/mqttBuffer.js:315-349 | the answer to a cleanup's call empties the buffer, resets counters and deadlines and closes exactly if asked to |
| `MessageBuffer.ExpiresExactly` | mcp/src/mqttBuffer.js:302-313 | a cleanup that does not close begins exactly when more than the inactivity period has passed since the last poll and none is in flight, whatever was received or cleared meanwhile |
| `MessageBuffer.NothingLostOrDuplicated` | mcp/src/mqttBuffer.js:87-349 | each accepted message is in exactly one of delivered, dropped, discarded and queued |
| `MessageBuffer.DeliveredThenQueuedInOrder` | mcp/src/mqttBuffer.js:228-252 | delivered then queued is in receive order |
| `MessageBuffer.ClosedStaysClosed` | mcp/src/mqttBuffer.js:88 | once closed the buffer accepts nothing more |
| `MessageBuffer.CloseTakesEffect` | mcp/src/mqttBuffer.js:315-353 | close at any moment and then any steps among which nobody else asks to close: closed if and only if the upstream call was answered and close did not join a cleanup that was not closing |
| `TopicFilter.TopicMatchesFilter` | mqttctl/mqttctl-api/src/lib/server/mqtt/service.ts:67-89 | the loop computes the level-by-level match |
| `TopicFilter.MatchesExactly` | mqttctl/mqttctl-api/src/lib/server/mqtt/service.ts:67-89 | for every filter, well formed or not, the program matches exactly when '#' stands at no level but the last and the relation of section 4.7 of OASIS MQTT Version 3.1.1 holds |
| `TopicFilter.WellFormedMatchesStandard` | mqttctl/mqttctl-api/src/lib/server/mqtt/service.ts:67-89 | for well-formed filters the loop is section 4.7 exactly, with '#' matching its parent and the '$' rule |
| `TopicFilter.LevelsOfText` | mqttctl/mqttctl-api/src/lib/server/mqtt/service.ts:68-69 | splitting into levels loses nothing and leaves no slash in a level |
| `Explorer.TrimKeepsNewest` | mqttctl/mqttctl-api/src/lib/server/mqtt/service.ts:246-257 | trimming keeps as many topics as allowed, and evicts nothing newer than anything kept |
| `Explorer.SessionRecord.TrimTrackedMessages` | mqttctl/mqttctl-api/src/lib/server/mqtt/service.ts:246-257 | the loop computes the specified eviction |
| `Explorer.SessionRecord.OnMessage` | mqttctl/mqttctl-api/src/lib/server/mqtt/service.ts:449-484 | the handler counts the message, replaces the topic's latest, counts it for every matching filter and trims |
| `Explorer.SessionRecord.AddSubscription` | mqttctl/mqttctl-api/src/lib/server/mqtt/service.ts:816-827 | a subscription starts, or restarts, with a matched count of zero |
| `Explorer.SessionRecord.Clear` | mqttctl/mqttctl-api/src/lib/server/mqtt/service.ts:939-953 | clearing forgets the messages and zeroes every count |
| `Explorer.SessionRecord.SetTrackedTopicsLimit` | mqttctl/mqttctl-api/src/lib/server/mqtt/service.ts:967-978 | a new limit takes effect at once |
| `Explorer.ExplorerRefinesHistory` | mqttctl/mqttctl-api/src/lib/server/mqtt/service.ts:449-484 | in every run the total and each matched count equal the messages received, and matching, since the last reset; each tracked topic holds its latest message; the size never exceeds the limit or 500 |
| `Explorer.TracksExactly` | mqttctl/mqttctl-api/src/lib/server/mqtt/service.ts:246-257 | in every run, unless the limit was lower before since the last reset, the number of tracked topics is the number of topics received since then or, if less, the limit and at most 500; where all find room, all are tracked |
| `Explorer.WithoutLimitTracksAll` | mqttctl/mqttctl-api/src/lib/server/mqtt/service.ts:247-249 | with no limit set, up to 500 topics received since the last reset are all tracked |
| `Explorer.ExplorerShowsMostRecent` | mqttctl/mqttctl-api/src/lib/server/mqtt/service.ts:246-257 | with a clock that never goes back, no untracked topic is newer than a tracked one, across resets and limit changes |
| `Explorer.JustReceivedStays` | mqttctl/mqttctl-api/src/lib/server/mqtt/service.ts:246-257 | with such a clock and a limit of at least one, the message just received is never evicted, even among equal timestamps |
| `AccountSessions.BumpsExactlyOnCredentials` | mqttctl/mqttctl-api/src/lib/server/auth/service.ts:187-211 | an update raises the session version, by one, exactly when the password hash, the disabled state or the external link differs |
| `AccountSessions.AdminUpdateAsAsked` | mqttctl/mqttctl-api/src/lib/server/auth/service.ts:580-642 | a request is refused exactly for the reserved account and for a password or a disabling of an external one; otherwise the new row has the email and role asked for, the old link, and for a local account the disabled state and the password asked for |
| `AccountSessions.BumpsExactlyAsAsked` | mqttctl/mqttctl-api/src/lib/server/auth/service.ts:619-629 | the version rises by one exactly if the request asks for another password, disabled state or link than the row has |
| `AccountSessions.AdminWriteStored` | mqttctl/mqttctl-api/src/lib/server/auth/service.ts:632-642 | in any run the write stores the row asked for and touches no other |
| `AccountSessions.RequestEndsEarlierSessions` | mqttctl/mqttctl-api/src/lib/server/auth/service.ts:619-646 | a password reset, a disabling or enabling, or a sync from elsewhere that is written ends every session from an earlier read of the account, in any later state |
| `AccountSessions.DisabledIsLockedOut` | mqttctl/mqttctl-api/src/lib/server/auth/service.ts:937-947 | once a disabling is written no session of the account is accepted, stale reads or not, until some other write to it |
| `AccountSessions.LoginGoesThrough` | mqttctl/mqttctl-api/src/lib/server/auth/service.ts:848-885 | in any run a login holding a row that may log in stores its session under a free id, accepted exactly while the account is usable and has the row's version |
| `AccountSessions.TakenAwayExactly` | mqttctl/mqttctl-api/src/lib/server/db/index.ts:641-660 | a stored session is changed by nothing and taken away exactly by its deletion, that of its account's sessions or its account, a purge after its expiry, or a visit that refuses it |
| `AccountSessions.SessionsHaveAccounts` | mqttctl/mqttctl-api/src/lib/server/db/index.ts:86 | every stored session belongs to a stored account |
| `AccountSessions.IssuedAcceptedExactly` | mqttctl/mqttctl-api/src/lib/server/auth/service.ts:937-947 | with updates to its account serialised since the login's read, an issued session passes the checks if and only if it is unexpired, the account exists, is enabled and may log in, and nothing bumped it since that read, whenever the row was inserted and whatever happened to other accounts |
| `AccountSessions.SessionAcceptedExactly` | mqttctl/mqttctl-api/src/lib/server/auth/service.ts:925-950 | a stored session row is as some login inserted it; with updates to its account serialised since that login's read, its cookie is accepted, and otherwise the row deleted, exactly under the same conditions |
| `AccountSessions.BumpEndsEarlierSessions` | mqttctl/mqttctl-api/src/lib/server/auth/service.ts:746-884 | after a bump no session from an earlier read is accepted in any later state, even one inserted after the bump |
| `AccountSessions.VersionsTellBumps` | mqttctl/mqttctl-api/src/lib/server/auth/service.ts:619-646 | from the moment on that updates to the account are serialised, its version rises exactly if something bumps it |
| `AccountSessions.OneUpdateAtATimeIsSerialised` | mqttctl/mqttctl-api/src/lib/server/auth/service.ts:551-646 | if no other update of the account is written between the read and the write of each of its updates, every write to it meets the version it read |
| `AccountSessions.LinkedIsNotBumped` | mqttctl/mqttctl-api/src/lib/server/auth/service.ts:176-223 | an account that is linked, as are its reads from some read on, keeps its link and version under syncs with that link and administrative edits from those reads, in any interleaving |
| `AccountSessions.RepeatedSyncBumpsNothing` | mqttctl/mqttctl-api/src/lib/server/auth/service.ts:176-223 | a sync links the account whatever row it was computed from, and afterwards repeated syncs and administrative edits in any interleaving bump nothing |
| `AccountSessions.StaleBumpExactly` | mqttctl/mqttctl-api/src/lib/server/auth/service.ts:632-642 | in a run whose updates to the account were serialised so far, a bumping write that leaves the account usable ends every version the account has ever had if and only if the row still has the version that was read |
| `AccountSessions.StaleWriteExactly` | mqttctl/mqttctl-api/src/lib/server/auth/service.ts:632-642 | in such a run, a write without a bump revives no version the account had and lost under exactly the same condition |
| `AccountSessions.EndedForGoodExactly` | mqttctl/mqttctl-api/src/lib/server/auth/service.ts:632-646 | in any run, none of the sessions that the first so many reads of a usable account can lead to is ever accepted again, however the run goes on with updates to it serialised, if and only if each of those reads that may log in carries a version below the row's |
| `AccountSessions.RacingResetsLoseABump` | mqttctl/mqttctl-api/src/lib/server/auth/service.ts:619-646 | two racing password resets around a login: the login's session outlives the second reset |
| `AccountSessions.AuthService.SyncExternalAccount` | mqttctl/mqttctl-api/src/lib/server/auth/service.ts:176-223 | the row gets the link, the email given and its old role, and sessions are dropped exactly when credentials differ |
| `AccountSessions.AuthService.UpdateUser` | mqttctl/mqttctl-api/src/lib/server/auth/service.ts:551-647 | refused without effect for missing, reserved or wrongly external accounts and for the MCP user touching a superadmin; otherwise the row is the one asked for, and exactly if another credential was asked for the version rises and the account's sessions go, and no others |
| `AccountSessions.AuthService.RemoveUser` | mqttctl/mqttctl-api/src/lib/server/auth/service.ts:649-690 | deleting an account deletes its sessions and no others; reserved accounts are refused, and superadmins to the MCP user |
| `AccountSessions.AuthService.LoginLocal` | mqttctl/mqttctl-api/src/lib/server/auth/service.ts:692-846 | a session is inserted, with the version of the row that was read, exactly when local login is switched on, the account exists, has a hash, is enabled and may log in, the password matches and the insert succeeds |
| `AccountSessions.AuthService.CreateSessionForUser` | mqttctl/mqttctl-api/src/lib/server/auth/service.ts:848-885 | a session is inserted exactly if the user is not the reserved one, the account exists and the id is free; it carries the version of the user record handed in |
| `AccountSessions.AuthService.GetUserFromCookie` | mqttctl/mqttctl-api/src/lib/server/auth/service.ts:925-950 | the account is returned exactly when its session is accepted, and a session that is not accepted is deleted |
| `BrokerConfig.WriteLeavesRendered` | broker-agent/src/agent.rs:586-715 | a write that reports success left the rendered text as far as its bytes were stored, over a file of any length: all of it through a rename and through the agent |
| `BrokerConfig.WriteSucceedsExactly` | broker-agent/src/agent.rs:586-715 | a write reports success if and only if the directory is there and renaming works or, failing that, storing in place does; only the agent notices a bad seek or a short count |
| `BrokerConfig.WriteLeavesAtWorstAPrefix` | broker-agent/src/agent.rs:619-712 | a write that fails leaves the old file, the new text or a prefix of the new text over the old file |
| `BrokerConfig.ShortLocalWriteExactly` | mqttctl/mqttctl-api/src/lib/server/config/service.ts:226-230 | a short local write is reported as success, and the file is right if and only if the bytes not stored were there already |
| `BrokerConfig.ConfigFile.Compare` | mqttctl/mqttctl-api/src/lib/server/config/service.ts:238-260 | no objection exactly if nothing is expected or the file is read and has the expected text, conflict exactly if it is read and differs, a failed read exactly if it is not read or missing |
| `BrokerConfig.ConfigFile.WriteText` | broker-agent/src/agent.rs:586-715 | the steps of the write leave what the specification says at every failure |
| `BrokerConfig.PushService.EnqueueTask` | mqttctl/mqttctl-fe/src/routes/api/config/push/+server.ts:22-30 | a push joins the tail of the queue |
| `BrokerConfig.PushService.AssertMatchesExpected` | mqttctl/mqttctl-api/src/lib/server/config/service.ts:273-275 | the job starts with the comparison and is rejected without effect on a mismatch |
| `BrokerConfig.PushService.WriteRendered` | mqttctl/mqttctl-api/src/lib/server/config/service.ts:277-281 | the agent compares again before it writes; the local write does not |
| `BrokerConfig.PushService.ReadCurrent` | mqttctl/mqttctl-api/src/lib/server/config/service.ts:290-292 | the job is fulfilled with the text read back, or rejected though it wrote |
| `BrokerConfig.PushesLinearise` | mqttctl/mqttctl-api/src/lib/server/config/service.ts:262-293 | every run is a sequence of compare-and-sets in enqueue order, each starting from the file the one before left; conflicts and failed reads changed nothing, whatever failed before |
| `BrokerConfig.SuccessfulPush` | mqttctl/mqttctl-api/src/lib/server/config/service.ts:262-293 | each successful push found the text it expected and left its own, all of it unless a local fallback write was short, and is fulfilled with the text read back |
| `BrokerConfig.JobsAreTasks` | mqttctl/mqttctl-fe/src/routes/api/config/push/+server.ts:22-30 | there is one job for every task enqueued, in order |
| `BrokerConfig.PushGoesThrough` | mqttctl/mqttctl-api/src/lib/server/config/service.ts:262-293 | in any run, a push whose turn has come and that expects nothing or the text that is there, whose reads work and whose write stores everything, leaves its text and is fulfilled with it, whatever else happens in between |
| `BrokerConfig.OutcomeExactly` | mqttctl/mqttctl-api/src/lib/server/config/service.ts:238-293 | in any run each outcome of a job occurs if and only if the job met it: conflict, a file read in its turn that differed from the expected text; failed read, a read that failed or no file; failed write, failed read back, success and operations likewise |
| `BrokerConfig.NothingBlocks` | mqttctl/mqttctl-api/src/lib/server/jobs/queue.ts:5-7 | while jobs wait and none runs, the first waiting one may start, whatever became of the earlier ones |
| `BrokerConfig.FileIsLastWritten` | mqttctl/mqttctl-api/src/lib/server/config/service.ts:262-293 | when no write stopped half way or was taken as whole while short, the idle file is the text of the last push whose write succeeded |
| `BrokerConfig.NoLostUpdate` | mqttctl/mqttctl-api/src/lib/server/config/service.ts:245-246 | of two successful pushes expecting the same text, some job between them put that text back, unless the first pushed it again or stored only part of its own |

## Left out

- Cryptography and codecs: SHA-256, signatures, argon2 and JSON are functions about which nothing is assumed, except
  that tamper evidence assumes the hash of a payload to be collision free. JSON text is assumed free of line breaks.
- Character encodings: server-sent events are text already decoded; a character split across two chunks is not
  reassembled by the program. Config files are bytes and expected texts are compared as bytes.
- `EventStream.AgreesOnAnyText`: texts with carriage returns are compared with the standard frame by frame only
  (`FrameAsStandard`): the program does not end a frame at two bare carriage returns.
- String order: `localeCompare` is any total order on keys, and the audit table's ids are numbers compared as such.
  Timestamps, priorities and byte lengths are integers.
- `AuditLog.ReachableLogs`: rows written by a second process are not modelled, nor are the redaction and log output
  around a write.
- `DynsecBootstrap.SafeAtEveryPrefix`: each broker command is one atomic update that may fail without effect, every
  read is fresh, and deleting a role does not touch references. Whether the broker refuses a second ACL with the same
  type and topic is not modelled. The status flags other than pending and idle, and the fixed delay between attempts,
  are left out; the number of attempts is the length of a list.
- `DynsecBootstrap.DynsecService.MigrateLegacyBootstrapRole`: a holder lists a role once, so the loop that removes
  every repetition of the legacy reference is one command.
- `DynsecMembership.Normalize`: coercion of raw JSON, dropping of nameless entries, and the attributes that are only
  copied are left out.
- `ReplayCache.McpAuthService.ValidateClaims`: decoding the token and verifying its signature come before it and are
  left out.
- `RateLimiter.ParseTokenEntriesExactly`: reading token files, trimming names and JSON5 are left out; a secret is a
  string.
- `MessageBuffer.EveryRunConserves`: the reconnect loop of the event stream, upstream requests that fail before a step,
  and non-integer byte lengths are left out.
- `Explorer.ExplorerRefinesHistory`: concurrent connects, the MQTT client, message previews and emission timers are
  left out; times are one clock's readings, and filters are taken after trimming.
- `AccountSessions.SessionAcceptedExactly`: cookies, usernames, the protected flag, the audit records of logins and the
  writes to the reserved account are left out; an id is never reused. In runs the MCP user's updates are those of
  anyone else, so its guards only exclude some of them.
- `BrokerConfig.PushesLinearise`: no second writer. A request to the agent that is still running when its caller gives
  up is not modelled, only an answer that is lost.
- Snapshot import, HTTP routing, pages, OIDC, diagnostics, logging, process supervision and configuration loading beyond
  token lists.
