# Verification of the OpenTag stores and the Lark history import

This project models the parts of OpenTag that keep shared state correct when
several processes work on it, and proves what those parts promise:

- **Leased job ledgers.** Knowledge refresh jobs, knowledge enrichment jobs and
  delegated-agent tasks follow one protocol: claim under a lease, finish or
  return under an owner fence, a cap on attempts, a bounded ledger, and a lock
  file around load, operate and save.
- **The knowledge index and its search.** Sources carry a revision and a hash;
  an enrichment publishes only against the revision it read; a search merges a
  scan of the text with the published passages.
- **History import.** A job walks a time range window by window; every window
  is filled by a paged backfill; analysis follows from a durable cursor.
- **Configuration, members and operator credentials.** Bundle references over
  three policy levels, the last-owner and identity rules, and sessions bound to
  a credential's revision.

## How the model is built

`lease.dfy` states one claim pass, one finish, one retry and one trim as
functions on a list of jobs (`Apply`), with the constants in which the three
ledgers differ (`REFRESH_RULE`, `ENRICHMENT_RULE`, `TASK_RULE`). The stores are
classes whose methods follow the source statement by statement; each method is
proved to leave exactly the state its specification function `After` gives, to
return what that state holds, and to change nothing when it reports an error.
Each method also says in terms of fields what it wrote, whom it passed over and
when it refuses, without its specification function; `FairPass`, `Wrote`,
`Queues`, `GivenBack`, `EndedAs` and `Honours` are the predicates for that. For
searches, network policies, grants and decisions the same is done by a second
definition over the stored records (`Answers`, `LevelSays`, `MayAs`).
Properties of runs are lemmas about `After` iterated over any sequence of calls.
The lock file is a step relation over any number of agents (`lock.dfy`), and
`StoresUnderLock` joins the two for the refresh, task, knowledge and operator
stores: every interleaving of the steps, whoever dies, leaves a file that is such
a run as long as no takeover deletes the lock of a live agent in its section, and
readers without the lock see the run up to some commit. `ImportCoverage` joins
the import to the backfill of its windows.

| files | source |
|---|---|
| `lease`, `lease_trim`, `lease_runs`, `claim_pass`, `lock`, `under_lock` | what the three job stores share |
| `ledger_limits` | runs of the task store that reach the limits of trimming and of leases |
| `stores_under_lock` | the refresh, task, knowledge and operator stores behind their lock files |
| `refresh`, `refresh_runs` | `packages/config/src/file-knowledge-source-refresh-store.ts` |
| `tasks` | `packages/config/src/file-delegated-agent-task-store.ts` |
| `knowledge`, `knowledge_runs`, `search_terms`, `search`, `search_agrees`, `search_finds` | `packages/config/src/file-knowledge-source-store.ts` |
| `backfill` | `apps/server/src/lark-backfill.ts` |
| `history_import`, `analysis` | `apps/server/src/lark-history-import.ts` |
| `import_coverage` | the two together: what a completed import has archived |
| `policy`, `policy_runs`, `policy_access`, `policy_grants` | `packages/config/src/file-thread-config-store.ts` |
| `access`, `access_runs`, `authorize` | `packages/config/src/workspace-access.ts` |
| `operators`, `operator_auth` | `packages/config/src/file-operator-credential-store.ts`, `apps/server/src/operator-auth.ts` |
| `wrappers`, `ordering`, `lookup` | option and result types, stable sorting, search by key |

`dafny verify dfyconfig.toml` checks everything.

## Where the code does less than one would expect

The members named prove what is said, with the exact condition where one is stated.

- Trimming a ledger bounds it to 2,000 jobs only while fewer than 2,000 are
  live; otherwise it drops nothing at all, because `slice(-0)` keeps the whole
  list (`LeaseTrim.TrimExact`). Legal runs hold any number of live tasks
  (`LedgerLimits.LedgerOutgrowsLimit`).
- Only the refresh ledger ends claims whose lease and attempts have run out; in
  the other two they stay claimed (`ClaimPasses.SpentClaims`), whatever claim
  passes follow (`LedgerLimits.LostForGood`).
- Deleting a dead holder's lock is not one step with judging it dead, so two live
  agents can end up in their critical sections together
  (`LockFile.TakeoverBreaksExclusion`). A run is safe from that exactly when no
  step of it deletes the lock of a live agent in its section
  (`LockFile.TakeoverSafeExactly`), and then no committed operation is lost
  (`LockFile.NothingLost`).
- The early return of a claim reads the ledger before it takes the lock, so it may
  miss jobs written in between, and only those (`StoresUnderLock.SkippedPass`).
- An import discovers threads window by window: what is archived of a thread that
  no binding names is owed only to windows in which its chat shows it
  (`ImportCoverage.CompletedImportArchives`).
- An import can complete with entries left to analyse exactly when the windows
  left run out just as the pass leaves its loop: at the end of the pass, or at a
  shutdown (`HistoryImport.CompletionSettlesExactly`).
- A workspace's first member must be an owner but may be created suspended, and
  then the workspace has no active owner (`AccessRuns.FirstMemberOwns`).
- An actor known by two identifiers may match two members, and then the order of
  the list decides who it is (`Authorize.OrderFreeExactly`,
  `Authorize.TwoIdsAmbiguous`).
- A claim reads the clock before it waits for the lock, so timestamps in a
  ledger need not be ordered; the protocol results assume no order.

## Model

| member | source | states |
|---|---|---|
| `LeaseRuns.HistoryLegal` | packages/config/src/file-delegated-agent-task-store.ts:367-465 | In every run of any workers each job has a legal history: whoever finishes or returns it is the worker of its most recent claim, a claim is taken over only after its lease ran out, nothing follows its end, it sees at most 2 * maxAttempts events, its attempts count its claims, and a job missing from the ledger had ended |
| `LeaseRuns.FenceExact` | packages/config/src/file-knowledge-source-refresh-store.ts:467-472 | A worker passes the owner fence of a job exactly when the last thing that happened to the job is that this worker claimed it |
| `LeaseRuns.OutcomeAbsorbing` | packages/config/src/file-delegated-agent-task-store.ts:446-465 | Once a job has ended no later operation changes its status or adds to its history, and a job dropped from the ledger does not come back |
| `LeaseRuns.FuelFalls` | packages/config/src/file-knowledge-source-refresh-store.ts:424-506 | Nothing changes a job without an event, and every event lowers (maxAttempts - attempts, claimed over pending over ended), so a job makes at most 2 * maxAttempts transitions |
| `LeaseRuns.RecordStep` | packages/config/src/file-knowledge-source-refresh-store.ts:407-523 | One operation keeps a record equal to what its history says: attempts, claim holder, claim time, ended or not |
| `LeaseRuns.AddAgrees` | packages/config/src/file-knowledge-source-refresh-store.ts:291-297 | Adding jobs and trimming leaves every other job's history in agreement; only an ended job may go |
| `LeaseRuns.RunInv` | packages/config/src/file-knowledge-source-refresh-store.ts:285-288 | In every run ids are unique and every job has 0 to maxAttempts attempts, a pending one fewer, and a claimed one a holder and a claim time |
| `LeaseTrim.TrimExact` | packages/config/src/file-knowledge-source-refresh-store.ts:291-297 | Trimming drops no live job and keeps them in order, keeps exactly the latest ended jobs, and leaves at most 2,000 jobs if and only if fewer than 2,000 are live or nothing had to be trimmed; with 2,000 or more live it drops nothing |
| `LeaseTrim.TrimUnique` | packages/config/src/file-delegated-agent-task-store.ts:300-305 | Trimming keeps ids unique, invents no job and keeps every live job |
| `LeaseTrim.TrimFind` | packages/config/src/file-knowledge-source-store.ts:592-601 | A job found by id after trimming is the one found before, and a live job is still found |
| `LedgerLimits.LedgerOutgrowsLimit` | packages/config/src/file-delegated-agent-task-store.ts:298-307 | For every n there is a legal run of the task store after which the ledger holds n tasks, all live: the limit of 2,000 does not bound it |
| `ClaimPasses.RunPass` | packages/config/src/file-knowledge-source-refresh-store.ts:424-451 | By the fields of the jobs before and after: exactly the ready jobs (attempts left, and pending and available or claimed under a lease that ran out) that go first are claimed, as many as the limit allows; they go by availability, then by creation where the ledger breaks ties so, then by place in the list; each is returned in that order, one attempt up, held by this worker; every other job stays, or is failed by the sweep |
| `ClaimPasses.ClaimedGoesFirst` | packages/config/src/file-delegated-agent-task-store.ts:379-380 | Of two ready jobs, one claimed by a pass and the other not, the claimed one was available earlier, or created earlier on a tie, or listed earlier |
| `ClaimPasses.SortedRank` | packages/config/src/file-delegated-agent-task-store.ts:379-380 | In the sorted list of eligible jobs a job's position is the number of eligible jobs that precede it |
| `ClaimPasses.ChosenIsPrefix` | packages/config/src/file-knowledge-source-store.ts:867-871 | A job is claimed exactly when it is in the slice kept after sorting |
| `ClaimPasses.PrecheckExact` | packages/config/src/file-knowledge-source-refresh-store.ts:419-423 | The lock-free look returns early exactly when the locked pass on that ledger would change no job |
| `ClaimPasses.MissesOnlyNews` | packages/config/src/file-knowledge-source-refresh-store.ts:419-424 | A pass skipped because of a look taken earlier, without the lock, would have changed only jobs that were added or changed since that look |
| `ClaimPasses.SpentClaims` | packages/config/src/file-knowledge-source-refresh-store.ts:425-436 | After a pass a job is left claimed with an expired lease and spent attempts exactly when its ledger does not sweep and one was there before |
| `LedgerLimits.LostForGood` | packages/config/src/file-delegated-agent-task-store.ts:367-390 | A run that leaves a task claimed with spent attempts, and no sequence of later claim passes, of any workers, leases and times, ever changes it |
| `LockFile.Serializable` | packages/config/src/file-delegated-agent-task-store.ts:208-252 | However agents interleave creating the lock, loading, operating, saving and releasing, while no holder dies at most one is in its section and the file is the committed operations applied one after another |
| `LockFile.NothingLost` | packages/config/src/file-delegated-agent-task-store.ts:208-252 | Agents may die anywhere: as long as no takeover deletes the lock of a live agent in its section, at most one live agent is in its section and the file is the committed operations one after another |
| `LockFile.CalmIsUndisturbed` | packages/config/src/file-delegated-agent-task-store.ts:225-231 | In a run in which no agent dies inside its section no takeover deletes the lock of a live agent |
| `LockFile.ReaderSeesPrefix` | packages/config/src/file-knowledge-source-refresh-store.ts:422-423 | A reader without the lock sees the result of a prefix of the order in which operations commit, dead holders included, while no takeover deletes a live agent's lock |
| `LockFile.StepOrderly` | packages/config/src/file-delegated-agent-task-store.ts:208-252 | Every single step keeps the lock owner the only agent in its section, its loaded state current, and the file equal to the committed operations |
| `LockFile.StepExclusiveExactly` | packages/config/src/file-delegated-agent-task-store.ts:225-231 | Every step from a state in which the lock names every live agent in its section, a death included, keeps it so exactly when it does not delete the lock of a live agent in its section |
| `LockFile.ExclusiveExactly` | packages/config/src/file-delegated-agent-task-store.ts:208-252 | Over a run in which agents may die anywhere, the lock names every live agent in its section at every moment up to n exactly when no step before n deletes the lock of a live agent in its section |
| `LockFile.IntrusionOverlaps` | packages/config/src/file-delegated-agent-task-store.ts:208-231 | After such a deletion the agent that deleted it can create the lock at once, and then two live agents are in their sections |
| `LockFile.TakeoverSafeExactly` | packages/config/src/file-delegated-agent-task-store.ts:208-252 | Over a whole run in which agents may die anywhere, no two live agents are ever in their sections together, nor would be if a contender took the free lock next, exactly when no step of the run deletes the lock of a live agent in its section |
| `LockFile.TakeoverBreaksExclusion` | packages/config/src/file-delegated-agent-task-store.ts:225-231 | A concrete run with one death after which two live agents are in their sections together |
| `LedgerUnderLock.InterleavingsAreRuns` | packages/config/src/file-delegated-agent-task-store.ts:238-252 | For every interleaving of the locking steps, deaths included while no takeover deletes a live agent's lock, over protocol operations fixed when requested, the saved ledger is a run of the protocol over the committed operations, so histories are legal and the fence exact; a lock-free read saw a run over a prefix. StoresUnderLock has the calls that compute their operation from the ledger loaded under the lock |
| `StoresUnderLock.RefreshEverywhere` | packages/config/src/file-knowledge-source-refresh-store.ts:239-253 | The same with the calls of the refresh store, whose batches and payloads are computed from the ledger loaded under the lock: at every moment of every interleaving at most one live job exists per source, revision and uri, histories are legal and the fence is exact |
| `StoresUnderLock.SkippedPass` | packages/config/src/file-knowledge-source-refresh-store.ts:419-424 | In any interleaving, a claim that returns early on an unlocked read saw the store after a prefix of the commits, a pass there would have changed nothing, and one made at any later moment would change only jobs that commits in between added or changed |
| `StoresUnderLock.TasksEverywhere` | packages/config/src/file-delegated-agent-task-store.ts:238-252 | The same with the calls of the task store: at every moment of every interleaving histories are legal, the fence is exact, and only self-ended tasks have continuations |
| `StoresUnderLock.OneContinuationEverywhere` | packages/config/src/file-delegated-agent-task-store.ts:467-486 | A continuation seen at one moment of an interleaving is the task's only one at every later moment at which the task is kept, and the task is never cancelled |
| `StoresUnderLock.SearchSeesOneState` | packages/config/src/file-knowledge-source-store.ts:418-462 | A search runs without the lock: however writers interleave and die, while no takeover deletes a live agent's lock it sees the store as a prefix of the committed calls left it, and every hit quotes text current in that state |
| `StoresUnderLock.ResolvesUntilCommitted` | packages/config/src/file-operator-credential-store.ts:269-326 | Authentication runs without the lock: what a token stood for resolves exactly when no rotation or revocation of its credential was committed in between |
| `Refresh.FindLive` | packages/config/src/file-knowledge-source-refresh-store.ts:270-275 | The first live job for this workspace, source, revision and uri, found exactly when there is one |
| `Refresh.Previous` | packages/config/src/file-knowledge-source-refresh-store.ts:276-282 | The completed job with the latest completion that produced this revision of the source |
| `Refresh.Latest` | packages/config/src/file-knowledge-source-refresh-store.ts:117-129 | The latest update among the jobs that asked for or produced the source's current revision |
| `Refresh.DueIsRested` | packages/config/src/file-knowledge-source-refresh-store.ts:131-143 | A source is due exactly when it is an enabled url source with an interval and all its activity at this revision, or its last change without any, is at least that interval old |
| `Refresh.NextRefreshExact` | packages/config/src/file-knowledge-source-refresh-store.ts:131-143 | The announced time of the next refresh is the least moment at which the source has rested so; there is none exactly for a source that is not refreshed |
| `Refresh.DueOrder` | packages/config/src/file-knowledge-source-refresh-store.ts:317-328 | The due sources (see `DueIsRested`), each found in the list |
| `Refresh.DueExact` | packages/config/src/file-knowledge-source-refresh-store.ts:317-328 | The list holds exactly the rested sources, each once, by the time of last activity, then by workspace and id |
| `Refresh.QueueDue` | packages/config/src/file-knowledge-source-refresh-store.ts:329-358 | The loop queues one job for each due source without a live job until the limit; every due source is counted as queued or active while under it |
| `Refresh.RefreshStore.EnqueueOne` | packages/config/src/file-knowledge-source-refresh-store.ts:255-300 | Enqueueing returns the live job for the same source, revision and uri if there is one and then changes nothing; else the live jobs become the old ones followed by one new pending job for the key, with the validator of the last completed job that produced the revision |
| `Refresh.RefreshStore.ScheduleDue` | packages/config/src/file-knowledge-source-refresh-store.ts:302-367 | After a pass that queues fewer than its limit (100 by default, 500 at most) every source that has rested its interval has a live job for its revision and uri; whatever is queued is for a rested source; due, queued and active add up |
| `Refresh.RefreshStore.ClaimJobs` | packages/config/src/file-knowledge-source-refresh-store.ts:407-452 | `seen` is the ledger read without the lock. A pass under the lock claims by availability and place, at most 2 by default and 20 at most, and fails claims whose lease and attempts have run out, all by the fields of the ledger as it is by then; an early return changes nothing and misses only jobs added or changed since `seen` |
| `Refresh.RefreshStore.CompleteJob` | packages/config/src/file-knowledge-source-refresh-store.ts:454-484 | Completes the job and releases it exactly when it is claimed by this worker, and records outcome, produced revision and etag; attempts, key and times stay; otherwise nothing changes |
| `Refresh.RefreshStore.StaleJob` | packages/config/src/file-knowledge-source-refresh-store.ts:486-488 | Marks the job stale exactly when it is claimed by this worker; otherwise nothing changes |
| `Refresh.RefreshStore.RetryJob` | packages/config/src/file-knowledge-source-refresh-store.ts:490-506 | Exactly when this worker holds it: with attempts left the job waits, for 5 seconds by default and 1 second to 15 minutes as asked; with its attempts spent it has failed; nothing else of it changes |
| `Refresh.ScheduleComplete` | packages/config/src/file-knowledge-source-refresh-store.ts:302-367 | After a pass under its limit every source that has rested its interval has a live job, trimmed or not; every job queued at time t is for a source whose earlier activity at its revision, or last change if none, is at or before t - interval |
| `Refresh.QueuedCovers` | packages/config/src/file-knowledge-source-refresh-store.ts:331-358 | Every due source has a live job after its turn in the loop unless the limit was reached |
| `Refresh.OldestFirst` | packages/config/src/file-knowledge-source-refresh-store.ts:325-341 | A due source left without a job at the limit comes after every source that was queued |
| `RefreshRuns.RepeatQueuesNothing` | packages/config/src/file-knowledge-source-refresh-store.ts:302-367 | Before any trim, an immediate repeat of a pass that stayed under its limit queues nothing, whatever its ids and limit |
| `RefreshRuns.BaselineAfter` | packages/config/src/file-knowledge-source-refresh-store.ts:117-129 | New activity at a time moves a source's baseline to that time or later, or leaves it |
| `RefreshRuns.StoreRunIsLedgerRun` | packages/config/src/file-knowledge-source-refresh-store.ts:239-253 | Every run of the refresh store is a run of the leased-job protocol |
| `RefreshRuns.AfterKeepsUnique` | packages/config/src/file-knowledge-source-refresh-store.ts:269-275 | Every call keeps at most one live job per workspace, source, revision and uri |
| `RefreshRuns.ReachableUnique` | packages/config/src/file-knowledge-source-refresh-store.ts:269-275 | In every reachable ledger at most one live job exists per workspace, source, revision and uri |
| `Tasks.TaskStore.CreateTask` | packages/config/src/file-delegated-agent-task-store.ts:298-307 | The new task is queued, the ledger trimmed, and the live tasks are the old ones followed by it |
| `Tasks.TaskStore.ClaimTasks` | packages/config/src/file-delegated-agent-task-store.ts:367-390 | The ready tasks that go first by availability, creation and place are claimed, 2 by default and 20 at most, and nothing else changes, all by the fields of the tasks before and after |
| `Tasks.TaskStore.CompleteTask` | packages/config/src/file-delegated-agent-task-store.ts:392-424 | Ends the task as stale when flagged and as completed otherwise, exactly when this worker holds it; otherwise nothing changes |
| `Tasks.TaskStore.RetryTask` | packages/config/src/file-delegated-agent-task-store.ts:426-444 | Exactly when this worker holds it: with attempts left the task waits for the clamped delay, with its attempts spent it has failed; nothing else of it changes |
| `Tasks.TaskStore.CancelOne` | packages/config/src/file-delegated-agent-task-store.ts:446-465 | Cancels the task exactly when it is queued or claimed |
| `Tasks.TaskStore.Continue` | packages/config/src/file-delegated-agent-task-store.ts:467-486 | Records the continuation exactly when the task ended by itself and no other run is recorded; the first scheduling time is kept |
| `Tasks.AfterKeepsLate` | packages/config/src/file-delegated-agent-task-store.ts:467-486 | Every call keeps continuations to completed, failed and stale tasks |
| `Tasks.ReachableLate` | packages/config/src/file-delegated-agent-task-store.ts:446-486 | In every run only completed, failed and stale tasks have a continuation: a cancelled task has none |
| `Tasks.OneContinuation` | packages/config/src/file-delegated-agent-task-store.ts:467-486 | Once recorded, a task's continuation run never changes while the task is in the ledger, and the task is never cancelled |
| `Tasks.StoreRunIsLedgerRun` | packages/config/src/file-delegated-agent-task-store.ts:238-252 | Every run of the task store is a run of the leased-job protocol |
| `Knowledge.KnowledgeStore.PushEnrichment` | packages/config/src/file-knowledge-source-store.ts:569-603 | Queues one enrichment for the source's revision and hash and trims the ledger |
| `Knowledge.KnowledgeStore.UpsertSource` | packages/config/src/file-knowledge-source-store.ts:500-567 | The stored source then has the draft's lines, title, kind and uri, the hash of those lines, the next revision and the interval asked for or kept; enabled and creation time are kept, every other source too, and a pending enrichment of that revision and hash follows the live ones; it is refused exactly on another revision than expected or an interval not allowed, and then nothing changes |
| `Knowledge.KnowledgeStore.IngestSource` | packages/config/src/file-knowledge-source-store.ts:605-672 | A dedupe key seen before returns its job and changes nothing; otherwise, exactly then, the draft is stored as by an upsert, keeping a url source's interval, and its enrichment queued under the key |
| `Knowledge.KnowledgeStore.SetSourceEnabled` | packages/config/src/file-knowledge-source-store.ts:674-706 | Sets the flag at the next revision and changes nothing else of any source; enabling queues an enrichment for it, disabling leaves the ledger; refused exactly for a missing source or another revision |
| `Knowledge.KnowledgeStore.ApplyRemoteRefresh` | packages/config/src/file-knowledge-source-store.ts:708-763 | Succeeds exactly for an enabled url source at the expected revision and uri; with the hash unchanged only its update time moves, otherwise it gets the fetched lines, their hash, the next revision and an enrichment |
| `Knowledge.KnowledgeStore.ClaimEnrichments` | packages/config/src/file-knowledge-source-store.ts:846-880 | The same for enrichments, 4 by default, with the early return on an unlocked read `seen` that misses only jobs added or changed since |
| `Knowledge.KnowledgeStore.CompleteEnrichment` | packages/config/src/file-knowledge-source-store.ts:882-933 | For the holder only: with revision and hash still current the job is completed with the passage of the last worthy candidate for each range of lines among the first 48, and no other; else it is stale with no passages |
| `Knowledge.KnowledgeStore.RetryEnrichment` | packages/config/src/file-knowledge-source-store.ts:935-958 | Exactly when this worker holds it: with attempts left the enrichment waits for the clamped delay, with its attempts spent it has failed; nothing else of it changes |
| `Knowledge.PassagesQuote` | packages/config/src/file-knowledge-source-store.ts:908-922 | Published passages have distinct line ranges inside the text, non-empty excerpts with their hash, and confidence from 0.5 to 1 |
| `Knowledge.PassagesExact` | packages/config/src/file-knowledge-source-store.ts:904-922 | No worthy candidate is lost and nothing else is published: of the worthy ones for the same lines the last one counts, with its summary, aliases, confidence and the hash of its excerpt |
| `Knowledge.PutKeepsDistinct` | packages/config/src/file-knowledge-source-store.ts:920-921 | Setting a passage by its line range keeps one passage per range |
| `KnowledgeRuns.SourceAfterRevision` | packages/config/src/file-knowledge-source-store.ts:528-566 | A written source has the next revision, or the same revision with the same text; its hash is that of its text |
| `KnowledgeRuns.AfterKeepsInv` | packages/config/src/file-knowledge-source-store.ts:528-933 | Every call keeps: hashes match texts, a job names a revision its source has reached and the current hash at the current one, one job per revision, published passages quote the hashed text |
| `KnowledgeRuns.ReachableInv` | packages/config/src/file-knowledge-source-store.ts:500-958 | Those facts hold in every reachable state |
| `KnowledgeRuns.RevisionFixesText` | packages/config/src/file-knowledge-source-store.ts:528-566 | In every run a workspace, source and revision name one text for ever, and revisions never go back |
| `KnowledgeRuns.OneJobPerRevision` | packages/config/src/file-knowledge-source-store.ts:569-603 | Over a whole run, trimmed jobs included, a revision is given at most one enrichment job |
| `KnowledgeRuns.IngestOnce` | packages/config/src/file-knowledge-source-store.ts:636-647 | Ingesting again under the same dedupe key changes nothing, whatever the second draft |
| `KnowledgeRuns.LedgerOfRun` | packages/config/src/file-knowledge-source-store.ts:500-958 | The enrichment ledger of every run of the store is a run of the leased-job protocol |
| `KnowledgeRuns.EnrichmentProtocol` | packages/config/src/file-knowledge-source-store.ts:846-958 | So enrichment histories are legal, at most 10 events long, and the fence is exact |
| `SearchTerms.TermsOf` | packages/config/src/file-knowledge-source-store.ts:340-356 | The query terms are those of the tokens set one by one, the first 32 kept |
| `SearchTerms.TermsInOrder` | packages/config/src/file-knowledge-source-store.ts:343-355 | Terms are all different, in the order in which they first occur |
| `SearchTerms.TermsSetLast` | packages/config/src/file-knowledge-source-store.ts:347-353 | Each term has the weight set last for it |
| `SearchTerms.TokenTermsExact` | packages/config/src/file-knowledge-source-store.ts:343-353 | A run of Han characters gives each of its pieces of two to four characters at 0.8 a character, or itself at 0.5 when single; a word of two or more characters gives itself, at 2.2 from six on and 1.5 below |
| `Search.BestPassage` | packages/config/src/file-knowledge-source-store.ts:358-388 | The first maximum over all five-line windows that match, and nothing exactly when no window matches |
| `Search.BestUpTo` | packages/config/src/file-knowledge-source-store.ts:361-386 | Keeping a strictly better window while scanning yields the first best of the windows seen |
| `Search.Publication` | packages/config/src/file-knowledge-source-store.ts:780-787 | A completed enrichment of exactly the current revision and hash, found whenever there is one |
| `Search.QuotePassages` | packages/config/src/file-knowledge-source-store.ts:788-810 | The hits of the passages published for one source that match and still quote its text |
| `SearchFinds.GatherHits` | packages/config/src/file-knowledge-source-store.ts:772-810 | In a reachable state the hits gathered are exactly the answers: the best window of each enabled source asked for, and each passage of a completed enrichment of its revision and hash whose summary or aliases mention a term |
| `SearchFinds.GatheredExact` | packages/config/src/file-knowledge-source-store.ts:772-810 | The same in both directions for one hit |
| `SearchFinds.PassageAnswers` | packages/config/src/file-knowledge-source-store.ts:789-808 | A published passage that mentions a term has an answer that quotes its lines, scored 4 plus the terms' weights, 1 for each term and 2.5 times the confidence |
| `SearchFinds.LineAnswers` | packages/config/src/file-knowledge-source-store.ts:358-388 | A source with a matching window has an answer that quotes the first best five-line window |
| `SearchFinds.WeightAdds` | packages/config/src/file-knowledge-source-store.ts:366-372 | The weight of terms is the sum of the weights of each |
| `SearchFinds.WeightOfOne` | packages/config/src/file-knowledge-source-store.ts:366-372 | A term that occurs counts its weight, the bonus and, if the title has it too, the extra; another counts nothing |
| `SearchFinds.JoinHolds` | packages/config/src/file-knowledge-source-store.ts:791 | Every alias is part of the text in which terms are looked for |
| `Search.OneHitPerPlace` | packages/config/src/file-knowledge-source-store.ts:811-816 | One hit per source and line range: the first of the best-scoring ones, and every range found is kept |
| `Search.TopIsTop` | packages/config/src/file-knowledge-source-store.ts:817-819 | Sorting and slicing returns ranges in descending score with source id as tie-break, and no omitted range outranks a returned one |
| `SearchFinds.SearchSources` | packages/config/src/file-knowledge-source-store.ts:765-822 | In a reachable state at most `limit` results (8 by default, 20 at most), one per range, best first; each is an answer, and every answer is among them with no lower score or outranked by a full list; without terms nothing is found |
| `SearchFinds.SearchStore` | packages/config/src/file-knowledge-source-store.ts:765-822 | The same for the store after any run of its calls |
| `SearchAgrees.CheckNeverDrops` | packages/config/src/file-knowledge-source-store.ts:793-794 | In every reachable state the excerpt hash check drops no published passage |
| `SearchAgrees.PublicationUnique` | packages/config/src/file-knowledge-source-store.ts:780-787 | At most one enrichment is published for the current revision of a source |
| `SearchAgrees.HitsQuoteCurrentText` | packages/config/src/file-knowledge-source-store.ts:765-822 | After any run every hit quotes the current revision's own lines of an enabled source that was asked for |
| `SearchAgrees.SupersededContributesNothing` | packages/config/src/file-knowledge-source-store.ts:780-787 | After any run, deleting every enrichment whose source moved on changes no search |
| `Backfill.RoutesOf` | apps/server/src/lark-backfill.ts:179-211 | The channels routed are those of the serving bindings in the order in which they first occur, and each route knows exactly the threads its serving bindings name, in that order |
| `Backfill.RoutesExact` | apps/server/src/lark-backfill.ts:179-211 | Every serving binding has its route and thread, every route and known thread comes from a serving binding, and no channel is routed twice |
| `Backfill.SecondsOrMillis` | apps/server/src/lark-backfill.ts:55-59 | A stamp in seconds and the same one in milliseconds name one moment |
| `Backfill.StopLosesNothing` | apps/server/src/lark-backfill.ts:241-271 | With threads newest first, stopping at a message older than the window loses none inside it |
| `Backfill.ChatDiscovers` | apps/server/src/lark-backfill.ts:258-262 | Every thread a collected chat message belongs to is discovered |
| `Backfill.RouteDone` | apps/server/src/lark-backfill.ts:288-299 | Chat, known threads and threads discovered from the chat: when all were collected the route is covered |
| `Backfill.Run.Keep` | apps/server/src/lark-backfill.ts:250-261 | Collecting a message keeps ids unique, the ceiling and the window, and discovers its thread |
| `Backfill.Run.ScanMessage` | apps/server/src/lark-backfill.ts:242-263 | A message of the window is collected and its thread discovered, unless the ceiling is reached; others change nothing but the scan count |
| `Backfill.Run.ScanPage` | apps/server/src/lark-backfill.ts:242-263 | Without truncation every message of the page in the window is collected; truncation only at the ceiling; an older thread message is reported exactly when there is one |
| `Backfill.Run.CollectPage` | apps/server/src/lark-backfill.ts:241-271 | After a page the messages of all pages so far are collected, and when the scan stops, at the last page or at a message older than the window, those of the whole container are, threads arriving newest first |
| `Backfill.Run.Collect` | apps/server/src/lark-backfill.ts:217-282 | Without truncation and without a new error every message of the container in the window has been collected, threads arriving newest first |
| `Backfill.Run.CollectChats` | apps/server/src/lark-backfill.ts:284-287 | Without truncation and errors every chat of the routes has been collected |
| `Backfill.Run.CollectAllThreads` | apps/server/src/lark-backfill.ts:288-299 | Without truncation and errors every route is covered, discovered threads included, threads arriving newest first |
| `Backfill.Run.Replay` | apps/server/src/lark-backfill.ts:301-361 | Replayed, failed and skipped messages add up to the collected ones, duplicates and ignored are at most the replayed, and the report is complete exactly without truncation, errors and failures |
| `Backfill.Run.Execute` | apps/server/src/lark-backfill.ts:168-361 | A complete report means every timestamped undeleted message of the window in a bound chat, a known thread or a thread discovered from the chat was collected, threads arriving newest first. The report is complete exactly without truncation and errors, truncated only with maxMessages held, and free of errors when no page call or chat lookup fails and no ingestion throws; the counts balance |
| `Backfill.BackfillBindings` | apps/server/src/lark-backfill.ts:168-361 | Routing and execution together: a complete report means that for every serving binding every timestamped undeleted message of the window in its chat, its thread or a thread its chat shows was collected, and no ingestion failed; what was sent is exactly the specified replay; without a fault only the ceiling keeps a report from being complete |
| `Backfill.CoveredByMoment` | apps/server/src/lark-backfill.ts:55-59 | A covered chat holds every undeleted message sent at a moment of the window, whether its stamp counts seconds or milliseconds |
| `Backfill.ReplayedInOrder` | apps/server/src/lark-backfill.ts:305-310 | The replay goes in strictly ascending (create time, id) order |
| `Backfill.SentAtTurn` | apps/server/src/lark-backfill.ts:311-323 | Among the messages whose turn in the replay has come exactly the normalisable ones not from a bot have been sent |
| `Backfill.SentInOrder` | apps/server/src/lark-backfill.ts:305-340 | Each message is sent to ingestion at most once and in (create time, id) order |
| `Backfill.SentExactly` | apps/server/src/lark-backfill.ts:311-323 | A collected message is sent exactly when it can be normalised and is not from a bot, by the message's own fields |
| `HistoryImport.Configure` | apps/server/src/lark-history-import.ts:330-331 | Windows are a day by default and at least a minute, 7 per pass by default and 1 to 31 |
| `HistoryImport.ProcessJob` | apps/server/src/lark-history-import.ts:315-515 | The loop over windows does what the pass specification says, however it ends |
| `HistoryImport.WindowExact` | apps/server/src/lark-history-import.ts:381-500 | One window: an incomplete backfill fails the pass and changes nothing, a complete one moves the cursor to the end of the window; analysis is due at the end of the range, after seven days, or when it is on and behind, and its cursor moves exactly when it is due and caught up or off; one that throws fails the pass |
| `HistoryImport.FinalSlotExact` | apps/server/src/lark-history-import.ts:336-380 | After the last window the pass completes exactly when no analysis is owed or it catches up, and else fails or releases the job as the analysis threw or did not catch up |
| `HistoryImport.PassSane` | apps/server/src/lark-history-import.ts:333-515 | A pass, however it ends, keeps the windows done a gapless tiling of [since, cursor], never moves the cursor back or past until, adds only windows whose backfill was complete, and completes only at until |
| `HistoryImport.RunSane` | apps/server/src/lark-history-import.ts:263-313 | So does every run of passes, failures and retries |
| `HistoryImport.CursorMonotone` | apps/server/src/lark-history-import.ts:437-453 | Over every run the cursor never goes back and finished windows stay finished |
| `HistoryImport.DoneWasComplete` | apps/server/src/lark-history-import.ts:427-453 | Every finished window was added by a pass of the run that ran its backfill, and that very pass reported it complete |
| `HistoryImport.FinishedOnce` | apps/server/src/lark-history-import.ts:437-453 | No window is finished by two passes |
| `HistoryImport.CompletedMeansCovered` | apps/server/src/lark-history-import.ts:427-508 | When a job is completed every moment of [since, until] lies in a window whose backfill was complete in the pass that finished it |
| `HistoryImport.QuietRun` | apps/server/src/lark-history-import.ts:333-515 | With analysis off and no failure or shutdown the job takes exactly ceil((until - since) / window) windows and max(1, ceil(windows / windowsPerPass)) passes |
| `HistoryImport.WindowsLeftIsCeiling` | apps/server/src/lark-history-import.ts:381-383 | The number of windows left is the ceiling of the time left over the window length |
| `HistoryImport.PassesNeededIsCeiling` | apps/server/src/lark-history-import.ts:331-333 | The number of passes is the ceiling of windows over windows per pass, at least one |
| `HistoryImport.CompletesSettled` | apps/server/src/lark-history-import.ts:336-380 | A completed import has nothing left to analyse unless the windows left run out just as the loop is left |
| `HistoryImport.CompletesUnsettled` | apps/server/src/lark-history-import.ts:504-508 | When they do, an import whose analysis never drains completes all the same |
| `HistoryImport.CompletionSettlesExactly` | apps/server/src/lark-history-import.ts:504-508 | Completion implies that analysis caught up exactly when the windows left differ from the slot at which the pass leaves its loop |
| `HistoryImport.AnalysisKeepsUp` | apps/server/src/lark-history-import.ts:437-500 | While every analysis catches up, less than seven days wait for it after any run of passes, and nothing once the range has been walked |
| `ImportCoverage.FillWindow` | apps/server/src/lark-history-import.ts:381-432 | One window filled for a pass by the backfill of its bindings: where it is reported complete every serving binding is covered from the cursor to the end of the window, and without a fault it is incomplete only when the ceiling on messages was reached |
| `ImportCoverage.OwedIsArchived` | apps/server/src/lark-backfill.ts:284-340 | In a covered window a message a serving binding owes (in its chat, its thread or a thread its chat shows) was collected, and sent to ingestion exactly when normalisable and not from a bot |
| `ImportCoverage.CompletedImportArchives` | apps/server/src/lark-history-import.ts:263-515 | End to end, over any passes, failures and retries: once an import is completed, every undeleted message sent at a moment of [since, until] that a serving binding owes in the window of that moment was collected by the pass that finished that window, and sent exactly when normalisable and not from a bot |
| `Analysis.Position` | apps/server/src/lark-history-import.ts:536-542 | How many transcript entries are at or before the cursor |
| `Analysis.AnalyzeBatch` | apps/server/src/lark-history-import.ts:535-575 | One turn analyses exactly the next entries, moves the cursor to the last of them, and finds nothing exactly at the end |
| `Analysis.AnalyzeThread` | apps/server/src/lark-history-import.ts:517-586 | The batches join up to one contiguous segment just after the initial cursor, so each entry is analysed once; checkpoints strictly advance; at most 25 batches run, and all 25 unless drained; drained exactly when nothing is left |
| `Policy.PolicyStore.constructor` | packages/config/src/file-thread-config-store.ts:114-181 | A new store has one workspace with its default project and no bundles |
| `Policy.PolicyStore.UpsertCapabilityBundle` | packages/config/src/file-thread-config-store.ts:1009-1085 | Creates or replaces the bundle of a configured workspace at the next revision with what the request sends and what it leaves kept, or refuses, exactly on a bad id or name, an unknown workspace or another revision, and changes nothing |
| `Policy.PolicyStore.SetCapabilityBundleEnabled` | packages/config/src/file-thread-config-store.ts:1087-1134 | Toggles an existing bundle at the next revision, with the revision check |
| `Policy.PolicyStore.RemoveCapabilityBundle` | packages/config/src/file-thread-config-store.ts:1136-1179 | Removes a bundle unless some policy of the workspace names it, with the revision check |
| `Policy.PolicyStore.UpsertWorkspacePolicy` | packages/config/src/file-thread-config-store.ts:1181-1277 | Stores the ids, grants, mode and hosts the request sends and keeps those of the policy it falls back to; refused exactly when an id it leaves is not in the catalogue |
| `Policy.PolicyStore.UpsertProjectPolicy` | packages/config/src/file-thread-config-store.ts:1279-1386 | The same for a project; own grants or network settings stop a new project from inheriting; refused exactly for an unknown bundle |
| `Policy.PolicyStore.UpsertChannelPolicy` | packages/config/src/file-thread-config-store.ts:1388-1502 | The same for a channel of a configured project; a channel that inherits keeps nothing of its own; refused exactly for an unknown project or bundle |
| `Policy.PolicyStore.RemoveChannelPolicy` | packages/config/src/file-thread-config-store.ts:1504-1536 | Removes the channel policy if there is one |
| `PolicyRuns.AfterKeepsInv` | packages/config/src/file-thread-config-store.ts:1009-1536 | Every operation keeps references, unique keys, bundles in configured workspaces and channels in configured projects |
| `PolicyRuns.ReachableInv` | packages/config/src/file-thread-config-store.ts:1009-1536 | In every reachable configuration each bundle id named by a workspace, project or channel policy exists in that workspace's catalogue |
| `PolicyRuns.RemovalGuardExact` | packages/config/src/file-thread-config-store.ts:1155-1166 | Removing a bundle is refused exactly when a reference would dangle |
| `PolicyAccess.EnabledAmong` | packages/config/src/file-thread-config-store.ts:570-584 | Exactly the enabled bundles of the workspace among the ids |
| `PolicyAccess.ResolvedNames` | packages/config/src/file-thread-config-store.ts:600-617 | An id is resolved exactly when the deciding level names it: a custom channel alone, an extending channel and the level below, else the project or the workspace it inherits from |
| `PolicyAccess.ResolutionExact` | packages/config/src/file-thread-config-store.ts:864-873 | In every reachable configuration the access bundle of a configured workspace holds exactly the enabled bundles the deciding level names, each once, and every named id exists; an unconfigured workspace gets none |
| `PolicyAccess.Reduce` | packages/config/src/file-thread-config-store.ts:874-877 | The networks of the bundles folded in order |
| `PolicyAccess.ReducedCombines` | packages/config/src/file-thread-config-store.ts:553-568 | Folding networks unions their hosts without repetition; the mode is open exactly when one is, else restricted exactly when a host is allowed |
| `PolicyAccess.EffectiveClosedForm` | packages/config/src/file-thread-config-store.ts:874-881 | The effective network policy combines the level's policy and every bundle's in that closed form |
| `PolicyAccess.OrderIrrelevant` | packages/config/src/file-thread-config-store.ts:874-881 | The effective policy does not depend on the order of the bundles |
| `PolicyAccess.AccessNetExact` | packages/config/src/file-thread-config-store.ts:840-881 | Over the stored policies' own fields, in every reachable configuration: a host is allowed, and the policy open, exactly when the deciding level or an enabled bundle it names says so; denied by default exactly when neither. The level is a custom channel alone, else an extending channel or the level below, that is the project unless missing or inheriting, else the workspace |
| `PolicyAccess.DedupeGrants` | packages/config/src/file-thread-config-store.ts:547-551 | Each grant id once, in order of first occurrence, with its last value |
| `PolicyAccess.LastIsLast` | packages/config/src/file-thread-config-store.ts:547-551 | The value kept for an id is that of the last grant with it |
| `PolicyGrants.AccessGrants` | packages/config/src/file-thread-config-store.ts:840-852 | The grants of memory, bundles and level, each id once at its first place with its last value |
| `PolicyGrants.GrantsExact` | packages/config/src/file-thread-config-store.ts:840-915 | In every reachable configuration an id is granted exactly when the deciding level, a bundle it names or the memory has it, once, with the level's value if it has one, else a bundle's, else the remembered one |
| `Lookup.Dedupe` | packages/config/src/file-thread-config-store.ts:50-58 | Distinct values, none lost |
| `Lookup.DedupeInOrder` | packages/config/src/file-thread-config-store.ts:50-58 | In the order in which they first occur |
| `Access.AccessStore.UpsertOneMember` | packages/config/src/workspace-access.ts:375-439 | Stores name and identities of the request, role and status if it gives them, else those kept; each refusal is exact: a blank or missing identity, an unknown member, a first member who is no owner, a linked identity, the loss of the only active owner; a refusal changes nothing |
| `Access.AccessStore.RemoveOneMember` | packages/config/src/workspace-access.ts:441-476 | Removes the member and its memberships unless it is the last active owner |
| `Access.AccessStore.SetProjectPolicy` | packages/config/src/workspace-access.ts:478-518 | Sets the access mode of the project |
| `Access.AccessStore.UpsertProjectMembership` | packages/config/src/workspace-access.ts:520-573 | Sets the role of an existing member of the workspace in the project |
| `Access.AccessStore.RemoveProjectMembership` | packages/config/src/workspace-access.ts:575-608 | Removes the membership if there is one |
| `Access.OwnerCount` | packages/config/src/workspace-access.ts:253-265 | Positive exactly when the workspace has an active owner other than the member |
| `AccessRuns.PutKeepsApart` | packages/config/src/workspace-access.ts:267-285 | A member whose identities are free leaves no identity with two members of a workspace |
| `AccessRuns.AfterKeepsInv` | packages/config/src/workspace-access.ts:375-608 | Every operation keeps member ids and memberships unique, identities apart, and memberships with existing members of their workspace |
| `AccessRuns.ReachableInv` | packages/config/src/workspace-access.ts:375-608 | Those hold in every reachable state |
| `AccessRuns.RemovalGuardExact` | packages/config/src/workspace-access.ts:450-458 | Removing a member is refused exactly when the workspace would lose its only active owner |
| `AccessRuns.AfterKeepsOwned` | packages/config/src/workspace-access.ts:402-409 | Every operation keeps an active owner in a workspace that has one |
| `AccessRuns.OwnerStays` | packages/config/src/workspace-access.ts:402-458 | A workspace that has an active owner at some point of a run has one ever after |
| `AccessRuns.FirstMemberOwns` | packages/config/src/workspace-access.ts:397-399 | Creating the first member leaves an active owner exactly when it is not created suspended |
| `Authorize.Resolve` | packages/config/src/workspace-access.ts:624-637 | The first member of the list linked to one of the actor's identifiers, found whenever there is one |
| `Authorize.OrderFreeExactly` | packages/config/src/workspace-access.ts:624-637 | The member resolved does not depend on list order exactly when no two members match the actor |
| `Authorize.SingleIdUnambiguous` | packages/config/src/workspace-access.ts:624-637 | After any run an actor with one identifier resolves to the same member in any order |
| `Authorize.TwoIdsAmbiguous` | packages/config/src/workspace-access.ts:624-637 | Two calls after which the order of the list decides who an actor with two identifiers is |
| `Authorize.DecisionConsistent` | packages/config/src/workspace-access.ts:639-719 | A decision allows exactly what it lists among its capabilities, and its reason says so |
| `Authorize.DecisionExact` | packages/config/src/workspace-access.ts:610-721 | After any run, over the stored records: an actor with one identifier is allowed exactly when the project is open, or an active member with that identity may do it by its role (a guest writes no memory, only owners and administrators manage), or in a members-only project as owner, administrator or by its role there (a viewer may do nothing, only a manager manages) |
| `Authorize.RemovalShutsOut` | packages/config/src/workspace-access.ts:441-476 | After removing a member nobody known by one of its identities is allowed in any project that is not open |
| `Operators.OperatorStore.CreateCredential` | packages/config/src/file-operator-credential-store.ts:432-473 | Appends an active credential at revision 1 with the draft's id, role and scopes and the hash of the token, or refuses, exactly on a bad id, name or scope or an id in use |
| `Operators.OperatorStore.RotateCredential` | packages/config/src/file-operator-credential-store.ts:475-508 | Replaces the token at the next revision for an active credential at the expected revision |
| `Operators.OperatorStore.RevokeCredential` | packages/config/src/file-operator-credential-store.ts:510-556 | Ends an active credential at the expected revision, refusing the last installation owner when asked to preserve it |
| `Operators.HolderOf` | packages/config/src/file-operator-credential-store.ts:383-395 | The first active credential with the hash of the token |
| `Operators.IdsStayDistinct` | packages/config/src/file-operator-credential-store.ts:445-447 | In every run credential ids are never used twice |
| `Operators.StepAt` | packages/config/src/file-operator-credential-store.ts:432-556 | Only a rotation or revocation of its own changes a credential, and raises its revision |
| `Operators.RunAt` | packages/config/src/file-operator-credential-store.ts:432-556 | Over a run a credential is unchanged exactly while it is not rotated or revoked; otherwise its revision has grown |
| `Operators.ResolvesUntouched` | packages/config/src/file-operator-credential-store.ts:407-430 | The id and revision a token stood for resolve after any run exactly when the credential was not rotated or revoked since |
| `Operators.TokensStayApart` | packages/config/src/file-operator-credential-store.ts:432-508 | With fresh tokens no two credentials ever share a hash |
| `Operators.DrawnAuthenticates` | packages/config/src/file-operator-credential-store.ts:432-508 | A fresh token of the drawn form authenticates at once as the credential created or rotated with it, at its new revision |
| `Operators.TokenLivesExactly` | packages/config/src/file-operator-credential-store.ts:383-405 | With fresh tokens a token authenticates after any run exactly when its credential was not rotated or revoked since |
| `Operators.RevocationGuardExact` | packages/config/src/file-operator-credential-store.ts:527-540 | A revocation leaves no installation owner exactly when it does not preserve and takes the only one |
| `Operators.OwnerStays` | packages/config/src/file-operator-credential-store.ts:510-556 | While every revocation preserves it, an active installation owner once present remains |
| `OperatorAuth.NoDuplicates` | apps/server/src/operator-auth.ts:322-333 | The constructor's loop over sets refuses exactly the configurations with a repeated principal or token |
| `OperatorAuth.Configure` | apps/server/src/operator-auth.ts:303-349 | A configuration is accepted exactly when all tokens and the secret are long enough and nothing repeats; the session lifetime is five minutes to thirty days; the first token serves as secret when none is given |
| `OperatorAuth.BearerDecides` | apps/server/src/operator-auth.ts:367-407 | A bearer token is granted exactly when it is a configured credential's, and then as its principal, or opens an active stored one; without token and cookie a configured server refuses |
| `OperatorAuth.SessionResolves` | apps/server/src/operator-auth.ts:370-445 | A session minted for a stored credential is worth what its id and revision resolve to, until it expires |
| `OperatorAuth.SessionLivesExactly` | apps/server/src/operator-auth.ts:407-489 | With a fixed secret a session minted from a stored credential authenticates after any run exactly when it has not expired and the credential was not rotated or revoked since, and for the same principal |
| `OperatorAuth.StaticSessionLives` | apps/server/src/operator-auth.ts:370-489 | A session minted for a configured credential is good, until it expires, exactly while a configured credential with its id has the same fingerprint |
| `OperatorAuth.SecretBinds` | apps/server/src/operator-auth.ts:495-510 | A session authenticates nobody once the secret has changed |
| `OperatorAuth.InstallationOwned` | apps/server/src/index.ts:10995-11001 | With the guard set as the server sets it, an installation that has an owner, configured or stored, always has one |

## Left out

- What a store holds after a takeover that deletes a live agent's lock: from there on updates can be lost, and only the overlap itself is stated (`TakeoverBreaksExclusion`).
- Starvation and the lock timeout: a contender may give up at any moment while the lock is held (`TimeOut`); nothing is proved about who gets the lock.
- Creating the lock file and writing its owner are one step; the 30-second age test and the process probe are the step `JudgeStale`, allowed only for a holder that is dead.
- Reading and writing the JSON files: parsing, normalising malformed records, temporary files and renames; a save is one step and a read of the file sees a whole save.
- The configuration and access stores have no lock file: their results are about calls made one after another, as their in-process queue makes them, and not about two processes writing at once.
- The in-process mutation queue: it only orders the calls of one process, and the results hold for any order.
- Jobs, sources, policies and credentials are values in a list field that the methods reassign; that two variables name the same JavaScript object is not captured.
- Audit records, clones of returned records, and the list, get, summarize and preview reads.
- Strings such as ids, uris, platforms and names are opaque integers, already normalised; trimming, lower-casing, the id patterns, URL parsing and the length limits on text are not modelled. An id or identity that fails its check is `None`.
- Worker ids are taken as normalised, since a claim collapses whitespace while the fence only trims.
- Timestamps are integers; `localeCompare` on ids is the order of the integers.
- Hashes, tokens and signatures are injective (`Digest`); randomness appears as parameters that supply fresh ids and tokens.
- Floating point: lexical scores are counted in exact tenths, scores are compared in thousandths, confidences are reals; a lower score by rounding of the stored best score in `bestPassage` cannot occur with tenths and is not modelled.
- `clip` (join, trim, cut to 1,500 characters), `fold` (NFKC, lower case, whitespace) and credential detection are parameters; splitting a query into tokens is done before `TermsOf`.
- Task fields that no rule reads (summary, executor, model, usage, policy, access snapshot), source fields other than those searched or fenced on (name and description are one title), `matchedTerms` and the strategy label of a hit beyond lexical or semantic.
- The status `queued` of a task is `Pending`, as in the other two ledgers; who cancelled a task and when is kept only as its last update.
- Continuation ids are non-empty, as the check in `markContinuation` demands.
- The refresh job's `lastModified`, `resolvedUri`, `contentHash` and the other result metadata, which are stored like `etag`.
- `threadFor`, `routeForChannel` and the normalisation of Lark messages: the routing of a collected message to a thread is a pure lookup; whether a message is readable and from a bot is a parameter.
- The Lark transport: finite pages per container, the same at every read of one page within a scan, with threads newest first; a failing call is any call the parameter `down` names. Discovered threads are pairs of channel and thread, so channel ids with a colon do not arise.
- The delivery store: an update of a job's progress always finds the job; its retry delays, attempt counting and claim order are not part of this model.
- Memory analysis: a batch is the next entries in order, and the transcript does not change during one call of `analyzeThread`; proposals are not modelled. `processJob` uses only how analysis ends (drained, undrained or failed).
- Backfill counts of channels and threads in the report, and the text of its errors.
- Workspace, project and channel policy fields other than bundle ids, grants, network policy and capability mode (identity, skills, agents, knowledge ids, budgets, memory and tool approval), which are kept or replaced in the same way.
- Trimming of workspace and project ids is uneven between the policy operations; ids here are already trimmed.
- Sessions of versions 1 and 2, which are no longer minted, are modelled in `Authenticate` but have no theorem.
- Which grants the memory mode gives a thread (`memoryGrants`): they are a parameter of `AccessGrants`.
- `decodePayload` beyond the revision check, cookie text, header parsing, and the parsing of configured principals.
- The skill, delegated-agent, managed-connector and tool-identity stores, the encrypted credential stores, pairing, the executor registry and the user interfaces: they would add only easy members.
