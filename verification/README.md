# A verified model of the RAG service

The service ingests documents into chunks, stores them by tenant with group ACLs and
versions, retrieves evidence for a question, asks a language model through a guarded
gateway, and returns an answer whose citations point at the evidence. This project models
the parts that hold state or make guarantees, and proves those guarantees over every input
and every run.

| area | files |
|---|---|
| document stores, their runs and their agreement | `Documents`, `MemoryStore`, `InMemoryStore`, `StoreRuns`, `StoreVersions`, `SqlStore`, `PostgresStore`, `StoreBisimulation`, `StoreBisimulationRuns`, `StoreDivergence`, `StoreOrder`, `SqlNoninterference` |
| model gateway | `Breaker`, `BreakerProtocol`, `TokenBudget`, `Gateway`, `GatewayProtocol` |
| rate limits and budgets | `RateLimiter`, `DailyBudget` |
| ingestion queues | `IngestionWorker`, `DurableQueue` |
| chunking | `Chunker` |
| ranking, evidence, citations, history, metrics | `Cosine`, `Retrieval`, `Ranking`, `Citations`, `ChatHistory`, `Evaluation` |
| shared lemmas | `Sequences`, `Sorting`, `Arithmetic` |

`dafny verify dfyconfig.toml` checks the whole project.

## How to read it

* Code that updates fields or rows in place is a class whose methods are proved equal to
  functions on values (`InMemoryStore` against `MemoryStore`, `PostgresStore` against
  `SqlStore`, `CircuitBreaker` against `Replay`, the workers against `Next`). The laws are
  then lemmas about those functions and about runs of them.
* Concurrent code is a state machine whose steps are the atomic actions of the source (one
  critical section, one SQL transaction, one provider call); lemmas quantify over every
  interleaving.
* Clock readings, random draws, model replies, hashes, UUIDs, database scores and the row
  that `ORDER BY ... LIMIT 1` picks among ties are inputs. Floating point numbers are reals.
* A document id is a hash of the logical document and its content (`rag.py:127-131`). It is
  assumed injective where two stores are compared, and to fix the source where versions are
  counted. Ids are modelled as numbers: digests of one length order alike either way.

## What the code does that a reader may not expect

* `_split` asks for a sentence end in the latter half of the window, but the half-window
  floor never changes the choice (`Chunker.FloorIsIrrelevant`). With overlap, a chunk can
  therefore end where the previous one ended and add no token
  (`Chunker.RepeatedEndOccurs`); `Chunker.RepeatedEnd` says exactly when.
* The two stores inherit ACLs in different orders: insertion order in memory, highest version
  in SQL. Over a run they stay in step if and only if every new upload takes the same ACL in
  both (`StoreBisimulationRuns.RunsAgreeIff`); four uploads by two teams make them part
  (`StoreDivergence.StoresCanPart`).
* They also order current versions differently: first inserted in memory, last created in SQL.
  They name the same one if and only if the ready version inserted first was also created last
  (`StoreBisimulationRuns.CurrentAgreesIff`, over runs `StoreBisimulationRuns.Bisimulation`);
  on a strictly increasing clock that means at most one is visible
  (`StoreOrder.TickingBisimulation`), and the two teams' run shows the difference
  (`StoreDivergence.CurrentCanPart`).
* With `max_attempts` at or below zero, a half-open admission is never recorded and the
  breaker never admits again. A slot can be lost exactly then, and only if a provider's
  breaker is handed to the gateway already open (`BreakerProtocol.SlotNeverLostIff`,
  `BreakerProtocol.LostForGood`).
* A breaker threshold below one acts as one (`Breaker.StateFromLog`).
* The daily budget is checked before a call and charged after it, so it can be overshot; the
  bound `limit - 1 + c * M` is exact (`DailyBudget.BoundIsReached`).
* `_finish` does not check that the row still carries the worker's claim, so a worker that
  outlives its lease can reopen a finished job whose bytes are gone: seven steps reach it
  (`DurableQueue.StaleFinishReopens`). A finish is harmless exactly when the lock time is
  still the claim's (`DurableQueue.FinishKeepsInvIff`), so comparing it in the UPDATE would
  make the queue safe without any assumption on leases (`DurableQueue.QueueIsSafe`).
* `best_threshold` is globally optimal exactly when some score is answerable or every
  unanswerable score is negative (`Evaluation.OptimalIff`).
* `history_for_model` looks for the abstention before it removes citation markers, so an
  abstention that carries a citation is not left out and reaches the model as a plain
  abstention (`ChatHistory.CitedAbstentionIsShown`).
* Stripping invalid citations can create a citation: "[[9]1]" becomes "[1]". It keeps exactly
  the valid citations if and only if no unmatched '[' reaches a ']' through numbers, commas
  and spaces once wholly invalid markers are skipped (`Citations.StripCorrect`).

## Model

| member | source | states |
|---|---|---|
| `InMemoryStore.InMemoryStore.Persist` | memory_store.py:45-110 | The in-place upload (already current, superseded, new, or refused without chunks) changes the table and chunk map, and returns, exactly what the specification says, and keeps one row per key with chunks for exactly the stored keys. |
| `InMemoryStore.InMemoryStore.SupersedeSiblings` | memory_store.py:70-75 | The loop marks exactly the visible ready siblings and lists their ids in table order. |
| `InMemoryStore.InMemoryStore.CurrentVersion` | memory_store.py:112-119 | The early-return loop yields the first visible ready version of the source, or none. |
| `InMemoryStore.InMemoryStore.GetDocument` | memory_store.py:165-170 | A row is returned only to a caller who can see it. |
| `InMemoryStore.InMemoryStore.MarkChecked` | memory_store.py:121-125 | Only the freshness time of the one document changes; an unknown key changes nothing. |
| `InMemoryStore.InMemoryStore.UpdateDocument` | memory_store.py:127-150 | All visible versions are rewritten; the row is withheld when the new ACL excludes the caller. |
| `InMemoryStore.InMemoryStore.RewriteVersions` | memory_store.py:141-148 | The loop rewrites exactly the visible versions of the source. |
| `InMemoryStore.InMemoryStore.DeleteDocument` | memory_store.py:172-180 | Row and chunks go together, only for a caller who can see the row. |
| `InMemoryStore.InMemoryStore.ReadableChunks` | memory_store.py:182-196 | Chunks of visible ready documents in table order, under the current display name. |
| `InMemoryStore.ListDocumentsCorrect` | memory_store.py:152-163 | A listing is a permutation of exactly the visible (and, unless asked otherwise, ready) rows, newest first, ties by larger id. |
| `StoreVersions.UpdateChanges` | memory_store.py:136-150 | Field by field: a found update gives every version in the caller's sight the given ACL and name (its own where none is given) and the new time; every other field, row and chunk stays; an update that finds nothing changes nothing. |
| `StoreVersions.UpdateLocksOut` | memory_store.py:149-150 | A caller who hands a document to groups that they are not in gets no row back, lists no version of it and reads none of its chunks. |
| `StoreVersions.PersistStores` | memory_store.py:77-103 | Field by field: what a new document carries, and what reinstating one changes. |
| `StoreVersions.CheckTouchesOne` | memory_store.py:121-125 | A check moves only the freshness time of that one document. |
| `StoreVersions.AgainIsACheck` | memory_store.py:67-69 | Uploading the bytes of a ready version again is such a check, and reports that version as already there. |
| `StoreVersions.PersistReports` | memory_store.py:104-110 | Any other upload reports the number it stored, whether the document was known, and the chunks only if it was not. |
| `StoreVersions.CurrentIsFirst` | memory_store.py:62-65 | The first ready version in sight is the current one; an upload takes over its ACL exactly when it gives none. |
| `StoreVersions.PlainUploads` | memory_store.py:57-58 | Plain uploads are versions of one document exactly when they share a filename. |
| `StoreVersions.ReadableShowsName` | memory_store.py:189-200 | Every readable chunk is a stored chunk of a visible ready document of the tenant, under that document's display name. |
| `StoreRuns.ReachableValid` | memory_store.py:21-25 | In every run the document table and the chunk map have the same keys, one row each. |
| `StoreRuns.OwnStep` | memory_store.py:45-196 | A tenant's command acts on its part of the store exactly as on the whole store, result included. |
| `StoreRuns.ForeignStep` | memory_store.py:45-196 | Another tenant's command leaves a tenant's part of the store unchanged. |
| `StoreRuns.Noninterference` | memory_store.py:32-196 | Over every interleaved run, what a tenant is told (values and order) is what it would be told with all other tenants' commands deleted. |
| `SqlNoninterference.RunIndexed` | persistence.py:164-177 | In every run of the SQL store the primary key and the unique index on logical document and content hold. |
| `SqlNoninterference.OwnStep` | persistence.py:145-552 | A tenant's transaction acts on its part of the tables exactly as on the whole, result included. |
| `SqlNoninterference.ForeignStep` | persistence.py:145-552 | Another tenant's transaction leaves a tenant's part unchanged. |
| `SqlNoninterference.SqlNoninterference` | persistence.py:145-552 | Over every legal run, what a tenant is told is what it would be told with all other tenants' transactions deleted, and that shorter run is legal too. |
| `StoreVersions.PersistBecomesCurrent` | memory_store.py:61-110 | After an upload that was not already current, its document is the only ready version the uploader can see, shows the uploaded name, carries the returned number, and is numbered above every visible sibling. |
| `StoreVersions.PersistSparesOthers` | memory_store.py:70-109 | Every other row of the new table is an old one, superseded if it was a visible ready sibling and otherwise unchanged, and no old one is missing; exactly the superseded ones are reported. |
| `StoreVersions.OpenRunsOrderly` | memory_store.py:61-110 | In every run where all ACLs stay empty, each source has at most one ready version, its numbers are distinct, and the ready one is the largest. |
| `PostgresStore.PostgresStore.Upsert` | persistence.py:164-192 | Insert, refresh on the content index, or refusal on the primary key; both indexes are kept. |
| `PostgresStore.PostgresStore.Persist` | persistence.py:127-247 | The statements of the upload transaction compose to the table-level specification. |
| `PostgresStore.PostgresStore.Promote` | persistence.py:219-247 | Supersede, number, publish, and what is reported. |
| `PostgresStore.PostgresStore.SupersedeOthers` | persistence.py:220-229 | The UPDATE changes, and returns, exactly the visible ready others. |
| `PostgresStore.PostgresStore.NextNumber` | persistence.py:230-238 | One more than the largest visible other version, or one. |
| `PostgresStore.PostgresStore.Publish` | persistence.py:239-244 | Only the uploaded row becomes ready under its new number and name. |
| `PostgresStore.PostgresStore.UpdateDocument` | persistence.py:285-321 | The UPDATE with its own coalesce over all visible versions, read back under the new ACL. |
| `PostgresStore.PostgresStore.DeleteDocument` | persistence.py:541-552 | The visible row and its chunks are deleted together. |
| `PostgresStore.MaxVersion` | persistence.py:230-238 | The loop computes the maximum of the selected versions, zero for none. |
| `StoreBisimulation.VersionAgrees` | persistence.py:230-238 | Both stores compute the same next version number. |
| `StoreBisimulation.SupersededAgrees` | persistence.py:220-229 | Both stores supersede the same documents. |
| `StoreBisimulation.NewAgrees` | persistence.py:152-191 | After a new upload the stores agree if and only if they took the same ACL. |
| `StoreBisimulation.PersistAgrees` | persistence.py:145-247 | From agreeing stores, results always agree; the stores agree afterwards if and only if the upload is refused, repeats a stored document, or takes the same ACL in both. |
| `StoreBisimulationRuns.ListAgrees` | persistence.py:511-532 | Both listings hold the same rows. |
| `StoreBisimulationRuns.ReadAgrees` | persistence.py:396-416 | The chunks that the search may return in SQL are the chunks readable in memory, under the same names. |
| `StoreBisimulationRuns.CurrentAgreesIff` | persistence.py:249-259 | A current-version query is answered alike if and only if the ready version inserted first is also the one created last. |
| `StoreBisimulationRuns.StepAgrees` | persistence.py:145-321 | A command keeps the stores in agreement if and only if it is no new upload or takes the same ACL in both; it is answered alike if and only if it is no current-version query or the version inserted first was created last. |
| `StoreBisimulationRuns.RunsAgreeIff` | memory_store.py:45-180 | The stores agree on status, version, ACL, name, content and chunks after every prefix of a run if and only if each new upload takes the same ACL in both. |
| `StoreBisimulationRuns.RunsAgree` | memory_store.py:61-65 | In particular in every run whose inherited ACLs are unambiguous: given, or at most one ready version visible. |
| `StoreBisimulationRuns.Bisimulation` | memory_store.py:45-180 | Over every run with the same ACLs, a command is answered alike by both stores if and only if it is no current-version query or the version inserted first was created last. |
| `StoreBisimulationRuns.AmbiguousAclParts` | persistence.py:152-163 | With two visible ready versions of different ACLs and rising numbers, an inheriting upload makes the stores differ. |
| `StoreDivergence.StoresCanPart` | persistence.py:152-163 | A concrete run of three uploads from empty stores, after which a fourth, inheriting its ACL, makes the stores differ. |
| `StoreDivergence.CurrentCanPart` | persistence.py:249-259 | The same three uploads, at increasing times, leave stores that name different current versions. |
| `StoreOrder.RunAscends` | memory_store.py:77-94 | In every run on a strictly increasing clock, rows are stored in order of creation. |
| `StoreOrder.NewestIsOnly` | memory_store.py:112-119 | With rows in order of creation, the version inserted first was created last only if it is the only one. |
| `StoreOrder.TickingBisimulation` | persistence.py:249-259 | Over every run on a strictly increasing clock, a command is answered alike if and only if it is no current-version query with several ready versions in sight. |
| `StoreOrder.ListingsAgreeIff` | persistence.py:511-532 | Both listings are the same list in the same order if and only if no two listed rows were created at the same instant. |
| `StoreOrder.MemoryDescends` | memory_store.py:152-163 | With rows in order of creation, a listing has strictly falling creation times. |
| `Breaker.CircuitBreaker.Phase` | gateway.py:58-63 | Closed, half-open or open from the opening time and the clock. |
| `Breaker.CircuitBreaker.Allow` | gateway.py:65-74 | Admits exactly when the log lets a request pass: the breaker is not tripped, or a cool-down has gone by since the last failure and nobody was admitted since the last record; logs the decision. |
| `Breaker.CircuitBreaker.RecordSuccess` | gateway.py:76-80 | Resets the breaker; the log grows by one success. |
| `Breaker.CircuitBreaker.RecordFailure` | gateway.py:82-87 | Counts the failure, frees the trial and (re)opens when due; the log grows by one failure. |
| `Breaker.StateFromLog` | gateway.py:58-87 | The breaker counts the failures since the last success, is non-closed exactly when they reach the threshold, and its opening time is the last failure's. |
| `Breaker.AdmitsIff` | gateway.py:58-74 | The same over every log, told from failures in a row, the last failure's time and the admissions since the last record alone. |
| `Breaker.LogKeepsPromise` | gateway.py:65-74 | Over every log, each admission was due, each refusal was due, and an admission is a trial exactly when the breaker is tripped. |
| `Breaker.TrialsSpacedOut` | gateway.py:65-87 | Two half-open admissions with no success between them have a failure between them and, on a monotone clock, are at least the cool-down apart. |
| `BreakerProtocol.StepKeepsInv` | gateway.py:214-268 | Every step of every request keeps admissions, calls and records matched, and every set trial flag owned by an outstanding request. |
| `BreakerProtocol.EveryAdmissionIsRecorded` | gateway.py:214-268 | In every interleaving with at least one attempt allowed, from breakers with any past, each admission is matched by one provider call and one record. |
| `BreakerProtocol.AlwaysMatchedIff` | gateway.py:242-268 | That holds of every run if and only if at least one attempt is allowed or there is no provider. |
| `BreakerProtocol.SlotIsFree` | gateway.py:65-87 | With no request outstanding on a breaker, its trial flag is clear and a half-open breaker admits: no slot is lost. |
| `BreakerProtocol.NoAttemptsLoseTheSlot` | gateway.py:242-268 | With no attempt allowed, a run from idle breakers, one of them open, ends with a slot taken and nobody to give it back. |
| `BreakerProtocol.LostForGood` | gateway.py:65-74 | Every continuation of such a run leaves that breaker as it is, admitting nobody at any time. |
| `BreakerProtocol.SlotNeverLostIff` | gateway.py:65-87 | No run loses a slot if and only if at least one attempt is allowed or every provider's breaker starts closed. |
| `TokenBudget.PackContext` | gateway.py:132-146 | The longest prefix of the sources within the budget, an oversized first source truncated; with a budget below one, at most the truncated first source. |
| `TokenBudget.OfferedKeeps` | gateway.py:140-143 | An oversized first source is cut to a prefix of four characters per token of the budget; the other sources are passed on as they are. |
| `TokenBudget.TokensOf` | providers.py:68-70 | One token for every started group of four characters, and at least one. |
| `TokenBudget.TrimHistory` | gateway.py:148-158 | The longest suffix of the history within the budget. |
| `Gateway.GatewayProvider.CallOnce` | gateway.py:243-267 | One provider call is followed by exactly one record of its outcome. |
| `Gateway.GatewayProvider.AttemptOnce` | gateway.py:243-267 | After a transient failure another attempt follows only if attempts remain, the wait ends before the deadline, and the breaker then admits. |
| `Gateway.GatewayProvider.Attempt` | gateway.py:231-268 | All attempts on one provider: their times, replies and prompts, the reason to stop, and the breaker's whole log afterwards. |
| `Gateway.GatewayProvider.TryProvider` | gateway.py:214-226 | A provider is called exactly when its breaker admits it (and an attempt is allowed); otherwise it is noted as disabled. |
| `Gateway.GatewayProvider.TryAll` | gateway.py:213-229 | Providers are visited in order, back to back; the first success is the answer, else every provider was visited and gives one reason. |
| `Gateway.GatewayProvider.Complete` | gateway.py:207-229 | The same protocol on the packed sources and trimmed history, both as long as the budget allows. |
| `Gateway.ReasonAt` | gateway.py:213-229 | The notes are one per provider, in order: the disabled notice or the last error. |
| `Gateway.CallsBounded` | gateway.py:207-268 | For every call: at most `max_attempts` per provider, the packed prompt, none after a permanent failure or a success, retries strictly before the deadline, and the only success is the answer. |
| `Gateway.CallsPass` | gateway.py:214-263 | A provider is called, and called again, exactly when its breaker's log lets a request pass at that time, and given up as refused only when it does not. |
| `Gateway.RetriedExactly` | gateway.py:90-93 | Rate limits, server errors and connection trouble are retried unless attempts, time or the breaker forbid it; after any other failure no call follows. |
| `Gateway.WaitBetween` | gateway.py:258-264 | Between two attempts passes the time the server asked for, or a share of a backoff that doubles up to its maximum. |
| `GatewayProtocol.VisitIsRun` | gateway.py:214-268 | Every visit that follows the gateway's rules is a run of one request of the interleaving machine, with the same calls and records, the breaker as its log says, and the request finished or at the next provider. |
| `RateLimiter.RateLimiter.Acquire` | observability.py:123-135 | Takes a token or returns the wait; no other key is touched; a rate of zero or less never limits. |
| `RateLimiter.TokensAccount` | observability.py:123-135 | Over any readings, tokens left plus successes never exceed the capacity plus what the clock earned. |
| `RateLimiter.BurstBound` | observability.py:123-135 | Consecutive calls with readings in [s, t], in any order, succeed at most capacity + rate * (t - s) times. |
| `RateLimiter.FreshBurst` | observability.py:129-133 | Of any number of calls for a new key at one instant exactly the first floor(capacity) succeed. |
| `RateLimiter.PollKeepsReadyTime` | observability.py:129-135 | A short bucket grants exactly from its ready time on, and polling before does not move it. |
| `RateLimiter.WaitIsExact` | observability.py:129-135 | After a denial, every earlier poll is denied and a call succeeds exactly from the announced time on. |
| `RateLimiter.SmallBucketNeverGrants` | observability.py:129-135 | A capacity below one never grants, which is why the exact wait needs capacity at least one. |
| `DailyBudget.DailyTokenBudget.Remaining` | observability.py:147-151 | The limit less everything ever paid for the tenant today, and positive exactly when the request machine lets a request through. |
| `DailyBudget.DailyTokenBudget.Spend` | observability.py:153-156 | One more payment: only today's slot of the tenant grows, by the tokens spent, and every slot stays the sum of its payments. |
| `DailyBudget.StepKeepsInv` | api.py:755-764 | Check, spend, failure and midnight keep today's use plus the reserve of requests in flight within the bound. |
| `DailyBudget.UsageBounded` | api.py:755-764 | In every interleaving, for every tenant and day, usage is at most limit - 1 + c * M. |
| `DailyBudget.BoundIsReached` | api.py:755-764 | Some interleaving uses exactly that much. |
| `IngestionWorker.IngestionWorker.SubmitEntry` | workers.py:48-51 | The job entry exists before the job is queued. |
| `IngestionWorker.IngestionWorker.SubmitPut` | workers.py:52-53 | The registered payload is queued last. |
| `IngestionWorker.IngestionWorker.RequestStop` | workers.py:66-68 | A sentinel is queued behind the waiting jobs. |
| `IngestionWorker.IngestionWorker.TakeNext` | workers.py:76-81 | The oldest item is taken; a sentinel ends the worker. |
| `IngestionWorker.IngestionWorker.MarkRunning` | workers.py:82-84 | The job in hand becomes the one running job. |
| `IngestionWorker.IngestionWorker.MarkDone` | workers.py:85-94 | The running job completes or fails. |
| `IngestionWorker.StepKeepsInv` | workers.py:48-94 | Every atomic action keeps the placement invariant. |
| `IngestionWorker.OnePlace` | workers.py:48-94 | Every submitted job is in exactly one of pending, waiting, in hand, running, finished. |
| `IngestionWorker.StatusMovesForward` | workers.py:70-94 | No job is forgotten, and a status only moves queued, running, completed or failed. |
| `IngestionWorker.RunKeepsInv` | workers.py:48-94 | In every interleaving: queued jobs have entries, payloads are handled at most once in queue order, at most one job runs, and the five places partition the jobs. |
| `IngestionWorker.StatusTellsOutcome` | workers.py:83-94 | In every run a job is completed if and only if its handler succeeded, and failed if and only if it raised. |
| `DurableQueue.PostgresJobQueue.SubmitJob` | workers.py:131-141 | A new queued row with its bytes. |
| `DurableQueue.PostgresJobQueue.Oldest` | migrations/004_document_lifecycle.sql:65-71 | The first claimable job by run-after and creation time, or none when none can be claimed. |
| `DurableQueue.PostgresJobQueue.ClaimJob` | migrations/004_document_lifecycle.sql:55-74 | Claims the first runnable or abandoned job, counts the attempt and starts the lease; reports none only when none can be claimed. |
| `DurableQueue.PostgresJobQueue.Conclude` | workers.py:170-191 | Success completes, input errors fail, other errors retry after 2^attempts seconds while attempts remain and fail then. |
| `DurableQueue.PostgresJobQueue.FinishRow` | workers.py:193-226 | Only the one row changes, and its bytes go exactly when it can no longer run. |
| `DurableQueue.FinishKeepsInvIff` | workers.py:208-226 | A finish keeps the queue's invariants if and only if the row's lock time is still the claim's; otherwise the claim ends twice. |
| `DurableQueue.RunKeepsInv` | workers.py:162-226 | In every run where only such workers finish, every claim is accounted for and ends once, by a finish or a takeover. |
| `DurableQueue.QueueIsSafe` | workers.py:162-226 | In those runs a claimable job keeps its bytes, is requeued at most max_attempts - 1 times, and is claimed at most max_attempts times plus once per takeover. |
| `DurableQueue.LeasesAreEnough` | migrations/004_document_lifecycle.sql:52-54 | While no live worker outlives its lease, every run is such a run, at most one live worker holds a job, and nobody can claim a held job. |
| `DurableQueue.TakeKeepsSingleIff` | migrations/004_document_lifecycle.sql:61-72 | A claim keeps single holders if and only if no live worker held the job. |
| `DurableQueue.CrashFreeClaims` | workers.py:162-191 | While leases hold and nobody crashes, a job is claimed at most max_attempts times. |
| `DurableQueue.DoneIsAbsorbing` | workers.py:193-226 | In those runs a completed or failed row never changes again. |
| `DurableQueue.StatusTellsOutcome` | workers.py:170-191 | In those runs a job is completed if and only if a worker finished it with success, and failed if and only if one finished it with an input error or, on its last allowed attempt, with any other. |
| `DurableQueue.FinishKeepsDoneIff` | workers.py:175-190 | On a finished row, a finish leaves it finished exactly when its worker does not ask for a retry. |
| `DurableQueue.BacksOff` | workers.py:175-190 | In those runs a job sent back by an error in its n-th attempt is not claimed again for 2^n seconds. |
| `DurableQueue.TakenOverAfterLease` | migrations/004_document_lifecycle.sql:52-54 | In every run, a claim nobody has finished is taken over only after its lease. |
| `DurableQueue.LastClaimEnds` | workers.py:175-190 | Any result of the last allowed claim ends the job. |
| `DurableQueue.StaleFinishReopens` | workers.py:208-226 | A concrete run: two workers hold a job in turn, the second completes it, and the first, its lease over, makes it claimable again without its bytes. |
| `Chunker.Split` | rag.py:76-101 | The loop ends and produces a chunking: windows from 0 to the end, each ending at the last sentence end within reach; dropping the overlaps rebuilds the tokens. |
| `Chunker.FloorIsIrrelevant` | rag.py:83-92 | The chosen end is always the last boundary of the window, whatever the floor. |
| `Chunker.CutAfterLastStop` | rag.py:83-93 | A window is cut right after the last word in reach written with one of the four stops at its end. |
| `Chunker.PickEndIsEnd` | rag.py:83-93 | The chosen end is the last boundary within reach, or the full window when there is none. |
| `Chunker.EndsNeverDecrease` | rag.py:79-100 | The next window starts later and ends no earlier. |
| `Chunker.ChunkShape` | rag.py:78-101 | Chunks have 1 to size tokens, starts increase, ends never decrease, and neighbours share exactly min(overlap, length - 1) tokens. |
| `Chunker.RebuildsTokens` | rag.py:78-101 | Dropping the overlaps rebuilds the token list. |
| `Chunker.PlainChunkCount` | rag.py:78-101 | Text without sentence ends longer than one window gives 1 + ceil((n - size) / (size - overlap)) chunks. |
| `Chunker.RepeatedEnd` | rag.py:83-100 | Exactly when a chunk ends where the previous one did. |
| `Chunker.RepeatedEndOccurs` | rag.py:83-100 | Seven tokens, windows of four with overlap two: the second chunk ends where the first did. |
| `Citations.CitedSources` | providers.py:82-90 | The distinct valid numbers of the markers, in order of first citation. |
| `Sequences.FirstOccurrencesPrefix` | providers.py:84-90 | The order is that of first citation: more text only adds at the end. |
| `Citations.DecimalRoundTrip` | providers.py:87 | A written number denotes itself: reading the decimal digits of n gives n. |
| `Citations.LeadingZero` | providers.py:87 | Leading zeros do not matter. |
| `Citations.CitesInText` | providers.py:85-87 | A marker for n anywhere behind text without brackets cites n, and then whatever follows. |
| `Citations.SpelledMatches` | providers.py:45 | White space around the commas of a marker makes no difference to what it cites. |
| `Citations.CitesOne` | providers.py:82-90 | The answer "[n]" cites n if there is such a source, and nothing otherwise. |
| `Citations.WriteMatches` | providers.py:96-98 | A marker as written back is recognised again with the same numbers. |
| `Citations.ReachesRewritten` | providers.py:93-100 | The scan of the answer past its wholly invalid markers accepts exactly what the marker pattern matches in the rewritten text. |
| `Citations.RewriteKeepsIff` | providers.py:93-100 | Rewriting never loses a valid number, and keeps exactly the valid ones, in order, if and only if nothing bridges. |
| `Citations.RewriteTwice` | providers.py:93-100 | Where nothing bridges, a second rewriting changes nothing. |
| `Citations.SettledIsFixed` | providers.py:93-100 | An answer with only valid, plainly written markers is left alone. |
| `Citations.StripCorrect` | providers.py:82-100 | Stripping leaves exactly the valid numbers, in order, if and only if nothing bridges; then the cited list is preserved and stripping is idempotent. |
| `Citations.CleanDoesNotBridge` | providers.py:93-100 | Nothing bridges where '[' only begins markers. |
| `Citations.SeparateDoesNotBridge` | providers.py:93-100 | Nothing bridges where every other '[' is followed by neither a digit nor a '[', as in links. |
| `Citations.NestedMarkerEscapes` | providers.py:93-100 | "[[9]1]" cites nothing valid and is stripped to "[1]". |
| `Citations.NestedBridges` | providers.py:93-100 | So the condition names that answer. |
| `Citations.AlignCitations` | api.py:775-798 | Every API citation is real evidence, grounded holds exactly when there is one, and an ungrounded answer is the abstention; where nothing bridges exactly the valid citations are kept. |
| `Citations.AlignOne` | api.py:775-798 | The answer "[n]" is grounded on exactly source n, or not grounded when there is none. |
| `Citations.TrimRemovesSpaces` | providers.py:100 | Trimming removes exactly the white space at both ends. |
| `ChatHistory.ChatHistoryStore.Get` | history.py:20-22 | The last `max_messages` of the session's log. |
| `ChatHistory.ChatHistoryStore.Append` | history.py:24-28 | Extending and truncating keeps every session's window of its full log. |
| `ChatHistory.ChatHistoryStore.Clear` | history.py:30-32 | Only the one session is forgotten. |
| `ChatHistory.MemoryKeepsWindow` | history.py:20-32 | In every run of exchanges and clears the stored window is the last `max_messages` of the log since the last clear. |
| `ChatHistory.SqlKeepsWindow` | history.py:57-81 | INSERT then DELETE keeps the same window, and other sessions' rows. |
| `ChatHistory.StoresAgree` | history.py:44-81 | After every run both stores return the same messages. |
| `ChatHistory.WindowAlternates` | api.py:824-830 | Every window is whole exchanges, a user turn first. |
| `ChatHistory.HistoryForModel` | providers.py:126-143 | The pop-based loop, and on alternating histories exactly the answered exchanges without citation markers. |
| `ChatHistory.ShownIsPairwise` | providers.py:134-143 | On whole exchanges, popping the last question is dropping the declined exchange. |
| `ChatHistory.ModelSeesAnsweredPairs` | api.py:738-741 | In every run the model sees exactly the answered exchanges of the window. |
| `ChatHistory.ShownComesFrom` | providers.py:134-143 | Every shown turn is a question as asked, or an answer that did not decline, without its markers. |
| `ChatHistory.ShownCitesNothing` | providers.py:140-141 | A shown answer cites nothing if and only if nothing bridged in the original. |
| `ChatHistory.CitedAbstentionIsShown` | providers.py:136-141 | An abstention that carries a citation is not recognised, and is shown as a plain abstention. |
| `ChatHistory.LastNIsSuffix` | history.py:24-28 | The window is a suffix, as long as it may be. |
| `Cosine.CosineInUnitInterval` | query.py:76-81 | Lexical scores lie in [0, 1] (Cauchy-Schwarz over term counts). |
| `Cosine.CosinePositiveIff` | query.py:76-81 | A score is positive exactly when the two texts share a term. |
| `Cosine.SelfScoresOne` | query.py:76-81 | A text has similarity 1 with itself. |
| `Cosine.ScaledCopyScoresOne` | query.py:76-81 | So has any scaled copy. |
| `Cosine.UnitScoreIsProportional` | query.py:76-81 | A score of 1 means that the counts of the two texts are proportional. |
| `Retrieval.FromSemantic` | persistence.py:439-447 | One candidate per semantic row, with its score and rank. |
| `Retrieval.Merge` | persistence.py:439-454 | Every chunk found by either search becomes exactly one candidate with its score and rank in both. |
| `Retrieval.FusedScoreBounds` | persistence.py:456-476 | Fused scores are at most 1 and below 0 only for a negative similarity. |
| `Retrieval.SearchHybrid` | persistence.py:439-480 | The best `limit` of the fused candidates, best first, ties by document and position; nothing left out beats what is returned. |
| `Retrieval.HybridTopK` | persistence.py:477-480 | Nothing left out beats what is returned. |
| `Ranking.BestIsInOrder` | persistence.py:477-480 | Results come by falling score, ties by document and then position, and nothing left out scores higher. |
| `Ranking.HigherComesFirst` | persistence.py:477-480 | A result never appears without, or before, a candidate that scores higher. |
| `Ranking.OverlapMeans` | persistence.py:461-462 | The term share is 1 with every query term, 0 with none, and counts each. |
| `Ranking.MaxKeywordReached` | persistence.py:457-459 | The score that keyword scores are divided by is one of them. |
| `Ranking.EverySignalCounts` | persistence.py:460-476 | A candidate no worse in similarity, keyword score, query terms and both ranks, and better in one, scores strictly higher; not being found ranks last. |
| `Ranking.SignalWeights` | persistence.py:471-476 | Similarity is worth 0.60, the best keyword score 0.25, and having all query terms instead of none 0.10. |
| `Ranking.RankWeights` | persistence.py:468-470 | Coming first in the semantic search is worth 0.65 of the rank signal, and in the keyword search 0.25. |
| `Ranking.PerfectScore` | persistence.py:460-476 | A candidate that is best in every signal scores 0.995. |
| `Ranking.TopKeywordRowWins` | persistence.py:438-480 | In any answer of the hybrid search, the top keyword row with every query term comes before every row found only by similarity, of at most 0.52 and without a query term. |
| `Ranking.CandidateSays` | persistence.py:438-455 | A fused candidate carries the score and the position of its row in each search, and zero and none where it has no row. |
| `Ranking.SearchRewardsKeywords` | persistence.py:456-480 | The top keyword hit with every query term comes before every semantic-only hit of similarity up to 0.52. |
| `Retrieval.RerankCorrect` | reranker.py:42-61 | A sorted permutation of the rescored rows, with scores in [0, 1] whatever came in. |
| `Retrieval.RerankMonotone` | reranker.py:42-47 | A chunk with more of the query and no lower score is not ranked lower. |
| `Ranking.FallbackMeans` | reranker.py:42-47 | A higher score within [0, 1] or a further query term raises the fallback score; its ends are 0 and 1. |
| `Ranking.RerankedFalls` | reranker.py:60-61 | Reranked rows come by falling score. |
| `Retrieval.LexicalPath` | query.py:124-131 | The best of the tenant's own chunks, scored in [0, 1], nothing better left out. |
| `Ranking.LexicalInOrder` | query.py:131 | Lexical results come by falling score, ties by position. |
| `Retrieval.HybridPath` | query.py:144-158 | On the hybrid path everything that passes the gate is the tenant's, scored in [0, 1] and at least the threshold. |
| `Retrieval.GateIsFilter` | query.py:148-158 | The gate is one order-preserving filter of the top k. |
| `Ranking.GateMeans` | query.py:148-158 | A chunk passes exactly when it is in the top k, the tenant's, at least the threshold, and at least the relative share of every score that is. |
| `Retrieval.GateKeepsBest` | query.py:148-158 | Every best-scored admitted chunk passes, so evidence is empty exactly when nothing is admitted. |
| `Retrieval.GateMonotone` | query.py:148-158 | Raising either threshold only drops chunks. |
| `Evaluation.RunningBest` | evals/evaluate.py:95-102 | The smallest candidate with the best balanced accuracy among the candidates. |
| `Evaluation.BestThreshold` | evals/evaluate.py:92-102 | With an answerable score, no real threshold does better, and no smaller candidate does as well. |
| `Evaluation.OptimalIff` | evals/evaluate.py:92-102 | The best candidate is globally optimal if and only if some score is answerable or every unanswerable score is negative. |
| `Evaluation.AbstainingIsBetter` | evals/evaluate.py:92-102 | With nothing answerable and a non-negative score, a threshold above all scores does strictly better. |
| `Evaluation.FrontIsBest` | evals/evaluate.py:81-84 | Gain is at most that of the same hits in front, with equality exactly when they are in front. |
| `Evaluation.NdcgNormalised` | evals/evaluate.py:81-84 | nDCG is in [0, 1], and 1 exactly when relevant results fill the leading positions up to the cutoff, for any positive strictly decreasing discounts. |
| `Evaluation.EarlierHitScoresHigher` | evals/evaluate.py:81-84 | A ranking that is otherwise alike but has a hit earlier, inside the cutoff, scores strictly higher. |
| `Evaluation.UniqueSources` | evals/evaluate.py:184-187 | Each source once, in ranking order. |
| `Evaluation.HitsAtMostExpected` | evals/evaluate.py:184-188 | De-duplication bounds the hits by the number of relevant sources. |
| `Evaluation.ScoreNormalised` | evals/evaluate.py:184-193 | Hence the reported value is in [0, 1] for every ranking, duplicates included. |

## Left out

- HTTP routing, CORS, JSON logs, metrics rendering, authentication, BYOK checks and document parsing: input and output around the modelled core.
- Change detection of `_ingest_document` and `_unchanged` (`api.py`): one-step comparisons on top of the store.
- Embedding and tenant-name validation, the advisory lock and row-level security: transactions are atomic steps and inputs are already validated.
- Prices, usage logs, failure wording and the extractive fallback's text; `Retry-After` is taken as already parsed seconds.
- The cross-encoder, embeddings, `ts_rank_cd` and the two first-stage searches: their ranked rows and scores are inputs, assumed to have distinct ids and one chunk per id.
- Tokenising text and joining a chunk's tokens with spaces: chunks are token lists. Page segments are chunked separately by the same function.
- Unicode digits and white space in citation markers: text is ASCII.
- The square root in `_cosine`: any non-negative number that squares to the sum.
- Locks as such: each critical section is one atomic step, and memory is sequentially consistent.
- Aliasing of metadata dictionaries: rows are values, so the copies that the source makes before returning them are implicit.
- StoreBisimulationRuns.RunsAgreeIff: compares everything but `source_version` and the freshness times, because the SQL path refreshes them on conflict and the in-memory path does not (`persistence.py:171-175`, `memory_store.py:96-103`).
- StoreBisimulationRuns.ListAgrees: compares listings as sets, because rows created at the same instant are ordered by larger id in memory and smaller id in SQL; `StoreOrder.ListingsAgreeIff` compares the order.
- StoreBisimulationRuns.ReadAgrees: compares chunks as sets, because the searches rank them; `list_chunks` (`persistence.py:482-503`), which also returns superseded versions' chunks, is not modelled.
- Ranking.TopKeywordRowWins: the bound 0.52 is sufficient; the exact one moves with `candidate_limit`.
- DurableQueue.PostgresJobQueue.FinishRow: does not model the error and result columns, which nothing in the queue reads.
- DurableQueue.PostgresJobQueue.ClaimJob: SKIP LOCKED is an atomic claim; the run results hold for every choice of a claimable job, not only the oldest.
- BreakerProtocol.StepKeepsInv: leaves the deadline test to chance (either branch may be taken at any time), so it covers every clock.
- Gateway.GatewayProvider.Attempt: time passes only in provider calls and sleeps.
