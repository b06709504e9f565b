# TaskPulse: a verified model of its task queue

TaskPulse is a task queue with leases, version fencing, retries, crash recovery and an audit log of events. This
project models its in-memory core in Dafny and proves what the design promises, over every interleaved run of every
number of clients, workers, schedulers and reapers. `dafny verify dfyconfig.toml` checks all of it.

## How the model is laid out

**Values.** `Domain` holds the task record, the status machine and the event constructors. `Store` gives each operation
that the program runs under both store locks as one function from a store state to a new state and a reply. `Selection`
says declaratively which task a claim or the reaper takes: the least of a set. `Backoff` has the retry arithmetic on
64-bit integers. `Worker` has the calls that are not atomic: each reads up to three snapshots, edits a copy and ends in
a *plan*, an immediate reply or a version-checked write.

**Runs.** `Runs` defines interleaved runs. Create, claim, renew, cancel and reap are single steps. A worker call
(complete, progress, fail, release, and the in-process worker's finish and abort) reads any earlier states of the run,
in order, and its write lands on whatever the store is by then; a heartbeat checks its token against any earlier state.
Task and event ids may repeat and clocks may do anything, unless a theorem says otherwise. Every theorem about runs is
then a statement about all of them:

- `Scheduling`: exactly when a claim or a reap finds a task, and which one, from the fields of the records.
- `Records`: the whole store after each kind of step that takes effect, from the step's arguments and the record as it is.
- `Guarantees`: the log reproduces the record, legal status edges, frozen terminal tasks, bounded attempts, separated
  claims, all-or-nothing steps.
- `Claimants`: stale claimants and stale renewals, and what a replayed Complete, Fail or Release means.
- `Acceptance`: exactly when a call takes effect, so that the fence lets the live claimant through and nobody else.
- `Leases`: exactly which steps bring a lease expiry forward, and that a granted lease is kept otherwise.
- `Indexes`, `EventOrder`: the idempotency index, the two event indexes, and the order in which events are listed.
- `Drains`: repeated claims and reaps until nothing is left; no task stays stuck.
- `Paging`, `Stats`: cursor paging and the statistics snapshot, against the store and the scheduler.
- `Texts`: what trimming, the order of ids and the length in bytes mean.
- `Examples`: concrete runs in which a tempting property fails.

**Objects.** `MemoryTasks`, `MemoryStores`, `MemoryWorkers` and `MemoryViews` are the same operations as the program
writes them: task objects changed in place, loops over maps in any order, rollback by putting a copy back. Each method
is proved to do what the function of the value layer says. The worker service and the in-process worker run there with
other actors doing anything to the store between their reads and their write; objects handed out are apart from the
stored ones and stay so, because whatever a store takes in later is newly allocated.

**Memory.** `TaskLayout` opens a task object: a struct whose two byte slices and four time pointers refer to memory of
their own. Copies share nothing with their original, edits in place leave copies alone, and a client that overwrites
everything its copy refers to changes no stored task. `TaskEdits` has the field-by-field edits the workers make of their
copies, each proved to give the draft of the value layer.

**Conventions.** Times and durations are integers (nanoseconds); instant 0 is the unset time. Strings are sequences of
code points, whose order agrees with the byte order of UTF-8. Event payloads are the values their JSON encodes. JSON
decoding, the random draw of the jitter, clocks and new ids are parameters.

## Where the code keeps less than one might expect

- Repeating a Fail is promised to be idempotent (`docs/integrations/memobridge-sdk-migration-request.md`, line 11), but
  a failure that led to a retry stores only the error code, while the replay check compares with code and message.
  `Claimants.SameFailAgain` shows that the repeat succeeds if and only if no retry was asked for or none was possible;
  `Examples.RetriedFailIsRefused` is a run. For the same reason a different Fail can be taken for a replay, exactly when
  `Claimants.FailAfterFail` says; `Examples.ForeignFailIsAccepted` is a run. Nothing changes in any of these cases.
- Repeating a Complete succeeds if and only if its result decodes as JSON (`Claimants.SameCompleteAgain`); a number out
  of range does not (`Examples.UndecodableCompleteIsRefused`).
- The stored expiry can fall within a claim. It does so exactly when a progress report lands whose copy has an earlier
  expiry than the one stored by then (a renewal does not bump the version), or when a renewal is granted for less time
  than the lease still has (`Leases.ExpiryFallsExactly`; `Examples.ProgressMovesExpiryBack` and
  `Examples.RenewalMovesExpiryBack` are runs). Without such a step a granted lease is kept (`Leases.GrantIsKept`).
- Workflow and idempotency key are joined with a NUL. Two different pairs share an index key exactly when one cuts the
  same text at a later NUL (`Indexes.IndexKeyExactly`), which takes a NUL in a workflow and one in a key. A request whose
  own pair is new is then refused, and only then (`Indexes.CreateMakesTask`); `Examples.CollidingCreateIsRefused` is a run.

## Model

| member | source | states |
|---|---|---|
| `Runs.VersionStep` | internal/store/task_transition_store.go:119-163 | in any step of any run a task stays, its version grows by one with one more event, or neither its fenced part nor its log changes |
| `Runs.Fencing` | internal/store/memory_task_store.go:185-211 | over a whole run a task and a version fix everything but lease expiry instant, heartbeat time and update time; versions never fall, logs only grow |
| `Runs.WriteIsCurrent` | internal/store/task_transition_store.go:142-148 | every write that succeeds was computed from the current values of all fenced fields, however old its read |
| `Runs.EffectAt` | internal/store/task_transition_store.go:33-163 | each step is nothing, a renewal, one lawful change with its event, or one birth, with its origin and clock |
| `Runs.ClaimEffect` | internal/store/task_transition_store.go:33-74 | a claim succeeds exactly when it changes something, and then hands one task of its workflow to its own worker: a running one only past its expiry and with a retry left, any other only when its available time has come |
| `Runs.ReapEffect` | internal/store/task_transition_store.go:76-117 | a reap changes nothing or fails one task, expired and out of retries, with the expiry message |
| `Runs.CancelEffect` | internal/store/task_cancellation_store.go:32-96 | a cancellation changes nothing or cancels one current record |
| `Runs.RenewEffect` | internal/store/memory_task_store.go:185-211 | a renewal changes at most the lease times of the task its worker holds |
| `Runs.CreateEffect` | internal/application/task_service.go:218-266 | a creation changes nothing or adds one queued task with its created event; Records.CreateStores says which |
| `Runs.SubmitEffect` | internal/application/worker_task_service.go:183-406 | a worker call changes nothing or makes the change its plan asks for, from its last read, never a claim |
| `Plans.PlanLawful` | internal/application/worker_task_service.go:183-406 | whatever a call writes starts from a running copy owned by the caller, at the token's version, and is what the event describes |
| `Plans.PlanCompleteLawful` | internal/application/worker_task_service.go:183-233 | Complete writes only a succeeded event with the submitted result |
| `Plans.PlanProgressLawful` | internal/application/worker_task_service.go:235-285 | Progress writes only a progress event |
| `Plans.PlanFailLawful` | internal/application/worker_task_service.go:287-359 | Fail writes a failed event with code and message, or a retrying one with the code |
| `Plans.PlanReleaseLawful` | internal/application/worker_task_service.go:376-406 | Release writes only a released event |
| `Plans.PlanFinishLawful` | internal/worker/worker.go:316-367 | the in-process worker's result is written lawfully, with its output; Records.FinishStores says in which status |
| `Plans.PlanAbortLawful` | internal/worker/worker.go:163-204 | an execution error becomes a lawful retry or failure, never a success |
| `Plans.FinalFollows` | internal/domain/task.go:87-113 | finishing a running copy is always legal and gives the record its final event predicts |
| `Plans.ScheduleFollows` | internal/worker/retry_scheduler.go:43-96 | a scheduled retry is the record its retrying event predicts, with only the code as message |
| `Plans.ScheduleTotal` | internal/worker/retry_scheduler.go:43-96 | for a running task, a valid transient error and a valid policy, scheduling fails only on a done context or an exhausted budget, and the new available time is later than now within the delay bounds |
| `Plans.ScheduleExactly` | internal/worker/retry_scheduler.go:50-80 | of a running task a retry is scheduled if and only if the context is live, the error transient with a code and no negative wait, the policy sound, clock and event id set, and both budgets have room |
| `Plans.FailKind` | internal/application/worker_task_service.go:313-333 | Fail schedules a retry exactly when asked to, able to, and both budgets have room: the task's own, and three for the workflow llm_analysis; the wait is between half and the whole of one second doubled per retry, at most thirty |
| `Plans.FailTotal` | internal/application/worker_task_service.go:299-359 | for a well-formed request on a running task the edit always exists: the fall-through to failed is legal |
| `Guarantees.EventSourcing` | internal/domain/event.go:39-210 | after every step of every run, folding a task's events gives its status, version, retry count, progress, available, started and finished times and owner; a task is running exactly when it has an owner and an expiry |
| `Guarantees.LogLength` | internal/store/task_transition_store.go:151-161 | one event per version, retry count equals retrying plus recovered events, one final event exactly for terminal tasks |
| `Guarantees.StatusMachine` | internal/domain/task.go:157-177 | the ten edges of the machine, and that the terminal statuses are exactly those no edge leaves |
| `Guarantees.StatusEdges` | internal/domain/task.go:164-177 | every change of status in any run is an edge of the status machine or the release of a running task; the edge from retrying to failed is never taken |
| `Guarantees.TerminalForever` | internal/domain/task.go:157-177 | record and log of a terminal task never change again |
| `Guarantees.IdentityForever` | internal/domain/task.go:60-85 | id, key, workflow, input, retry budget and creation time never change |
| `Guarantees.BoundedAttempts` | internal/domain/task.go:115-155 | retry count within budget, claims at most 1 + budget + releases, version at most 2 + 2 budget + 2 releases + progress reports |
| `Guarantees.ClaimsAreSeparated` | internal/store/memory_task_store.go:116-183 | between two claims of a task lies a released or retrying event, or the second is a recovery |
| `Guarantees.ClaimTakesFreeTask` | internal/store/memory_task_store.go:116-183 | a claim takes only tasks of its workflow: a running one only at or after the stored expiry and with a retry left, any other only queued or retrying, without an owner, and with its available time come |
| `Guarantees.ReapTakesExhausted` | internal/store/memory_task_store.go:229-255 | the reaper ends a task only when it runs, its stored lease has expired and its retry count has reached its budget |
| `Guarantees.ClaimGrants` | internal/store/memory_task_store.go:164-182 | a claim gives its worker the full lease from its own clock and a token one version on, spends a retry exactly on a takeover, and touches no other task |
| `Guarantees.AllOrNothing` | internal/store/task_transition_store.go:53-73 | a step changes nothing, the lease times of one running task, or exactly one record together with exactly one new event in both event indexes |
| `Guarantees.LogInTimeOrder` | internal/store/task_transition_store.go:157-161 | with step times that do not go back every log is in time order |
| `Guarantees.TaskStep` | internal/store/task_transition_store.go:119-163 | what one step does to one task, seen from the current record, though computed from an old read |
| `Scheduling.ClaimExactly` | internal/store/memory_task_store.go:116-183 | in every state of every run a claim hands out a task if and only if worker, clock, lease and event id are in order and some task of its workflow is queued or retrying with its time come, or running past its lease with a retry left |
| `Scheduling.ClaimOrder` | internal/store/memory_task_store.go:131-162 | which one: the first to have expired before all others, else the one available longest, ties by creation time and id, from the fields of the records |
| `Scheduling.ExpiredIsRecovered` | internal/store/memory_task_store.go:119-137 | as long as a task runs past its lease with a retry left every proper claim of its workflow is a recovery, of a task that expired no later |
| `Scheduling.ReapExactly` | internal/store/memory_task_store.go:229-246 | in every state of every run the reaper finds a task if and only if some task runs past its lease with no retry left |
| `Scheduling.ReapOrder` | internal/store/memory_task_store.go:238-242 | it takes the one that expired first, the smaller id among equals |
| `Records.CreateStores` | internal/domain/task.go:60-85 | a creation stores exactly what was asked for: workflow, key, input (an empty object if none), budget, queued and available from its clock on, with one created event and its index entry |
| `Records.ClaimStores` | internal/store/memory_task_store.go:164-182 | the whole store after a claim: which fields of which task, and the event that says whether it was a start, a retry or a recovery |
| `Records.ReapStores` | internal/store/memory_task_store.go:248-254 | the whole store after a reap |
| `Records.CancelStores` | internal/store/task_cancellation_store.go:66-95 | the whole store after a cancellation; progress and message are kept |
| `Records.RenewalStores` | internal/store/memory_task_store.go:205-209 | the whole store after a granted renewal: three times of one task |
| `Records.Landed` | internal/store/task_transition_store.go:119-163 | a call that lands replaced its task by its edit of a copy which, however old, agrees with the record at the write in all but the lease times |
| `Records.CompleteStores` | internal/application/worker_task_service.go:187-228 | the whole store after a Complete, from the current record: succeeded with the reference, else the output, else an empty object, only the heartbeat time as old as the read |
| `Records.ProgressStores` | internal/application/worker_task_service.go:250-277 | the whole store after a progress report: progress set, the trimmed message in the event, the lease times of the read put back |
| `Records.ReleaseStores` | internal/domain/task.go:137-155 | the whole store after a release: queued and available at once, progress and message cleared, retries as they were |
| `Records.FailStores` | internal/application/worker_task_service.go:307-354 | the whole store after a Fail: put off by a backoff delay with the bare code if asked for and possible by the record at the write, failed with code and message otherwise |
| `Records.FinishStores` | internal/worker/worker.go:316-367 | the whole store after a result of the in-process worker: succeeded, partial or failed by its outcome, failed for any other, progress 100, the result's message, a default one for a failure without, or one that names the invalid outcome |
| `Records.AbortStores` | internal/worker/worker.go:167-205 | the whole store after an execution error: put off by the policy's delay with the code if and only if transient, a policy set and room in both budgets, failed with the text or the code otherwise |
| `Claimants.StaleClaimant` | internal/application/worker_task_service.go:183-406 | once a task seen at a version has changed in any way, no call issued for that version changes the store, even if the same worker owns the task again |
| `Claimants.OwnerOnlyByClaim` | internal/store/memory_task_store.go:164-182 | only a worker's own claim makes it the owner |
| `Claimants.StaleRenewal` | internal/store/memory_task_store.go:196-203 | a worker that lost a task and did not claim since cannot renew, by heartbeat or in process |
| `Claimants.TokenConsumed` | internal/application/worker_task_service.go:506-537 | a record one version after an issued token was made by one write from the token's version, logged at that place, and by the token's worker if by a worker call |
| `Claimants.SucceededIsCompleted` | internal/application/worker_task_service.go:510-537 | a succeeded record one version after an issued token was completed by that token |
| `Claimants.CompleteSound` | internal/application/worker_task_service.go:183-233 | whenever Complete answers success, by write or replay, the log holds exactly one succeeded event, at the token's place, by the token's worker, and the stored result is the submitted one or decodes to the same value |
| `Claimants.CompleteRepeat` | internal/application/worker_task_service.go:194-201 | repeating Complete afterwards changes nothing, succeeds exactly when stored and submitted result both decode, to the same value, and is a conflict otherwise |
| `Claimants.SameCompleteAgain` | internal/application/worker_task_service.go:194-201 | the same request again succeeds if and only if its result decodes as JSON |
| `Claimants.ReleaseSound` | internal/application/worker_task_service.go:376-406 | whenever Release answers success the log holds a released event at the token's place, put there by a call of the token's worker |
| `Claimants.ReleaseRepeat` | internal/application/worker_task_service.go:380-388 | repeating Release afterwards changes nothing and answers with the queued task as long as nothing else has happened to it; then the lease is lost |
| `Claimants.ExpiredIsNoFailure` | internal/store/memory_task_store.go:249 | no error code and message spell the reaper's message |
| `Claimants.LateFail` | internal/application/worker_task_service.go:291-298 | a Fail after the reaper consumed its token is a conflict, never a replay |
| `Claimants.FailChoice` | internal/application/worker_task_service.go:313-333 | whether a Fail's write failed the task or scheduled a retry, from its request and its read |
| `Claimants.SameFailAgain` | internal/application/worker_task_service.go:291-298 | the same Fail again changes nothing and succeeds if and only if no retry was asked for or possible |
| `Claimants.FailAfterFail` | internal/application/worker_task_service.go:291-298 | any Fail after another one with its token landed changes nothing, and succeeds if and only if the record is still the one that left and its message spells this code and message: after a failure the whole message, after a retry the bare code |
| `Claimants.FailSound` | internal/application/worker_task_service.go:287-359 | whenever Fail answers success the log holds a failed or retrying event at the token's place, put there by a call of the token's worker and never by the reaper, and the record it left carries this request's message, or the code alone if this call scheduled the retry |
| `Acceptance.LiveCallActs` | internal/application/worker_task_service.go:492-563 | a well-formed Complete, Progress, Fail or Release with an issued token changes the store if and only if the version is still the token's at the write, the lease had not expired at the check, and the event id is new |
| `Acceptance.ForeignToken` | internal/application/worker_task_service.go:464-504 | a call whose token does not name its task and its worker is refused as a lost lease and changes nothing, replays included |
| `Acceptance.IllFormedChangesNothing` | internal/application/worker_task_service.go:235-312 | a call with a blank worker, code or message, a progress or wait out of range, or no event id changes nothing |
| `Acceptance.FinishActs` | internal/worker/worker.go:316-397 | the in-process worker's result lands if and only if nothing changed the task since its copy and the event id is new, expired lease or not |
| `Acceptance.AbortActs` | internal/worker/worker.go:163-204 | what ProcessNext makes of an execution error lands if and only if nothing changed the task since its copy, the event id is new, and a retry would not rest on a blank code, a negative wait, an unset clock or an unsound policy |
| `Acceptance.SubmitExactly` | internal/store/task_transition_store.go:142-162 | a write changes the store if and only if its task is there at its version and its event id is new |
| `Acceptance.RenewalExactly` | internal/application/worker_task_service.go:154-181 | a renewal is granted if and only if its arguments are in order and its worker holds a lease that expires after its clock; a heartbeat also needs a worker id that is not blank and a token for this task, this worker and the version the task had, with this owner, when the token was checked |
| `Acceptance.IssuedHeartbeat` | internal/application/worker_task_service.go:474-490 | for a token that was handed out the check comes down to the version |
| `Acceptance.RenewalGrants` | internal/store/memory_task_store.go:185-211 | a granted renewal sets the full duration from its own clock, keeps the worker holding, and changes only the lease times of that task; a refused one changes nothing |
| `Acceptance.CancelExactly` | internal/store/task_cancellation_store.go:56-95 | cancelling succeeds at once on every active task, answers without a change on a canceled one, and is refused on any other ended one |
| `Acceptance.CancelAnswers` | internal/store/task_cancellation_store.go:32-79 | a cancellation is answered with success if and only if the task exists, clock and event id are set, and it is canceled already, or queued, running or retrying with a new event id; a refusal changes nothing |
| `Acceptance.CancelIsFinal` | internal/store/task_cancellation_store.go:32-96 | after a cancellation no step of any kind changes the task or its log, there is one canceled event, and every repeat returns the same record |
| `Leases.ProgressExactly` | internal/application/worker_task_service.go:235-285 | a progress report changes the store if and only if it passes its guards, and then stores the progress and the expiry it read |
| `Leases.KeepsRunning` | internal/store/memory_task_store.go:185-211 | a step that leaves a claim running is a progress report that landed, a granted renewal, or does not touch the task |
| `Leases.ExpiryFallsExactly` | internal/store/memory_task_store.go:205-209 | within a claim the stored expiry falls in a step if and only if the step is a landing progress report with an earlier expiry in its copy, or a granted renewal that ends before the stored expiry |
| `Leases.LeaseSafety` | internal/store/memory_task_store.go:125-130 | if a claim with expiry X is taken over or reaped by a clock below X, such a step lies in between |
| `Leases.GrantIsKept` | internal/store/memory_task_store.go:167-182 | until the time a claim or renewal granted, and without such a step, only a call of the owner or a cancellation ends or changes the claim |
| `EventLog.FoldPrefix` | internal/domain/event.go:39-210 | any beginning of a legal log is legal and folds step by step |
| `EventLog.FoldLength` | internal/store/task_transition_store.go:151-161 | a legal log has one event per version |
| `EventLog.FoldRetries` | internal/domain/task.go:115-132 | retry count is the number of retrying and recovered events |
| `EventLog.FinalOnce` | internal/domain/task.go:157-162 | one final event exactly when the task is terminal |
| `EventLog.StartsNeedExits` | internal/domain/task.go:164-177 | every start but the first needs an earlier retrying or released event |
| `EventLog.CreatedOnce` | internal/domain/event.go:39-65 | a legal log begins with its only created event |
| `EventLog.AttemptBounds` | internal/domain/task.go:115-155 | bounds on claims and version from the retry budget, releases and progress reports |
| `EventLog.ClaimPredecessor` | internal/domain/event.go:67-109 | a claim that is no recovery directly follows the creation, a release or a scheduled retry |
| `EventLog.SuccessiveClaims` | internal/domain/event.go:67-109 | between two claims lies a release or a scheduled retry, or the second is a recovery |
| `Selection.FirstExists` | internal/store/memory_task_store.go:116-163 | every non-empty set of candidates has a first one |
| `Selection.FirstUnique` | internal/store/memory_task_store.go:116-163 | and only one, so the choice does not depend on how the map is walked |
| `Drains.SchedulerDrain` | internal/store/memory_task_store.go:116-183 | claims repeated at one instant, by any workers for any durations, hand out each eligible task exactly once, the n-th to the n-th claim, recoverable ones by expiry and id, then due ones by available time, creation time and id, leave the rest alone and then find nothing, for any workflow filter |
| `Drains.DrainHandsOut` | internal/store/memory_task_store.go:119-146 | which tasks those are, from the fields of the records |
| `Drains.PickIsFirst` | internal/store/memory_task_store.go:116-163 | the next claim picks the task that comes before every other eligible one |
| `Drains.ExpiredHasOneTaker` | internal/store/memory_task_store.go:125-130 | an expired running task is eligible for exactly one of a recovery claim and the reaper: the reaper exactly when its retry count has reached its budget |
| `Drains.ReaperDrain` | internal/worker/reaper.go:75-90 | with a clock reading per round the drain ends in a round that finds nothing, having failed exactly the tasks exhausted by then, each once and when it was exhausted, and touched no other record or log |
| `Drains.ReaperEnds` | internal/store/memory_task_store.go:229-254 | which tasks those are, from the fields of the records, and that every other record is as it was |
| `Drains.DrainRound` | internal/worker/reaper.go:79-90 | one round of the drain loop makes progress or ends with everything done |
| `Drains.NoTaskStuck` | internal/worker/reaper.go:53-100 | after the reaper's drain and the scheduler's at its last instant no running task has an expired lease and no task is lost |
| `Drains.ReachableIsSane` | internal/domain/task.go:60-85 | every state of every run meets what the drains ask for |
| `Backoff.DoubleUpTo` | internal/worker/retry_policy.go:74-81 | the doubling loop computes min(base * 2^(n-1), max) and stays within 64 bits for any count |
| `Backoff.ComputeDelay` | internal/worker/retry_policy.go:59-97 | on machine integers the whole calculation, errors included, equals its specification |
| `Backoff.ClaimRetryDelay` | pkg/taskpulseworker/runtime.go:222-240 | the runtime's wait is the same closed form with its defaults, for any inputs |
| `Backoff.CapMonotone` | internal/worker/retry_policy.go:74-81 | caps never shrink with the count and stay between base and maximum |
| `Backoff.CapReached` | internal/worker/retry_policy.go:74-81 | once reached, the cap stays, so stopping early is right |
| `Backoff.JitteredDelay` | internal/worker/retry_policy.go:83-96 | positive, at least half the cap and retry-after, at most the larger of cap and retry-after |
| `Backoff.JitterSpread` | internal/worker/retry_policy.go:83-96 | each delay from half the cap up to twice that half comes of some draw unless more was asked for, and no other does |
| `Backoff.DelayBounds` | internal/worker/retry_policy.go:59-97 | for a valid policy and a count within it a delay exists within those bounds |
| `Indexes.AppendKeepsAgreement` | internal/store/memory_event_store.go:24-44 | appending an event with a new id keeps both event indexes in agreement |
| `Indexes.EventIndexes` | internal/store/memory_event_store.go:24-44 | after every step of every run both indexes hold the same events, ids unique, each once in its own task's list |
| `Indexes.IndexKeyInjective` | internal/store/memory_task_store.go:52-54 | the joined key determines workflow and key when the workflows have no NUL, or when the keys have none |
| `Indexes.IndexKeyExactly` | internal/store/memory_task_store.go:52-54 | two pairs share an index key if and only if they are equal or one cuts the same text at a later NUL |
| `Indexes.IndexKeyCollision` | internal/store/memory_task_store.go:52-54 | two pairs that share a key |
| `Indexes.SameRequestEquivalence` | internal/store/task_creation_store.go:110-141 | being the same creation request is an equivalence relation, for any JSON decoder |
| `Indexes.KeyIndex` | internal/store/task_creation_store.go:93-107 | after every step of every run the index holds exactly the keyed tasks |
| `Indexes.OneTaskPerKey` | internal/store/task_creation_store.go:50-108 | at most one task and one created event per workflow and key |
| `Indexes.CreateFindsTask` | internal/store/task_creation_store.go:73-85 | a request whose pair is taken returns that task if budget and input are the same, equal as text or as decoded values, is refused otherwise, and changes nothing |
| `Indexes.CreateMakesTask` | internal/store/task_creation_store.go:73-107 | a request whose pair is free creates its task if and only if it is acceptable, its ids are new and no stored task collides with it, is refused for its key if and only if one does, and the task holds what was asked for, field by field |
| `Indexes.ConflictExactly` | internal/store/task_creation_store.go:73-85 | a request is refused for its key if and only if a stored task holds the same joined key for another pair, budget or input |
| `Indexes.CreateAgain` | internal/application/task_service.go:218-266 | after a keyed creation every later request for the pair, at any point of the run, returns that task if budget and input are the same, is refused otherwise, and changes nothing |
| `EventOrder.StableSortIsStable` | internal/store/memory_event_store.go:60-62 | the listing is in time order with each instant's events as appended |
| `EventOrder.StableSortUnique` | internal/store/memory_event_store.go:60-62 | that promise leaves no choice, so any stable sort gives this list |
| `EventOrder.SortedIsAppendOrder` | internal/store/memory_event_store.go:46-65 | listing gives the append order if and only if it is already the time order |
| `EventOrder.ListingIsAppendOrder` | internal/store/memory_event_store.go:46-65 | with step times that do not go back, listing gives the append order in every run |
| `Paging.ListingUnique` | internal/store/task_query_store.go:53-87 | a newest-first list of a set of tasks is unique, whatever the map order |
| `Paging.PageFacts` | internal/application/task_service.go:153-196 | a page shows the newest matching tasks below its cursor, no more than its size (50 unless asked otherwise), the rest is below the next cursor, has-more holds exactly when something is left, and then the page is full |
| `Paging.PageExactly` | internal/application/task_service.go:157-182 | a page is refused if and only if the workflow has white space around it, the limit is out of range or the cursor is incomplete |
| `Paging.ItemFacts` | internal/store/task_query_store.go:53-131 | every item shows its stored task, of the workflow and status asked for and below the cursor, before everything older or as old with a smaller id |
| `Paging.NothingPassedOver` | internal/store/task_query_store.go:61-110 | a task of the workflow and status asked for, below the cursor, is on the page, or the page is full and the task below its last item |
| `Paging.PagingComplete` | internal/application/task_service.go:153-216 | following cursors shows every matching task present at the start exactly once, newest first, even when tasks are added between pages |
| `Paging.PagingExact` | internal/application/task_service.go:153-216 | over a store that stands still the pages join to exactly the filtered list |
| `Paging.PagingFinishes` | internal/store/task_query_store.go:104-110 | following the cursors ends, within one page per matching task at the start and one more, as long as tasks are added only on top |
| `Paging.RunsOnlyGrow` | internal/store/task_query_store.go:53-87 | without a status filter the states of any run are views paging is complete for |
| `Paging.RunsGrowOnTop` | internal/store/task_query_store.go:53-87 | with creation clocks that go forward, and without a status filter, the states of any run are views paging ends over |
| `Stats.TallyCounts` | internal/store/task_stats_store.go:67-82 | one more round of the loop keeps all three maps right for every status |
| `Stats.SnapshotNumbers` | internal/store/task_stats_store.go:48-94 | all three numbers of every status, from the fields of the tasks |
| `Stats.StatusCountsSum` | internal/store/task_stats_store.go:48-84 | status counts sum to the number of matching tasks |
| `Stats.AvailableMeansDue` | internal/store/task_stats_store.go:86-94 | available counts sum to the due tasks of the scheduler and are positive exactly when it has a candidate |
| `Stats.OldestIsNextDue` | internal/store/task_stats_store.go:75-81 | the largest age is the waiting time of the task the due-work phase would pick |
| `Texts.DictionaryOrder` | internal/store/memory_task_store.go:131-133 | the order of ids: the first difference decides, a proper beginning comes first |
| `Texts.TrimExactly` | internal/application/worker_task_service.go:253 | trimming takes white space off both ends and nothing else |
| `Texts.BlankExactly` | internal/application/worker_task_service.go:307 | a text is blank exactly when it is all white space |
| `Texts.TrimmedExactly` | internal/application/task_service.go:226 | it has none around it exactly when it is empty or begins and ends with something else |
| `Texts.ByteLength` | internal/application/task_service.go:229 | the length in bytes, by the number of characters in each range |
| `TaskLayout.TaskNode.Clone` | internal/store/memory_task_store.go:257-290 | a new object with equal contents whose slices and time cells are all newly allocated |
| `TaskLayout.TaskNode.MoveTo` | internal/domain/task.go:87-113 | the in-place move, which leaves the object alone when refused and writes through no pointer |
| `TaskLayout.TaskNode.ScheduleRetry` | internal/domain/task.go:115-132 | the in-place retry, with its errors |
| `TaskLayout.TaskNode.RequeueForRelease` | internal/domain/task.go:137-155 | the in-place release, with its errors |
| `TaskLayout.TaskNode.TakeLease` | internal/store/memory_task_store.go:167-180 | the in-place claim, with a new expiry cell |
| `TaskLayout.TaskNode.ExtendLease` | internal/store/memory_task_store.go:205-209 | the in-place renewal, with new cells |
| `TaskLayout.ClaimApart` | internal/store/memory_task_store.go:166-182 | claiming an object in place leaves a copy of it as it was and shares nothing with it |
| `TaskLayout.TaskShelf.ScribbleApart` | internal/store/memory_task_store.go:257-290 | overwriting everything a client's copy refers to changes no stored task |
| `TaskLayout.TaskShelf.StaysApart` | internal/store/memory_task_store.go:257-290 | an object apart from the store stays apart whatever new objects the store takes in |
| `TaskLayout.TaskShelf.Keep` | internal/store/task_transition_store.go:153-154 | the store keeps a copy that shares nothing with the caller's object |
| `TaskLayout.TaskShelf.ClaimLocked` | internal/store/memory_task_store.go:166-182 | the stored object is claimed in place, and the two copies handed out share nothing with any stored object |
| `TaskLayout.TaskShelf.ExpireLocked` | internal/store/memory_task_store.go:248-254 | the same for the reaper |
| `TaskLayout.TaskShelf.CancelLocked` | internal/store/task_cancellation_store.go:56-95 | the same for a cancellation |
| `TaskLayout.TwoClients` | internal/store/memory_task_store.go:257-290 | one client copies, another claims in place, the first overwrites all its copy refers to: the stored task and the other's copy are what the claim made them |
| `TaskEdits.CompleteEdit` | internal/application/worker_task_service.go:210-228 | the field-by-field edit of a completion gives the draft of the value layer |
| `TaskEdits.ProgressEdit` | internal/application/worker_task_service.go:250-277 | the same for a progress report |
| `TaskEdits.ReleaseEdit` | internal/application/worker_task_service.go:393-400 | the same for a release |
| `TaskEdits.FailEdit` | internal/application/worker_task_service.go:313-352 | a scheduled retry or, from the unchanged copy, a failure |
| `TaskEdits.ScheduleEdit` | internal/worker/retry_scheduler.go:43-94 | a scheduled retry, with every refusal; on an exhausted budget the copy keeps its contents |
| `TaskEdits.FinishEdit` | internal/worker/worker.go:316-397 | the edit for each outcome of an execution |
| `TaskEdits.AbortEdit` | internal/worker/worker.go:163-204 | a retry or, from the unchanged copy, a failure |
| `MemoryTasks.MemoryTaskStore.Get` | internal/store/memory_task_store.go:56-70 | a fresh copy of the stored task, or not found |
| `MemoryTasks.MemoryTaskStore.SelectRecoverable` | internal/store/memory_task_store.go:119-137 | the first pass finds the recoverable task with the least expiry and id, or shows there is none |
| `MemoryTasks.MemoryTaskStore.SelectDue` | internal/store/memory_task_store.go:139-163 | the second pass finds the due task that comes first, and its kind of claim |
| `MemoryTasks.MemoryTaskStore.SelectExhausted` | internal/store/memory_task_store.go:230-246 | the reaper's pass finds the exhausted task with the least expiry and id |
| `MemoryTasks.MemoryTaskStore.ClaimNextLocked` | internal/store/memory_task_store.go:116-183 | claims the specified task in place, changes no other object, returns fresh copies of it after and before |
| `MemoryTasks.MemoryTaskStore.FailNextExpiredLocked` | internal/store/memory_task_store.go:229-255 | the same for the reaper |
| `MemoryTasks.MemoryTaskStore.RenewLease` | internal/store/memory_task_store.go:185-211 | renews in place exactly as specified |
| `MemoryStores.MemoryEventStore.Append` | internal/store/memory_event_store.go:24-44 | both indexes get the event, or neither when its id is taken |
| `MemoryStores.MemoryEventStore.ListByTaskId` | internal/store/memory_event_store.go:46-65 | the stable sort by time, equal to the append order exactly when that is sorted |
| `MemoryStores.MemoryTransitionStore.ClaimNextWithEvent` | internal/store/task_transition_store.go:33-74 | in-place claim, rollback included, refines the atomic step; the result is no stored object, and objects newly stored are newly allocated |
| `MemoryStores.MemoryTransitionStore.FailNextExpiredWithEvent` | internal/store/task_transition_store.go:76-117 | in-place reap, rollback included, refines the atomic step; the same about objects |
| `MemoryStores.MemoryTransitionStore.UpdateTaskWithEvent` | internal/store/task_transition_store.go:119-163 | the version-checked write refines the atomic step and stores a new copy |
| `MemoryStores.MemoryTransitionStore.CancelTaskWithEvent` | internal/store/task_cancellation_store.go:32-96 | in-place cancellation, rollback included, refines the atomic step; the same about objects |
| `MemoryStores.MemoryTransitionStore.CreateTaskWithEvent` | internal/store/task_creation_store.go:50-108 | creation refines the atomic step, stores a new copy and returns another |
| `MemoryStores.MemoryTransitionStore.Disturb` | internal/store/task_transition_store.go:48-51 | any sequence of locked operations of other actors, as one change of the store that takes in only newly allocated objects |
| `MemoryWorkers.WorkerTaskService.CompleteTask` | internal/application/worker_task_service.go:183-233 | with any operations of other actors after each of its three reads, the call submits the plan made of what it saw to what the store is by then, and answers accordingly |
| `MemoryWorkers.WorkerTaskService.ReportProgress` | internal/application/worker_task_service.go:235-285 | the same for a progress report |
| `MemoryWorkers.WorkerTaskService.FailTask` | internal/application/worker_task_service.go:287-359 | the same for a failure |
| `MemoryWorkers.WorkerTaskService.ReleaseTask` | internal/application/worker_task_service.go:376-406 | the same for a release |
| `MemoryWorkers.InProcessWorker.ProcessNext` | internal/worker/worker.go:130-207 | claims, lets other actors do anything, and writes the end of the execution from the copy it claimed |
| `MemoryWorkers.Reaper.ProcessNext` | internal/worker/reaper.go:53-73 | one reap, reporting whether a task was failed |
| `MemoryWorkers.Reaper.Drain` | internal/worker/reaper.go:75-100 | with a clock reading per round the loop fails exactly the tasks exhausted when it ends, changes no other record or log, and stops |
| `MemoryViews.SortNewestFirst` | internal/store/task_query_store.go:77-82 | the sort keeps the items and puts them newest first |
| `MemoryViews.CollectItems` | internal/store/task_query_store.go:61-75 | the filter loop collects exactly the selected tasks, each once |
| `MemoryViews.ListTasks` | internal/store/task_query_store.go:53-87 | filter, sort and cut give the specified list whatever the map order |
| `MemoryViews.ListPage` | internal/application/task_service.go:153-196 | the page with its next cursor and has-more |
| `MemoryViews.SnapshotTaskStats` | internal/store/task_stats_store.go:48-84 | after one pass in any order all three maps are right for every status |
| `Examples.Extend` | internal/store/task_transition_store.go:33-163 | every run goes on with any step whose reads lie in its past |
| `Examples.RetriedFailIsRefused` | internal/application/worker_task_service.go:291-298 | a run in which a Fail succeeds and schedules a retry and the identical second Fail is refused |
| `Examples.ForeignFailIsAccepted` | internal/application/worker_task_service.go:291-298 | a run in which a Fail is answered as a replay of a different one |
| `Examples.UndecodableCompleteIsRefused` | internal/application/worker_task_service.go:361-370 | a run in which the identical second Complete is refused |
| `Examples.ProgressMovesExpiryBack` | internal/application/worker_task_service.go:235-285 | a run in which a progress report puts back an older expiry |
| `Examples.RenewalMovesExpiryBack` | internal/store/memory_task_store.go:205-209 | a run in which a renewal brings the expiry forward |
| `Examples.CollidingCreateIsRefused` | internal/store/memory_task_store.go:52-54 | a run in which a creation with a new pair and new ids is refused for another pair's key |

## Left out

- The MySQL stores: their behaviour lies in SQL locking and isolation.
- HTTP handlers, the client, the dashboard, authentication, configuration, logging, metrics, executors and the
  benchmark: plumbing.
- The byte form of lease tokens and cursors: tokens and cursors are the values they encode, or undecodable.
- JSON parsing: decoding is an arbitrary partial function, one for creation requests and one for results.
- Goroutines, timers and select statements of the workers and the runtime: renewals and submissions happen at any
  point of a run. The runtime keeps its token in shared state that its goroutines overwrite; that is not modelled, a
  call may carry any token.
- The 64-bit wrap-around of versions and the saturation of times outside the backoff arithmetic.
- Cancelled contexts, except in the retry scheduler, and nil pointers.
- The raw Create, Update, ClaimNext and FailNextExpired of the task store, which bypass the event log.
- ClaimTask of the worker service beyond the store operation, and the fields that only a response carries.
- The reads after a successful progress, scheduled retry or release that only build the response.
- Task details and their diagnostics: easy folds over one task's events.
- The statistics filter's fallback for an unset time.
- Memory below the task object (slices, time cells) is the subject of TaskLayout and TaskEdits; in MemoryTasks,
  MemoryStores and MemoryWorkers a task object is one place in memory that holds a whole task.
- Drains.NoTaskStuck: nothing happens between the steps of the two drains.
- MemoryWorkers.Reaper.Drain: a supply of new event ids, and nothing else happens between its rounds.
- Backoff.ClaimRetryDelay: shares its doubling loop with the retry policy, where the program has it twice.
- Paging.PagingComplete: creation times are set, as every run with a running clock has them.
- Paging.PagingFinishes: tasks added while paging are newer than those there; with clocks that go back a client could
  be fed new tasks below its cursor for ever.
- Guarantees.LogInTimeOrder: needs step times that do not go back; in runs without that, listing and append order differ
  exactly as EventOrder.SortedIsAppendOrder says.
