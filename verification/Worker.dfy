/** What a claimant does with a copy of a task: the external worker service, the in-process worker and the
    retry scheduler. Each call reads snapshots, edits a copy and ends in a plan: an immediate reply, or a
    version-checked write submitted later. */
module Worker {
  import opened Basics
  import opened Domain
  import opened Backoff
  import opened Store

  predicate IsSpace(c: char)
  {
    c in {'\t', '\n', '\U{0B}', '\U{0C}', '\r', ' ', '\U{85}', '\U{A0}', '\U{1680}', '\U{2028}', '\U{2029}', '\U{202F}',
          '\U{205F}', '\U{3000}'}
    || '\U{2000}' <= c <= '\U{200A}'
  }

  function TrimLeft(s: string): string
  {
    if s != "" && IsSpace(s[0]) then TrimLeft(s[1..]) else s
  }

  function TrimRight(s: string): string
  {
    if s != "" && IsSpace(s[|s| - 1]) then TrimRight(s[..|s| - 1]) else s
  }

  function TrimSpace(s: string): string
  {
    TrimRight(TrimLeft(s))
  }

  // ---- Lease tokens ----

  datatype LeaseToken = LeaseToken(taskId: string, workerId: string, version: nat)

  /** Who calls, about which task, with which token (`None`: blank or not decodable). */
  datatype Lease = Lease(taskId: string, workerId: string, token: Option<LeaseToken>)

  function MakeLeaseToken(t: Task): LeaseToken
  {
    LeaseToken(t.id, t.leaseOwner, t.version)
  }

  function CheckToken(l: Lease): Result<LeaseToken>
  {
    if l.token.None? || l.token.value.taskId == "" || l.token.value.workerId == "" || l.token.value.version == 0
       || l.token.value.taskId != l.taskId || l.token.value.workerId != l.workerId
    then Err(LeaseLost) else Ok(l.token.value)
  }

  function Get(h: State, id: string): Result<Task>
  {
    if id in h.tasks then Ok(h.tasks[id]) else Err(TaskNotFound)
  }

  /** The token's version, if the token still names the current version and owner in snapshot `h`. */
  function ResolveLeaseVersion(h: State, l: Lease): Result<nat>
  {
    match CheckToken(l)
    case Err(e) => Err(e)
    case Ok(token) =>
      match Get(h, l.taskId)
      case Err(e) => Err(e)
      case Ok(t) => if t.version != token.version || t.leaseOwner != l.workerId then Err(LeaseLost) else Ok(token.version)
  }

  function PrepareRunningTask(h: State, taskId: string, workerId: string, version: nat, now: Time): Result<Task>
  {
    if taskId == "" || TrimSpace(workerId) == "" then Err(InvalidWorkerRequest)
    else
      match Get(h, taskId)
      case Err(e) => Err(e)
      case Ok(t) =>
        if !HoldsLease(t, workerId, now) then Err(LeaseLost)
        else if t.version != version then Err(TaskConflict)
        else Ok(t)
  }

  /** Token check against snapshot `h2`, then the copy to edit from snapshot `h3`. */
  function OpenTask(h2: State, h3: State, l: Lease, now: Time): Result<Task>
  {
    match ResolveLeaseVersion(h2, l)
    case Err(e) => Err(e)
    case Ok(version) => PrepareRunningTask(h3, l.taskId, l.workerId, version, now)
  }

  /** Whether snapshot `h` shows the state left by this very request: one version on, in an expected status. */
  function ReplayWorkerOperation(h: State, l: Lease, statuses: set<Status>): Result<Option<Task>>
  {
    match CheckToken(l)
    case Err(e) => Err(e)
    case Ok(token) =>
      match Get(h, l.taskId)
      case Err(e) => Err(e)
      case Ok(t) => if t.version == token.version + 1 && t.status in statuses then Ok(Some(t)) else Ok(None)
  }

  // ---- Execution errors and retry scheduling ----

  datatype ErrorKind = Transient | Permanent | OtherKind

  datatype ExecutionError = ExecutionError(kind: ErrorKind, code: string, retryAfter: Duration)

  function ValidateError(e: ExecutionError): Result<()>
  {
    if e.kind.OtherKind? then Err(InvalidErrorKind)
    else if TrimSpace(e.code) == "" then Err(EmptyErrorCode)
    else if e.retryAfter < 0 then Err(InvalidRetryAfter)
    else if e.kind.Permanent? && e.retryAfter != 0 then Err(PermanentRetryAfter)
    else Ok(())
  }

  /** The edited copy and its event. */
  datatype Draft = Draft(task: Task, event: Event)

  /** RetryScheduler.Schedule up to its store write; an error leaves no draft. */
  function Schedule(done: bool, t: Task, e: ExecutionError, policy: RetryPolicy, seed: nat, now: Time,
                    eventId: string): Result<Draft>
  {
    if done then Err(ContextDone)
    else if ValidateError(e).Err? then Err(ValidateError(e).error)
    else if !e.kind.Transient? then Err(ExecutionNotRetryable)
    else if now == ZERO_TIME then Err(InvalidRetryNow)
    else if ValidatePolicy(policy).Err? then Err(ValidatePolicy(policy).error)
    else if t.retryCount + 1 > t.maxRetries || t.retryCount + 1 > policy.maxRetries then Err(RetryBudgetExhausted)
    else
      match Delay(policy, t.retryCount + 1, e.retryAfter, seed)
      case Err(error) => Err(error)
      case Ok(delay) =>
        match ScheduleRetry(t, now, now + delay)
        case Err(error) => Err(error)
        case Ok(scheduled) =>
          var edited := scheduled.(errorMessage := e.code);
          match NewTaskRetryingEvent(eventId, edited, e.code, delay, now)
          case Err(error) => Err(error)
          case Ok(event) => Ok(Draft(edited, event))
  }

  const SECOND_NANOS: Duration := 1_000_000_000

  /** The policy the external worker API uses for a task. */
  function ExternalPolicy(t: Task): RetryPolicy
  {
    RetryPolicy(if t.workflow == "llm_analysis" then 3 else t.maxRetries, SECOND_NANOS, 30 * SECOND_NANOS)
  }

  // ---- Calls and their plans ----

  /** Reply at once without a write, or submit `edited`, made from `copy`, with `event`. */
  datatype Plan = Reply(reply: Result<Task>) | Write(copy: Task, edited: Task, event: Event)

  datatype ExecutionOutcome = OutcomeSucceeded | OutcomePartial | OutcomeFailed | OutcomeOther(quotedName: string)

  datatype ExecutionResult = ExecutionResult(output: string, outcome: ExecutionOutcome, errorMessage: string)

  datatype ExecuteError = Classified(error: ExecutionError) | Plain(message: string)

  datatype WorkerCall =
    | Complete(lease: Lease, output: string, resultRef: string)
    | Progress(lease: Lease, progress: int, message: string)
    | Fail(lease: Lease, errorCode: string, errorMessage: string, retryable: bool, retryAfter: Duration, seed: nat)
    | Release(lease: Lease)
    | Finish(taskId: string, workerId: string, result: ExecutionResult)
    | Abort(taskId: string, workerId: string, cause: ExecuteError, policy: Option<RetryPolicy>, seed: nat)

  function TaskIdOf(c: WorkerCall): string
  {
    match c
    case Finish(id, _, _) => id
    case Abort(id, _, _, _, _) => id
    case _ => c.lease.taskId
  }

  predicate UsesToken(c: WorkerCall)
  {
    c.Complete? || c.Progress? || c.Fail? || c.Release?
  }

  function WorkerIdOf(c: WorkerCall): string
  {
    match c
    case Finish(_, worker, _) => worker
    case Abort(_, worker, _, _, _) => worker
    case _ => c.lease.workerId
  }

  /** Everything a call gets from outside: the snapshots of its up to three reads, its clock readings, a new
      event id, a decoder that maps JSON text to its canonical text, and whether a retry scheduler is set. */
  datatype Context = Context(
    h1: State, h2: State, h3: State, checkedAt: Time, now: Time, eventId: string,
    canonical: string -> Option<string>, scheduler: bool)

  function MakeDraft(edited: Task, event: Result<Event>): Result<Draft>
  {
    match event
    case Err(e) => Err(e)
    case Ok(e) => Ok(Draft(edited, e))
  }

  function PlanWrite(copy: Task, draft: Result<Draft>): Plan
  {
    match draft
    case Err(e) => Reply(Err(e))
    case Ok(d) => Write(copy, d.task, d.event)
  }

  function JsonSemanticallyEqual(canonical: string -> Option<string>, a: string, b: string): bool
  {
    canonical(a).Some? && canonical(a) == canonical(b)
  }

  function ResultOf(output: string, resultRef: string): string
  {
    if resultRef != "" then resultRef else if output != "" then output else "{}"
  }

  // The edits: what each call makes of its copy.

  function CompleteDraft(t: Task, workerId: string, result: string, now: Time, eventId: string): Result<Draft>
  {
    match MoveTo(t.(result := result, progress := 100), Succeeded, now)
    case Err(e) => Err(e)
    case Ok(edited) =>
      MakeDraft(edited, NewTaskEvent(eventId, edited.id, TaskSucceeded, "task succeeded by external worker",
                                     WorkerInfo(workerId), edited.progress, now))
  }

  function ProgressDraft(t: Task, workerId: string, progress: int, message: string, now: Time, eventId: string): Result<Draft>
  {
    var text := if TrimSpace(message) == "" then "task progress updated" else TrimSpace(message);
    MakeDraft(t.(progress := progress, updatedAt := now),
              NewTaskEvent(eventId, t.id, TaskProgress, text, ProgressInfo(progress, text, workerId), progress, now))
  }

  function ReleaseDraft(t: Task, now: Time, eventId: string): Result<Draft>
  {
    match RequeueForRelease(t, now)
    case Err(e) => Err(e)
    case Ok(edited) => MakeDraft(edited, NewTaskReleasedEvent(eventId, edited, now))
  }

  /** A move to failed with the given message and event text. */
  function FailedDraft(t: Task, errorMessage: string, text: string, payload: Payload, now: Time, eventId: string): Result<Draft>
  {
    match MoveTo(t.(errorMessage := errorMessage), Failed, now)
    case Err(e) => Err(e)
    case Ok(edited) => MakeDraft(edited, NewTaskEvent(eventId, edited.id, TaskFailed, text, payload, edited.progress, now))
  }

  /** FailTask's edit: a scheduled retry if one is asked for and the budgets allow it, failure otherwise. */
  function FailDraft(scheduler: bool, t: Task, workerId: string, code: string, message: string, retryable: bool,
                     retryAfter: Duration, seed: nat, now: Time, eventId: string): Result<Draft>
  {
    var scheduled := if retryable && scheduler
      then Schedule(false, t, ExecutionError(Transient, code, retryAfter), ExternalPolicy(t), seed, now, eventId)
      else Err(RetryBudgetExhausted);
    if scheduled.Ok? || !scheduled.error.RetryBudgetExhausted? then scheduled
    else FailedDraft(t, code + ": " + message, "task failed by external worker", FailureInfo(code, retryable, workerId), now, eventId)
  }

  /** finishFailed of the in-process worker. */
  function FinishFailedDraft(t: Task, message: string, now: Time, eventId: string): Result<Draft>
  {
    FailedDraft(t, message, "task failed", NoPayload, now, eventId)
  }

  /** finishWithResult of the in-process worker. */
  function FinishDraft(t: Task, r: ExecutionResult, now: Time, eventId: string): Result<Draft>
  {
    OutcomeDraftOf(t.(result := r.output, progress := 100, errorMessage := r.errorMessage), r, now, eventId)
  }

  function OutcomeDraftOf(done: Task, r: ExecutionResult, now: Time, eventId: string): Result<Draft>
  {
    match r.outcome
    case OutcomeSucceeded => OutcomeDraft(done, Succeeded, TaskSucceeded, "task succeeded", now, eventId)
    case OutcomePartial => OutcomeDraft(done, Partial, TaskPartial, "task partially succeeded", now, eventId)
    case OutcomeFailed =>
      OutcomeDraft(if done.errorMessage == "" then done.(errorMessage := "executor reported failure") else done,
                   Failed, TaskFailed, "task failed", now, eventId)
    case OutcomeOther(quotedName) =>
      FinishFailedDraft(done, "invalid execution outcome " + quotedName, now, eventId)
  }

  function OutcomeDraft(t: Task, status: Status, kind: EventKind, text: string, now: Time, eventId: string): Result<Draft>
  {
    match MoveTo(t, status, now)
    case Err(e) => Err(e)
    case Ok(edited) => MakeDraft(edited, NewTaskEvent(eventId, edited.id, kind, text, NoPayload, edited.progress, now))
  }

  /** What ProcessNext makes of an execution error. */
  function AbortDraft(t: Task, cause: ExecuteError, policy: Option<RetryPolicy>, seed: nat, now: Time, eventId: string): Result<Draft>
  {
    match cause
    case Plain(message) => FinishFailedDraft(t, message, now, eventId)
    case Classified(error) =>
      var scheduled := if error.kind.Transient? && policy.Some?
        then Schedule(false, t, error, policy.value, seed, now, eventId) else Err(RetryBudgetExhausted);
      if scheduled.Err? && (scheduled.error.RetryBudgetExhausted? || scheduled.error.InvalidRetryCount?)
      then FinishFailedDraft(t, error.code, now, eventId) else scheduled
  }

  /** What a call makes of its copy. */
  function DraftOf(c: WorkerCall, scheduler: bool, t: Task, now: Time, eventId: string): Result<Draft>
  {
    match c
    case Complete(l, output, resultRef) => CompleteDraft(t, l.workerId, ResultOf(output, resultRef), now, eventId)
    case Progress(l, progress, message) => ProgressDraft(t, l.workerId, progress, message, now, eventId)
    case Fail(l, code, message, retryable, retryAfter, seed) =>
      if TrimSpace(code) == "" || TrimSpace(message) == "" || retryAfter < 0 then Err(InvalidWorkerRequest)
      else FailDraft(scheduler, t, l.workerId, code, message, retryable, retryAfter, seed, now, eventId)
    case Release(_) => ReleaseDraft(t, now, eventId)
    case Finish(_, _, r) => FinishDraft(t, r, now, eventId)
    case Abort(_, _, cause, policy, seed) => AbortDraft(t, cause, policy, seed, now, eventId)
  }

  // The plans: reads first, then the edit.

  function PlanComplete(x: Context, l: Lease, result: string): Plan
  {
    match ReplayWorkerOperation(x.h1, l, {Succeeded})
    case Err(e) => Reply(Err(e))
    case Ok(Some(t)) => Reply(if JsonSemanticallyEqual(x.canonical, t.result, result) then Ok(t) else Err(TaskConflict))
    case Ok(None) => OpenAndComplete(x, l, result)
  }

  function OpenAndComplete(x: Context, l: Lease, result: string): Plan
  {
    match OpenTask(x.h2, x.h3, l, x.checkedAt)
    case Err(e) => Reply(Err(e))
    case Ok(t) => PlanWrite(t, CompleteDraft(t, l.workerId, result, x.now, x.eventId))
  }

  function PlanProgress(x: Context, l: Lease, progress: int, message: string): Plan
  {
    if progress < 0 || progress >= 100 then Reply(Err(InvalidWorkerRequest))
    else
      match OpenTask(x.h2, x.h3, l, x.checkedAt)
      case Err(e) => Reply(Err(e))
      case Ok(t) => PlanWrite(t, ProgressDraft(t, l.workerId, progress, message, x.now, x.eventId))
  }

  function PlanFail(x: Context, l: Lease, code: string, message: string, retryable: bool, retryAfter: Duration,
                    seed: nat): Plan
  {
    match ReplayWorkerOperation(x.h1, l, {Retrying, Failed})
    case Err(e) => Reply(Err(e))
    case Ok(Some(t)) => Reply(if t.errorMessage == code + ": " + message then Ok(t) else Err(TaskConflict))
    case Ok(None) => OpenAndFail(x, l, code, message, retryable, retryAfter, seed)
  }

  function OpenAndFail(x: Context, l: Lease, code: string, message: string, retryable: bool, retryAfter: Duration,
                       seed: nat): Plan
  {
    match OpenTask(x.h2, x.h3, l, x.checkedAt)
    case Err(e) => Reply(Err(e))
    case Ok(t) =>
      if TrimSpace(code) == "" || TrimSpace(message) == "" || retryAfter < 0 then Reply(Err(InvalidWorkerRequest))
      else PlanWrite(t, FailDraft(x.scheduler, t, l.workerId, code, message, retryable, retryAfter, seed, x.now, x.eventId))
  }

  function PlanRelease(x: Context, l: Lease): Plan
  {
    match ReplayWorkerOperation(x.h1, l, {Queued})
    case Err(e) => Reply(Err(e))
    case Ok(Some(t)) => Reply(Ok(t))
    case Ok(None) => OpenAndRelease(x, l)
  }

  function OpenAndRelease(x: Context, l: Lease): Plan
  {
    match OpenTask(x.h2, x.h3, l, x.checkedAt)
    case Err(e) => Reply(Err(e))
    case Ok(t) => PlanWrite(t, ReleaseDraft(t, x.now, x.eventId))
  }

  /** The in-process worker's copy: a record it held when it claimed the task. */
  function ClaimedCopy(h: State, taskId: string, workerId: string): Result<Task>
  {
    if taskId in h.tasks && h.tasks[taskId].status.Running? && h.tasks[taskId].leaseOwner == workerId && workerId != ""
    then Ok(h.tasks[taskId]) else Err(NoTaskAvailable)
  }

  function PlanFinish(x: Context, taskId: string, workerId: string, r: ExecutionResult): Plan
  {
    match ClaimedCopy(x.h3, taskId, workerId)
    case Err(e) => Reply(Err(e))
    case Ok(copy) => PlanWrite(copy, FinishDraft(copy, r, x.now, x.eventId))
  }

  function PlanAbort(x: Context, taskId: string, workerId: string, cause: ExecuteError, policy: Option<RetryPolicy>,
                     seed: nat): Plan
  {
    match ClaimedCopy(x.h3, taskId, workerId)
    case Err(e) => Reply(Err(e))
    case Ok(copy) => PlanWrite(copy, AbortDraft(copy, cause, policy, seed, x.now, x.eventId))
  }

  function PlanOf(x: Context, c: WorkerCall): Plan
  {
    match c
    case Complete(l, output, resultRef) => PlanComplete(x, l, ResultOf(output, resultRef))
    case Progress(l, progress, message) => PlanProgress(x, l, progress, message)
    case Fail(l, code, message, retryable, retryAfter, seed) => PlanFail(x, l, code, message, retryable, retryAfter, seed)
    case Release(l) => PlanRelease(x, l)
    case Finish(id, worker, r) => PlanFinish(x, id, worker, r)
    case Abort(id, worker, cause, policy, seed) => PlanAbort(x, id, worker, cause, policy, seed)
  }

  /** Submitting a plan to the store as it is at that moment. */
  function Submit(s: State, p: Plan): Outcome<Task>
  {
    match p
    case Reply(r) => Outcome(s, r)
    case Write(_, edited, event) => UpdateTaskWithEvent(s, edited, event)
  }
}
