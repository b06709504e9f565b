/** Tasks, their status machine, and the events that describe each change. */
module Domain {
  import opened Basics

  /** Instants and durations in nanoseconds; instant zero is the unset time. */
  type Time = int
  type Duration = int
  const ZERO_TIME: Time := 0

  datatype Status = Queued | Running | Succeeded | Partial | Failed | Canceled | Retrying

  datatype Error =
    | MissingTaskId | MissingWorkflow | NegativeMaxRetries
    | InvalidTransition | InvalidRetryTime | RetryBudgetExhausted | InvalidReleaseTime
    | MissingEventId | InvalidProgress | MissingErrorCode | InvalidDelay | WrongStatus
    | TaskNotFound | TaskAlreadyExists | NoTaskAvailable | TaskConflict | InvalidClaim
    | InvalidLeaseRenewal | LeaseLost | NoExpiredTask | InvalidCleanupTime | InvalidEventId
    | EventAlreadyExists | TaskEventMismatch | IdempotencyConflict
    | TaskNotCancelable | InvalidCancellationTime
    | InvalidWorkerRequest | InvalidTaskQuery | InvalidInput
    | InvalidErrorKind | EmptyErrorCode | InvalidRetryAfter | PermanentRetryAfter
    | ExecutionNotRetryable | InvalidRetryNow
    | InvalidMaxRetries | InvalidBaseDelay | InvalidMaxDelay | InvalidRetryCount
    | ContextDone

  datatype Result<+T> = Ok(value: T) | Err(error: Error)

  datatype Task = Task(
    id: string,
    idempotencyKey: string,
    workflow: string,
    status: Status,
    input: string,
    result: string,
    errorMessage: string,
    progress: int,
    retryCount: int,
    maxRetries: int,
    availableAt: Time,
    version: nat,
    leaseOwner: string,
    leaseExpiresAt: Option<Time>,
    lastHeartbeatAt: Option<Time>,
    createdAt: Time,
    updatedAt: Time,
    startedAt: Option<Time>,
    finishedAt: Option<Time>)

  function NewTask(id: string, workflow: string, input: string, maxRetries: int, now: Time): Result<Task>
  {
    if id == "" then Err(MissingTaskId)
    else if workflow == "" then Err(MissingWorkflow)
    else if maxRetries < 0 then Err(NegativeMaxRetries)
    else Ok(Task(id, "", workflow, Queued, if input == "" then "{}" else input, "", "", 0, 0, maxRetries,
                 now, 0, "", None, None, now, now, None, None))
  }

  predicate IsTerminal(s: Status)
  {
    s.Succeeded? || s.Partial? || s.Failed? || s.Canceled?
  }

  predicate CanTransition(from: Status, to: Status)
  {
    match from
    case Queued => to.Running? || to.Canceled?
    case Running => to.Succeeded? || to.Partial? || to.Failed? || to.Canceled? || to.Retrying?
    case Retrying => to.Running? || to.Failed? || to.Canceled?
    case _ => false
  }

  /** The record after a legal move to `next`. */
  function Moved(t: Task, next: Status, now: Time): Task
  {
    var m := t.(status := next, updatedAt := now);
    match next
    case Running => if t.startedAt.None? then m.(startedAt := Some(now)) else m
    case Retrying => m.(leaseOwner := "", leaseExpiresAt := None)
    case Queued => m
    case _ => m.(finishedAt := Some(now), leaseOwner := "", leaseExpiresAt := None)
  }

  function MoveTo(t: Task, next: Status, now: Time): Result<Task>
  {
    if CanTransition(t.status, next) then Ok(Moved(t, next, now)) else Err(InvalidTransition)
  }

  function ScheduleRetry(t: Task, now: Time, availableAt: Time): Result<Task>
  {
    if availableAt <= now then Err(InvalidRetryTime)
    else if t.retryCount >= t.maxRetries then Err(RetryBudgetExhausted)
    else match MoveTo(t, Retrying, now)
      case Err(e) => Err(e)
      case Ok(m) => Ok(m.(retryCount := m.retryCount + 1, availableAt := availableAt))
  }

  function RequeueForRelease(t: Task, now: Time): Result<Task>
  {
    if !t.status.Running? then Err(WrongStatus)
    else if now == ZERO_TIME then Err(InvalidReleaseTime)
    else Ok(t.(status := Queued, progress := 0, errorMessage := "", availableAt := now,
               leaseOwner := "", leaseExpiresAt := None, updatedAt := now))
  }

  datatype EventKind =
    | TaskCreated | TaskStarted | TaskRetryStarted | TaskRecovered | TaskRetrying | TaskReleased
    | TaskProgress | TaskSucceeded | TaskPartial | TaskFailed | TaskCanceled

  datatype ClaimKind = ClaimInitial | ClaimRetry | ClaimRecovery

  /** The JSON payloads, as the values they encode. */
  datatype Payload =
    | NoPayload
    | ClaimInfo(workerId: string, leaseUntil: Option<Time>, retryCount: int)
    | Reason(reason: string)
    | RetryInfo(errorCode: string, retryCount: int, maxRetries: int, availableAt: Time, delayMillis: int)
    | WorkerInfo(workerId: string)
    | ProgressInfo(progress: int, message: string, workerId: string)
    | FailureInfo(errorCode: string, retryable: bool, workerId: string)

  datatype Event = Event(
    id: string, taskId: string, kind: EventKind, message: string, payload: Payload, progress: int, createdAt: Time)

  function NewTaskEvent(id: string, taskId: string, kind: EventKind, message: string, payload: Payload,
                        progress: int, now: Time): Result<Event>
  {
    if id == "" then Err(MissingEventId)
    else if taskId == "" then Err(MissingTaskId)
    else if progress < 0 || progress > 100 then Err(InvalidProgress)
    else Ok(Event(id, taskId, kind, message, payload, progress, now))
  }

  function NewTaskClaimedEvent(id: string, t: Task, claimKind: ClaimKind, now: Time): Result<Event>
  {
    var (kind, message) := match claimKind
      case ClaimInitial => (TaskStarted, "task started")
      case ClaimRetry => (TaskRetryStarted, "task retry started")
      case ClaimRecovery => (TaskRecovered, "task recovered after lease expiration");
    NewTaskEvent(id, t.id, kind, message, ClaimInfo(t.leaseOwner, t.leaseExpiresAt, t.retryCount), t.progress, now)
  }

  function NewTaskExpiredEvent(id: string, t: Task, now: Time): Result<Event>
  {
    NewTaskEvent(id, t.id, TaskFailed, "task failed after lease expiration", Reason("retry_budget_exhausted"),
                 t.progress, now)
  }

  function NewTaskReleasedEvent(id: string, t: Task, now: Time): Result<Event>
  {
    if !t.status.Queued? then Err(WrongStatus)
    else NewTaskEvent(id, t.id, TaskReleased, "task released by worker during graceful shutdown",
                      Reason("worker_shutdown"), t.progress, now)
  }

  function NewTaskCanceledEvent(id: string, t: Task, now: Time): Result<Event>
  {
    if !t.status.Canceled? then Err(WrongStatus)
    else NewTaskEvent(id, t.id, TaskCanceled, "task canceled", Reason("requested_by_caller"), t.progress, now)
  }

  function NewTaskRetryingEvent(id: string, t: Task, errorCode: string, delay: Duration, now: Time): Result<Event>
  {
    if !t.status.Retrying? then Err(WrongStatus)
    else if errorCode == "" then Err(MissingErrorCode)
    else if delay <= 0 then Err(InvalidDelay)
    else NewTaskEvent(id, t.id, TaskRetrying, "task scheduled for retry",
                      RetryInfo(errorCode, t.retryCount, t.maxRetries, t.availableAt, delay / 1_000_000),
                      t.progress, now)
  }
}
