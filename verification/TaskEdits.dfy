/** What the worker service, the in-process worker and the retry scheduler do to their own copy of a task, field by
    field: each edit turns the copy into the draft of Worker, and writes through no pointer. */
module TaskEdits {
  import opened Basics
  import opened Domain
  import opened Backoff
  import opened TaskLayout
  import opened Worker

  /** An object edited in place, with its event: the draft made of its old contents. */
  ghost predicate Edited(record: Task, event: Result<Event>, draft: Result<Draft>)
  {
    match draft
    case Err(e) => event == Err(e)
    case Ok(d) => event == Ok(d.event) && record == d.task
  }

  method SetResult(task: TaskNode, result: string)
    modifies task
    ensures task.Record() == old(task.Record()).(result := result, progress := 100)
  {
    var bytes := new Bytes(result);
    task.struct := task.struct.(result := bytes);
    task.struct := task.struct.(progress := 100);
  }

  method SetError(task: TaskNode, message: string)
    modifies task
    ensures task.Record() == old(task.Record()).(errorMessage := message)
  {
    task.struct := task.struct.(errorMessage := message);
  }

  /** A move to a final status, with its event. */
  method MoveEdit(task: TaskNode, status: Status, kind: EventKind, text: string, payload: Payload, now: Time, eventId: string)
    returns (event: Result<Event>)
    modifies task
    ensures match Domain.MoveTo(old(task.Record()), status, now)
            case Err(e) => event == Err(e)
            case Ok(t) => task.Record() == t && event == NewTaskEvent(eventId, t.id, kind, text, payload, t.progress, now)
  {
    var ok := task.MoveTo(status, now);
    if !ok {
      return Err(InvalidTransition);
    }
    event := NewTaskEvent(eventId, task.struct.id, kind, text, payload, task.struct.progress, now);
  }

  method CompleteEdit(task: TaskNode, workerId: string, result: string, now: Time, eventId: string) returns (event: Result<Event>)
    modifies task
    ensures Edited(task.Record(), event, CompleteDraft(old(task.Record()), workerId, result, now, eventId))
  {
    SetResult(task, result);
    event := MoveEdit(task, Succeeded, TaskSucceeded, "task succeeded by external worker", WorkerInfo(workerId), now, eventId);
  }

  method ProgressEdit(task: TaskNode, workerId: string, progress: int, message: string, now: Time, eventId: string)
    returns (event: Result<Event>)
    modifies task
    ensures Edited(task.Record(), event, ProgressDraft(old(task.Record()), workerId, progress, message, now, eventId))
  {
    task.struct := task.struct.(progress := progress);
    task.struct := task.struct.(updatedAt := now);
    var text := TrimSpace(message);
    if text == "" {
      text := "task progress updated";
    }
    event := NewTaskEvent(eventId, task.struct.id, TaskProgress, text, ProgressInfo(progress, text, workerId), progress, now);
  }

  method ReleaseEdit(task: TaskNode, now: Time, eventId: string) returns (event: Result<Event>)
    modifies task
    ensures Edited(task.Record(), event, ReleaseDraft(old(task.Record()), now, eventId))
  {
    var requeued := task.RequeueForRelease(now);
    if requeued.Err? {
      return Err(requeued.error);
    }
    event := NewTaskReleasedEvent(eventId, task.Record(), now);
  }

  method FailedEdit(task: TaskNode, errorMessage: string, text: string, payload: Payload, now: Time, eventId: string)
    returns (event: Result<Event>)
    modifies task
    ensures Edited(task.Record(), event, FailedDraft(old(task.Record()), errorMessage, text, payload, now, eventId))
  {
    SetError(task, errorMessage);
    event := MoveEdit(task, Failed, TaskFailed, text, payload, now, eventId);
  }

  /** RetryScheduler.Schedule up to its write. Without room in a budget the copy keeps its contents, so the caller may go
      on to fail the task. */
  method ScheduleEdit(done: bool, task: TaskNode, e: ExecutionError, policy: RetryPolicy, seed: nat, now: Time, eventId: string)
    returns (event: Result<Event>)
    modifies task
    ensures Edited(task.Record(), event, Schedule(done, old(task.Record()), e, policy, seed, now, eventId))
    ensures event == Err(RetryBudgetExhausted) || event == Err(InvalidRetryCount) ==> task.Record() == old(task.Record())
  {
    if done {
      return Err(ContextDone);
    }
    var valid := ValidateError(e);
    if valid.Err? {
      return Err(valid.error);
    }
    if !e.kind.Transient? {
      return Err(ExecutionNotRetryable);
    }
    if now == ZERO_TIME {
      return Err(InvalidRetryNow);
    }
    var usable := ValidatePolicy(policy);
    if usable.Err? {
      return Err(usable.error);
    }
    event := ScheduleWithin(task, e, policy, seed, now, eventId);
  }

  /** The same, once error, clock and policy are known to be good. */
  method ScheduleWithin(task: TaskNode, e: ExecutionError, policy: RetryPolicy, seed: nat, now: Time, eventId: string)
    returns (event: Result<Event>)
    requires ValidateError(e).Ok? && e.kind.Transient? && now != ZERO_TIME && ValidatePolicy(policy).Ok?
    modifies task
    ensures Edited(task.Record(), event, Schedule(false, old(task.Record()), e, policy, seed, now, eventId))
    ensures event == Err(RetryBudgetExhausted) || event == Err(InvalidRetryCount) ==> task.Record() == old(task.Record())
  {
    var nextRetryCount := task.struct.retryCount + 1;
    if nextRetryCount > task.struct.maxRetries || nextRetryCount > policy.maxRetries {
      return Err(RetryBudgetExhausted);
    }
    var delay := Delay(policy, nextRetryCount, e.retryAfter, seed);
    if delay.Err? {
      return Err(delay.error);
    }
    event := RetryEdit(task, e.code, delay.value, now, eventId);
  }

  method RetryEdit(task: TaskNode, code: string, delay: Duration, now: Time, eventId: string) returns (event: Result<Event>)
    modifies task
    ensures match Domain.ScheduleRetry(old(task.Record()), now, now + delay)
            case Err(e) => event == Err(e) && task.Record() == old(task.Record())
            case Ok(t) => task.Record() == t.(errorMessage := code)
                          && event == NewTaskRetryingEvent(eventId, task.Record(), code, delay, now)
  {
    var scheduled := task.ScheduleRetry(now, now + delay);
    if scheduled.Err? {
      return Err(scheduled.error);
    }
    SetError(task, code);
    event := NewTaskRetryingEvent(eventId, task.Record(), code, delay, now);
  }

  /** FailTask: a retry if one is asked for and the budgets allow it, otherwise, from the unchanged copy, a failure. */
  method FailEdit(scheduler: bool, task: TaskNode, workerId: string, code: string, message: string, retryable: bool,
                  retryAfter: Duration, seed: nat, now: Time, eventId: string) returns (event: Result<Event>)
    modifies task
    ensures Edited(task.Record(), event, FailDraft(scheduler, old(task.Record()), workerId, code, message, retryable, retryAfter,
                                                   seed, now, eventId))
  {
    if retryable && scheduler {
      event := ScheduleEdit(false, task, ExecutionError(Transient, code, retryAfter), ExternalPolicy(task.Record()), seed, now, eventId);
      if event != Err(RetryBudgetExhausted) {
        return;
      }
    }
    event := FailedEdit(task, code + ": " + message, "task failed by external worker", FailureInfo(code, retryable, workerId), now,
                        eventId);
  }

  /** finishWithResult of the in-process worker. */
  method FinishEdit(task: TaskNode, result: ExecutionResult, now: Time, eventId: string) returns (event: Result<Event>)
    modifies task
    ensures Edited(task.Record(), event, FinishDraft(old(task.Record()), result, now, eventId))
  {
    SetResult(task, result.output);
    SetError(task, result.errorMessage);
    event := OutcomeEdit(task, result, now, eventId);
  }

  method OutcomeEdit(task: TaskNode, result: ExecutionResult, now: Time, eventId: string) returns (event: Result<Event>)
    modifies task
    ensures Edited(task.Record(), event, OutcomeDraftOf(old(task.Record()), result, now, eventId))
  {
    match result.outcome {
      case OutcomeSucceeded =>
        event := MoveEdit(task, Succeeded, TaskSucceeded, "task succeeded", NoPayload, now, eventId);
      case OutcomePartial =>
        event := MoveEdit(task, Partial, TaskPartial, "task partially succeeded", NoPayload, now, eventId);
      case OutcomeFailed =>
        if task.struct.errorMessage == "" {
          SetError(task, "executor reported failure");
        }
        event := MoveEdit(task, Failed, TaskFailed, "task failed", NoPayload, now, eventId);
      case OutcomeOther(quotedName) =>
        event := FailedEdit(task, "invalid execution outcome " + quotedName, "task failed", NoPayload, now, eventId);
    }
  }

  /** ProcessNext after an execution error: a retry if the error is transient, a policy is set and the budgets allow it,
      otherwise, from the unchanged copy, a failure. */
  method AbortEdit(task: TaskNode, cause: ExecuteError, policy: Option<RetryPolicy>, seed: nat, now: Time, eventId: string)
    returns (event: Result<Event>)
    modifies task
    ensures Edited(task.Record(), event, AbortDraft(old(task.Record()), cause, policy, seed, now, eventId))
  {
    var message := match cause case Plain(text) => text case Classified(error) => error.code;
    if cause.Classified? && cause.error.kind.Transient? && policy.Some? {
      event := ScheduleEdit(false, task, cause.error, policy.value, seed, now, eventId);
      if event != Err(RetryBudgetExhausted) && event != Err(InvalidRetryCount) {
        return;
      }
    }
    event := FailedEdit(task, message, "task failed", NoPayload, now, eventId);
  }
}
