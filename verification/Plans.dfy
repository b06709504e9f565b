/** Every plan that ends in a write turns a running copy owned by the caller into the record its event describes. */
module Plans {
  import opened Basics
  import opened Domain
  import opened EventLog
  import opened Backoff
  import opened Store
  import opened Worker

  /** The fields no step may change after creation. */
  datatype Identity = Identity(
    id: string, idempotencyKey: string, workflow: string, input: string, maxRetries: int, createdAt: Time)

  function IdentityOf(t: Task): Identity
  {
    Identity(t.id, t.idempotencyKey, t.workflow, t.input, t.maxRetries, t.createdAt)
  }

  /** A task is running exactly when it has an owner, and exactly when it has a lease expiry. */
  predicate LeaseShape(t: Task)
  {
    (t.status.Running? <==> t.leaseOwner != "") && (t.status.Running? <==> t.leaseExpiresAt.Some?)
  }

  /** `next` is `copy` after `event`: same identity, one version on, and the summary the event predicts. */
  predicate Follows(copy: Task, next: Task, event: Event)
  {
    && IdentityOf(next) == IdentityOf(copy)
    && event.taskId == next.id
    && Fits(Summarize(copy), event)
    && Summarize(next) == Advance(Summarize(copy), event)
    && 0 <= event.progress <= 100
    && (LeaseShape(copy) ==> LeaseShape(next))
    && (copy.retryCount <= copy.maxRetries ==> next.retryCount <= next.maxRetries)
  }

  /** The write a plan asks for: from a running copy held by `worker`, to a record that follows it. */
  predicate Lawful(p: Plan, worker: string)
    requires p.Write?
  {
    && p.copy.status.Running? && p.copy.leaseOwner == worker && worker != ""
    && p.edited.version == p.copy.version
    && !IsClaim(p.event.kind)
    && Follows(p.copy, p.edited.(version := p.copy.version + 1), p.event)
  }

  lemma OpenTaskFacts(h2: State, h3: State, l: Lease, now: Time)
    requires OpenTask(h2, h3, l, now).Ok?
    ensures var t := OpenTask(h2, h3, l, now).value;
            && l.taskId in h3.tasks && t == h3.tasks[l.taskId]
            && HoldsLease(t, l.workerId, now) && l.workerId != ""
            && CheckToken(l).Ok? && t.version == l.token.value.version
  {
  }

  lemma ScheduleFollows(done: bool, t: Task, e: ExecutionError, policy: RetryPolicy, seed: nat, now: Time, eventId: string)
    requires Schedule(done, t, e, policy, seed, now, eventId).Ok?
    ensures var d := Schedule(done, t, e, policy, seed, now, eventId).value;
            DraftFollows(t, d, now) && d.event.kind.TaskRetrying? && d.task.status.Retrying? && d.task.errorMessage == e.code
  {
  }

  function FinalKind(s: Status): EventKind
    requires IsTerminal(s)
  {
    match s
    case Succeeded => TaskSucceeded
    case Partial => TaskPartial
    case Failed => TaskFailed
    case Canceled => TaskCanceled
  }

  /** Finishing a running copy, after setting result, progress and message, follows the copy. */
  lemma FinalFollows(copy: Task, base: Task, status: Status, now: Time, event: Event)
    requires copy.status.Running? && IsTerminal(status)
    requires base == copy.(result := base.result, progress := base.progress, errorMessage := base.errorMessage)
    requires event.kind == FinalKind(status) && event.taskId == copy.id && event.createdAt == now
    requires 0 <= event.progress <= 100 && event.progress == base.progress
    ensures MoveTo(base, status, now) == Ok(Moved(base, status, now))
    ensures Follows(copy, Moved(base, status, now).(version := copy.version + 1), event)
  {
  }

  lemma OutcomeFollows(copy: Task, base: Task, status: Status, kind: EventKind, text: string, now: Time, eventId: string)
    requires copy.status.Running? && IsTerminal(status) && kind == FinalKind(status)
    requires base == copy.(result := base.result, progress := base.progress, errorMessage := base.errorMessage)
    requires OutcomeDraft(base, status, kind, text, now, eventId).Ok?
    ensures DraftFollows(copy, OutcomeDraft(base, status, kind, text, now, eventId).value, now)
    ensures var d := OutcomeDraft(base, status, kind, text, now, eventId).value;
            d.event.kind == kind && d.task.result == base.result
  {
    FinalFollows(copy, base, status, now, OutcomeDraft(base, status, kind, text, now, eventId).value.event);
  }

  lemma FailedFollows(copy: Task, base: Task, message: string, text: string, payload: Payload, now: Time, eventId: string)
    requires copy.status.Running?
    requires base == copy.(result := base.result, progress := base.progress, errorMessage := base.errorMessage)
    requires FailedDraft(base, message, text, payload, now, eventId).Ok?
    ensures DraftFollows(copy, FailedDraft(base, message, text, payload, now, eventId).value, now)
    ensures var d := FailedDraft(base, message, text, payload, now, eventId).value;
            && d.event.kind.TaskFailed? && d.task.errorMessage == message && d.task.result == base.result
            && d.task.status.Failed?
  {
    var d := FailedDraft(base, message, text, payload, now, eventId).value;
    FinalFollows(copy, base.(errorMessage := message), Failed, now, d.event);
  }

  /** A draft made from `t`: one version on, it follows `t`, and its event is no claim. */
  predicate DraftFollows(t: Task, d: Draft, now: Time)
  {
    d.task.version == t.version && Follows(t, d.task.(version := t.version + 1), d.event) && d.event.createdAt == now
    && !IsClaim(d.event.kind)
  }

  lemma FinishFollows(copy: Task, r: ExecutionResult, now: Time, eventId: string)
    requires copy.status.Running? && FinishDraft(copy, r, now, eventId).Ok?
    ensures DraftFollows(copy, FinishDraft(copy, r, now, eventId).value, now)
    ensures FinishDraft(copy, r, now, eventId).value.task.result == r.output
  {
    var done := copy.(result := r.output, progress := 100, errorMessage := r.errorMessage);
    match r.outcome
    case OutcomeSucceeded => OutcomeFollows(copy, done, Succeeded, TaskSucceeded, "task succeeded", now, eventId);
    case OutcomePartial => OutcomeFollows(copy, done, Partial, TaskPartial, "task partially succeeded", now, eventId);
    case OutcomeFailed =>
      OutcomeFollows(copy, if done.errorMessage == "" then done.(errorMessage := "executor reported failure") else done,
                     Failed, TaskFailed, "task failed", now, eventId);
    case OutcomeOther(name) =>
      FailedFollows(copy, done, "invalid execution outcome " + name, "task failed", NoPayload, now, eventId);
  }

  lemma AbortFollows(copy: Task, cause: ExecuteError, policy: Option<RetryPolicy>, seed: nat, now: Time, eventId: string)
    requires copy.status.Running? && AbortDraft(copy, cause, policy, seed, now, eventId).Ok?
    ensures DraftFollows(copy, AbortDraft(copy, cause, policy, seed, now, eventId).value, now)
    ensures !AbortDraft(copy, cause, policy, seed, now, eventId).value.event.kind.TaskSucceeded?
  {
    var message := if cause.Plain? then cause.message else cause.error.code;
    if FailedDraft(copy, message, "task failed", NoPayload, now, eventId).Ok? {
      FailedFollows(copy, copy, message, "task failed", NoPayload, now, eventId);
    }
    if cause.Classified? && policy.Some? && Schedule(false, copy, cause.error, policy.value, seed, now, eventId).Ok? {
      ScheduleFollows(false, copy, cause.error, policy.value, seed, now, eventId);
    }
  }

  lemma FailFollows(scheduler: bool, t: Task, worker: string, code: string, message: string, retryable: bool,
                    retryAfter: Duration, seed: nat, now: Time, eventId: string)
    requires t.status.Running?
    requires FailDraft(scheduler, t, worker, code, message, retryable, retryAfter, seed, now, eventId).Ok?
    ensures var d := FailDraft(scheduler, t, worker, code, message, retryable, retryAfter, seed, now, eventId).value;
            && DraftFollows(t, d, now)
            && (if d.event.kind.TaskFailed? then d.task.status.Failed? && d.task.errorMessage == code + ": " + message
                else d.event.kind.TaskRetrying? && d.task.status.Retrying? && d.task.errorMessage == code)
  {
    var e := ExecutionError(Transient, code, retryAfter);
    if retryable && scheduler && Schedule(false, t, e, ExternalPolicy(t), seed, now, eventId).Ok? {
      ScheduleFollows(false, t, e, ExternalPolicy(t), seed, now, eventId);
    } else {
      FailedFollows(t, t, code + ": " + message, "task failed by external worker", FailureInfo(code, retryable, worker), now, eventId);
    }
  }

  lemma PlanCompleteLawful(x: Context, l: Lease, result: string)
    requires PlanComplete(x, l, result).Write?
    ensures var p := PlanComplete(x, l, result);
            && l.taskId in x.h3.tasks && p.copy == x.h3.tasks[l.taskId] && Lawful(p, l.workerId)
            && p.event.createdAt == x.now && CheckToken(l).Ok? && p.copy.version == l.token.value.version
            && p.event.kind.TaskSucceeded? && p.edited.result == result
  {
    OpenTaskFacts(x.h2, x.h3, l, x.checkedAt);
    var t := OpenTask(x.h2, x.h3, l, x.checkedAt).value;
    FinalFollows(t, t.(result := result, progress := 100), Succeeded, x.now, PlanComplete(x, l, result).event);
  }

  lemma PlanProgressLawful(x: Context, l: Lease, progress: int, message: string)
    requires PlanProgress(x, l, progress, message).Write?
    ensures var p := PlanProgress(x, l, progress, message);
            && l.taskId in x.h3.tasks && p.copy == x.h3.tasks[l.taskId] && Lawful(p, l.workerId)
            && p.event.createdAt == x.now && CheckToken(l).Ok? && p.copy.version == l.token.value.version
            && p.event.kind.TaskProgress?
  {
    OpenTaskFacts(x.h2, x.h3, l, x.checkedAt);
  }

  lemma PlanFailLawful(x: Context, l: Lease, code: string, message: string, retryable: bool, retryAfter: Duration, seed: nat)
    requires PlanFail(x, l, code, message, retryable, retryAfter, seed).Write?
    ensures var p := PlanFail(x, l, code, message, retryable, retryAfter, seed);
            && l.taskId in x.h3.tasks && p.copy == x.h3.tasks[l.taskId] && Lawful(p, l.workerId)
            && p.event.createdAt == x.now && CheckToken(l).Ok? && p.copy.version == l.token.value.version
            && (p.event.kind.TaskFailed? || p.event.kind.TaskRetrying?)
            && p.edited.errorMessage == if p.event.kind.TaskFailed? then code + ": " + message else code
  {
    OpenTaskFacts(x.h2, x.h3, l, x.checkedAt);
    var t := OpenTask(x.h2, x.h3, l, x.checkedAt).value;
    FailFollows(x.scheduler, t, l.workerId, code, message, retryable, retryAfter, seed, x.now, x.eventId);
  }

  lemma PlanReleaseLawful(x: Context, l: Lease)
    requires PlanRelease(x, l).Write?
    ensures var p := PlanRelease(x, l);
            && l.taskId in x.h3.tasks && p.copy == x.h3.tasks[l.taskId] && Lawful(p, l.workerId)
            && p.event.createdAt == x.now && CheckToken(l).Ok? && p.copy.version == l.token.value.version
            && p.event.kind.TaskReleased?
  {
    OpenTaskFacts(x.h2, x.h3, l, x.checkedAt);
  }

  lemma PlanFinishLawful(x: Context, id: string, worker: string, r: ExecutionResult)
    requires PlanFinish(x, id, worker, r).Write?
    ensures var p := PlanFinish(x, id, worker, r);
            && id in x.h3.tasks && p.copy == x.h3.tasks[id] && Lawful(p, worker) && p.event.createdAt == x.now
            && p.edited.result == r.output
  {
    FinishFollows(ClaimedCopy(x.h3, id, worker).value, r, x.now, x.eventId);
  }

  lemma PlanAbortLawful(x: Context, id: string, worker: string, cause: ExecuteError, policy: Option<RetryPolicy>, seed: nat)
    requires PlanAbort(x, id, worker, cause, policy, seed).Write?
    ensures var p := PlanAbort(x, id, worker, cause, policy, seed);
            && id in x.h3.tasks && p.copy == x.h3.tasks[id] && Lawful(p, worker) && p.event.createdAt == x.now
            && !p.event.kind.TaskSucceeded?
  {
    AbortFollows(ClaimedCopy(x.h3, id, worker).value, cause, policy, seed, x.now, x.eventId);
  }

  /** All six calls: a write starts from the caller's own running copy in the last snapshot and obeys its event. */
  lemma PlanLawful(x: Context, c: WorkerCall)
    requires PlanOf(x, c).Write?
    ensures var p := PlanOf(x, c);
            && TaskIdOf(c) in x.h3.tasks && p.copy == x.h3.tasks[TaskIdOf(c)]
            && Lawful(p, WorkerIdOf(c))
            && p.event.createdAt == x.now
    ensures UsesToken(c) ==>
              CheckToken(c.lease).Ok? && PlanOf(x, c).copy.version == c.lease.token.value.version
  {
    match c
    case Complete(l, output, resultRef) => PlanCompleteLawful(x, l, ResultOf(output, resultRef));
    case Progress(l, progress, message) => PlanProgressLawful(x, l, progress, message);
    case Fail(l, code, message, retryable, retryAfter, seed) =>
      PlanFailLawful(x, l, code, message, retryable, retryAfter, seed);
    case Release(l) => PlanReleaseLawful(x, l);
    case Finish(id, worker, r) => PlanFinishLawful(x, id, worker, r);
    case Abort(id, worker, cause, policy, seed) => PlanAbortLawful(x, id, worker, cause, policy, seed);
  }

  /** For a running task, a valid transient error and a valid policy, scheduling a retry succeeds exactly when the
      context is live and both budgets have room; without room it says so and nothing else can go wrong. */
  lemma ScheduleTotal(done: bool, t: Task, e: ExecutionError, policy: RetryPolicy, seed: nat, now: Time, eventId: string)
    requires t.status.Running? && t.id != "" && 0 <= t.progress <= 100 && t.retryCount >= 0
    requires ValidateError(e).Ok? && e.kind.Transient? && ValidatePolicy(policy).Ok?
    requires now != ZERO_TIME && eventId != ""
    ensures var r := Schedule(done, t, e, policy, seed, now, eventId);
            && (r.Ok? <==> !done && t.retryCount < t.maxRetries && t.retryCount < policy.maxRetries)
            && (r == Err(RetryBudgetExhausted) <==> !done && !(t.retryCount < t.maxRetries && t.retryCount < policy.maxRetries))
            && (r == Err(ContextDone) <==> done)
    ensures var r := Schedule(done, t, e, policy, seed, now, eventId);
            r.Ok? ==>
              var cap := Cap(policy.baseDelay, policy.maxDelay, t.retryCount + 1);
              && r.value.task.availableAt > now
              && now + Max(cap / 2, e.retryAfter) <= r.value.task.availableAt <= now + Max(cap, e.retryAfter)
              && r.value.task.retryCount == t.retryCount + 1
              && r.value.task.status.Retrying? && r.value.task.errorMessage == e.code
              && r.value.event.payload.availableAt == r.value.task.availableAt
  {
    if t.retryCount < t.maxRetries && t.retryCount < policy.maxRetries {
      DelayBounds(policy, t.retryCount + 1, e.retryAfter, seed);
    }
  }

  /** Of a running task a retry can be scheduled exactly when the context is live, the error is transient with a code that
      is not blank and no negative wait, the policy's numbers make sense, clock and event id are set, and both budgets
      have room. */
  lemma ScheduleExactly(done: bool, t: Task, e: ExecutionError, policy: RetryPolicy, seed: nat, now: Time, eventId: string)
    requires t.status.Running? && t.id != "" && 0 <= t.progress <= 100 && t.retryCount >= 0
    ensures Schedule(done, t, e, policy, seed, now, eventId).Ok? <==>
              && !done && e.kind.Transient? && TrimSpace(e.code) != "" && e.retryAfter >= 0
              && policy.maxRetries >= 0 && 0 < policy.baseDelay <= policy.maxDelay && now != ZERO_TIME && eventId != ""
              && t.retryCount < t.maxRetries && t.retryCount < policy.maxRetries
  {
    if ValidateError(e).Ok? && e.kind.Transient? && ValidatePolicy(policy).Ok? && now != ZERO_TIME && eventId != "" {
      ScheduleTotal(done, t, e, policy, seed, now, eventId);
    }
  }

  /** The edit of a Fail schedules a retry exactly when one was asked for, a scheduler is set and both budgets have
      room: the task's own, and three retries for the one workflow that has a policy of its own; otherwise it fails the
      task. A scheduled retry waits between half and the whole of one second doubled per retry, at most thirty. */
  lemma FailKind(scheduler: bool, t: Task, worker: string, code: string, message: string, retryable: bool,
                 retryAfter: Duration, seed: nat, now: Time, eventId: string)
    requires t.status.Running?
    requires FailDraft(scheduler, t, worker, code, message, retryable, retryAfter, seed, now, eventId).Ok?
    ensures var d := FailDraft(scheduler, t, worker, code, message, retryable, retryAfter, seed, now, eventId).value;
            && (d.event.kind.TaskRetrying? <==>
                  retryable && scheduler && t.retryCount < t.maxRetries && (t.workflow == "llm_analysis" ==> t.retryCount < 3))
            && (d.event.kind.TaskRetrying? && t.retryCount >= 0 ==>
                  var cap := Min(1_000_000_000 * Pow2(t.retryCount), 30_000_000_000);
                  now + Max(cap / 2, retryAfter) <= d.task.availableAt <= now + Max(cap, retryAfter))
  {
    FailFollows(scheduler, t, worker, code, message, retryable, retryAfter, seed, now, eventId);
    var e := ExecutionError(Transient, code, retryAfter);
    if retryable && scheduler && Schedule(false, t, e, ExternalPolicy(t), seed, now, eventId).Ok? {
      ScheduleFollows(false, t, e, ExternalPolicy(t), seed, now, eventId);
    } else {
      FailedFollows(t, t, code + ": " + message, "task failed by external worker", FailureInfo(code, retryable, worker), now, eventId);
    }
  }

  /** For a well-formed running task and request the edit of a Fail always exists: the fall-through from an exhausted
      budget to failed is legal. */
  lemma FailTotal(scheduler: bool, t: Task, worker: string, code: string, message: string, retryable: bool,
                  retryAfter: Duration, seed: nat, now: Time, eventId: string)
    requires t.status.Running? && t.id != "" && 0 <= t.progress <= 100 && 0 <= t.retryCount && 0 <= t.maxRetries
    requires TrimSpace(code) != "" && retryAfter >= 0 && now != ZERO_TIME && eventId != ""
    ensures FailDraft(scheduler, t, worker, code, message, retryable, retryAfter, seed, now, eventId).Ok?
  {
    ScheduleTotal(false, t, ExecutionError(Transient, code, retryAfter), ExternalPolicy(t), seed, now, eventId);
  }
}
