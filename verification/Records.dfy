/** What a step that takes effect leaves behind, field by field: the whole new store, from the step's own arguments and
    the record as it is at that moment. A worker call computes its record from an old read; by fencing only the heartbeat
    time it writes back can be older than the store's. */
module Records {
  import opened Basics
  import opened Domain
  import opened Backoff
  import opened Selection
  import opened EventLog
  import opened Store
  import opened Worker
  import opened Plans
  import opened Runs
  import opened Guarantees
  import opened Claimants
  import opened Acceptance

  /** One record is replaced, one event joins its log and the index of events, and nothing else changes. */
  predicate Wrote(run: Run, i: nat, t: Task, e: Event)
    requires i + 1 < |run.states|
  {
    var s := run.states[i];
    run.states[i + 1] == State(s.tasks[t.id := t], s.index, s.byId[e.id := e], s.log[t.id := LogOf(s, t.id) + [e]])
  }

  // ---- Steps under the store locks ----

  /** A creation that changes the store stores the request: its workflow, input, budget and key under its id, queued and
      available from its own clock on, and indexed by its key if it has one. */
  lemma CreateStores(env: Env, run: Run, i: nat)
    requires IsRun(env, run) && i < |run.steps| && run.steps[i].Create? && run.states[i + 1] != run.states[i]
    ensures var step, s := run.steps[i], run.states[i];
            && step.taskId != "" && step.taskId !in s.tasks && step.workflow != "" && step.maxRetries >= 0
            && var t := Task(step.taskId, step.key, step.workflow, Queued, if step.input == "" then "{}" else step.input, "", "", 0,
                             0, step.maxRetries, step.now, 0, "", None, None, step.now, step.now, None, None);
               var e := Event(step.eventId, step.taskId, TaskCreated, "task created", NoPayload, 0, step.now);
               run.states[i + 1]
               == State(s.tasks[step.taskId := t],
                        if step.key == "" then s.index else s.index[step.workflow + "\0" + step.key := step.taskId],
                        s.byId[step.eventId := e], s.log[step.taskId := [e]])
  {
    StepIsNext(env, run, i);
    EventSourcing(env, run, i, run.steps[i].taskId);
    assert forall e: Event :: [] + [e] == [e];
  }

  /** A claim that changes the store leaves one task of its workflow running for its worker, with the whole lease from
      its own clock, and the event that says how it came by the task. */
  lemma ClaimStores(env: Env, run: Run, i: nat) returns (id: string)
    requires IsRun(env, run) && i < |run.steps| && run.steps[i].Claim? && run.states[i + 1] != run.states[i]
    ensures id in run.states[i].tasks && ClaimNextWithEvent(run.states[i], run.steps[i].options, run.steps[i].eventId).reply.Ok?
    ensures ClaimNextWithEvent(run.states[i], run.steps[i].options, run.steps[i].eventId).reply.value.id == id
    ensures var t, o := run.states[i].tasks[id], run.steps[i].options;
            var until, retries := Some(o.now + o.leaseDuration), t.retryCount + if t.status.Running? then 1 else 0;
            && (t.status.Queued? || t.status.Retrying? || t.status.Running?)
            && Wrote(run, i,
                     t.(status := Running, retryCount := retries, version := t.version + 1, leaseOwner := o.workerId,
                        leaseExpiresAt := until, lastHeartbeatAt := None, updatedAt := o.now,
                        startedAt := if t.startedAt.None? && !t.status.Running? then Some(o.now) else t.startedAt),
                     Event(run.steps[i].eventId, id,
                           if t.status.Queued? then TaskStarted else if t.status.Retrying? then TaskRetryStarted else TaskRecovered,
                           if t.status.Queued? then "task started" else if t.status.Retrying? then "task retry started"
                           else "task recovered after lease expiration",
                           ClaimInfo(o.workerId, until, retries), t.progress, o.now))
  {
    StepIsNext(env, run, i);
    KeysMatch(env, run, i);
    var s, o := run.states[i], run.steps[i].options;
    assert WellKeyed(s);
    var pick := ClaimPick(s.tasks, o.workflow, o.now).value;
    id := pick.id;
    if pick.kind.ClaimRecovery? {
      assert Recoverable(s.tasks[id], o.workflow, o.now);
    } else {
      assert Due(s.tasks[id], o.workflow, o.now);
    }
  }

  /** A reap that changes the store leaves one task failed, with the reaper's message, and touches nothing else of it. */
  lemma ReapStores(env: Env, run: Run, i: nat) returns (id: string)
    requires IsRun(env, run) && i < |run.steps| && run.steps[i].Reap? && run.states[i + 1] != run.states[i]
    ensures id in run.states[i].tasks
    ensures var t, now := run.states[i].tasks[id], run.steps[i].now;
            Wrote(run, i,
                  t.(status := Failed, errorMessage := "task lease expired and retry budget exhausted", version := t.version + 1,
                     leaseOwner := "", leaseExpiresAt := None, updatedAt := now, finishedAt := Some(now)),
                  Event(run.steps[i].eventId, id, TaskFailed, "task failed after lease expiration",
                        Reason("retry_budget_exhausted"), t.progress, now))
  {
    StepIsNext(env, run, i);
    KeysMatch(env, run, i);
    assert WellKeyed(run.states[i]);
    id := ReapPick(run.states[i].tasks, run.steps[i].now).value;
    ExpiredText();
  }

  lemma ExpiredText()
    ensures EXPIRED_MESSAGE == "task lease expired and retry budget exhausted"
  {
  }

  /** A cancellation that changes the store leaves its task canceled, keeping what it had reached. */
  lemma CancelStores(env: Env, run: Run, i: nat)
    requires IsRun(env, run) && i < |run.steps| && run.steps[i].Cancel? && run.states[i + 1] != run.states[i]
    ensures run.steps[i].taskId in run.states[i].tasks
    ensures var step, t := run.steps[i], run.states[i].tasks[run.steps[i].taskId];
            && (t.status.Queued? || t.status.Retrying? || t.status.Running?)
            && Wrote(run, i,
                     t.(status := Canceled, version := t.version + 1, leaseOwner := "", leaseExpiresAt := None,
                        updatedAt := step.now, finishedAt := Some(step.now)),
                     Event(step.eventId, step.taskId, TaskCanceled, "task canceled", Reason("requested_by_caller"),
                           t.progress, step.now))
  {
    StepIsNext(env, run, i);
    KeysMatch(env, run, i);
    assert WellKeyed(run.states[i]);
  }

  /** A renewal that is granted sets the three lease times of its task and nothing else. */
  lemma RenewalStores(env: Env, run: Run, i: nat)
    requires IsRun(env, run) && i < |run.steps| && (run.steps[i].Renew? || run.steps[i].Heartbeat?)
    requires RenewalAt(run, i).reply.Ok?
    ensures var s, o := run.states[i], RenewalOf(run.steps[i]);
            && o.taskId in s.tasks
            && run.states[i + 1]
               == s.(tasks := s.tasks[o.taskId := s.tasks[o.taskId].(leaseExpiresAt := Some(o.now + o.leaseDuration),
                                                                     lastHeartbeatAt := Some(o.now), updatedAt := o.now)])
  {
    RenewalStepIs(env, run, i);
  }

  // ---- Worker calls ----

  /** Records that agree in what is fenced differ at most in the lease times. */
  lemma FencedAgree(a: Task, b: Task)
    requires Fenced(a) == Fenced(b)
    ensures a == b.(leaseExpiresAt := a.leaseExpiresAt, lastHeartbeatAt := a.lastHeartbeatAt, updatedAt := a.updatedAt)
  {
  }

  /** A submission that changes the store is a write that was accepted. */
  lemma Submitted(s: State, p: Plan)
    requires Submit(s, p).state != s
    ensures p.Write? && p.edited.id == p.event.taskId && p.edited.id in s.tasks && s.tasks[p.edited.id].version == p.edited.version
    ensures Submit(s, p).state == Commit(s, p.edited.(version := p.edited.version + 1), p.event)
  {
  }

  /** The copy a landed call edited is, but for the lease times, the record as it is at the write. */
  lemma CopyIsCurrent(env: Env, run: Run, r: nat, i: nat, id: string)
    requires IsRun(env, run) && r <= i < |run.states| && id in run.states[r].tasks && id in run.states[i].tasks
    requires run.states[r].tasks[id].version == run.states[i].tasks[id].version
    ensures var copy := run.states[r].tasks[id];
            && copy == run.states[i].tasks[id].(leaseExpiresAt := copy.leaseExpiresAt, lastHeartbeatAt := copy.lastHeartbeatAt,
                                                updatedAt := copy.updatedAt)
            && copy.retryCount >= 0
  {
    Fencing(env, run, r, i, id);
    FencedAgree(run.states[r].tasks[id], run.states[i].tasks[id]);
    BoundedAttempts(env, run, r, id);
  }

  lemma CopyHasId(env: Env, run: Run, r: nat, id: string)
    requires IsRun(env, run) && r < |run.states| && id in run.states[r].tasks
    ensures run.states[r].tasks[id].id == id
  {
    KeysMatch(env, run, r);
    assert WellKeyed(run.states[r]);
  }

  /** The copy a landed call started from, and the record it is compared with. */
  function CopyAt(run: Run, i: nat): Task
    requires i < |run.steps| && run.steps[i].Act? && run.steps[i].r3 < |run.states|
    requires TaskIdOf(run.steps[i].call) in run.states[run.steps[i].r3].tasks
  {
    run.states[run.steps[i].r3].tasks[TaskIdOf(run.steps[i].call)]
  }

  lemma LandedPlan(env: Env, run: Run, i: nat)
    requires IsRun(env, run) && i < |run.steps| && run.steps[i].Act? && run.states[i + 1] != run.states[i]
    ensures var p, s := PlanAt(env, run, i), run.states[i];
            && p.Write? && p.edited.id == p.event.taskId && p.edited.id in s.tasks && s.tasks[p.edited.id].version == p.edited.version
            && Wrote(run, i, p.edited.(version := p.edited.version + 1), p.event)
  {
    ActSubmits(env, run, i, PlanAt(env, run, i));
    Submitted(run.states[i], PlanAt(env, run, i));
  }

  /** A planned write starts from the caller's own running copy. */
  lemma PlannedFrom(env: Env, run: Run, i: nat)
    requires IsRun(env, run) && i < |run.steps| && run.steps[i].Act? && PlanAt(env, run, i).Write?
    ensures TaskIdOf(run.steps[i].call) in run.states[run.steps[i].r3].tasks
    ensures var p, copy := PlanAt(env, run, i), CopyAt(run, i);
            && p.copy == copy && p.edited.id == copy.id && p.edited.version == copy.version
            && copy.status.Running? && copy.leaseOwner == WorkerIdOf(run.steps[i].call)
  {
    var x := ContextOf(env, run.states[..i + 1], run.steps[i]);
    assert x.h3 == run.states[run.steps[i].r3];
    PlanLawful(x, run.steps[i].call);
  }

  /** The write of any call is the edit it makes of its copy. */
  lemma PlanDraft(x: Context, c: WorkerCall)
    requires PlanOf(x, c).Write?
    ensures DraftOf(c, x.scheduler, PlanOf(x, c).copy, x.now, x.eventId) == Ok(Draft(PlanOf(x, c).edited, PlanOf(x, c).event))
  {
    match c
    case Complete(l, output, resultRef) => assert PlanOf(x, c) == OpenAndComplete(x, l, ResultOf(output, resultRef));
    case Progress(l, progress, message) =>
    case Fail(l, code, message, retryable, retryAfter, seed) =>
      assert PlanOf(x, c) == OpenAndFail(x, l, code, message, retryable, retryAfter, seed);
    case Release(l) => assert PlanOf(x, c) == OpenAndRelease(x, l);
    case Finish(id, worker, r) =>
    case Abort(id, worker, cause, policy, seed) =>
  }

  /** A landed call stored its edit of its copy, which was at the version of the record. */
  lemma LandedEdit(env: Env, run: Run, i: nat) returns (d: Draft)
    requires IsRun(env, run) && i < |run.steps| && run.steps[i].Act? && run.states[i + 1] != run.states[i]
    ensures TaskIdOf(run.steps[i].call) in run.states[run.steps[i].r3].tasks
    ensures var s, copy := run.states[i], CopyAt(run, i);
            && copy.status.Running? && copy.id in s.tasks && s.tasks[copy.id].version == copy.version
            && Wrote(run, i, d.task.(version := copy.version + 1), d.event)
    ensures var step := run.steps[i]; DraftOf(step.call, env.scheduler, CopyAt(run, i), step.now, step.eventId) == Ok(d)
  {
    LandedPlan(env, run, i);
    PlannedFrom(env, run, i);
    PlanDraft(ContextOf(env, run.states[..i + 1], run.steps[i]), run.steps[i].call);
    d := Draft(PlanAt(env, run, i).edited, PlanAt(env, run, i).event);
  }

  /** What every landed call has in common: it replaced its task by its edit of a copy that is, however old, but for the
      lease times the record as it is at the write. */
  lemma Landed(env: Env, run: Run, i: nat) returns (d: Draft)
    requires IsRun(env, run) && i < |run.steps| && run.steps[i].Act? && run.states[i + 1] != run.states[i]
    ensures TaskIdOf(run.steps[i].call) in run.states[i].tasks && TaskIdOf(run.steps[i].call) in run.states[run.steps[i].r3].tasks
    ensures var id, copy := TaskIdOf(run.steps[i].call), CopyAt(run, i);
            && copy == run.states[i].tasks[id].(leaseExpiresAt := copy.leaseExpiresAt, lastHeartbeatAt := copy.lastHeartbeatAt,
                                                updatedAt := copy.updatedAt)
            && copy.id == id && copy.status.Running? && copy.retryCount >= 0
    ensures var step := run.steps[i];
            && DraftOf(step.call, env.scheduler, CopyAt(run, i), step.now, step.eventId) == Ok(d)
            && Wrote(run, i, d.task.(version := CopyAt(run, i).version + 1), d.event)
  {
    d := LandedEdit(env, run, i);
    CopyHasId(env, run, run.steps[i].r3, TaskIdOf(run.steps[i].call));
    CopyIsCurrent(env, run, run.steps[i].r3, i, TaskIdOf(run.steps[i].call));
  }

  /** The record a call leaves when it ends the task: what the store shows, with the outcome and the times filled in. */
  function Ended(t: Task, seen: Task, status: Status, result: string, errorMessage: string, progress: int, now: Time): Task
  {
    t.(status := status, result := result, errorMessage := errorMessage, progress := progress, version := t.version + 1,
       leaseOwner := "", leaseExpiresAt := None, lastHeartbeatAt := seen.lastHeartbeatAt, updatedAt := now, finishedAt := Some(now))
  }

  /** The record a call leaves when it puts the task off to be tried again. */
  function Retried(t: Task, seen: Task, code: string, delay: Duration, now: Time): Task
  {
    t.(status := Retrying, errorMessage := code, retryCount := t.retryCount + 1, availableAt := now + delay, version := t.version + 1,
       leaseOwner := "", leaseExpiresAt := None, lastHeartbeatAt := seen.lastHeartbeatAt, updatedAt := now)
  }

  /** The event of a retry of the task as it was. */
  function RetryEvent(t: Task, code: string, delay: Duration, now: Time, eventId: string): Event
  {
    Event(eventId, t.id, TaskRetrying, "task scheduled for retry",
          RetryInfo(code, t.retryCount + 1, t.maxRetries, now + delay, delay / 1_000_000), t.progress, now)
  }

  /** Ending or putting off a copy that differs from the record only in the lease times is ending or putting off the record. */
  lemma EndedFrom(t: Task, copy: Task, status: Status, result: string, errorMessage: string, progress: int, now: Time)
    requires copy == t.(leaseExpiresAt := copy.leaseExpiresAt, lastHeartbeatAt := copy.lastHeartbeatAt, updatedAt := copy.updatedAt)
    ensures Ended(copy, copy, status, result, errorMessage, progress, now) == Ended(t, copy, status, result, errorMessage, progress, now)
    ensures copy.result == t.result && copy.errorMessage == t.errorMessage && copy.progress == t.progress
  {
  }

  lemma RetriedFrom(t: Task, copy: Task, code: string, delay: Duration, now: Time, eventId: string)
    requires copy == t.(leaseExpiresAt := copy.leaseExpiresAt, lastHeartbeatAt := copy.lastHeartbeatAt, updatedAt := copy.updatedAt)
    ensures Retried(copy, copy, code, delay, now) == Retried(t, copy, code, delay, now)
    ensures RetryEvent(copy, code, delay, now, eventId) == RetryEvent(t, code, delay, now, eventId)
    ensures copy.retryCount == t.retryCount && copy.maxRetries == t.maxRetries && copy.workflow == t.workflow
  {
  }

  /** A delay after the n-th failure: between half and the whole of the base doubled n - 1 times, no more than the
      maximum, and no less than asked for. */
  predicate InBackoff(delay: Duration, base: Duration, max: Duration, n: nat, retryAfter: Duration)
    requires n >= 1
  {
    var cap := Min(base * Pow2(n - 1), max);
    0 < delay && Max(cap / 2, retryAfter) <= delay <= Max(cap, retryAfter)
  }

  lemma CompleteMakes(t: Task, worker: string, result: string, now: Time, eventId: string)
    requires CompleteDraft(t, worker, result, now, eventId).Ok?
    ensures var d := CompleteDraft(t, worker, result, now, eventId).value;
            && d.task.(version := t.version + 1) == Ended(t, t, Succeeded, result, t.errorMessage, 100, now)
            && d.event == Event(eventId, t.id, TaskSucceeded, "task succeeded by external worker", WorkerInfo(worker), 100, now)
  {
  }

  /** A Complete that changes the store leaves its task succeeded with the submitted result: the reference if there is
      one, else the output, else an empty object. */
  lemma CompleteStores(env: Env, run: Run, i: nat)
    requires IsRun(env, run) && i < |run.steps| && run.steps[i].Act? && run.steps[i].call.Complete?
    requires run.states[i + 1] != run.states[i]
    ensures var step, c, id := run.steps[i], run.steps[i].call, run.steps[i].call.lease.taskId;
            && id in run.states[i].tasks && id in run.states[step.r3].tasks
            && var t, seen := run.states[i].tasks[id], run.states[step.r3].tasks[id];
               var result := if c.resultRef != "" then c.resultRef else if c.output != "" then c.output else "{}";
               Wrote(run, i, Ended(t, seen, Succeeded, result, t.errorMessage, 100, step.now),
                     Event(step.eventId, id, TaskSucceeded, "task succeeded by external worker", WorkerInfo(c.lease.workerId),
                           100, step.now))
  {
    var d := Landed(env, run, i);
    var step, c := run.steps[i], run.steps[i].call;
    var result := ResultOf(c.output, c.resultRef);
    CompleteMakes(CopyAt(run, i), c.lease.workerId, result, step.now, step.eventId);
    EndedFrom(run.states[i].tasks[c.lease.taskId], CopyAt(run, i), Succeeded, result, CopyAt(run, i).errorMessage, 100, step.now);
  }

  /** A progress report that changes the store sets the progress and puts the lease times of its read back. */
  lemma ProgressStores(env: Env, run: Run, i: nat)
    requires IsRun(env, run) && i < |run.steps| && run.steps[i].Act? && run.steps[i].call.Progress?
    requires run.states[i + 1] != run.states[i]
    ensures var step, c, id := run.steps[i], run.steps[i].call, run.steps[i].call.lease.taskId;
            && id in run.states[i].tasks && id in run.states[step.r3].tasks
            && var t, seen := run.states[i].tasks[id], run.states[step.r3].tasks[id];
               var text := if TrimSpace(c.message) == "" then "task progress updated" else TrimSpace(c.message);
               Wrote(run, i,
                     t.(progress := c.progress, version := t.version + 1, leaseExpiresAt := seen.leaseExpiresAt,
                        lastHeartbeatAt := seen.lastHeartbeatAt, updatedAt := step.now),
                     Event(step.eventId, id, TaskProgress, text, ProgressInfo(c.progress, text, c.lease.workerId), c.progress,
                           step.now))
  {
    var d := Landed(env, run, i);
  }

  /** A release that changes the store puts its task back into the queue, available at once, without progress or message
      and with its retries as they were. */
  lemma ReleaseStores(env: Env, run: Run, i: nat)
    requires IsRun(env, run) && i < |run.steps| && run.steps[i].Act? && run.steps[i].call.Release?
    requires run.states[i + 1] != run.states[i]
    ensures var step, id := run.steps[i], run.steps[i].call.lease.taskId;
            && id in run.states[i].tasks && id in run.states[step.r3].tasks
            && var t, seen := run.states[i].tasks[id], run.states[step.r3].tasks[id];
               Wrote(run, i,
                     t.(status := Queued, progress := 0, errorMessage := "", availableAt := step.now, version := t.version + 1,
                        leaseOwner := "", leaseExpiresAt := None, lastHeartbeatAt := seen.lastHeartbeatAt, updatedAt := step.now),
                     Event(step.eventId, id, TaskReleased, "task released by worker during graceful shutdown",
                           Reason("worker_shutdown"), 0, step.now))
  {
    var d := Landed(env, run, i);
  }

  /** A scheduled retry, with its delay. */
  lemma ScheduleMakes(t: Task, e: ExecutionError, policy: RetryPolicy, seed: nat, now: Time, eventId: string) returns (delay: Duration)
    requires Schedule(false, t, e, policy, seed, now, eventId).Ok? && t.retryCount >= 0
    ensures var d := Schedule(false, t, e, policy, seed, now, eventId).value;
            && InBackoff(delay, policy.baseDelay, policy.maxDelay, t.retryCount + 1, e.retryAfter)
            && d.task.(version := t.version + 1) == Retried(t, t, e.code, delay, now) && d.task.version == t.version
            && d.event == RetryEvent(t, e.code, delay, now, eventId)
  {
    delay := Delay(policy, t.retryCount + 1, e.retryAfter, seed).value;
    DelayBounds(policy, t.retryCount + 1, e.retryAfter, seed);
  }

  lemma FailedMakes(t: Task, message: string, text: string, payload: Payload, now: Time, eventId: string)
    requires FailedDraft(t, message, text, payload, now, eventId).Ok? && t.status.Running?
    ensures var d := FailedDraft(t, message, text, payload, now, eventId).value;
            && d.task.version == t.version
            && d.task.(version := t.version + 1) == Ended(t, t, Failed, t.result, message, t.progress, now)
            && d.event == Event(eventId, t.id, TaskFailed, text, payload, t.progress, now)
  {
  }

  lemma FailMakes(scheduler: bool, t: Task, worker: string, code: string, message: string, retryable: bool,
                  retryAfter: Duration, seed: nat, now: Time, eventId: string) returns (delay: Duration)
    requires t.status.Running? && t.retryCount >= 0
    requires FailDraft(scheduler, t, worker, code, message, retryable, retryAfter, seed, now, eventId).Ok?
    ensures var d := FailDraft(scheduler, t, worker, code, message, retryable, retryAfter, seed, now, eventId).value;
            if retryable && scheduler && t.retryCount < t.maxRetries && (t.workflow == "llm_analysis" ==> t.retryCount < 3) then
              && InBackoff(delay, 1_000_000_000, 30_000_000_000, t.retryCount + 1, retryAfter)
              && d.task.(version := t.version + 1) == Retried(t, t, code, delay, now)
              && d.event == RetryEvent(t, code, delay, now, eventId)
            else
              && d.task.(version := t.version + 1) == Ended(t, t, Failed, t.result, code + ": " + message, t.progress, now)
              && d.event == Event(eventId, t.id, TaskFailed, "task failed by external worker",
                                  FailureInfo(code, retryable, worker), t.progress, now)
  {
    var e := ExecutionError(Transient, code, retryAfter);
    if retryable && scheduler && Schedule(false, t, e, ExternalPolicy(t), seed, now, eventId).Ok? {
      delay := ScheduleMakes(t, e, ExternalPolicy(t), seed, now, eventId);
    } else {
      delay := 0;
      FailedMakes(t, code + ": " + message, "task failed by external worker", FailureInfo(code, retryable, worker), now, eventId);
    }
  }

  /** A Fail that changes the store puts its task off by a backoff delay, storing the code, if a retry was asked for and
      is possible; otherwise it leaves the task failed with code and message. */
  lemma FailStores(env: Env, run: Run, i: nat) returns (delay: Duration)
    requires IsRun(env, run) && i < |run.steps| && run.steps[i].Act? && run.steps[i].call.Fail?
    requires run.states[i + 1] != run.states[i]
    ensures var step, c, id := run.steps[i], run.steps[i].call, run.steps[i].call.lease.taskId;
            && id in run.states[i].tasks && id in run.states[step.r3].tasks && run.states[i].tasks[id].retryCount >= 0
            && TrimSpace(c.errorCode) != "" && TrimSpace(c.errorMessage) != "" && c.retryAfter >= 0
            && var t, seen := run.states[i].tasks[id], run.states[step.r3].tasks[id];
               if c.retryable && env.scheduler && t.retryCount < t.maxRetries && (t.workflow == "llm_analysis" ==> t.retryCount < 3) then
                 && InBackoff(delay, 1_000_000_000, 30_000_000_000, t.retryCount + 1, c.retryAfter)
                 && Wrote(run, i, Retried(t, seen, c.errorCode, delay, step.now),
                          RetryEvent(t, c.errorCode, delay, step.now, step.eventId))
               else
                 Wrote(run, i, Ended(t, seen, Failed, t.result, c.errorCode + ": " + c.errorMessage, t.progress, step.now),
                       Event(step.eventId, id, TaskFailed, "task failed by external worker",
                             FailureInfo(c.errorCode, c.retryable, c.lease.workerId), t.progress, step.now))
  {
    var d := Landed(env, run, i);
    var step, c := run.steps[i], run.steps[i].call;
    delay := FailMakes(env.scheduler, CopyAt(run, i), c.lease.workerId, c.errorCode, c.errorMessage, c.retryable, c.retryAfter,
                       c.seed, step.now, step.eventId);
    var t, copy := run.states[i].tasks[c.lease.taskId], CopyAt(run, i);
    RetriedFrom(t, copy, c.errorCode, delay, step.now, step.eventId);
    EndedFrom(t, copy, Failed, copy.result, c.errorCode + ": " + c.errorMessage, copy.progress, step.now);
  }

  // ---- The in-process worker ----

  lemma FinishMakes(t: Task, r: ExecutionResult, now: Time, eventId: string)
    requires FinishDraft(t, r, now, eventId).Ok? && t.status.Running?
    ensures var d := FinishDraft(t, r, now, eventId).value;
            var succeeded, partial := r.outcome.OutcomeSucceeded?, r.outcome.OutcomePartial?;
            var message := if r.outcome.OutcomeOther? then "invalid execution outcome " + r.outcome.quotedName
                           else if r.outcome.OutcomeFailed? && r.errorMessage == "" then "executor reported failure"
                           else r.errorMessage;
            && d.task.(version := t.version + 1)
               == Ended(t, t, if succeeded then Succeeded else if partial then Partial else Failed, r.output, message, 100, now)
            && d.event == Event(eventId, t.id, if succeeded then TaskSucceeded else if partial then TaskPartial else TaskFailed,
                                if succeeded then "task succeeded" else if partial then "task partially succeeded" else "task failed",
                                NoPayload, 100, now)
  {
  }

  /** A result of the in-process worker that changes the store leaves its task in the status its outcome stands for, with
      the output, the whole progress and a message: the result's own, or one that says what was wrong. */
  lemma FinishStores(env: Env, run: Run, i: nat)
    requires IsRun(env, run) && i < |run.steps| && run.steps[i].Act? && run.steps[i].call.Finish?
    requires run.states[i + 1] != run.states[i]
    ensures var step, c, id := run.steps[i], run.steps[i].call, run.steps[i].call.taskId;
            && id in run.states[i].tasks && id in run.states[step.r3].tasks
            && var t, seen, r := run.states[i].tasks[id], run.states[step.r3].tasks[id], c.result;
               var succeeded, partial := r.outcome.OutcomeSucceeded?, r.outcome.OutcomePartial?;
               var message := if r.outcome.OutcomeOther? then "invalid execution outcome " + r.outcome.quotedName
                              else if r.outcome.OutcomeFailed? && r.errorMessage == "" then "executor reported failure"
                              else r.errorMessage;
               Wrote(run, i,
                     Ended(t, seen, if succeeded then Succeeded else if partial then Partial else Failed, r.output, message, 100,
                           step.now),
                     Event(step.eventId, id, if succeeded then TaskSucceeded else if partial then TaskPartial else TaskFailed,
                           if succeeded then "task succeeded" else if partial then "task partially succeeded" else "task failed",
                           NoPayload, 100, step.now))
  {
    var d := Landed(env, run, i);
    var step, c := run.steps[i], run.steps[i].call;
    FinishMakes(CopyAt(run, i), c.result, step.now, step.eventId);
    EndedFrom(run.states[i].tasks[c.taskId], CopyAt(run, i), d.task.status, c.result.output, d.task.errorMessage, 100, step.now);
  }

  lemma AbortMakes(t: Task, cause: ExecuteError, policy: Option<RetryPolicy>, seed: nat, now: Time, eventId: string)
    returns (delay: Duration)
    requires AbortDraft(t, cause, policy, seed, now, eventId).Ok? && t.status.Running? && t.retryCount >= 0
    ensures var d := AbortDraft(t, cause, policy, seed, now, eventId).value;
            if cause.Classified? && cause.error.kind.Transient? && policy.Some?
               && t.retryCount < t.maxRetries && t.retryCount < policy.value.maxRetries then
              && InBackoff(delay, policy.value.baseDelay, policy.value.maxDelay, t.retryCount + 1, cause.error.retryAfter)
              && d.task.(version := t.version + 1) == Retried(t, t, cause.error.code, delay, now)
              && d.event == RetryEvent(t, cause.error.code, delay, now, eventId)
            else
              && d.task.(version := t.version + 1)
                 == Ended(t, t, Failed, t.result, if cause.Plain? then cause.message else cause.error.code, t.progress, now)
              && d.event == Event(eventId, t.id, TaskFailed, "task failed", NoPayload, t.progress, now)
  {
    if cause.Classified? && cause.error.kind.Transient? && policy.Some?
       && Schedule(false, t, cause.error, policy.value, seed, now, eventId).Ok? {
      delay := ScheduleMakes(t, cause.error, policy.value, seed, now, eventId);
    } else {
      delay := 0;
      FailedMakes(t, if cause.Plain? then cause.message else cause.error.code, "task failed", NoPayload, now, eventId);
    }
  }

  /** An execution error that changes the store puts its task off, storing the code, exactly if it is transient, the
      workflow has a policy, and both budgets have room; otherwise it leaves the task failed with the error's text or code. */
  lemma AbortStores(env: Env, run: Run, i: nat) returns (delay: Duration)
    requires IsRun(env, run) && i < |run.steps| && run.steps[i].Act? && run.steps[i].call.Abort?
    requires run.states[i + 1] != run.states[i]
    ensures var step, c, id := run.steps[i], run.steps[i].call, run.steps[i].call.taskId;
            && id in run.states[i].tasks && id in run.states[step.r3].tasks && run.states[i].tasks[id].retryCount >= 0
            && var t, seen := run.states[i].tasks[id], run.states[step.r3].tasks[id];
               if c.cause.Classified? && c.cause.error.kind.Transient? && c.policy.Some?
                  && t.retryCount < t.maxRetries && t.retryCount < c.policy.value.maxRetries then
                 && InBackoff(delay, c.policy.value.baseDelay, c.policy.value.maxDelay, t.retryCount + 1, c.cause.error.retryAfter)
                 && Wrote(run, i, Retried(t, seen, c.cause.error.code, delay, step.now),
                          RetryEvent(t, c.cause.error.code, delay, step.now, step.eventId))
               else
                 Wrote(run, i, Ended(t, seen, Failed, t.result, if c.cause.Plain? then c.cause.message else c.cause.error.code,
                                     t.progress, step.now),
                       Event(step.eventId, id, TaskFailed, "task failed", NoPayload, t.progress, step.now))
  {
    var d := Landed(env, run, i);
    var step, c := run.steps[i], run.steps[i].call;
    delay := AbortMakes(CopyAt(run, i), c.cause, c.policy, c.seed, step.now, step.eventId);
    var t, copy := run.states[i].tasks[c.taskId], CopyAt(run, i);
    if c.cause.Classified? {
      RetriedFrom(t, copy, c.cause.error.code, delay, step.now, step.eventId);
    }
    EndedFrom(t, copy, Failed, copy.result, if c.cause.Plain? then c.cause.message else c.cause.error.code, copy.progress, step.now);
  }
}
