/** When calls take effect: a live claimant is never turned away, and nobody else is let in. */
module Acceptance {
  import opened Basics
  import opened Domain
  import opened Backoff
  import opened Selection
  import opened EventLog
  import opened Store
  import opened Worker
  import opened Plans
  import opened Runs
  import opened Guarantees
  import opened Claimants

  // ---- Worker calls with a token ----

  /** What the caller alone is responsible for. */
  predicate WellFormed(c: WorkerCall)
    requires UsesToken(c)
  {
    && CheckToken(c.lease).Ok? && TrimSpace(c.lease.workerId) != ""
    && match c
       case Progress(_, progress, _) => 0 <= progress < 100
       case Fail(_, code, message, _, retryAfter, _) => TrimSpace(code) != "" && TrimSpace(message) != "" && retryAfter >= 0
       case _ => true
  }

  /** What the edits need of the record; every record of a run has it. */
  predicate Editable(t: Task)
  {
    t.status.Running? && t.id != "" && 0 <= t.progress <= 100 && 0 <= t.retryCount && 0 <= t.maxRetries
  }

  /** The snapshots of a call show its task at the token's version, running with a lease not yet expired. */
  predicate SeesLive(x: Context, l: Lease)
  {
    && CheckToken(l).Ok? && l.taskId in x.h1.tasks && l.taskId in x.h2.tasks && l.taskId in x.h3.tasks
    && x.h1.tasks[l.taskId].version == l.token.value.version
    && x.h2.tasks[l.taskId].version == l.token.value.version && x.h2.tasks[l.taskId].leaseOwner == l.workerId
    && x.h3.tasks[l.taskId].version == l.token.value.version && HoldsLease(x.h3.tasks[l.taskId], l.workerId, x.checkedAt)
  }

  lemma LiveOpens(x: Context, l: Lease, statuses: set<Status>)
    requires SeesLive(x, l) && TrimSpace(l.workerId) != ""
    ensures OpenTask(x.h2, x.h3, l, x.checkedAt) == Ok(x.h3.tasks[l.taskId])
    ensures ReplayWorkerOperation(x.h1, l, statuses) == Ok(None)
  {
  }

  /** Such a call ends in a write. */
  lemma LivePlansWrite(x: Context, c: WorkerCall)
    requires UsesToken(c) && WellFormed(c) && SeesLive(x, c.lease) && Editable(x.h3.tasks[c.lease.taskId])
    requires x.now != ZERO_TIME && x.eventId != ""
    ensures PlanOf(x, c).Write?
  {
    var t := x.h3.tasks[c.lease.taskId];
    match c
    case Complete(l, _, _) => LiveOpens(x, l, {Succeeded});
    case Progress(l, _, _) => LiveOpens(x, l, {});
    case Release(l) => LiveOpens(x, l, {Queued});
    case Fail(l, code, message, retryable, retryAfter, seed) =>
      LiveOpens(x, l, {Retrying, Failed});
      FailTotal(x.scheduler, t, l.workerId, code, message, retryable, retryAfter, seed, x.now, x.eventId);
  }

  lemma FailEventId(scheduler: bool, t: Task, worker: string, code: string, message: string, retryable: bool,
                    retryAfter: Duration, seed: nat, now: Time, eventId: string)
    requires FailDraft(scheduler, t, worker, code, message, retryable, retryAfter, seed, now, eventId).Ok?
    ensures FailDraft(scheduler, t, worker, code, message, retryable, retryAfter, seed, now, eventId).value.event.id == eventId
  {
  }

  /** A write carries the event id drawn for it, and starts from a copy whose lease has not expired. */
  lemma WriteFacts(x: Context, c: WorkerCall)
    requires UsesToken(c) && PlanOf(x, c).Write?
    ensures PlanOf(x, c).event.id == x.eventId
    ensures c.lease.taskId in x.h3.tasks && HoldsLease(x.h3.tasks[c.lease.taskId], c.lease.workerId, x.checkedAt)
  {
    OpenTaskFacts(x.h2, x.h3, c.lease, x.checkedAt);
    if c.Fail? {
      FailEventId(x.scheduler, OpenTask(x.h2, x.h3, c.lease, x.checkedAt).value, c.lease.workerId, c.errorCode, c.errorMessage,
                  c.retryable, c.retryAfter, c.seed, x.now, x.eventId);
    }
  }

  /** The condition of a call's effect: at the write the version is still the token's and the event id is new, and
      at the last read the lease had not expired. */
  predicate Live(run: Run, i: nat, l: Lease, step: Step)
    requires step.Act? && l.token.Some? && i < |run.states| && step.r3 < |run.states|
  {
    && l.taskId in run.states[i].tasks && run.states[i].tasks[l.taskId].version == l.token.value.version
    && step.eventId !in run.states[i].byId
    && l.taskId in run.states[step.r3].tasks
    && var expiry := run.states[step.r3].tasks[l.taskId].leaseExpiresAt; expiry.Some? && expiry.value > step.checkedAt
  }

  /** A call whose token does not name its task and its worker, or no version, gets nothing and changes nothing. */
  lemma ForeignToken(env: Env, run: Run, i: nat)
    requires IsRun(env, run) && i < |run.steps| && run.steps[i].Act? && UsesToken(run.steps[i].call)
    requires var l := run.steps[i].call.lease;
             l.taskId == "" || l.workerId == "" || l.token.None? || l.token.value.version == 0
             || l.token.value != LeaseToken(l.taskId, l.workerId, l.token.value.version)
    ensures run.states[i + 1] == run.states[i]
    ensures ReplyAt(env, run, i) == Err(LeaseLost) || (run.steps[i].call.Progress? && ReplyAt(env, run, i) == Err(InvalidWorkerRequest))
  {
    TokenFirst(ContextOf(env, run.states[..i + 1], run.steps[i]), run.steps[i].call);
    ReplyChangesNothing(env, run, i);
  }

  lemma TokenFirst(x: Context, c: WorkerCall)
    requires UsesToken(c) && CheckToken(c.lease).Err?
    ensures PlanOf(x, c) == Reply(Err(LeaseLost)) || (c.Progress? && PlanOf(x, c) == Reply(Err(InvalidWorkerRequest)))
  {
  }

  /** A call that is not well formed changes nothing, whatever the state of its task. */
  lemma IllFormedChangesNothing(env: Env, run: Run, i: nat)
    requires IsRun(env, run) && i < |run.steps| && run.steps[i].Act? && UsesToken(run.steps[i].call)
    requires !WellFormed(run.steps[i].call) || run.steps[i].eventId == ""
    ensures run.states[i + 1] == run.states[i]
  {
    IllFormedReplies(ContextOf(env, run.states[..i + 1], run.steps[i]), run.steps[i].call);
    ReplyChangesNothing(env, run, i);
  }

  lemma IllFormedReplies(x: Context, c: WorkerCall)
    requires UsesToken(c) && (!WellFormed(c) || x.eventId == "")
    ensures PlanOf(x, c).Reply?
  {
  }

  /** If the version is the token's at the write, every read since the token was issued shows the same claim. */
  lemma LiveIsSeen(env: Env, run: Run, i: nat)
    requires IsRun(env, run) && i < |run.steps| && run.steps[i].Act? && UsesToken(run.steps[i].call)
    requires CheckToken(run.steps[i].call.lease).Ok?
    requires Issued(run, run.steps[i].r1, run.steps[i].call.lease.token.value)
    requires Live(run, i, run.steps[i].call.lease, run.steps[i])
    ensures SeesLive(ContextOf(env, run.states[..i + 1], run.steps[i]), run.steps[i].call.lease)
    ensures Editable(run.states[run.steps[i].r3].tasks[run.steps[i].call.lease.taskId])
  {
    var step := run.steps[i];
    var l := step.call.lease;
    var j :| 0 <= j <= step.r1 && IssuedAt(run, j, l.token.value);
    SameBetween(env, run, j, step.r1, i, l.taskId);
    SameBetween(env, run, j, step.r2, i, l.taskId);
    SameBetween(env, run, j, step.r3, i, l.taskId);
    EventSourcing(env, run, step.r3, l.taskId);
    BoundedAttempts(env, run, step.r3, l.taskId);
  }

  /** A version seen at both ends is the version in between, with everything it fixes. */
  lemma SameBetween(env: Env, run: Run, j: nat, k: nat, i: nat, id: string)
    requires IsRun(env, run) && j <= k <= i < |run.states| && id in run.states[j].tasks && id in run.states[i].tasks
    requires run.states[j].tasks[id].version == run.states[i].tasks[id].version
    ensures id in run.states[k].tasks && run.states[k].tasks[id].version == run.states[j].tasks[id].version
    ensures run.states[k].tasks[id].leaseOwner == run.states[j].tasks[id].leaseOwner
    ensures run.states[k].tasks[id].status == run.states[j].tasks[id].status
  {
    Fencing(env, run, j, k, id);
    Fencing(env, run, k, i, id);
  }

  /** Exactly the live claimant acts: a well-formed Complete, Progress, Fail or Release with an issued token changes
      the store if and only if nothing changed the task since the token, its lease had not expired when it was
      checked, and its event id is new. */
  lemma LiveCallActs(env: Env, run: Run, i: nat)
    requires IsRun(env, run) && i < |run.steps| && run.steps[i].Act? && UsesToken(run.steps[i].call)
    requires WellFormed(run.steps[i].call) && run.steps[i].now != ZERO_TIME && run.steps[i].eventId != ""
    requires Issued(run, run.steps[i].r1, run.steps[i].call.lease.token.value)
    ensures run.states[i + 1] != run.states[i] <==> Live(run, i, run.steps[i].call.lease, run.steps[i])
    ensures run.states[i + 1] != run.states[i] ==> ReplyAt(env, run, i).Ok?
  {
    var step := run.steps[i];
    var x := ContextOf(env, run.states[..i + 1], step);
    var p := PlanAt(env, run, i);
    assert x.h3 == run.states[step.r3];
    ActSubmits(env, run, i, p);
    KeysMatch(env, run, i);
    assert WellKeyed(run.states[step.r3]);
    if Live(run, i, step.call.lease, step) {
      LiveIsSeen(env, run, i);
      LivePlansWrite(x, step.call);
    }
    if p.Write? {
      WriteFacts(x, step.call);
      PlanLawful(x, step.call);
      SubmitExactly(run.states[i], p);
    }
  }

  /** A write lands exactly when its task is there at its version and its event id is new. */
  lemma SubmitExactly(s: State, p: Plan)
    requires p.Write? && p.event.taskId == p.edited.id
    ensures Submit(s, p).state != s
            <==> p.edited.id in s.tasks && s.tasks[p.edited.id].version == p.edited.version && p.event.id !in s.byId
    ensures Submit(s, p).state != s <==> Submit(s, p).reply.Ok?
  {
    if Submit(s, p).reply.Ok? {
      assert Submit(s, p).state.tasks[p.edited.id].version == s.tasks[p.edited.id].version + 1;
    }
  }

  /** The in-process worker can always make its edit of a claimed copy. */
  lemma FinishPlans(x: Context, id: string, worker: string, r: ExecutionResult)
    requires x.eventId != "" && id != "" && WellKeyed(x.h3)
    ensures PlanFinish(x, id, worker, r).Write? <==> ClaimedCopy(x.h3, id, worker).Ok?
    ensures PlanFinish(x, id, worker, r).Write? ==> PlanFinish(x, id, worker, r).event.id == x.eventId
  {
  }

  /** The in-process worker's result takes effect exactly when nothing changed the task since its copy; that the lease
      may have run out meanwhile does not matter as long as nobody took the task over. */
  lemma FinishActs(env: Env, run: Run, i: nat)
    requires IsRun(env, run) && i < |run.steps| && run.steps[i].Act? && run.steps[i].call.Finish? && run.steps[i].eventId != ""
    ensures var step, id := run.steps[i], run.steps[i].call.taskId;
            run.states[i + 1] != run.states[i] <==>
              && ClaimedCopy(run.states[step.r3], id, step.call.workerId).Ok?
              && id in run.states[i].tasks && run.states[i].tasks[id].version == run.states[step.r3].tasks[id].version
              && step.eventId !in run.states[i].byId
  {
    var step := run.steps[i];
    var x := ContextOf(env, run.states[..i + 1], step);
    var p := PlanAt(env, run, i);
    assert x.h3 == run.states[step.r3];
    ActSubmits(env, run, i, p);
    KeysMatch(env, run, i);
    assert WellKeyed(run.states[step.r3]);
    EventSourcing(env, run, step.r3, step.call.taskId);
    if step.call.taskId in run.states[step.r3].tasks {
      FinishPlans(x, step.call.taskId, step.call.workerId, step.call.result);
    }
    if p.Write? {
      PlanLawful(x, step.call);
      SubmitExactly(run.states[i], p);
    }
  }

  /** An execution error the in-process worker can act on: it is plain, not to be retried, or valid with a valid policy. */
  predicate Actionable(cause: ExecuteError, policy: Option<RetryPolicy>, now: Time)
  {
    cause.Classified? && cause.error.kind.Transient? && policy.Some? ==>
      && TrimSpace(cause.error.code) != "" && cause.error.retryAfter >= 0 && now != ZERO_TIME
      && policy.value.maxRetries >= 0 && 0 < policy.value.baseDelay <= policy.value.maxDelay
  }

  lemma AbortPlans(x: Context, id: string, worker: string, cause: ExecuteError, policy: Option<RetryPolicy>, seed: nat)
    requires x.eventId != "" && id in x.h3.tasks && x.h3.tasks[id].id == id != ""
    requires 0 <= x.h3.tasks[id].progress <= 100 && 0 <= x.h3.tasks[id].retryCount
    ensures PlanAbort(x, id, worker, cause, policy, seed).Write?
            <==> ClaimedCopy(x.h3, id, worker).Ok? && Actionable(cause, policy, x.now)
    ensures PlanAbort(x, id, worker, cause, policy, seed).Write? ==> PlanAbort(x, id, worker, cause, policy, seed).event.id == x.eventId
  {
    if ClaimedCopy(x.h3, id, worker).Ok? && Actionable(cause, policy, x.now)
       && cause.Classified? && cause.error.kind.Transient? && policy.Some? {
      ScheduleTotal(false, x.h3.tasks[id], cause.error, policy.value, seed, x.now, x.eventId);
    }
  }

  /** The same for an execution error: what ProcessNext makes of it, a retry or a failure, takes effect exactly when
      nothing changed the task since the worker's copy, unless a retry would rest on an invalid error or policy. */
  lemma AbortActs(env: Env, run: Run, i: nat)
    requires IsRun(env, run) && i < |run.steps| && run.steps[i].Act? && run.steps[i].call.Abort? && run.steps[i].eventId != ""
    ensures var step, c := run.steps[i], run.steps[i].call;
            run.states[i + 1] != run.states[i] <==>
              && ClaimedCopy(run.states[step.r3], c.taskId, c.workerId).Ok? && Actionable(c.cause, c.policy, step.now)
              && c.taskId in run.states[i].tasks
              && run.states[i].tasks[c.taskId].version == run.states[step.r3].tasks[c.taskId].version
              && step.eventId !in run.states[i].byId
  {
    var step := run.steps[i];
    var c := step.call;
    var x := ContextOf(env, run.states[..i + 1], step);
    var p := PlanAt(env, run, i);
    assert x.h3 == run.states[step.r3];
    ActSubmits(env, run, i, p);
    if c.taskId in run.states[step.r3].tasks {
      EventSourcing(env, run, step.r3, c.taskId);
      BoundedAttempts(env, run, step.r3, c.taskId);
      AbortPlans(x, c.taskId, c.workerId, c.cause, c.policy, c.seed);
    }
    if p.Write? {
      PlanLawful(x, c);
      SubmitExactly(run.states[i], p);
    }
  }

  // ---- Renewals ----

  function RenewalOf(step: Step): RenewOptions
    requires step.Renew? || step.Heartbeat?
  {
    if step.Renew? then step.renewal
    else RenewOptions(step.lease.taskId, step.lease.workerId, step.now, step.leaseDuration)
  }

  /** State and answer of a renewal step. */
  function RenewalAt(run: Run, i: nat): Outcome<()>
    requires i < |run.steps| < |run.states| && (run.steps[i].Renew? || run.steps[i].Heartbeat?) && ReadsThePast(run.steps[i], i)
  {
    var step := run.steps[i];
    if step.Renew? then RenewLease(run.states[i], step.renewal)
    else HeartbeatTask(run.states[step.read], run.states[i], step.lease, step.now, step.leaseDuration)
  }

  lemma RenewalStepIs(env: Env, run: Run, i: nat)
    requires IsRun(env, run) && i < |run.steps| && (run.steps[i].Renew? || run.steps[i].Heartbeat?)
    ensures run.states[i + 1] == RenewalAt(run, i).state
  {
    StepIsNext(env, run, i);
  }

  /** Exactly the holder renews: a renewal is granted if and only if it names a task, a worker, a clock and a positive
      duration, and its worker holds a lease on the task that has not expired by its clock. A heartbeat also needs a
      worker id that is not blank, a token for its task and worker, and when the token was checked the task had to be at
      the token's version with this owner. */
  lemma RenewalExactly(env: Env, run: Run, i: nat)
    requires IsRun(env, run) && i < |run.steps| && (run.steps[i].Renew? || run.steps[i].Heartbeat?)
    ensures var step, o, s := run.steps[i], RenewalOf(run.steps[i]), run.states[i];
            RenewalAt(run, i).reply.Ok? <==>
              && o.taskId != "" && o.workerId != "" && o.now != ZERO_TIME && o.leaseDuration > 0
              && o.taskId in s.tasks && s.tasks[o.taskId].status.Running? && s.tasks[o.taskId].leaseOwner == o.workerId
              && s.tasks[o.taskId].leaseExpiresAt.Some? && s.tasks[o.taskId].leaseExpiresAt.value > o.now
              && (step.Heartbeat? ==>
                    && TrimSpace(o.workerId) != "" && o.taskId in run.states[step.read].tasks
                    && var seen := run.states[step.read].tasks[o.taskId];
                       && seen.leaseOwner == o.workerId && seen.version > 0
                       && step.lease.token == Some(LeaseToken(o.taskId, o.workerId, seen.version)))
  {
    TrimOfNothing();
  }

  /** For a heartbeat with a token that was handed out, the check of the token comes down to the version. */
  lemma IssuedHeartbeat(env: Env, run: Run, i: nat)
    requires IsRun(env, run) && i < |run.steps| && run.steps[i].Heartbeat? && run.steps[i].lease.token.Some?
    requires Issued(run, run.steps[i].read, run.steps[i].lease.token.value)
    requires var l := run.steps[i].lease; TrimSpace(l.workerId) != "" && CheckToken(l).Ok?
    ensures var step, o := run.steps[i], RenewalOf(run.steps[i]);
            RenewalAt(run, i).reply.Ok? <==>
              && o.now != ZERO_TIME && o.leaseDuration > 0
              && o.taskId in run.states[i].tasks && HoldsLease(run.states[i].tasks[o.taskId], o.workerId, o.now)
              && o.taskId in run.states[step.read].tasks
              && run.states[step.read].tasks[o.taskId].version == step.lease.token.value.version
  {
    var step, token := run.steps[i], run.steps[i].lease.token.value;
    var j :| 0 <= j <= step.read && IssuedAt(run, j, token);
    Fencing(env, run, j, step.read, token.taskId);
    RenewalExactly(env, run, i);
  }

  lemma TrimOfNothing()
    ensures TrimSpace("") == ""
  {
  }

  /** A renewal that is granted sets the expiry to the full duration from its own clock, so the worker goes on holding
      the lease, and touches nothing else; one that is not granted changes nothing. */
  lemma RenewalGrants(env: Env, run: Run, i: nat)
    requires IsRun(env, run) && i < |run.steps| && (run.steps[i].Renew? || run.steps[i].Heartbeat?)
    ensures RenewalAt(run, i).reply.Err? ==> run.states[i + 1] == run.states[i]
    ensures var o := RenewalOf(run.steps[i]);
            RenewalAt(run, i).reply.Ok? ==>
              && o.taskId in run.states[i].tasks && o.taskId in run.states[i + 1].tasks
              && var t, t' := run.states[i].tasks[o.taskId], run.states[i + 1].tasks[o.taskId];
                 && HoldsLease(t, o.workerId, o.now) && HoldsLease(t', o.workerId, o.now)
                 && t'.leaseExpiresAt == Some(o.now + o.leaseDuration) && t'.lastHeartbeatAt == Some(o.now)
                 && Fenced(t') == Fenced(t)
                 && run.states[i + 1] == run.states[i].(tasks := run.states[i].tasks[o.taskId := t'])
  {
    RenewalStepIs(env, run, i);
  }

  // ---- Cancellation ----

  /** Cancelling a task that exists, with a new event id: done at once while the task is active, answered without a
      change when it is already canceled, refused when it has ended otherwise. */
  lemma CancelExactly(env: Env, run: Run, i: nat, id: string, eventId: string, now: Time)
    requires IsRun(env, run) && i < |run.states| && id in run.states[i].tasks
    requires eventId != "" && eventId !in run.states[i].byId && now != ZERO_TIME
    ensures var s, t, r := run.states[i], run.states[i].tasks[id], CancelTaskWithEvent(run.states[i], id, eventId, now);
            if IsTerminal(t.status) then
              r == Outcome(s, if t.status.Canceled? then Ok(Cancellation(t, false)) else Err(TaskNotCancelable))
            else
              && r.reply.Ok? && r.reply.value.canceled && id in r.state.tasks && r.reply.value.task == r.state.tasks[id]
              && r.state.tasks[id].status.Canceled? && r.state.tasks[id].finishedAt == Some(now)
              && r.state.tasks[id].leaseOwner == "" && r.state.tasks[id].leaseExpiresAt == None
              && r.state.tasks[id].version == t.version + 1
  {
    EventSourcing(env, run, i, id);
  }

  /** A cancellation is answered with success exactly for a task that exists, with a clock and an event id, when the task
      is canceled already, or is queued, running or retrying and the event id is new; a refusal changes nothing. */
  lemma CancelAnswers(env: Env, run: Run, i: nat, id: string, eventId: string, now: Time)
    requires IsRun(env, run) && i < |run.states|
    ensures var s, r := run.states[i], CancelTaskWithEvent(run.states[i], id, eventId, now);
            && (r.reply.Ok? <==>
                  && id in s.tasks && eventId != "" && now != ZERO_TIME
                  && (s.tasks[id].status.Canceled?
                      || (s.tasks[id].status in {Queued, Running, Retrying} && eventId !in s.byId)))
            && (r.reply.Err? ==> r.state == s)
  {
    EventSourcing(env, run, i, id);
  }

  /** After a successful cancellation the task is canceled, and its log says so exactly once. */
  lemma CancelLeaves(env: Env, run: Run, k: nat)
    requires IsRun(env, run) && k < |run.steps| && run.steps[k].Cancel?
    requires CancelTaskWithEvent(run.states[k], run.steps[k].taskId, run.steps[k].eventId, run.steps[k].now).reply.Ok?
    ensures var id := run.steps[k].taskId;
            && id in run.states[k + 1].tasks && run.states[k + 1].tasks[id].status.Canceled?
            && Count(LogOf(run.states[k + 1], id), TaskCanceled) == 1
  {
    var id := run.steps[k].taskId;
    KeysMatch(env, run, k);
    assert IsStep(env, run, k) && WellKeyed(run.states[k]);
    CanceledOnce(env, run, k + 1, id);
  }

  lemma CanceledOnce(env: Env, run: Run, i: nat, id: string)
    requires IsRun(env, run) && i < |run.states| && id in run.states[i].tasks && run.states[i].tasks[id].status.Canceled?
    ensures Count(LogOf(run.states[i], id), TaskCanceled) == 1
  {
    var log := LogOf(run.states[i], id);
    EventSourcing(env, run, i, id);
    LogLength(env, run, i, id);
    CountPositive(log, |log| - 1);
  }

  /** Cancel wins its races: once it is done, no later step of any kind changes the task or its log, and repeating
      the cancellation returns the very same record. */
  lemma CancelIsFinal(env: Env, run: Run, k: nat, i: nat)
    requires IsRun(env, run) && k < i < |run.states| && k < |run.steps| && run.steps[k].Cancel?
    requires CancelTaskWithEvent(run.states[k], run.steps[k].taskId, run.steps[k].eventId, run.steps[k].now).reply.Ok?
    ensures var id := run.steps[k].taskId;
            && id in run.states[k + 1].tasks && id in run.states[i].tasks && run.states[i].tasks[id].status.Canceled?
            && run.states[i].tasks[id] == run.states[k + 1].tasks[id]
            && LogOf(run.states[i], id) == LogOf(run.states[k + 1], id)
            && Count(LogOf(run.states[i], id), TaskCanceled) == 1
    ensures forall eventId, now :: eventId != "" && now != ZERO_TIME ==>
              CancelTaskWithEvent(run.states[i], run.steps[k].taskId, eventId, now)
              == Outcome(run.states[i], Ok(Cancellation(run.states[k + 1].tasks[run.steps[k].taskId], false)))
  {
    CancelLeaves(env, run, k);
    TerminalForever(env, run, k + 1, i, run.steps[k].taskId);
    EventSourcing(env, run, i, run.steps[k].taskId);
  }
}
