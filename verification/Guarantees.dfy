/** What holds after every step of every run: the log reproduces the record, only legal edges are taken,
    terminal tasks are frozen, attempts are bounded, and a lease is taken over only when it has run out. */
module Guarantees {
  import opened Basics
  import opened Domain
  import opened Selection
  import opened EventLog
  import opened Store
  import opened Worker
  import opened Plans
  import opened Runs

  /** The record of `id` and its log agree, and the record is well formed; without a record there is no log. */
  ghost predicate TaskGood(s: State, id: string)
  {
    var log := LogOf(s, id);
    if id in s.tasks then
      var t := s.tasks[id];
      && t.id == id != "" && t.workflow != "" && LeaseShape(t) && t.retryCount <= t.maxRetries && 0 <= t.progress <= 100
      && Fold(log) == Some(Summarize(t))
      && log[0].createdAt == t.createdAt
      && forall n :: 0 <= n < |log| ==> log[n].taskId == id
    else log == []
  }

  lemma GoodStep(s: State, s': State, eff: Effect, id: string)
    requires Realizes(s, s', eff) && TaskGood(s, id)
    requires eff.Change? ==> Fenced(eff.copy) == Fenced(s.tasks[eff.next.id])
    ensures TaskGood(s', id)
  {
    if eff.Change? && eff.next.id == id {
      assert Summarize(eff.copy) == Summarize(s.tasks[id]) && IdentityOf(eff.copy) == IdentityOf(s.tasks[id]);
      FoldAppend(LogOf(s, id), eff.event);
      assert LogOf(s', id) == LogOf(s, id) + [eff.event];
    } else if eff.Birth? && eff.task.id == id {
      assert LogOf(s', id) == [eff.event];
    } else {
      assert LogOf(s', id) == LogOf(s, id);
    }
  }

  /** Event sourcing: at every point of every run, folding a task's events gives its status, version, retry
      count, progress, available, started and finished times, and owner. */
  lemma {:induction false} EventSourcing(env: Env, run: Run, i: nat, id: string)
    requires IsRun(env, run) && i < |run.states|
    ensures TaskGood(run.states[i], id)
  {
    if i > 0 {
      EventSourcing(env, run, i - 1, id);
      var eff := WriteIsCurrent(env, run, i - 1);
      GoodStep(run.states[i - 1], run.states[i], eff, id);
    }
  }

  /** The log has one event per version, and the retry count is its retrying plus recovered events. */
  lemma LogLength(env: Env, run: Run, i: nat, id: string)
    requires IsRun(env, run) && i < |run.states| && id in run.states[i].tasks
    ensures var log, t := LogOf(run.states[i], id), run.states[i].tasks[id];
            && |log| == t.version + 1
            && t.retryCount == Count(log, TaskRetrying) + Count(log, TaskRecovered)
            && Finals(log) == if IsTerminal(t.status) then 1 else 0
  {
    EventSourcing(env, run, i, id);
    FoldLength(LogOf(run.states[i], id));
    FoldRetries(LogOf(run.states[i], id));
    FinalOnce(LogOf(run.states[i], id));
  }

  /** What one step does to one task, seen from the current record. */
  lemma TaskStep(env: Env, run: Run, i: nat, id: string) returns (eff: Effect)
    requires IsRun(env, run) && i < |run.steps| && id in run.states[i].tasks
    ensures Explains(env, run, i, eff)
    ensures id in run.states[i + 1].tasks
    ensures var t, t' := run.states[i].tasks[id], run.states[i + 1].tasks[id];
            var log, log' := LogOf(run.states[i], id), LogOf(run.states[i + 1], id);
            if eff.Change? && eff.next.id == id then
              t' == eff.next && log' == log + [eff.event] && Fenced(eff.copy) == Fenced(t) && Follows(t, t', eff.event)
            else if eff.Renewal? && eff.task.id == id then
              t' == eff.task && Fenced(t') == Fenced(t) && t.status.Running? && log' == log
            else t' == t && log' == log
  {
    eff := WriteIsCurrent(env, run, i);
  }

  /** The status machine has these ten edges, and the terminal statuses are exactly those that no edge leaves. */
  lemma StatusMachine(from: Status, to: Status)
    ensures CanTransition(from, to) <==>
              (from, to) in {(Queued, Running), (Queued, Canceled), (Running, Succeeded), (Running, Partial), (Running, Failed),
                             (Running, Canceled), (Running, Retrying), (Retrying, Running), (Retrying, Failed), (Retrying, Canceled)}
    ensures IsTerminal(from) <==> forall next :: !CanTransition(from, next)
  {
    assert !IsTerminal(from) ==> CanTransition(from, Canceled);
  }

  /** Every change of status is an edge of the status machine, or the release of a running task. Of the machine's edges
      one is never taken: a retrying task does not fail before it runs again. */
  lemma StatusEdges(env: Env, run: Run, i: nat, id: string)
    requires IsRun(env, run) && i < |run.steps| && id in run.states[i].tasks
    ensures id in run.states[i + 1].tasks
    ensures var from, to := run.states[i].tasks[id].status, run.states[i + 1].tasks[id].status;
            var log' := LogOf(run.states[i + 1], id);
            || from == to
            || (CanTransition(from, to)
                && (from, to) in {(Queued, Running), (Queued, Canceled), (Running, Succeeded), (Running, Partial), (Running, Failed),
                                  (Running, Canceled), (Running, Retrying), (Retrying, Running), (Retrying, Canceled)})
            || (from.Running? && to.Queued? && log' != [] && log'[|log'| - 1].kind.TaskReleased?)
  {
    var eff := TaskStep(env, run, i, id);
  }

  /** A terminal task's record and log never change again. */
  lemma {:induction false} TerminalForever(env: Env, run: Run, j: nat, i: nat, id: string)
    requires IsRun(env, run) && j <= i < |run.states|
    requires id in run.states[j].tasks && IsTerminal(run.states[j].tasks[id].status)
    ensures id in run.states[i].tasks && run.states[i].tasks[id] == run.states[j].tasks[id]
    ensures LogOf(run.states[i], id) == LogOf(run.states[j], id)
    decreases i
  {
    if j < i {
      TerminalForever(env, run, j, i - 1, id);
      var eff := TaskStep(env, run, i - 1, id);
    }
  }

  /** What a task was created with never changes. */
  lemma {:induction false} IdentityForever(env: Env, run: Run, j: nat, i: nat, id: string)
    requires IsRun(env, run) && j <= i < |run.states| && id in run.states[j].tasks
    ensures id in run.states[i].tasks && IdentityOf(run.states[i].tasks[id]) == IdentityOf(run.states[j].tasks[id])
    decreases i
  {
    if j < i {
      IdentityForever(env, run, j, i - 1, id);
      var eff := TaskStep(env, run, i - 1, id);
    }
  }

  /** Attempts are bounded: by the retry budget and the number of releases, and the version by those and the
      progress reports. Without releases and progress a task changes at most 2 + 2 * maxRetries times. */
  lemma BoundedAttempts(env: Env, run: Run, i: nat, id: string)
    requires IsRun(env, run) && i < |run.states| && id in run.states[i].tasks
    ensures var log, t := LogOf(run.states[i], id), run.states[i].tasks[id];
            && 0 <= t.retryCount <= t.maxRetries
            && EventLog.Claims(log) <= 1 + t.maxRetries + Count(log, TaskReleased)
            && t.version <= 2 + 2 * t.maxRetries + 2 * Count(log, TaskReleased) + Count(log, TaskProgress)
  {
    EventSourcing(env, run, i, id);
    FoldRetries(LogOf(run.states[i], id));
    AttemptBounds(LogOf(run.states[i], id), run.states[i].tasks[id].maxRetries);
  }

  /** A task is handed out again only after a release or a scheduled retry, or as a recovery. */
  lemma ClaimsAreSeparated(env: Env, run: Run, i: nat, id: string, a: nat, b: nat)
    requires IsRun(env, run) && i < |run.states| && id in run.states[i].tasks
    requires a < b < |LogOf(run.states[i], id)|
    requires IsClaim(LogOf(run.states[i], id)[a].kind) && IsClaim(LogOf(run.states[i], id)[b].kind)
    ensures var log := LogOf(run.states[i], id);
            || log[b].kind.TaskRecovered?
            || exists k :: a < k < b && (log[k].kind.TaskReleased? || log[k].kind.TaskRetrying?)
  {
    EventSourcing(env, run, i, id);
    SuccessiveClaims(LogOf(run.states[i], id), a, b);
  }

  /** A claim takes only tasks of its workflow. It takes a running task over only at or after the expiry stored at that
      moment and with a retry left; any other claim finds its task queued or retrying, without an owner, and its
      available time come. */
  lemma ClaimTakesFreeTask(env: Env, run: Run, i: nat, id: string)
    requires IsRun(env, run) && i < |run.steps| && id in run.states[i].tasks
    requires |LogOf(run.states[i + 1], id)| > |LogOf(run.states[i], id)|
    requires IsClaim(LogOf(run.states[i + 1], id)[|LogOf(run.states[i], id)|].kind)
    ensures run.steps[i].Claim? && id in run.states[i + 1].tasks
    ensures run.states[i + 1].tasks[id].leaseOwner == run.steps[i].options.workerId
    ensures var t, o := run.states[i].tasks[id], run.steps[i].options;
            && (o.workflow == "" || t.workflow == o.workflow)
            && if LogOf(run.states[i + 1], id)[|LogOf(run.states[i], id)|].kind.TaskRecovered?
               then t.status.Running? && t.leaseExpiresAt.Some? && t.leaseExpiresAt.value <= o.now && t.retryCount < t.maxRetries
               else (t.status.Queued? || t.status.Retrying?) && t.leaseOwner == "" && t.availableAt <= o.now
  {
    EventSourcing(env, run, i, id);
    var eff := TaskStep(env, run, i, id);
  }

  /** The reaper ends a task only when its stored lease has expired and no retry is left, and says so. */
  lemma ReapTakesExhausted(env: Env, run: Run, i: nat, id: string)
    requires IsRun(env, run) && i < |run.steps| && run.steps[i].Reap? && id in run.states[i].tasks
    requires |LogOf(run.states[i + 1], id)| > |LogOf(run.states[i], id)|
    ensures var t := run.states[i].tasks[id];
            t.status.Running? && t.leaseExpiresAt.Some? && t.leaseExpiresAt.value <= run.steps[i].now && t.retryCount >= t.maxRetries
    ensures id in run.states[i + 1].tasks
    ensures var t' := run.states[i + 1].tasks[id];
            t'.status.Failed? && t'.errorMessage == EXPIRED_MESSAGE && t'.finishedAt == Some(run.steps[i].now) && t'.leaseOwner == ""
  {
    var eff := TaskStep(env, run, i, id);
  }

  /** What a claim grants: the whole of its lease from its own clock, to its own worker, one retry spent exactly when
      it takes the task over. */
  lemma ClaimGrants(env: Env, run: Run, i: nat)
    requires IsRun(env, run) && i < |run.steps| && run.steps[i].Claim?
    requires ClaimNextWithEvent(run.states[i], run.steps[i].options, run.steps[i].eventId).reply.Ok?
    ensures var o := run.steps[i].options;
            var id := ClaimNextWithEvent(run.states[i], o, run.steps[i].eventId).reply.value.id;
            && id in run.states[i].tasks && id in run.states[i + 1].tasks
            && var t, t' := run.states[i].tasks[id], run.states[i + 1].tasks[id];
               && HoldsLease(t', o.workerId, o.now) && t'.leaseExpiresAt == Some(o.now + o.leaseDuration)
               && t'.lastHeartbeatAt == None && t'.updatedAt == o.now
               && t'.retryCount == t.retryCount + (if t.status.Running? then 1 else 0)
               && MakeLeaseToken(t') == LeaseToken(id, o.workerId, t.version + 1)
               && run.states[i + 1].tasks == run.states[i].tasks[id := t']
  {
    KeysMatch(env, run, i);
    assert IsStep(env, run, i);
    var o := run.steps[i].options;
    var pick := ClaimPick(run.states[i].tasks, o.workflow, o.now).value;
    if pick.kind.ClaimRecovery? {
      assert Recoverable(run.states[i].tasks[pick.id], o.workflow, o.now);
    } else {
      assert Due(run.states[i].tasks[pick.id], o.workflow, o.now);
    }
  }

  /** All or nothing: a step changes nothing, or only the lease times of one running task, or exactly one record,
      while one event with a new id joins that task's log and the event index. */
  lemma AllOrNothing(env: Env, run: Run, i: nat)
    requires IsRun(env, run) && i < |run.steps|
    ensures var s, s' := run.states[i], run.states[i + 1];
            || s' == s
            || (exists id :: id in s.tasks && OnlyLease(s, s', id))
            || (exists id, e :: OneCommit(s, s', id, e))
  {
    var eff := WriteIsCurrent(env, run, i);
    var s, s' := run.states[i], run.states[i + 1];
    match eff
    case Nothing =>
    case Renewal(t) => assert OnlyLease(s, s', t.id);
    case Change(_, next, e) => assert OneCommit(s, s', next.id, e);
    case Birth(t, e) => assert OneCommit(s, s', t.id, e);
  }

  predicate OnlyLease(s: State, s': State, id: string)
    requires id in s.tasks
  {
    && id in s'.tasks && s.tasks[id].status.Running? && Fenced(s'.tasks[id]) == Fenced(s.tasks[id])
    && s' == s.(tasks := s.tasks[id := s'.tasks[id]])
  }

  predicate OneCommit(s: State, s': State, id: string, e: Event)
  {
    && e.taskId == id && e.id !in s.byId && id in s'.tasks
    && s'.tasks == s.tasks[id := s'.tasks[id]]
    && s'.byId == s.byId[e.id := e]
    && s'.log == s.log[id := LogOf(s, id) + [e]]
  }

  /** With step times that do not go back, a task's log is in time order. */
  lemma {:induction false} LogInTimeOrder(env: Env, run: Run, i: nat, id: string)
    requires IsRun(env, run) && i < |run.states|
    requires forall a, b :: 0 <= a <= b < |run.steps| ==> StepTime(run.steps[a]) <= StepTime(run.steps[b])
    ensures var log := LogOf(run.states[i], id);
            && (forall m, n :: 0 <= m <= n < |log| ==> log[m].createdAt <= log[n].createdAt)
            && (forall n :: 0 <= n < |log| ==> i > 0 && log[n].createdAt <= StepTime(run.steps[i - 1]))
  {
    if i > 0 {
      LogInTimeOrder(env, run, i - 1, id);
      var eff := EffectAt(env, run, i - 1);
    }
  }
}
