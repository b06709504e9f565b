/** Interleaved runs. Locked operations are single steps; a worker call reads any earlier states of the run,
    in order, and its write lands on whatever the store is by then. */
module Runs {
  import opened Basics
  import opened Domain
  import opened Selection
  import opened EventLog
  import opened Store
  import opened Worker
  import opened Plans

  datatype Step =
    | Create(key: string, workflow: string, input: string, maxRetries: int, taskId: string, eventId: string, now: Time)
    | Claim(options: ClaimOptions, eventId: string)
    | Renew(renewal: RenewOptions)
    | Heartbeat(read: nat, lease: Lease, now: Time, leaseDuration: Duration)
    | Cancel(taskId: string, eventId: string, now: Time)
    | Reap(now: Time, eventId: string)
    | Act(call: WorkerCall, r1: nat, r2: nat, r3: nat, checkedAt: Time, now: Time, eventId: string)

  /** The JSON library and the service's configuration, fixed for a run. */
  datatype Env = Env(decode: Decoder, canonical: string -> Option<string>, scheduler: bool)

  datatype Run = Run(states: seq<State>, steps: seq<Step>)

  function Utf8Length(s: string): nat
  {
    if s == "" then 0
    else (if s[0] < '\U{80}' then 1 else if s[0] < '\U{800}' then 2 else if s[0] < '\U{10000}' then 3 else 4)
         + Utf8Length(s[1..])
  }

  /** TaskService.CreateTask. */
  function CreateTask(env: Env, s: State, step: Step): Outcome<Creation>
    requires step.Create?
  {
    if step.workflow == "" || step.maxRetries < 0
       || (step.key != "" && (TrimSpace(step.key) != step.key || Utf8Length(step.key) > 128))
    then Outcome(s, Err(InvalidInput))
    else
      match NewTask(step.taskId, step.workflow, step.input, step.maxRetries, step.now)
      case Err(e) => Outcome(s, Err(e))
      case Ok(blank) =>
        var t := blank.(idempotencyKey := step.key);
        match NewTaskEvent(step.eventId, t.id, TaskCreated, "task created", NoPayload, t.progress, step.now)
        case Err(e) => Outcome(s, Err(e))
        case Ok(event) => CreateTaskWithEvent(env.decode, s, t, event)
  }

  /** WorkerTaskService.HeartbeatTask: the token check reads `seen`, the renewal works on `s`. */
  function HeartbeatTask(seen: State, s: State, l: Lease, now: Time, leaseDuration: Duration): Outcome<()>
  {
    if l.taskId == "" || TrimSpace(l.workerId) == "" || leaseDuration <= 0 then Outcome(s, Err(InvalidWorkerRequest))
    else
      match ResolveLeaseVersion(seen, l)
      case Err(e) => Outcome(s, Err(e))
      case Ok(_) => RenewLease(s, RenewOptions(l.taskId, l.workerId, now, leaseDuration))
  }

  /** Reads happen in the past, in order. */
  predicate ReadsThePast(step: Step, now: nat)
  {
    (step.Heartbeat? ==> step.read <= now) && (step.Act? ==> step.r1 <= step.r2 <= step.r3 <= now)
  }

  function ContextOf(env: Env, history: seq<State>, step: Step): Context
    requires history != [] && step.Act? && ReadsThePast(step, |history| - 1)
  {
    Context(history[step.r1], history[step.r2], history[step.r3], step.checkedAt, step.now, step.eventId,
            env.canonical, env.scheduler)
  }

  ghost function Next(env: Env, history: seq<State>, step: Step): State
    requires history != [] && ReadsThePast(step, |history| - 1)
  {
    var s := history[|history| - 1];
    match step
    case Create(_, _, _, _, _, _, _) => CreateTask(env, s, step).state
    case Claim(o, eventId) => ClaimNextWithEvent(s, o, eventId).state
    case Renew(o) => RenewLease(s, o).state
    case Heartbeat(read, l, now, d) => HeartbeatTask(history[read], s, l, now, d).state
    case Cancel(taskId, eventId, now) => CancelTaskWithEvent(s, taskId, eventId, now).state
    case Reap(now, eventId) => FailNextExpiredWithEvent(s, now, eventId).state
    case Act(c, _, _, _, _, _, _) => Submit(s, PlanOf(ContextOf(env, history, step), c)).state
  }

  ghost predicate IsStep(env: Env, run: Run, i: nat)
    requires i < |run.steps| && |run.states| == |run.steps| + 1 && ReadsThePast(run.steps[i], i)
  {
    run.states[i + 1] == Next(env, run.states[..i + 1], run.steps[i])
  }

  ghost predicate IsRun(env: Env, run: Run)
  {
    && |run.states| == |run.steps| + 1
    && run.states[0] == EMPTY
    && (forall i :: 0 <= i < |run.steps| ==> ReadsThePast(run.steps[i], i))
    && (forall i :: 0 <= i < |run.steps| ==> IsStep(env, run, i))
  }

  /** What of a record a renewal cannot touch: all but the expiry instant, the heartbeat and the update time. */
  function Fenced(t: Task): Task
  {
    t.(leaseExpiresAt := if t.leaseExpiresAt.Some? then Some(0) else None, lastHeartbeatAt := None, updatedAt := 0)
  }

  /** What a step did. */
  datatype Effect =
    | Nothing
    | Renewal(task: Task)
    | Change(copy: Task, next: Task, event: Event)
    | Birth(task: Task, event: Event)

  predicate Newborn(t: Task, e: Event)
  {
    && t.id != "" && t.workflow != "" && t.maxRetries >= 0
    && Summarize(t) == Summary(Queued, 0, 0, 0, t.createdAt, None, None, "") && t.leaseExpiresAt.None?
    && e.kind.TaskCreated? && e.taskId == t.id && e.progress == 0 && e.createdAt == t.createdAt
  }

  ghost predicate Realizes(s: State, s': State, eff: Effect)
  {
    match eff
    case Nothing => s' == s
    case Renewal(t) =>
      && t.id in s.tasks && Fenced(t) == Fenced(s.tasks[t.id]) && s.tasks[t.id].status.Running?
      && s' == s.(tasks := s.tasks[t.id := t])
    case Change(copy, next, e) =>
      && next.id in s.tasks && copy.version == s.tasks[next.id].version && Follows(copy, next, e)
      && e.id !in s.byId && s' == Commit(s, next, e)
    case Birth(t, e) =>
      && t.id !in s.tasks && Newborn(t, e) && e.id !in s.byId
      && (t.idempotencyKey != "" ==> IndexKey(t.workflow, t.idempotencyKey) !in s.index)
      && s' == Commit(s, t, e).(index := if t.idempotencyKey != "" then s.index[IndexKey(t.workflow, t.idempotencyKey) := t.id]
                                         else s.index)
  }

  ghost predicate WellKeyed(s: State)
  {
    forall id :: id in s.tasks ==> s.tasks[id].id == id
  }

  // ---- The effect of each kind of step ----

  lemma CreateEffect(env: Env, s: State, step: Step) returns (eff: Effect)
    requires step.Create?
    ensures Realizes(s, CreateTask(env, s, step).state, eff) && !eff.Change? && !eff.Renewal?
    ensures eff.Birth? ==> eff.event.createdAt == step.now
  {
    eff := Nothing;
    if CreateTask(env, s, step).state != s {
      var t := NewTask(step.taskId, step.workflow, step.input, step.maxRetries, step.now).value.(idempotencyKey := step.key);
      eff := Birth(t, NewTaskEvent(step.eventId, t.id, TaskCreated, "task created", NoPayload, t.progress, step.now).value);
    }
  }

  lemma ClaimedFollows(tasks: Tasks, pick: Pick, o: ClaimOptions, eventId: string)
    requires ValidClaim(o) && ClaimPick(tasks, o.workflow, o.now) == Some(pick)
    requires NewTaskClaimedEvent(eventId, ClaimedTask(tasks[pick.id], pick.kind, o), pick.kind, o.now).Ok?
    ensures var t := ClaimedTask(tasks[pick.id], pick.kind, o);
            Follows(tasks[pick.id], t, NewTaskClaimedEvent(eventId, t, pick.kind, o.now).value)
  {
    if pick.kind.ClaimRecovery? {
      assert Recoverable(tasks[pick.id], o.workflow, o.now);
    } else {
      assert Due(tasks[pick.id], o.workflow, o.now);
    }
  }

  lemma ClaimEffect(s: State, o: ClaimOptions, eventId: string) returns (eff: Effect)
    requires WellKeyed(s)
    ensures Realizes(s, ClaimNextWithEvent(s, o, eventId).state, eff)
    ensures eff.Nothing? || (eff.Change? && eff.copy == s.tasks[eff.next.id] && IsClaim(eff.event.kind)
                             && eff.event.createdAt == o.now && eff.next.leaseOwner == o.workerId
                             && (o.workflow == "" || eff.copy.workflow == o.workflow)
                             && if eff.event.kind.TaskRecovered? then Expired(eff.copy, o.now) && eff.copy.retryCount < eff.copy.maxRetries
                                else eff.copy.availableAt <= o.now)
    ensures eff.Nothing? <==> ClaimNextWithEvent(s, o, eventId).reply.Err?
    ensures eff.Change? ==> ClaimNextWithEvent(s, o, eventId).reply == Ok(eff.next)
  {
    eff := Nothing;
    if ClaimNextWithEvent(s, o, eventId).reply.Ok? {
      var pick := ClaimPick(s.tasks, o.workflow, o.now).value;
      var t := ClaimedTask(s.tasks[pick.id], pick.kind, o);
      ClaimedFollows(s.tasks, pick, o, eventId);
      eff := Change(s.tasks[pick.id], t, NewTaskClaimedEvent(eventId, t, pick.kind, o.now).value);
    }
  }

  lemma ReapEffect(s: State, now: Time, eventId: string) returns (eff: Effect)
    requires WellKeyed(s)
    ensures Realizes(s, FailNextExpiredWithEvent(s, now, eventId).state, eff)
    ensures eff.Nothing? || (eff.Change? && eff.copy == s.tasks[eff.next.id] && eff.event.kind.TaskFailed?
                             && eff.event.createdAt == now && eff.next.errorMessage == EXPIRED_MESSAGE
                             && Exhausted(eff.copy, now))
  {
    eff := Nothing;
    if FailNextExpiredWithEvent(s, now, eventId).reply.Ok? {
      var id := ReapPick(s.tasks, now).value;
      assert id in ExhaustedIds(s.tasks, now);
      var t := ReapedTask(s.tasks[id], now);
      eff := Change(s.tasks[id], t, NewTaskExpiredEvent(eventId, t, now).value);
    }
  }

  lemma CancelEffect(s: State, taskId: string, eventId: string, now: Time) returns (eff: Effect)
    requires WellKeyed(s)
    ensures Realizes(s, CancelTaskWithEvent(s, taskId, eventId, now).state, eff)
    ensures eff.Nothing? || (eff.Change? && eff.copy == s.tasks[eff.next.id] && eff.event.kind.TaskCanceled?
                             && eff.event.createdAt == now)
  {
    eff := Nothing;
    var r := CancelTaskWithEvent(s, taskId, eventId, now).reply;
    if r.Ok? && r.value.canceled {
      eff := Change(s.tasks[taskId], r.value.task, NewTaskCanceledEvent(eventId, r.value.task, now).value);
    }
  }

  lemma RenewEffect(s: State, o: RenewOptions) returns (eff: Effect)
    requires WellKeyed(s)
    ensures Realizes(s, RenewLease(s, o).state, eff)
    ensures eff.Nothing? || (eff.Renewal? && eff.task.id == o.taskId && HoldsLease(s.tasks[o.taskId], o.workerId, o.now))
  {
    eff := Nothing;
    if RenewLease(s, o).reply.Ok? {
      eff := Renewal(RenewedTask(s.tasks[o.taskId], o.now, o.leaseDuration));
    }
  }

  /** A lawful write that the store accepts. */
  lemma WriteEffect(s: State, p: Plan, worker: string)
    requires p.Write? && Lawful(p, worker) && Submit(s, p).reply.Ok?
    ensures Realizes(s, Submit(s, p).state, Change(p.copy, p.edited.(version := p.copy.version + 1), p.event))
  {
  }

  lemma RefusedEffect(s: State, p: Plan)
    requires p.Reply? || Submit(s, p).reply.Err?
    ensures Submit(s, p).state == s
  {
  }

  lemma SubmitEffect(s: State, x: Context, c: WorkerCall) returns (eff: Effect)
    requires WellKeyed(s) && WellKeyed(x.h3)
    ensures Realizes(s, Submit(s, PlanOf(x, c)).state, eff)
    ensures eff.Nothing? || (eff.Change? && eff.next.id in x.h3.tasks && eff.copy == x.h3.tasks[eff.next.id]
                             && eff.event.createdAt == x.now && !IsClaim(eff.event.kind) && WrittenBy(c, eff.copy, eff.next))
  {
    var p := PlanOf(x, c);
    if p.Reply? || Submit(s, p).reply.Err? {
      RefusedEffect(s, p);
      eff := Nothing;
    } else {
      PlanLawful(x, c);
      WriteEffect(s, p, WorkerIdOf(c));
      eff := Change(p.copy, p.edited.(version := p.copy.version + 1), p.event);
    }
  }

  /** Where a step's copy comes from: the last read of a worker call, the current state otherwise. */
  function SourceIndex(step: Step, now: nat): nat
  {
    if step.Act? then step.r3 else now
  }

  /** The clock reading a step writes. */
  function StepTime(step: Step): Time
  {
    match step
    case Claim(o, _) => o.now
    case Renew(o) => o.now
    case _ => step.now
  }

  /** The one description of a step that all later proofs use: its effect, the read its copy comes from, the
      event's time, and which steps may claim, renew, or succeed. */
  ghost predicate Explains(env: Env, run: Run, i: nat, eff: Effect)
    requires IsRun(env, run) && i < |run.steps|
  {
    var step := run.steps[i];
    && Realizes(run.states[i], run.states[i + 1], eff)
    && (eff.Change? || eff.Birth? ==> eff.event.createdAt == StepTime(step))
    && (eff.Birth? ==> step.Create?)
    && (step.Renew? || step.Heartbeat? ==> eff.Nothing? || eff.Renewal?)
    && (eff.Renewal? ==> Renews(step, eff.task.id, run.states[i].tasks[eff.task.id]))
    && (eff.Change? ==>
          var k := SourceIndex(step, i);
          && eff.next.id in run.states[k].tasks && run.states[k].tasks[eff.next.id] == eff.copy
          && (IsClaim(eff.event.kind) ==> ClaimedBy(step, eff.copy, eff.next, eff.event))
          && (step.Act? ==> WrittenBy(step.call, eff.copy, eff.next))
          && (step.Act? || IsClaim(eff.event.kind) || (step.Reap? && eff.event.kind.TaskFailed?)
              || (step.Cancel? && eff.event.kind.TaskCanceled?))
          && (step.Reap? ==> eff.event.kind.TaskFailed? && eff.next.errorMessage == EXPIRED_MESSAGE
                             && Exhausted(eff.copy, step.now)))
  }

  predicate Renews(step: Step, id: string, t: Task)
  {
    || (step.Renew? && step.renewal.taskId == id && HoldsLease(t, step.renewal.workerId, step.renewal.now))
    || (step.Heartbeat? && step.lease.taskId == id && HoldsLease(t, step.lease.workerId, step.now))
  }

  predicate ClaimedBy(step: Step, copy: Task, next: Task, event: Event)
  {
    && step.Claim? && next.leaseOwner == step.options.workerId
    && (step.options.workflow == "" || copy.workflow == step.options.workflow)
    && if event.kind.TaskRecovered? then Expired(copy, event.createdAt) && copy.retryCount < copy.maxRetries
       else copy.availableAt <= event.createdAt
  }

  /** The write of a worker call: on its own task, from a copy it owned, at the version of its token if it has one. */
  predicate WrittenBy(c: WorkerCall, copy: Task, next: Task)
  {
    && next.id == TaskIdOf(c) && copy.leaseOwner == WorkerIdOf(c)
    && (UsesToken(c) ==> c.lease.token.Some? && copy.version == c.lease.token.value.version)
  }

  lemma CreateStep(env: Env, run: Run, i: nat) returns (eff: Effect)
    requires IsRun(env, run) && i < |run.steps| && run.steps[i].Create?
    requires forall k :: 0 <= k <= i ==> WellKeyed(run.states[k])
    ensures Explains(env, run, i, eff)
  {
    assert IsStep(env, run, i);
    eff := CreateEffect(env, run.states[i], run.steps[i]);
  }

  lemma ClaimStep(env: Env, run: Run, i: nat) returns (eff: Effect)
    requires IsRun(env, run) && i < |run.steps| && run.steps[i].Claim?
    requires forall k :: 0 <= k <= i ==> WellKeyed(run.states[k])
    ensures Explains(env, run, i, eff)
  {
    assert IsStep(env, run, i);
    eff := ClaimEffect(run.states[i], run.steps[i].options, run.steps[i].eventId);
  }

  lemma RenewStep(env: Env, run: Run, i: nat) returns (eff: Effect)
    requires IsRun(env, run) && i < |run.steps| && run.steps[i].Renew?
    requires forall k :: 0 <= k <= i ==> WellKeyed(run.states[k])
    ensures Explains(env, run, i, eff)
  {
    assert IsStep(env, run, i);
    eff := RenewEffect(run.states[i], run.steps[i].renewal);
  }

  lemma HeartbeatStep(env: Env, run: Run, i: nat) returns (eff: Effect)
    requires IsRun(env, run) && i < |run.steps| && run.steps[i].Heartbeat?
    requires forall k :: 0 <= k <= i ==> WellKeyed(run.states[k])
    ensures Explains(env, run, i, eff)
  {
    assert IsStep(env, run, i);
    var step := run.steps[i];
    eff := Nothing;
    assert run.states[..i + 1][step.read] == run.states[step.read];
    if run.states[i + 1] != run.states[i] {
      eff := RenewEffect(run.states[i], RenewOptions(step.lease.taskId, step.lease.workerId, step.now, step.leaseDuration));
    }
  }

  lemma CancelStep(env: Env, run: Run, i: nat) returns (eff: Effect)
    requires IsRun(env, run) && i < |run.steps| && run.steps[i].Cancel?
    requires forall k :: 0 <= k <= i ==> WellKeyed(run.states[k])
    ensures Explains(env, run, i, eff)
  {
    assert IsStep(env, run, i);
    eff := CancelEffect(run.states[i], run.steps[i].taskId, run.steps[i].eventId, run.steps[i].now);
  }

  lemma ReapStep(env: Env, run: Run, i: nat) returns (eff: Effect)
    requires IsRun(env, run) && i < |run.steps| && run.steps[i].Reap?
    requires forall k :: 0 <= k <= i ==> WellKeyed(run.states[k])
    ensures Explains(env, run, i, eff)
  {
    assert IsStep(env, run, i);
    eff := ReapEffect(run.states[i], run.steps[i].now, run.steps[i].eventId);
  }

  lemma NextOfAct(env: Env, history: seq<State>, step: Step)
    requires history != [] && step.Act? && ReadsThePast(step, |history| - 1)
    ensures Next(env, history, step) == Submit(history[|history| - 1], PlanOf(ContextOf(env, history, step), step.call)).state
  {
  }

  lemma StepIsNext(env: Env, run: Run, i: nat)
    requires IsRun(env, run) && i < |run.steps|
    ensures run.states[i + 1] == Next(env, run.states[..i + 1], run.steps[i])
  {
    assert IsStep(env, run, i);
  }

  /** A worker call's step is the submission of its plan. */
  lemma ActSubmits(env: Env, run: Run, i: nat, p: Plan)
    requires IsRun(env, run) && i < |run.steps| && run.steps[i].Act?
    requires p == PlanOf(ContextOf(env, run.states[..i + 1], run.steps[i]), run.steps[i].call)
    ensures run.states[i + 1] == Submit(run.states[i], p).state
  {
    StepIsNext(env, run, i);
    NextOfAct(env, run.states[..i + 1], run.steps[i]);
  }

  lemma ActStep(env: Env, run: Run, i: nat) returns (eff: Effect)
    requires IsRun(env, run) && i < |run.steps| && run.steps[i].Act?
    requires forall k :: 0 <= k <= i ==> WellKeyed(run.states[k])
    ensures Explains(env, run, i, eff)
  {
    var step := run.steps[i];
    var x := ContextOf(env, run.states[..i + 1], step);
    ActSubmits(env, run, i, PlanOf(x, step.call));
    assert x.h3 == run.states[step.r3];
    eff := SubmitEffect(run.states[i], x, step.call);
  }

  lemma StepEffect(env: Env, run: Run, i: nat) returns (eff: Effect)
    requires IsRun(env, run) && i < |run.steps|
    requires forall k :: 0 <= k <= i ==> WellKeyed(run.states[k])
    ensures Explains(env, run, i, eff)
  {
    match run.steps[i]
    case Create(_, _, _, _, _, _, _) => eff := CreateStep(env, run, i);
    case Claim(_, _) => eff := ClaimStep(env, run, i);
    case Renew(_) => eff := RenewStep(env, run, i);
    case Heartbeat(_, _, _, _) => eff := HeartbeatStep(env, run, i);
    case Cancel(_, _, _) => eff := CancelStep(env, run, i);
    case Reap(_, _) => eff := ReapStep(env, run, i);
    case Act(_, _, _, _, _, _, _) => eff := ActStep(env, run, i);
  }

  lemma {:induction false} KeysMatch(env: Env, run: Run, i: nat)
    requires IsRun(env, run) && i < |run.states|
    ensures forall k :: 0 <= k <= i ==> WellKeyed(run.states[k])
  {
    if i > 0 {
      KeysMatch(env, run, i - 1);
      var eff := StepEffect(env, run, i - 1);
    }
  }

  /** The effect of step `i` of a run. */
  lemma EffectAt(env: Env, run: Run, i: nat) returns (eff: Effect)
    requires IsRun(env, run) && i < |run.steps|
    ensures Explains(env, run, i, eff)
  {
    KeysMatch(env, run, i);
    eff := StepEffect(env, run, i);
  }

  // ---- Fencing ----

  /** One step on one task: the record stays, its version does not fall, and without a bump neither its fenced
      part nor its log changes. */
  lemma VersionStep(env: Env, run: Run, i: nat, id: string)
    requires IsRun(env, run) && i < |run.steps| && id in run.states[i].tasks
    ensures id in run.states[i + 1].tasks
    ensures var t, t' := run.states[i].tasks[id], run.states[i + 1].tasks[id];
            || (t'.version == t.version && Fenced(t') == Fenced(t) && LogOf(run.states[i + 1], id) == LogOf(run.states[i], id))
            || (t'.version == t.version + 1 && |LogOf(run.states[i + 1], id)| == |LogOf(run.states[i], id)| + 1
                && LogOf(run.states[i], id) <= LogOf(run.states[i + 1], id))
  {
    var eff := EffectAt(env, run, i);
  }

  /** Fencing: a task and a version fix, for the whole run, everything but the lease expiry instant, the
      heartbeat time and the update time; versions never fall and logs only grow. */
  lemma {:induction false} Fencing(env: Env, run: Run, j: nat, i: nat, id: string)
    requires IsRun(env, run) && j <= i < |run.states| && id in run.states[j].tasks
    ensures id in run.states[i].tasks
    ensures run.states[j].tasks[id].version <= run.states[i].tasks[id].version
    ensures LogOf(run.states[j], id) <= LogOf(run.states[i], id)
    ensures run.states[j].tasks[id].version == run.states[i].tasks[id].version ==>
              && Fenced(run.states[j].tasks[id]) == Fenced(run.states[i].tasks[id])
              && LogOf(run.states[j], id) == LogOf(run.states[i], id)
    decreases i
  {
    if j < i {
      Fencing(env, run, j, i - 1, id);
      VersionStep(env, run, i - 1, id);
    }
  }

  /** So a version-checked write that succeeds was computed from the current values of all fenced fields. */
  lemma WriteIsCurrent(env: Env, run: Run, i: nat) returns (eff: Effect)
    requires IsRun(env, run) && i < |run.steps|
    ensures Explains(env, run, i, eff)
    ensures eff.Change? ==> Fenced(eff.copy) == Fenced(run.states[i].tasks[eff.next.id])
  {
    eff := EffectAt(env, run, i);
    if eff.Change? {
      Fencing(env, run, SourceIndex(run.steps[i], i), i, eff.next.id);
    }
  }
}
