/** How long a lease lasts: exactly which steps bring the stored expiry forward, and that without them nobody but its
    holder and a cancellation can end a claim before the expiry that was granted. */
module Leases {
  import opened Basics
  import opened Domain
  import opened Backoff
  import opened Selection
  import opened EventLog
  import opened Store
  import opened Worker
  import opened Plans
  import opened Runs
  import opened Guarantees
  import opened Claimants
  import opened Acceptance

  /** The stored expiry of a task (0 without a lease). */
  function ExpiryAt(run: Run, i: nat, id: string): Time
    requires i < |run.states| && id in run.states[i].tasks
  {
    var expiry := run.states[i].tasks[id].leaseExpiresAt;
    if expiry.Some? then expiry.value else 0
  }

  predicate RunningAt(run: Run, i: nat, id: string)
    requires i < |run.states|
  {
    id in run.states[i].tasks && run.states[i].tasks[id].status.Running?
  }

  /** The number of claims of a task so far. */
  function ClaimsAt(run: Run, i: nat, id: string): nat
    requires i < |run.states|
  {
    EventLog.Claims(LogOf(run.states[i], id))
  }

  // ---- Which steps lower the expiry ----

  /** The guards a progress report for `id` passes on its way into the store. */
  predicate ProgressLands(run: Run, i: nat, id: string)
    requires i < |run.steps| < |run.states| && ReadsThePast(run.steps[i], i)
  {
    var step := run.steps[i];
    && step.Act? && step.call.Progress? && step.call.lease.taskId == id
    && 0 <= step.call.progress < 100 && step.eventId != "" && step.eventId !in run.states[i].byId
    && OpenTask(run.states[step.r2], run.states[step.r3], step.call.lease, step.checkedAt).Ok?
    && id in run.states[step.r3].tasks && id in run.states[i].tasks
    && run.states[i].tasks[id].version == run.states[step.r3].tasks[id].version
  }

  /** A progress report whose copy has an earlier expiry than the one stored by now. */
  predicate LowersByProgress(run: Run, i: nat, id: string)
    requires i < |run.steps| < |run.states| && ReadsThePast(run.steps[i], i)
  {
    ProgressLands(run, i, id) && ExpiryAt(run, run.steps[i].r3, id) < ExpiryAt(run, i, id)
  }

  /** A granted renewal for less time than the lease still has. */
  predicate LowersByRenewal(run: Run, i: nat, id: string)
    requires i < |run.steps| < |run.states| && ReadsThePast(run.steps[i], i)
  {
    && (run.steps[i].Renew? || run.steps[i].Heartbeat?) && RenewalOf(run.steps[i]).taskId == id
    && RenewalAt(run, i).reply.Ok? && id in run.states[i].tasks
    && RenewalOf(run.steps[i]).now + RenewalOf(run.steps[i]).leaseDuration < ExpiryAt(run, i, id)
  }

  predicate Lowers(run: Run, i: nat, id: string)
    requires i < |run.steps| < |run.states| && ReadsThePast(run.steps[i], i)
  {
    LowersByProgress(run, i, id) || LowersByRenewal(run, i, id)
  }

  lemma ProgressPlan(x: Context, l: Lease, progress: int, message: string)
    requires WellKeyed(x.h3) && l.taskId != "" && x.eventId != ""
    ensures PlanProgress(x, l, progress, message).Write?
            <==> 0 <= progress < 100 && OpenTask(x.h2, x.h3, l, x.checkedAt).Ok?
    ensures var p := PlanProgress(x, l, progress, message);
            p.Write? ==> p.event.id == x.eventId && p.edited.id == l.taskId && p.event.taskId == l.taskId && l.taskId in x.h3.tasks
                         && p.edited.version == x.h3.tasks[l.taskId].version
                         && p.edited.leaseExpiresAt == x.h3.tasks[l.taskId].leaseExpiresAt
                         && p.edited.status == x.h3.tasks[l.taskId].status
  {
  }

  lemma NoEventNoProgress(x: Context, l: Lease, progress: int, message: string)
    requires x.eventId == ""
    ensures PlanProgress(x, l, progress, message).Reply?
  {
  }

  /** A progress report changes the store exactly when it passes its guards, and then stores the expiry it read. */
  lemma ProgressExactly(env: Env, run: Run, i: nat)
    requires IsRun(env, run) && i < |run.steps| && run.steps[i].Act? && run.steps[i].call.Progress?
    ensures run.states[i + 1] != run.states[i] <==> ProgressLands(run, i, run.steps[i].call.lease.taskId)
    ensures var id := run.steps[i].call.lease.taskId;
            ProgressLands(run, i, id) ==>
              && id in run.states[i + 1].tasks && run.states[i + 1].tasks[id].progress == run.steps[i].call.progress
              && run.states[i + 1].tasks[id].leaseExpiresAt == run.states[run.steps[i].r3].tasks[id].leaseExpiresAt
  {
    var step := run.steps[i];
    var c := step.call;
    var x := ContextOf(env, run.states[..i + 1], step);
    var p := PlanAt(env, run, i);
    assert x.h3 == run.states[step.r3] && x.h2 == run.states[step.r2];
    ActSubmits(env, run, i, p);
    KeysMatch(env, run, i);
    assert WellKeyed(run.states[step.r3]);
    EventSourcing(env, run, step.r3, c.lease.taskId);
    if step.eventId == "" {
      NoEventNoProgress(x, c.lease, c.progress, c.message);
    } else if c.lease.taskId in run.states[step.r3].tasks {
      ProgressPlan(x, c.lease, c.progress, c.message);
      if p.Write? {
        SubmitExactly(run.states[i], p);
      }
    }
  }

  /** A write that leaves the task running is described by a progress event. */
  lemma StillRunning(p: Plan, worker: string)
    requires p.Write? && Lawful(p, worker) && p.edited.status.Running?
    ensures p.event.kind.TaskProgress?
  {
  }

  lemma FinishIsNoProgress(copy: Task, r: ExecutionResult, now: Time, eventId: string)
    requires FinishDraft(copy, r, now, eventId).Ok?
    ensures !FinishDraft(copy, r, now, eventId).value.event.kind.TaskProgress?
  {
  }

  lemma AbortIsNoProgress(copy: Task, cause: ExecuteError, policy: Option<RetryPolicy>, seed: nat, now: Time, eventId: string)
    requires AbortDraft(copy, cause, policy, seed, now, eventId).Ok?
    ensures !AbortDraft(copy, cause, policy, seed, now, eventId).value.event.kind.TaskProgress?
  {
  }

  /** Of all calls only Progress writes a progress event. */
  lemma OnlyProgress(x: Context, c: WorkerCall)
    requires PlanOf(x, c).Write? && PlanOf(x, c).event.kind.TaskProgress?
    ensures c.Progress?
  {
    match c
    case Complete(l, output, resultRef) => PlanCompleteLawful(x, l, ResultOf(output, resultRef));
    case Progress(_, _, _) =>
    case Fail(l, code, message, retryable, retryAfter, seed) =>
      PlanFailLawful(x, l, code, message, retryable, retryAfter, seed);
    case Release(l) => PlanReleaseLawful(x, l);
    case Finish(id, worker, r) => FinishIsNoProgress(ClaimedCopy(x.h3, id, worker).value, r, x.now, x.eventId);
    case Abort(id, worker, cause, policy, seed) =>
      AbortIsNoProgress(ClaimedCopy(x.h3, id, worker).value, cause, policy, seed, x.now, x.eventId);
  }

  lemma ClaimsSnoc(log: seq<Event>, e: Event)
    ensures EventLog.Claims(log + [e]) == EventLog.Claims(log) + if IsClaim(e.kind) then 1 else 0
  {
    assert (log + [e])[..|log|] == log;
  }

  /** A step that leaves a task running, without claiming it, is a progress report that landed, a granted renewal, or
      does not touch it. */
  lemma KeepsRunning(env: Env, run: Run, i: nat, id: string)
    requires IsRun(env, run) && i < |run.steps| && RunningAt(run, i, id) && RunningAt(run, i + 1, id)
    requires ClaimsAt(run, i + 1, id) == ClaimsAt(run, i, id)
    ensures || run.states[i + 1].tasks[id] == run.states[i].tasks[id]
            || ProgressLands(run, i, id)
            || ((run.steps[i].Renew? || run.steps[i].Heartbeat?) && RenewalOf(run.steps[i]).taskId == id
                && RenewalAt(run, i).reply.Ok?)
  {
    var eff := TaskStep(env, run, i, id);
    if eff.Change? && eff.next.id == id {
      ClaimsSnoc(LogOf(run.states[i], id), eff.event);
      assert run.steps[i].Act?;
      WroteProgress(env, run, i, eff);
    } else if eff.Renewal? && eff.task.id == id && run.states[i + 1] != run.states[i] {
      RenewalGrants(env, run, i);
    }
  }

  lemma WroteProgress(env: Env, run: Run, i: nat, eff: Effect)
    requires IsRun(env, run) && i < |run.steps| && run.steps[i].Act? && Explains(env, run, i, eff)
    requires eff.Change? && eff.next.status.Running?
    ensures ProgressLands(run, i, eff.next.id)
  {
    var p := PlanAt(env, run, i);
    ActSubmits(env, run, i, p);
    VersionStep(env, run, i, eff.next.id);
    assert run.states[i + 1].tasks[eff.next.id] == eff.next;
    if p.Write? {
      KeysMatch(env, run, i);
      PlanLawful(ContextOf(env, run.states[..i + 1], run.steps[i]), run.steps[i].call);
      assert WellKeyed(run.states[run.steps[i].r3]);
      SubmitLanded(run.states[i], p);
      StillRunning(p, WorkerIdOf(run.steps[i].call));
      OnlyProgress(ContextOf(env, run.states[..i + 1], run.steps[i]), run.steps[i].call);
      ProgressExactly(env, run, i);
    }
  }

  /** Exactly when a step brings the expiry of a running claim forward: it is a progress report that lands with an
      earlier expiry in its copy, or a granted renewal that ends before the stored expiry. */
  lemma ExpiryFallsExactly(env: Env, run: Run, i: nat, id: string)
    requires IsRun(env, run) && i < |run.steps| && RunningAt(run, i, id) && RunningAt(run, i + 1, id)
    requires ClaimsAt(run, i + 1, id) == ClaimsAt(run, i, id)
    ensures ExpiryAt(run, i + 1, id) < ExpiryAt(run, i, id) <==> Lowers(run, i, id)
  {
    KeepsRunning(env, run, i, id);
    if ProgressLands(run, i, id) {
      ProgressExactly(env, run, i);
    }
    if run.steps[i].Renew? || run.steps[i].Heartbeat? {
      RenewalGrants(env, run, i);
    }
  }

  // ---- One claim over a run ----

  lemma {:induction false} ClaimsGrow(env: Env, run: Run, j: nat, k: nat, id: string)
    requires IsRun(env, run) && j <= k < |run.states| && id in run.states[j].tasks
    ensures id in run.states[k].tasks && ClaimsAt(run, j, id) <= ClaimsAt(run, k, id)
    decreases k
  {
    if j < k {
      ClaimsGrow(env, run, j, k - 1, id);
      var eff := TaskStep(env, run, k - 1, id);
      if eff.Change? && eff.next.id == id {
        ClaimsSnoc(LogOf(run.states[k - 1], id), eff.event);
      }
    }
  }

  /** Only a claim sets a task running. */
  lemma {:induction false} StartsByClaim(env: Env, run: Run, j: nat, k: nat, id: string)
    requires IsRun(env, run) && j <= k < |run.states| && id in run.states[j].tasks && !RunningAt(run, j, id)
    requires ClaimsAt(run, k, id) == ClaimsAt(run, j, id)
    ensures !RunningAt(run, k, id)
    decreases k
  {
    if j < k {
      ClaimsGrow(env, run, j, k - 1, id);
      ClaimsGrow(env, run, k - 1, k, id);
      StartsByClaim(env, run, j, k - 1, id);
      var eff := TaskStep(env, run, k - 1, id);
      if eff.Change? && eff.next.id == id {
        ClaimsSnoc(LogOf(run.states[k - 1], id), eff.event);
      }
    }
  }

  /** Within one claim the task is running all the time. */
  lemma OneClaim(env: Env, run: Run, j: nat, m: nat, k: nat, id: string)
    requires IsRun(env, run) && j <= m <= k < |run.states| && id in run.states[j].tasks && RunningAt(run, k, id)
    requires ClaimsAt(run, k, id) == ClaimsAt(run, j, id)
    ensures RunningAt(run, m, id) && ClaimsAt(run, m, id) == ClaimsAt(run, j, id)
  {
    ClaimsGrow(env, run, j, m, id);
    ClaimsGrow(env, run, m, k, id);
    if !RunningAt(run, m, id) {
      StartsByClaim(env, run, m, k, id);
    }
  }

  /** If the expiry has fallen within a claim, some step lowered it. */
  lemma {:induction false} FindLowering(env: Env, run: Run, j: nat, k: nat, id: string) returns (m: nat)
    requires IsRun(env, run) && j <= k < |run.states| && id in run.states[j].tasks && RunningAt(run, k, id)
    requires ClaimsAt(run, k, id) == ClaimsAt(run, j, id)
    requires ExpiryAt(run, k, id) < ExpiryAt(run, j, id)
    ensures j <= m < k && Lowers(run, m, id)
    decreases k
  {
    OneClaim(env, run, j, k - 1, k, id);
    m := k - 1;
    if !Lowers(run, k - 1, id) {
      ExpiryFallsExactly(env, run, k - 1, id);
      m := FindLowering(env, run, j, k - 1, id);
    }
  }

  /** Step `k` ends the claim of `id` for lack of time: a recovery by another claim, or the reaper. */
  predicate TakesOver(run: Run, k: nat, id: string)
    requires k < |run.steps| && k + 1 < |run.states|
  {
    Touched(run, k, id) && (run.steps[k].Claim? || run.steps[k].Reap?)
  }

  lemma TakeoverIsLate(env: Env, run: Run, k: nat, id: string)
    requires IsRun(env, run) && k < |run.steps| && RunningAt(run, k, id) && TakesOver(run, k, id)
    ensures ExpiryAt(run, k, id) <= StepTime(run.steps[k])
  {
    var eff := TaskStep(env, run, k, id);
    if run.steps[k].Claim? {
      assert IsClaim(eff.event.kind);
    }
  }

  /** Lease safety: if a running claim with expiry X is taken over or reaped by a clock that shows less than X, some
      step in between brought the expiry forward. */
  lemma LeaseSafety(env: Env, run: Run, j: nat, k: nat, id: string) returns (m: nat)
    requires IsRun(env, run) && j <= k < |run.steps| && id in run.states[j].tasks && RunningAt(run, k, id)
    requires ClaimsAt(run, k, id) == ClaimsAt(run, j, id)
    requires TakesOver(run, k, id) && StepTime(run.steps[k]) < ExpiryAt(run, j, id)
    ensures j <= m < k && Lowers(run, m, id)
  {
    TakeoverIsLate(env, run, k, id);
    m := FindLowering(env, run, j, k, id);
  }

  /** Step `g` grants a lease on `id` up to `until`: a claim or a renewal. */
  predicate Grants(run: Run, g: nat, id: string, until: Time)
    requires g < |run.steps| < |run.states| && ReadsThePast(run.steps[g], g)
  {
    var step := run.steps[g];
    || (step.Claim? && Touched(run, g, id) && until == step.options.now + step.options.leaseDuration)
    || ((step.Renew? || step.Heartbeat?) && RenewalOf(step).taskId == id && RenewalAt(run, g).reply.Ok?
        && until == RenewalOf(step).now + RenewalOf(step).leaseDuration)
  }

  lemma GrantIsStored(env: Env, run: Run, g: nat, id: string, until: Time)
    requires IsRun(env, run) && g < |run.steps| && id in run.states[g].tasks && Grants(run, g, id, until)
    ensures RunningAt(run, g + 1, id) && ExpiryAt(run, g + 1, id) == until
  {
    if run.steps[g].Claim? {
      ClaimTouches(env, run, g, id);
      ClaimGrants(env, run, g);
    } else {
      RenewalGrants(env, run, g);
    }
  }

  /** The task a claim step touches is the one it answers with. */
  lemma ClaimTouches(env: Env, run: Run, g: nat, id: string)
    requires IsRun(env, run) && g < |run.steps| && run.steps[g].Claim? && Touched(run, g, id)
    ensures var r := ClaimNextWithEvent(run.states[g], run.steps[g].options, run.steps[g].eventId).reply;
            r.Ok? && r.value.id == id
  {
    StepIsNext(env, run, g);
    KeysMatch(env, run, g);
    assert WellKeyed(run.states[g]);
    var eff := ClaimEffect(run.states[g], run.steps[g].options, run.steps[g].eventId);
  }

  /** So what a claim or a renewal granted is kept: no other worker and no reaper ends the claim before that time,
      unless a later progress report or renewal of the same claim has brought the expiry forward; whatever else ends
      or changes the claim is a call of its owner or a cancellation. */
  lemma GrantIsKept(env: Env, run: Run, g: nat, k: nat, id: string, until: Time)
    requires IsRun(env, run) && g < k < |run.steps| && id in run.states[g].tasks && Grants(run, g, id, until)
    requires RunningAt(run, k, id) && ClaimsAt(run, k, id) == ClaimsAt(run, g + 1, id)
    requires Touched(run, k, id) && StepTime(run.steps[k]) < until
    requires forall m :: g < m < k ==> !Lowers(run, m, id)
    ensures run.steps[k].Cancel?
            || (run.steps[k].Act? && WorkerIdOf(run.steps[k].call) == run.states[k].tasks[id].leaseOwner)
  {
    GrantIsStored(env, run, g, id, until);
    if run.steps[k].Claim? || run.steps[k].Reap? {
      var m := LeaseSafety(env, run, g + 1, k, id);
    } else {
      var eff := TaskStep(env, run, k, id);
    }
  }
}
