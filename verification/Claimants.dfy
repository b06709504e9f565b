/** Late and repeated worker calls: stale claimants change nothing, and a repeated call is answered from the
    state its first delivery left behind. */
module Claimants {
  import opened Basics
  import opened Domain
  import opened Selection
  import opened EventLog
  import opened Store
  import opened Worker
  import opened Plans
  import opened Runs
  import opened Guarantees

  /** At step `k` something happened to task `id`: it was claimed, finished, released, ... */
  predicate Touched(run: Run, k: nat, id: string)
    requires k + 1 < |run.states|
  {
    |LogOf(run.states[k + 1], id)| > |LogOf(run.states[k], id)|
  }

  /** The version the call in step `i` was issued for: the token's, or that of the in-process worker's copy. */
  predicate IssuedFor(run: Run, i: nat, id: string, version: nat)
    requires i < |run.steps| && run.steps[i].Act? && run.steps[i].r3 < |run.states|
  {
    var step := run.steps[i];
    && TaskIdOf(step.call) == id
    && if UsesToken(step.call) then step.call.lease.token.Some? && step.call.lease.token.value.version == version
       else id in run.states[step.r3].tasks && run.states[step.r3].tasks[id].version == version
  }

  /** Stale claimants are harmless: once a task seen at version v has been claimed again, cancelled, reaped or
      changed in any other way, no call issued for v changes the store, whoever owns the task now. */
  lemma StaleClaimant(env: Env, run: Run, j: nat, k: nat, i: nat, id: string)
    requires IsRun(env, run) && j <= k < i < |run.steps|
    requires id in run.states[j].tasks && Touched(run, k, id)
    requires run.steps[i].Act? && IssuedFor(run, i, id, run.states[j].tasks[id].version)
    ensures run.states[i + 1] == run.states[i]
  {
    Fencing(env, run, j, k, id);
    VersionStep(env, run, k, id);
    Fencing(env, run, k + 1, i, id);
    var eff := EffectAt(env, run, i);
  }

  /** Only a claim by `worker` can make `worker` the owner. */
  lemma {:induction false} OwnerOnlyByClaim(env: Env, run: Run, k: nat, i: nat, id: string, worker: string)
    requires IsRun(env, run) && k <= i < |run.states| && worker != ""
    requires id in run.states[k].tasks && run.states[k].tasks[id].leaseOwner != worker
    requires forall m :: k <= m < i && run.steps[m].Claim? ==> run.steps[m].options.workerId != worker
    ensures id in run.states[i].tasks && run.states[i].tasks[id].leaseOwner != worker
    decreases i
  {
    if k < i {
      OwnerOnlyByClaim(env, run, k, i - 1, id, worker);
      var eff := TaskStep(env, run, i - 1, id);
    }
  }

  /** Once a worker is not the owner and does not claim again, none of its renewals succeeds, by heartbeat call
      or in process, however old the check of its token. */
  lemma StaleRenewal(env: Env, run: Run, k: nat, i: nat, id: string, worker: string)
    requires IsRun(env, run) && k <= i < |run.steps| && worker != ""
    requires id in run.states[k].tasks && run.states[k].tasks[id].leaseOwner != worker
    requires forall m :: k <= m < i && run.steps[m].Claim? ==> run.steps[m].options.workerId != worker
    requires (run.steps[i].Renew? && run.steps[i].renewal.taskId == id && run.steps[i].renewal.workerId == worker)
             || (run.steps[i].Heartbeat? && run.steps[i].lease.taskId == id && run.steps[i].lease.workerId == worker)
    ensures run.states[i + 1] == run.states[i]
  {
    OwnerOnlyByClaim(env, run, k, i, id, worker);
    var eff := EffectAt(env, run, i);
  }

  // ---- Replays ----

  /** The service handed this token out: some state up to `i` shows its task at its version with its owner. */
  ghost predicate Issued(run: Run, i: nat, token: LeaseToken)
    requires i < |run.states|
  {
    exists j :: 0 <= j <= i && IssuedAt(run, j, token)
  }

  predicate IssuedAt(run: Run, j: nat, token: LeaseToken)
    requires j < |run.states|
  {
    && token.workerId != "" && token.taskId in run.states[j].tasks
    && MakeLeaseToken(run.states[j].tasks[token.taskId]) == token
  }

  /** Step `m` moved task `id` from `version` to the next one. */
  predicate BumpsAt(run: Run, m: nat, id: string, version: nat)
    requires m + 1 < |run.states|
  {
    && id in run.states[m].tasks && run.states[m].tasks[id].version == version
    && id in run.states[m + 1].tasks && run.states[m + 1].tasks[id].version == version + 1
  }

  lemma {:induction false} FindBump(env: Env, run: Run, j: nat, i: nat, id: string) returns (m: nat)
    requires IsRun(env, run) && j < i < |run.states|
    requires id in run.states[j].tasks && id in run.states[i].tasks
    requires run.states[i].tasks[id].version == run.states[j].tasks[id].version + 1
    ensures j <= m < i && BumpsAt(run, m, id, run.states[j].tasks[id].version)
    decreases i - j
  {
    VersionStep(env, run, j, id);
    if run.states[j + 1].tasks[id].version == run.states[j].tasks[id].version {
      m := FindBump(env, run, j + 1, i, id);
    } else {
      m := j;
    }
  }

  /** The single write that consumed a token: made from the token's version, logged at that position, and, if it
      finished or released the task by a worker's hand, made by the token's worker. */
  lemma TokenConsumed(env: Env, run: Run, j: nat, i: nat, token: LeaseToken) returns (m: nat, eff: Effect)
    requires IsRun(env, run) && j <= i < |run.states| && IssuedAt(run, j, token)
    requires token.taskId in run.states[i].tasks && run.states[i].tasks[token.taskId].version == token.version + 1
    ensures j <= m < i && BumpsAt(run, m, token.taskId, token.version) && Explains(env, run, m, eff)
    ensures eff.Change? && eff.next == run.states[m + 1].tasks[token.taskId]
    ensures eff.copy.leaseOwner == token.workerId && eff.copy.status.Running?
    ensures run.steps[m].Act? ==> WorkerIdOf(run.steps[m].call) == token.workerId
    ensures Fenced(run.states[m + 1].tasks[token.taskId]) == Fenced(run.states[i].tasks[token.taskId])
    ensures var log := LogOf(run.states[i], token.taskId);
            |log| == token.version + 2 && log[token.version + 1] == eff.event
    ensures run.states[i].tasks[token.taskId].status == Advance(Summarize(eff.copy), eff.event).status
  {
    var id := token.taskId;
    Fencing(env, run, j, i, id);
    m := FindBump(env, run, j, i, id);
    eff := TaskStep(env, run, m, id);
    Fencing(env, run, j, m, id);
    Fencing(env, run, m + 1, i, id);
    LogLength(env, run, i, id);
    LogLength(env, run, m, id);
    EventSourcing(env, run, m, id);
  }

  /** The state a successful completion leaves: succeeded one version after the token, with exactly one success
      in the log, at the token's place, written by the token's worker. */
  ghost predicate CompletedBy(run: Run, i: nat, token: LeaseToken)
    requires i < |run.states|
  {
    && token.taskId in run.states[i].tasks
    && run.states[i].tasks[token.taskId].status.Succeeded?
    && run.states[i].tasks[token.taskId].version == token.version + 1
    && Count(LogOf(run.states[i], token.taskId), TaskSucceeded) == 1
    && Finals(LogOf(run.states[i], token.taskId)) == 1
    && |LogOf(run.states[i], token.taskId)| == token.version + 2
    && LogOf(run.states[i], token.taskId)[token.version + 1].kind.TaskSucceeded?
    && exists m :: 0 <= m < i && m < |run.steps| && Consumes(run, m, token)
  }

  predicate Consumes(run: Run, m: nat, token: LeaseToken)
    requires m < |run.steps| && m + 1 < |run.states|
  {
    BumpsAt(run, m, token.taskId, token.version) && run.steps[m].Act? && WorkerIdOf(run.steps[m].call) == token.workerId
  }

  /** A succeeded record one version after an issued token was completed by that token. */
  lemma SucceededIsCompleted(env: Env, run: Run, j: nat, i: nat, token: LeaseToken)
    requires IsRun(env, run) && j <= i < |run.states| && IssuedAt(run, j, token)
    requires token.taskId in run.states[i].tasks && run.states[i].tasks[token.taskId].status.Succeeded?
    requires run.states[i].tasks[token.taskId].version == token.version + 1
    ensures CompletedBy(run, i, token)
  {
    var m, eff := TokenConsumed(env, run, j, i, token);
    assert Consumes(run, m, token);
    var log := LogOf(run.states[i], token.taskId);
    LogLength(env, run, i, token.taskId);
    CountPositive(log, token.version + 1);
  }

  lemma {:induction false} CountPositive(log: seq<Event>, n: nat)
    requires n < |log|
    ensures Count(log, log[n].kind) >= 1
  {
    if n < |log| - 1 {
      CountPositive(log[..|log| - 1], n);
    }
  }

  // ---- What the answer of a call says about the states it read or wrote ----

  /** The plan of the worker call in step `i`. */
  function PlanAt(env: Env, run: Run, i: nat): Plan
    requires i < |run.steps| && |run.states| == |run.steps| + 1 && run.steps[i].Act? && ReadsThePast(run.steps[i], i)
  {
    PlanOf(ContextOf(env, run.states[..i + 1], run.steps[i]), run.steps[i].call)
  }

  /** The answer the caller of step `i` gets. */
  function ReplyAt(env: Env, run: Run, i: nat): Result<Task>
    requires i < |run.steps| && |run.states| == |run.steps| + 1 && run.steps[i].Act? && ReadsThePast(run.steps[i], i)
  {
    Submit(run.states[i], PlanAt(env, run, i)).reply
  }

  lemma ReplyChangesNothing(env: Env, run: Run, i: nat)
    requires IsRun(env, run) && i < |run.steps| && run.steps[i].Act? && PlanAt(env, run, i).Reply?
    ensures run.states[i + 1] == run.states[i] && ReplyAt(env, run, i) == PlanAt(env, run, i).reply
  {
    ActSubmits(env, run, i, PlanAt(env, run, i));
  }

  lemma SubmitLanded(s: State, p: Plan)
    requires p.Write? && Submit(s, p).reply.Ok?
    ensures var s' := Submit(s, p).state;
            && p.edited.id in s'.tasks && s'.tasks[p.edited.id] == p.edited.(version := p.edited.version + 1)
            && LogOf(s', p.edited.id) == LogOf(s, p.edited.id) + [p.event]
            && p.edited.id in s.tasks && s.tasks[p.edited.id].version == p.edited.version
  {
  }

  lemma WriteLanded(env: Env, run: Run, i: nat)
    requires IsRun(env, run) && i < |run.steps| && run.steps[i].Act? && PlanAt(env, run, i).Write?
    requires ReplyAt(env, run, i).Ok?
    ensures var p := PlanAt(env, run, i);
            && p.edited.id in run.states[i + 1].tasks
            && run.states[i + 1].tasks[p.edited.id] == p.edited.(version := p.edited.version + 1)
            && LogOf(run.states[i + 1], p.edited.id) == LogOf(run.states[i], p.edited.id) + [p.event]
            && p.edited.id in run.states[i].tasks && run.states[i].tasks[p.edited.id].version == p.edited.version
  {
    ActSubmits(env, run, i, PlanAt(env, run, i));
    SubmitLanded(run.states[i], PlanAt(env, run, i));
  }

  /** Where a completed task shows after Complete answered success: already in its first read, or now. */
  lemma CompleteAnswer(env: Env, run: Run, i: nat)
    requires IsRun(env, run) && i < |run.steps| && run.steps[i].Act? && run.steps[i].call.Complete?
    requires ReplyAt(env, run, i).Ok?
    ensures CheckToken(run.steps[i].call.lease).Ok?
    ensures var c := run.steps[i].call;
            var k := if PlanAt(env, run, i).Reply? then run.steps[i].r1 else i + 1;
            && c.lease.taskId in run.states[k].tasks
            && var t, result := run.states[k].tasks[c.lease.taskId], ResultOf(c.output, c.resultRef);
               && t.status.Succeeded? && t.version == c.lease.token.value.version + 1
               && (if k == i + 1 then t.result == result
                   else env.canonical(t.result).Some? && env.canonical(t.result) == env.canonical(result))
  {
    var c := run.steps[i].call;
    if PlanAt(env, run, i).Write? {
      WriteLanded(env, run, i);
      KeysMatch(env, run, i);
      PlanCompleteLawful(ContextOf(env, run.states[..i + 1], run.steps[i]), c.lease, ResultOf(c.output, c.resultRef));
      assert WellKeyed(run.states[run.steps[i].r3]);
    }
  }

  /** Replay soundness: whenever Complete answers success for a token the service issued, by a write or from a
      replay, the task was completed by that token, with the submitted result or one that decodes to the same. */
  lemma CompleteSound(env: Env, run: Run, i: nat)
    requires IsRun(env, run) && i < |run.steps| && run.steps[i].Act? && run.steps[i].call.Complete?
    requires ReplyAt(env, run, i).Ok?
    requires run.steps[i].call.lease.token.Some? ==> Issued(run, run.steps[i].r1, run.steps[i].call.lease.token.value)
    ensures CheckToken(run.steps[i].call.lease).Ok?
    ensures CompletedBy(run, i + 1, run.steps[i].call.lease.token.value)
    ensures var c := run.steps[i].call;
            var result := ResultOf(c.output, c.resultRef);
            var stored := run.states[i + 1].tasks[c.lease.taskId].result;
            stored == result || (env.canonical(stored).Some? && env.canonical(stored) == env.canonical(result))
  {
    CompleteAnswer(env, run, i);
    CompletedFrom(env, run, i, if PlanAt(env, run, i).Reply? then run.steps[i].r1 else i + 1);
  }

  lemma CompletedFrom(env: Env, run: Run, i: nat, k: nat)
    requires IsRun(env, run) && i < |run.steps| && k <= i + 1 && run.steps[i].Act? && run.steps[i].call.Complete?
    requires CheckToken(run.steps[i].call.lease).Ok?
    requires Issued(run, run.steps[i].r1, run.steps[i].call.lease.token.value)
    requires var l := run.steps[i].call.lease;
             && l.taskId in run.states[k].tasks && run.states[k].tasks[l.taskId].status.Succeeded?
             && run.states[k].tasks[l.taskId].version == l.token.value.version + 1
    ensures CompletedBy(run, i + 1, run.steps[i].call.lease.token.value)
    ensures var id := run.steps[i].call.lease.taskId; run.states[i + 1].tasks[id] == run.states[k].tasks[id]
  {
    var token := run.steps[i].call.lease.token.value;
    var j :| 0 <= j <= run.steps[i].r1 && IssuedAt(run, j, token);
    TerminalForever(env, run, k, i + 1, token.taskId);
    SucceededIsCompleted(env, run, j, i + 1, token);
  }

  /** The plan of a Complete whose first read finds the task succeeded one version after its token. */
  lemma CompleteReplays(x: Context, l: Lease, result: string)
    requires CheckToken(l).Ok? && l.taskId in x.h1.tasks
    requires x.h1.tasks[l.taskId].status.Succeeded? && x.h1.tasks[l.taskId].version == l.token.value.version + 1
    ensures PlanComplete(x, l, result)
            == Reply(if x.canonical(x.h1.tasks[l.taskId].result).Some?
                        && x.canonical(x.h1.tasks[l.taskId].result) == x.canonical(result)
                     then Ok(x.h1.tasks[l.taskId]) else Err(TaskConflict))
  {
  }

  /** Repeating Complete after it was done changes nothing, and succeeds exactly when the stored and the submitted
      result decode to the same; otherwise it is a conflict. */
  lemma CompleteRepeat(env: Env, run: Run, k: nat, i: nat)
    requires IsRun(env, run) && k < |run.states| && i < |run.steps| && run.steps[i].Act? && run.steps[i].call.Complete?
    requires CheckToken(run.steps[i].call.lease).Ok? && k <= run.steps[i].r1
    requires var l := run.steps[i].call.lease;
             && l.taskId in run.states[k].tasks && run.states[k].tasks[l.taskId].status.Succeeded?
             && run.states[k].tasks[l.taskId].version == l.token.value.version + 1
    ensures run.states[i + 1] == run.states[i]
    ensures var c := run.steps[i].call;
            var stored, submitted := run.states[k].tasks[c.lease.taskId].result, ResultOf(c.output, c.resultRef);
            ReplyAt(env, run, i) ==
            if env.canonical(stored).Some? && env.canonical(stored) == env.canonical(submitted)
            then Ok(run.states[k].tasks[c.lease.taskId]) else Err(TaskConflict)
  {
    var step := run.steps[i];
    TerminalForever(env, run, k, step.r1, step.call.lease.taskId);
    var x := ContextOf(env, run.states[..i + 1], step);
    assert x.h1 == run.states[step.r1];
    CompleteReplays(x, step.call.lease, ResultOf(step.call.output, step.call.resultRef));
    ReplyChangesNothing(env, run, i);
  }

  /** In particular the very same request, delivered again after its write, succeeds exactly when its result
      decodes as JSON. */
  lemma SameCompleteAgain(env: Env, run: Run, k: nat, i: nat)
    requires IsRun(env, run) && k < i < |run.steps|
    requires run.steps[k].Act? && run.steps[i].Act? && run.steps[k].call.Complete? && run.steps[i].call == run.steps[k].call
    requires PlanAt(env, run, k).Write? && ReplyAt(env, run, k).Ok?
    requires run.steps[i].r1 > k
    ensures run.states[i + 1] == run.states[i]
    ensures var c := run.steps[k].call;
            ReplyAt(env, run, i).Ok? <==> env.canonical(ResultOf(c.output, c.resultRef)).Some?
  {
    CompleteAnswer(env, run, k);
    CompleteRepeat(env, run, k + 1, i);
  }

  /** What a Release that answered success found or wrote. */
  lemma ReleaseAnswer(env: Env, run: Run, i: nat)
    requires IsRun(env, run) && i < |run.steps| && run.steps[i].Act? && run.steps[i].call.Release?
    requires ReplyAt(env, run, i).Ok?
    ensures CheckToken(run.steps[i].call.lease).Ok?
    ensures var l := run.steps[i].call.lease;
            if PlanAt(env, run, i).Reply? then
              && l.taskId in run.states[run.steps[i].r1].tasks
              && run.states[run.steps[i].r1].tasks[l.taskId].status.Queued?
              && run.states[run.steps[i].r1].tasks[l.taskId].version == l.token.value.version + 1
            else
              && l.taskId in run.states[i].tasks && run.states[i].tasks[l.taskId].version == l.token.value.version
              && PlanAt(env, run, i).event.kind.TaskReleased?
              && LogOf(run.states[i + 1], l.taskId) == LogOf(run.states[i], l.taskId) + [PlanAt(env, run, i).event]
  {
    if PlanAt(env, run, i).Write? {
      WriteLanded(env, run, i);
      KeysMatch(env, run, i);
      PlanReleaseLawful(ContextOf(env, run.states[..i + 1], run.steps[i]), run.steps[i].call.lease);
      assert WellKeyed(run.states[run.steps[i].r3]);
    }
  }

  /** A successful Release of an issued token: the log holds a released event at the token's place, put there by a
      call of the token's worker. */
  lemma ReleaseSound(env: Env, run: Run, i: nat)
    requires IsRun(env, run) && i < |run.steps| && run.steps[i].Act? && run.steps[i].call.Release?
    requires ReplyAt(env, run, i).Ok?
    requires run.steps[i].call.lease.token.Some? ==> Issued(run, run.steps[i].r1, run.steps[i].call.lease.token.value)
    ensures CheckToken(run.steps[i].call.lease).Ok?
    ensures var token := run.steps[i].call.lease.token.value;
            var log := LogOf(run.states[i + 1], token.taskId);
            && |log| >= token.version + 2 && log[token.version + 1].kind.TaskReleased?
            && exists m :: 0 <= m <= i && Consumes(run, m, token)
  {
    ReleaseAnswer(env, run, i);
    if PlanAt(env, run, i).Write? {
      ReleaseWrote(env, run, i, run.steps[i].call.lease.token.value, PlanAt(env, run, i).event);
    } else {
      var m := ReleasedFrom(env, run, i + 1, run.steps[i].r1, run.steps[i].call.lease.token.value);
    }
  }

  lemma ReleaseWrote(env: Env, run: Run, i: nat, token: LeaseToken, event: Event)
    requires IsRun(env, run) && i < |run.steps| && run.steps[i].Act? && WorkerIdOf(run.steps[i].call) == token.workerId
    requires token.taskId in run.states[i].tasks && run.states[i].tasks[token.taskId].version == token.version
    requires LogOf(run.states[i + 1], token.taskId) == LogOf(run.states[i], token.taskId) + [event] && event.kind.TaskReleased?
    ensures Consumes(run, i, token)
    ensures var log := LogOf(run.states[i + 1], token.taskId);
            |log| == token.version + 2 && log[token.version + 1].kind.TaskReleased?
  {
    LogLength(env, run, i, token.taskId);
    VersionStep(env, run, i, token.taskId);
  }

  /** Only a release brings a running task back to queued. */
  lemma BackToQueued(s: Summary, e: Event)
    requires s.status.Running? && Fits(s, e) && Advance(s, e).status.Queued?
    ensures e.kind.TaskReleased?
  {
  }

  lemma ReleasedFrom(env: Env, run: Run, i: nat, k: nat, token: LeaseToken) returns (m: nat)
    requires IsRun(env, run) && k <= i < |run.states| && Issued(run, k, token)
    requires token.taskId in run.states[k].tasks && run.states[k].tasks[token.taskId].status.Queued?
    requires run.states[k].tasks[token.taskId].version == token.version + 1
    ensures m < k && Consumes(run, m, token)
    ensures var log := LogOf(run.states[i], token.taskId);
            |log| >= token.version + 2 && log[token.version + 1].kind.TaskReleased?
  {
    var j :| 0 <= j <= k && IssuedAt(run, j, token);
    m := ConsumedByRelease(env, run, j, k, token);
    Fencing(env, run, k, i, token.taskId);
  }

  lemma ConsumedByRelease(env: Env, run: Run, j: nat, k: nat, token: LeaseToken) returns (m: nat)
    requires IsRun(env, run) && j <= k < |run.states| && IssuedAt(run, j, token)
    requires token.taskId in run.states[k].tasks && run.states[k].tasks[token.taskId].status.Queued?
    requires run.states[k].tasks[token.taskId].version == token.version + 1
    ensures m < k && Consumes(run, m, token)
    ensures var log := LogOf(run.states[k], token.taskId);
            |log| == token.version + 2 && log[token.version + 1].kind.TaskReleased?
  {
    var eff;
    m, eff := TokenConsumed(env, run, j, k, token);
    BackToQueued(Summarize(eff.copy), eff.event);
  }

  /** The plan of a Release whose token has been consumed by a release: answered from that, or too late. */
  lemma ReleaseReplays(x: Context, l: Lease)
    requires CheckToken(l).Ok? && l.taskId in x.h1.tasks && l.taskId in x.h2.tasks
    requires x.h1.tasks[l.taskId].version > l.token.value.version && x.h2.tasks[l.taskId].version > l.token.value.version
    requires x.h1.tasks[l.taskId].version == l.token.value.version + 1 ==> x.h1.tasks[l.taskId].status.Queued?
    ensures PlanRelease(x, l)
            == Reply(if x.h1.tasks[l.taskId].version == l.token.value.version + 1 then Ok(x.h1.tasks[l.taskId]) else Err(LeaseLost))
  {
  }

  /** Repeating a Release after it was done changes nothing, and answers with the queued task as long as nothing else has
      happened to it; once it was claimed or canceled since, the token is lost. */
  lemma ReleaseRepeat(env: Env, run: Run, k: nat, i: nat)
    requires IsRun(env, run) && k <= i < |run.steps| && run.steps[i].Act? && run.steps[i].call.Release?
    requires CheckToken(run.steps[i].call.lease).Ok? && k <= run.steps[i].r1
    requires run.steps[i].call.lease.taskId in run.states[k].tasks
    requires var t := run.states[k].tasks[run.steps[i].call.lease.taskId];
             t.status.Queued? && t.version == run.steps[i].call.lease.token.value.version + 1
    ensures run.states[i + 1] == run.states[i]
    ensures var l, r1 := run.steps[i].call.lease, run.steps[i].r1;
            && l.taskId in run.states[r1].tasks
            && ReplyAt(env, run, i) == if run.states[r1].tasks[l.taskId].version == l.token.value.version + 1
                                       then Ok(run.states[r1].tasks[l.taskId]) else Err(LeaseLost)
  {
    var step := run.steps[i];
    var x := ContextOf(env, run.states[..i + 1], step);
    assert x.h1 == run.states[step.r1] && x.h2 == run.states[step.r2];
    Fencing(env, run, k, step.r1, step.call.lease.taskId);
    Fencing(env, run, step.r1, step.r2, step.call.lease.taskId);
    ReleaseReplays(x, step.call.lease);
    ReplyChangesNothing(env, run, i);
  }

  lemma ExpiredHasNoColon(n: nat)
    requires n < |EXPIRED_MESSAGE|
    ensures EXPIRED_MESSAGE[n] != ':'
  {
    var a, b, c := "task lease expired", " and retry budget", " exhausted";
    assert forall n :: 0 <= n < |a| ==> a[n] != ':';
    assert forall n :: 0 <= n < |b| ==> b[n] != ':';
    assert forall n :: 0 <= n < |c| ==> c[n] != ':';
  }

  /** No error code and message spell the reaper's message. */
  lemma ExpiredIsNoFailure(code: string, message: string)
    ensures code + ": " + message != EXPIRED_MESSAGE
  {
    var text := code + ": " + message;
    assert text[|code|] == ':';
    if text == EXPIRED_MESSAGE {
      ExpiredHasNoColon(|code|);
    }
  }

  /** The plan of a Fail whose first read finds the task one version after its token, retrying or failed. */
  lemma FailReplays(x: Context, l: Lease, code: string, message: string, retryable: bool, retryAfter: Duration, seed: nat)
    requires CheckToken(l).Ok? && l.taskId in x.h1.tasks
    requires x.h1.tasks[l.taskId].status.Retrying? || x.h1.tasks[l.taskId].status.Failed?
    requires x.h1.tasks[l.taskId].version == l.token.value.version + 1
    ensures PlanFail(x, l, code, message, retryable, retryAfter, seed)
            == Reply(if x.h1.tasks[l.taskId].errorMessage == code + ": " + message then Ok(x.h1.tasks[l.taskId])
                     else Err(TaskConflict))
  {
  }

  /** A Fail that arrives after the reaper consumed its token is refused as a conflict, never taken for a replay. */
  lemma LateFail(env: Env, run: Run, k: nat, i: nat)
    requires IsRun(env, run) && k < i < |run.steps| && run.steps[k].Reap?
    requires run.steps[i].Act? && run.steps[i].call.Fail? && CheckToken(run.steps[i].call.lease).Ok?
    requires k < run.steps[i].r1
    requires BumpsAt(run, k, run.steps[i].call.lease.taskId, run.steps[i].call.lease.token.value.version)
    ensures run.states[i + 1] == run.states[i]
    ensures ReplyAt(env, run, i) == Err(TaskConflict)
  {
    var step := run.steps[i];
    var c := step.call;
    var eff := TaskStep(env, run, k, c.lease.taskId);
    TerminalForever(env, run, k + 1, step.r1, c.lease.taskId);
    ExpiredIsNoFailure(c.errorCode, c.errorMessage);
    var x := ContextOf(env, run.states[..i + 1], step);
    assert x.h1 == run.states[step.r1];
    FailReplays(x, c.lease, c.errorCode, c.errorMessage, c.retryable, c.retryAfter, c.seed);
    ReplyChangesNothing(env, run, i);
  }

  /** What the write of a Fail left behind. */
  lemma FailAnswer(env: Env, run: Run, k: nat)
    requires IsRun(env, run) && k < |run.steps| && run.steps[k].Act? && run.steps[k].call.Fail?
    requires PlanAt(env, run, k).Write? && ReplyAt(env, run, k).Ok?
    ensures var c := run.steps[k].call;
            && CheckToken(c.lease).Ok? && c.lease.taskId in run.states[k + 1].tasks
            && var t := run.states[k + 1].tasks[c.lease.taskId];
               && t.version == c.lease.token.value.version + 1
               && (if PlanAt(env, run, k).event.kind.TaskFailed?
                   then t.status.Failed? && t.errorMessage == c.errorCode + ": " + c.errorMessage
                   else t.status.Retrying? && t.errorMessage == c.errorCode)
  {
    var c := run.steps[k].call;
    KeysMatch(env, run, k);
    assert WellKeyed(run.states[run.steps[k].r3]);
    FailEdits(ContextOf(env, run.states[..k + 1], run.steps[k]), c.lease, c.errorCode, c.errorMessage, c.retryable,
              c.retryAfter, c.seed);
    WriteLanded(env, run, k);
  }

  lemma FailEdits(x: Context, l: Lease, code: string, message: string, retryable: bool, retryAfter: Duration, seed: nat)
    requires PlanFail(x, l, code, message, retryable, retryAfter, seed).Write? && WellKeyed(x.h3)
    ensures CheckToken(l).Ok?
    ensures var p := PlanFail(x, l, code, message, retryable, retryAfter, seed);
            && p.edited.id == l.taskId && p.edited.version == l.token.value.version
            && (if p.event.kind.TaskFailed? then p.edited.status.Failed? && p.edited.errorMessage == code + ": " + message
                else p.edited.status.Retrying? && p.edited.errorMessage == code)
  {
    PlanFailLawful(x, l, code, message, retryable, retryAfter, seed);
  }

  /** The plan of a token call none of whose reads shows the token's version any more. */
  lemma StaleFailPlan(x: Context, l: Lease, code: string, message: string, retryable: bool, retryAfter: Duration, seed: nat)
    requires CheckToken(l).Ok? && l.taskId in x.h1.tasks && l.taskId in x.h2.tasks
    requires x.h1.tasks[l.taskId].version > l.token.value.version + 1 && x.h2.tasks[l.taskId].version > l.token.value.version
    ensures PlanFail(x, l, code, message, retryable, retryAfter, seed) == Reply(Err(LeaseLost))
  {
  }

  /** A Fail that arrives after another one with its token has landed changes nothing. It succeeds exactly when its
      first read still shows the record that one left, and that record's message spells its own code and message:
      code and message after a failure, the bare code after a scheduled retry. */
  lemma FailAfterFail(env: Env, run: Run, k: nat, i: nat)
    requires IsRun(env, run) && k < i < |run.steps|
    requires run.steps[k].Act? && run.steps[i].Act? && run.steps[k].call.Fail? && run.steps[i].call.Fail?
    requires run.steps[i].call.lease == run.steps[k].call.lease && run.steps[i].r1 > k
    requires PlanAt(env, run, k).Write? && ReplyAt(env, run, k).Ok?
    ensures run.states[i + 1] == run.states[i]
    ensures RetryChosen(env, run, k) == PlanAt(env, run, k).event.kind.TaskRetrying?
    ensures var first, c, r1 := run.steps[k].call, run.steps[i].call, run.steps[i].r1;
            && c.lease.taskId in run.states[r1].tasks
            && (ReplyAt(env, run, i).Ok? <==>
                  && run.states[r1].tasks[c.lease.taskId].version == c.lease.token.value.version + 1
                  && c.errorCode + ": " + c.errorMessage
                     == if RetryChosen(env, run, k) then first.errorCode else first.errorCode + ": " + first.errorMessage)
  {
    FailAnswer(env, run, k);
    FailRepeat(env, run, k + 1, i);
    FailChoice(env, run, k);
  }

  /** Whether the Fail in step `k` was to be retried: asked for, a scheduler set, and room in both budgets of the copy,
      the task's own and that of the one workflow with a policy of its own. */
  predicate RetryChosen(env: Env, run: Run, k: nat)
    requires k < |run.steps| && run.steps[k].Act? && run.steps[k].call.Fail? && run.steps[k].r3 < |run.states|
  {
    var c, tasks := run.steps[k].call, run.states[run.steps[k].r3].tasks;
    && c.retryable && env.scheduler && c.lease.taskId in tasks
    && var t := tasks[c.lease.taskId]; t.retryCount < t.maxRetries && (t.workflow == "llm_analysis" ==> t.retryCount < 3)
  }

  /** Repeating the same Fail after its write changes nothing; it succeeds exactly when no retry was asked for or
      possible: after a scheduled retry, which stores only the code, the repeat is always refused. */
  lemma SameFailAgain(env: Env, run: Run, k: nat, i: nat)
    requires IsRun(env, run) && k < i < |run.steps|
    requires run.steps[k].Act? && run.steps[i].Act? && run.steps[k].call.Fail? && run.steps[i].call == run.steps[k].call
    requires PlanAt(env, run, k).Write? && ReplyAt(env, run, k).Ok?
    requires run.steps[i].r1 > k
    ensures run.states[i + 1] == run.states[i]
    ensures ReplyAt(env, run, i).Ok? <==> !RetryChosen(env, run, k)
  {
    FailAfterFail(env, run, k, i);
    var c := run.steps[k].call;
    assert |c.errorCode + ": " + c.errorMessage| > |c.errorCode|;
    if !RetryChosen(env, run, k) {
      FailedStays(env, run, k, run.steps[i].r1);
    }
  }

  lemma FailedStays(env: Env, run: Run, k: nat, i: nat)
    requires IsRun(env, run) && k < |run.steps| && k < i < |run.states| && run.steps[k].Act? && run.steps[k].call.Fail?
    requires PlanAt(env, run, k).Write? && ReplyAt(env, run, k).Ok? && !RetryChosen(env, run, k)
    ensures var l := run.steps[k].call.lease;
            CheckToken(l).Ok? && l.taskId in run.states[i].tasks && run.states[i].tasks[l.taskId].version == l.token.value.version + 1
  {
    FailAnswer(env, run, k);
    FailChoice(env, run, k);
    TerminalForever(env, run, k + 1, i, run.steps[k].call.lease.taskId);
  }

  /** Whether the write of a Fail failed the task or scheduled a retry. */
  lemma FailChoice(env: Env, run: Run, k: nat)
    requires IsRun(env, run) && k < |run.steps| && run.steps[k].Act? && run.steps[k].call.Fail?
    requires PlanAt(env, run, k).Write?
    ensures PlanAt(env, run, k).event.kind.TaskFailed? <==> !RetryChosen(env, run, k)
    ensures PlanAt(env, run, k).event.kind.TaskRetrying? <==> RetryChosen(env, run, k)
  {
    var c := run.steps[k].call;
    var x := ContextOf(env, run.states[..k + 1], run.steps[k]);
    OpenTaskFacts(x.h2, x.h3, c.lease, x.checkedAt);
    var t := OpenTask(x.h2, x.h3, c.lease, x.checkedAt).value;
    FailKind(x.scheduler, t, c.lease.workerId, c.errorCode, c.errorMessage, c.retryable, c.retryAfter, c.seed, x.now, x.eventId);
    FailFollows(x.scheduler, t, c.lease.workerId, c.errorCode, c.errorMessage, c.retryable, c.retryAfter, c.seed, x.now, x.eventId);
  }

  /** A Fail that reads after its token was consumed by a failure or a scheduled retry. */
  lemma FailRepeat(env: Env, run: Run, k: nat, i: nat)
    requires IsRun(env, run) && k <= i < |run.steps| && run.steps[i].Act? && run.steps[i].call.Fail?
    requires CheckToken(run.steps[i].call.lease).Ok? && k <= run.steps[i].r1
    requires run.steps[i].call.lease.taskId in run.states[k].tasks
    requires var t := run.states[k].tasks[run.steps[i].call.lease.taskId];
             t.version == run.steps[i].call.lease.token.value.version + 1 && (t.status.Failed? || t.status.Retrying?)
    ensures run.states[i + 1] == run.states[i]
    ensures run.steps[i].call.lease.taskId in run.states[run.steps[i].r1].tasks
    ensures var c, t := run.steps[i].call, run.states[k].tasks[run.steps[i].call.lease.taskId];
            ReplyAt(env, run, i).Ok? <==> run.states[run.steps[i].r1].tasks[c.lease.taskId].version == t.version
                                          && t.errorMessage == c.errorCode + ": " + c.errorMessage
  {
    var step := run.steps[i];
    var c := step.call;
    var id := c.lease.taskId;
    var x := ContextOf(env, run.states[..i + 1], step);
    assert x.h1 == run.states[step.r1] && x.h2 == run.states[step.r2];
    Fencing(env, run, k, step.r1, id);
    Fencing(env, run, step.r1, step.r2, id);
    if x.h1.tasks[id].version == run.states[k].tasks[id].version {
      FailReplays(x, c.lease, c.errorCode, c.errorMessage, c.retryable, c.retryAfter, c.seed);
    } else {
      StaleFailPlan(x, c.lease, c.errorCode, c.errorMessage, c.retryable, c.retryAfter, c.seed);
    }
    ReplyChangesNothing(env, run, i);
  }

  /** What a Fail that answered success found, if it was a replay. */
  lemma FailReplayed(env: Env, run: Run, i: nat)
    requires IsRun(env, run) && i < |run.steps| && run.steps[i].Act? && run.steps[i].call.Fail?
    requires ReplyAt(env, run, i).Ok? && PlanAt(env, run, i).Reply?
    ensures var c, h1 := run.steps[i].call, run.states[run.steps[i].r1];
            && CheckToken(c.lease).Ok? && c.lease.taskId in h1.tasks
            && var t := h1.tasks[c.lease.taskId];
               && (t.status.Retrying? || t.status.Failed?) && t.version == c.lease.token.value.version + 1
               && t.errorMessage == c.errorCode + ": " + c.errorMessage
  {
  }

  /** Step `m` left task `id` with this message. */
  predicate LeftMessage(run: Run, m: nat, id: string, message: string)
    requires m + 1 < |run.states|
  {
    id in run.states[m + 1].tasks && run.states[m + 1].tasks[id].errorMessage == message
  }

  /** Whenever Fail answers success for an issued token, the log holds a failed or retrying event at the token's place,
      put there by a call of the token's worker, never by the reaper; and the record that call left carries the message
      of this request, or its code alone if this very call scheduled the retry. */
  lemma FailSound(env: Env, run: Run, i: nat) returns (m: nat)
    requires IsRun(env, run) && i < |run.steps| && run.steps[i].Act? && run.steps[i].call.Fail?
    requires ReplyAt(env, run, i).Ok?
    requires run.steps[i].call.lease.token.Some? ==> Issued(run, run.steps[i].r1, run.steps[i].call.lease.token.value)
    ensures CheckToken(run.steps[i].call.lease).Ok?
    ensures m <= i && (PlanAt(env, run, i).Write? <==> m == i) && Consumes(run, m, run.steps[i].call.lease.token.value)
    ensures var c := run.steps[i].call;
            LeftMessage(run, m, c.lease.taskId,
                        if m == i && RetryChosen(env, run, i) then c.errorCode else c.errorCode + ": " + c.errorMessage)
    ensures var token := run.steps[i].call.lease.token.value;
            var log := LogOf(run.states[i + 1], token.taskId);
            && |log| >= token.version + 2
            && (log[token.version + 1].kind.TaskFailed? || log[token.version + 1].kind.TaskRetrying?)
  {
    if PlanAt(env, run, i).Write? {
      m := i;
      FailWrote(env, run, i);
    } else {
      FailReplayed(env, run, i);
      m := FailFound(env, run, i);
    }
  }

  lemma FailWrote(env: Env, run: Run, i: nat)
    requires IsRun(env, run) && i < |run.steps| && run.steps[i].Act? && run.steps[i].call.Fail?
    requires ReplyAt(env, run, i).Ok? && PlanAt(env, run, i).Write?
    ensures CheckToken(run.steps[i].call.lease).Ok?
    ensures var c, token := run.steps[i].call, run.steps[i].call.lease.token.value;
            var log := LogOf(run.states[i + 1], token.taskId);
            && Consumes(run, i, token) && |log| == token.version + 2
            && (log[token.version + 1].kind.TaskFailed? || log[token.version + 1].kind.TaskRetrying?)
            && run.states[i + 1].tasks[token.taskId].errorMessage
               == if RetryChosen(env, run, i) then c.errorCode else c.errorCode + ": " + c.errorMessage
  {
    var c := run.steps[i].call;
    FailAnswer(env, run, i);
    FailChoice(env, run, i);
    FailLogged(env, run, i);
    LogLength(env, run, i, c.lease.taskId);
    VersionStep(env, run, i, c.lease.taskId);
  }

  lemma FailLogged(env: Env, run: Run, i: nat)
    requires IsRun(env, run) && i < |run.steps| && run.steps[i].Act? && run.steps[i].call.Fail?
    requires ReplyAt(env, run, i).Ok? && PlanAt(env, run, i).Write?
    ensures var id := run.steps[i].call.lease.taskId;
            && id in run.states[i].tasks && run.states[i].tasks[id].version == PlanAt(env, run, i).copy.version
            && LogOf(run.states[i + 1], id) == LogOf(run.states[i], id) + [PlanAt(env, run, i).event]
            && CheckToken(run.steps[i].call.lease).Ok?
            && run.states[i].tasks[id].version == run.steps[i].call.lease.token.value.version
  {
    WriteLanded(env, run, i);
    KeysMatch(env, run, i);
    assert WellKeyed(run.states[run.steps[i].r3]);
    PlanLawful(ContextOf(env, run.states[..i + 1], run.steps[i]), run.steps[i].call);
  }

  lemma FailFound(env: Env, run: Run, i: nat) returns (m: nat)
    requires IsRun(env, run) && i < |run.steps| && run.steps[i].Act? && run.steps[i].call.Fail?
    requires CheckToken(run.steps[i].call.lease).Ok?
    requires Issued(run, run.steps[i].r1, run.steps[i].call.lease.token.value)
    requires var c, h1 := run.steps[i].call, run.states[run.steps[i].r1];
             && c.lease.taskId in h1.tasks
             && var t := h1.tasks[c.lease.taskId];
                && (t.status.Retrying? || t.status.Failed?) && t.version == c.lease.token.value.version + 1
                && t.errorMessage == c.errorCode + ": " + c.errorMessage
    ensures var c, token := run.steps[i].call, run.steps[i].call.lease.token.value;
            var log := LogOf(run.states[i + 1], token.taskId);
            && m < i && Consumes(run, m, token) && |log| >= token.version + 2
            && (log[token.version + 1].kind.TaskFailed? || log[token.version + 1].kind.TaskRetrying?)
            && run.states[m + 1].tasks[token.taskId].errorMessage == c.errorCode + ": " + c.errorMessage
  {
    var r1, token := run.steps[i].r1, run.steps[i].call.lease.token.value;
    var j :| 0 <= j <= r1 && IssuedAt(run, j, token);
    ExpiredIsNoFailure(run.steps[i].call.errorCode, run.steps[i].call.errorMessage);
    m := ConsumedByFailure(env, run, j, r1, token);
    Fencing(env, run, r1, i + 1, token.taskId);
  }

  /** A failed or retrying record one version after an issued token was left by a call of the token's worker, unless it
      carries the reaper's message. */
  lemma ConsumedByFailure(env: Env, run: Run, j: nat, i: nat, token: LeaseToken) returns (m: nat)
    requires IsRun(env, run) && j <= i < |run.states| && IssuedAt(run, j, token)
    requires token.taskId in run.states[i].tasks && run.states[i].tasks[token.taskId].version == token.version + 1
    requires var t := run.states[i].tasks[token.taskId];
             (t.status.Retrying? || t.status.Failed?) && t.errorMessage != EXPIRED_MESSAGE
    ensures j <= m < i && Consumes(run, m, token)
    ensures run.states[m + 1].tasks[token.taskId].errorMessage == run.states[i].tasks[token.taskId].errorMessage
    ensures var log := LogOf(run.states[i], token.taskId);
            |log| == token.version + 2 && (log[token.version + 1].kind.TaskFailed? || log[token.version + 1].kind.TaskRetrying?)
  {
    var eff;
    m, eff := TokenConsumed(env, run, j, i, token);
    FencedMessage(run.states[m + 1].tasks[token.taskId], run.states[i].tasks[token.taskId]);
    assert eff.event.kind.TaskFailed? || eff.event.kind.TaskRetrying?;
    assert run.steps[m].Act?;
  }

  lemma FencedMessage(t: Task, t': Task)
    requires Fenced(t) == Fenced(t')
    ensures t.errorMessage == t'.errorMessage && t.status == t'.status && t.version == t'.version
  {
  }
}
