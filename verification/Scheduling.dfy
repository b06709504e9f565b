/** The scheduler and the reaper, from the fields of the stored records: exactly when a claim or a reap finds a task, and
    which one it is, in every state of every run. */
module Scheduling {
  import opened Basics
  import opened Domain
  import opened Selection
  import opened EventLog
  import opened Store
  import opened Worker
  import opened Plans
  import opened Runs
  import opened Guarantees

  /** The answer of a claim made in state `i`. */
  ghost function ClaimAt(run: Run, i: nat, o: ClaimOptions, eventId: string): Result<Task>
    requires i < |run.states|
  {
    ClaimNextWithEvent(run.states[i], o, eventId).reply
  }

  lemma ClaimPicks(env: Env, run: Run, i: nat, o: ClaimOptions, eventId: string)
    requires IsRun(env, run) && i < |run.states|
    ensures ClaimAt(run, i, o, eventId).Ok? <==>
              ValidClaim(o) && eventId != "" && eventId !in run.states[i].byId && ClaimPick(run.states[i].tasks, o.workflow, o.now).Some?
    ensures ClaimAt(run, i, o, eventId).Ok? ==>
              ClaimAt(run, i, o, eventId).value.id == ClaimPick(run.states[i].tasks, o.workflow, o.now).value.id
  {
    var pick := ClaimPick(run.states[i].tasks, o.workflow, o.now);
    if pick.Some? {
      EventSourcing(env, run, i, pick.value.id);
    }
  }

  /** A claim hands out a task exactly when it names a worker, a clock, a lease and a new event id, and some task of its
      workflow is queued or retrying with its available time come, or running past its lease with a retry left. */
  lemma ClaimExactly(env: Env, run: Run, i: nat, o: ClaimOptions, eventId: string)
    requires IsRun(env, run) && i < |run.states|
    ensures var tasks := run.states[i].tasks;
            ClaimAt(run, i, o, eventId).Ok? <==>
              && o.workerId != "" && o.now != ZERO_TIME && o.leaseDuration > 0 && eventId != "" && eventId !in run.states[i].byId
              && exists id :: id in tasks && (o.workflow == "" || tasks[id].workflow == o.workflow)
                   && match tasks[id].status
                      case Queued => tasks[id].availableAt <= o.now
                      case Retrying => tasks[id].availableAt <= o.now
                      case Running => tasks[id].leaseExpiresAt.Some? && tasks[id].leaseExpiresAt.value <= o.now
                                      && tasks[id].retryCount < tasks[id].maxRetries
                      case _ => false
  {
    ClaimPicks(env, run, i, o, eventId);
    var tasks := run.states[i].tasks;
    var recoverable, due := RecoverableIds(tasks, o.workflow, o.now), DueIds(tasks, o.workflow, o.now);
    if recoverable != {} {
      var id :| id in recoverable;
    } else if due != {} {
      var id :| id in due;
    }
    forall id | id in tasks ensures id in recoverable <==> Recoverable(tasks[id], o.workflow, o.now) {
    }
    forall id | id in tasks ensures id in due <==> Due(tasks[id], o.workflow, o.now) {
    }
  }

  /** Which task it is: of the expired ones with a retry left the one that expired first, if there is any; otherwise of
      those whose time has come the one that has waited longest. Ties go to the older task, then to the smaller id. */
  lemma ClaimOrder(env: Env, run: Run, i: nat, o: ClaimOptions, eventId: string, other: string)
    requires IsRun(env, run) && i < |run.states| && ClaimAt(run, i, o, eventId).Ok?
    requires other in run.states[i].tasks && other != ClaimAt(run, i, o, eventId).value.id
    requires o.workflow == "" || run.states[i].tasks[other].workflow == o.workflow
    ensures ClaimAt(run, i, o, eventId).value.id in run.states[i].tasks
    ensures var id := ClaimAt(run, i, o, eventId).value.id;
            var t, u := run.states[i].tasks[id], run.states[i].tasks[other];
            && (u.status.Running? && u.leaseExpiresAt.Some? && u.leaseExpiresAt.value <= o.now && u.retryCount < u.maxRetries ==>
                  && t.status.Running? && t.leaseExpiresAt.Some?
                  && (t.leaseExpiresAt.value < u.leaseExpiresAt.value
                      || (t.leaseExpiresAt.value == u.leaseExpiresAt.value && StrLess(id, other))))
            && ((u.status.Queued? || u.status.Retrying?) && u.availableAt <= o.now && !t.status.Running? ==>
                  || t.availableAt < u.availableAt
                  || (t.availableAt == u.availableAt
                      && (t.createdAt < u.createdAt || (t.createdAt == u.createdAt && StrLess(id, other)))))
  {
    ClaimPicks(env, run, i, o, eventId);
    var tasks := run.states[i].tasks;
    var id := ClaimPick(tasks, o.workflow, o.now).value.id;
    var recoverable, due := RecoverableIds(tasks, o.workflow, o.now), DueIds(tasks, o.workflow, o.now);
    assert other in recoverable <==> Recoverable(tasks[other], o.workflow, o.now);
    assert other in due <==> Due(tasks[other], o.workflow, o.now);
    if recoverable != {} {
      assert IsFirst(ByLease, tasks, recoverable, id);
      assert other in recoverable ==> Before(ByLease, tasks, id, other);
    } else {
      assert IsFirst(ByAvailability, tasks, due, id);
      assert other in due ==> Before(ByAvailability, tasks, id, other);
    }
  }

  /** So a crashed worker's task is taken up again: as long as a task runs past its lease with a retry left, every proper
      claim of its workflow is a takeover of some task that ran past its lease. */
  lemma ExpiredIsRecovered(env: Env, run: Run, i: nat, o: ClaimOptions, eventId: string, expired: string) returns (id: string)
    requires IsRun(env, run) && i < |run.states| && expired in run.states[i].tasks
    requires o.workerId != "" && o.now != ZERO_TIME && o.leaseDuration > 0 && eventId != "" && eventId !in run.states[i].byId
    requires var t := run.states[i].tasks[expired];
             && t.status.Running? && t.leaseExpiresAt.Some? && t.leaseExpiresAt.value <= o.now && t.retryCount < t.maxRetries
             && (o.workflow == "" || t.workflow == o.workflow)
    ensures ClaimAt(run, i, o, eventId).Ok? && id in run.states[i].tasks && ClaimAt(run, i, o, eventId).value.id == id
    ensures var t, t' := run.states[i].tasks[id], ClaimAt(run, i, o, eventId).value;
            && t.status.Running? && t.leaseExpiresAt.Some? && t.leaseExpiresAt.value <= run.states[i].tasks[expired].leaseExpiresAt.value
            && t'.retryCount == t.retryCount + 1 && t'.leaseOwner == o.workerId
    ensures var log, log' := LogOf(run.states[i], id), LogOf(ClaimNextWithEvent(run.states[i], o, eventId).state, id);
            |log'| == |log| + 1 && log'[|log|].kind.TaskRecovered?
  {
    ClaimExactly(env, run, i, o, eventId);
    id := ClaimAt(run, i, o, eventId).value.id;
    if id != expired {
      ClaimOrder(env, run, i, o, eventId, expired);
    } else {
      ClaimPicks(env, run, i, o, eventId);
    }
    KeysMatch(env, run, i);
    assert WellKeyed(run.states[i]);
    var eff := ClaimEffect(run.states[i], o, eventId);
    Recovers(run.states[i], o, eventId, eff);
  }

  lemma Recovers(s: State, o: ClaimOptions, eventId: string, eff: Effect)
    requires eff.Change? && Realizes(s, ClaimNextWithEvent(s, o, eventId).state, eff) && IsClaim(eff.event.kind)
    requires eff.copy == s.tasks[eff.next.id] && eff.copy.status.Running?
    ensures eff.event.kind.TaskRecovered? && eff.next.retryCount == eff.copy.retryCount + 1
    ensures LogOf(ClaimNextWithEvent(s, o, eventId).state, eff.next.id) == LogOf(s, eff.next.id) + [eff.event]
  {
  }

  // ---- The reaper ----

  ghost function ReapAt(run: Run, i: nat, now: Time, eventId: string): Result<Task>
    requires i < |run.states|
  {
    FailNextExpiredWithEvent(run.states[i], now, eventId).reply
  }

  lemma ReapPicks(env: Env, run: Run, i: nat, now: Time, eventId: string)
    requires IsRun(env, run) && i < |run.states|
    ensures ReapAt(run, i, now, eventId).Ok? <==>
              now != ZERO_TIME && eventId != "" && eventId !in run.states[i].byId && ReapPick(run.states[i].tasks, now).Some?
    ensures ReapAt(run, i, now, eventId).Ok? ==> ReapAt(run, i, now, eventId).value.id == ReapPick(run.states[i].tasks, now).value
  {
    var pick := ReapPick(run.states[i].tasks, now);
    if pick.Some? {
      EventSourcing(env, run, i, pick.value);
    }
  }

  /** The reaper finds a task exactly when it has a clock and a new event id and some task runs past its lease with no
      retry left. */
  lemma ReapExactly(env: Env, run: Run, i: nat, now: Time, eventId: string)
    requires IsRun(env, run) && i < |run.states|
    ensures var tasks := run.states[i].tasks;
            ReapAt(run, i, now, eventId).Ok? <==>
              && now != ZERO_TIME && eventId != "" && eventId !in run.states[i].byId
              && exists id :: id in tasks && tasks[id].status.Running? && tasks[id].leaseExpiresAt.Some?
                   && tasks[id].leaseExpiresAt.value <= now && tasks[id].retryCount >= tasks[id].maxRetries
  {
    ReapPicks(env, run, i, now, eventId);
    var tasks, exhausted := run.states[i].tasks, ExhaustedIds(run.states[i].tasks, now);
    if exhausted != {} {
      var id :| id in exhausted;
    }
    forall id | id in tasks ensures id in exhausted <==> Exhausted(tasks[id], now) {
    }
  }

  /** It takes the one whose lease expired first, the smaller id among equals. */
  lemma ReapOrder(env: Env, run: Run, i: nat, now: Time, eventId: string, other: string)
    requires IsRun(env, run) && i < |run.states| && ReapAt(run, i, now, eventId).Ok?
    requires other in run.states[i].tasks && other != ReapAt(run, i, now, eventId).value.id
    requires var u := run.states[i].tasks[other];
             u.status.Running? && u.leaseExpiresAt.Some? && u.leaseExpiresAt.value <= now && u.retryCount >= u.maxRetries
    ensures var id := ReapAt(run, i, now, eventId).value.id;
            && id in run.states[i].tasks && run.states[i].tasks[id].leaseExpiresAt.Some?
            && var t, u := run.states[i].tasks[id], run.states[i].tasks[other];
               t.leaseExpiresAt.value < u.leaseExpiresAt.value
               || (t.leaseExpiresAt.value == u.leaseExpiresAt.value && StrLess(id, other))
  {
    ReapPicks(env, run, i, now, eventId);
    var tasks := run.states[i].tasks;
    var id := ReapPick(tasks, now).value;
    assert IsFirst(ByLease, tasks, ExhaustedIds(tasks, now), id);
    assert other in ExhaustedIds(tasks, now) && Before(ByLease, tasks, id, other);
  }
}
