/** The claimants over the in-memory stores: worker service, in-process worker and reaper. Between a claimant's reads
    and its write it holds no lock, so other actors may do anything to the store: `noise` says what they do. */
module MemoryWorkers {
  import opened Basics
  import opened Domain
  import opened Selection
  import opened Backoff
  import opened MemoryTasks
  import opened MemoryStores
  import opened Worker
  import Store
  import Drains

  /** What submitting a draft to the store does, and the error if it does not land. */
  ghost predicate Submitted(before: Store.State, after: Store.State, draft: Result<Draft>, r: Result<Task>)
  {
    match draft
    case Err(e) => after == before && r == Err(e)
    case Ok(d) =>
      var spec := Store.UpdateTaskWithEvent(before, d.task, d.event);
      after == spec.state && r == spec.reply
  }

  /** What a service call did: the state and answer of submitting its plan to the store as it was at the end. */
  ghost predicate Answered(before: Store.State, after: Store.State, plan: Plan, r: Result<Task>)
  {
    Submit(before, plan) == Store.Outcome(after, r)
  }

  lemma WriteAnswers(before: Store.State, after: Store.State, copy: Task, draft: Result<Draft>, r: Result<Task>)
    requires Submitted(before, after, draft, r)
    ensures Answered(before, after, PlanWrite(copy, draft), r)
  {
  }

  /** The write of an edited copy. */
  method SubmitDraft(store: MemoryTransitionStore, task: TaskObject, draft: Result<Draft>) returns (r: Result<Task>)
    requires store.Valid() && store.Detached(task)
    modifies task, store.taskStore, store.eventStore
    ensures store.Valid() && Submitted(old(store.View()), store.View(), draft, r)
  {
    if draft.Err? {
      return Err(draft.error);
    }
    task.record := draft.value.task;
    assert store.View() == old(store.View());
    var written := store.UpdateTaskWithEvent(task, draft.value.event);
    return match written case Err(e) => Err(e) case Ok(_) => Ok(task.record);
  }

  // ---- The worker service ----

  /** What other actors do after each of a call's three reads. */
  datatype Noise = Noise(afterReplay: seq<Op>, afterCheck: seq<Op>, beforeWrite: seq<Op>)

  /** When a call reads the clock, and the id of its event. */
  datatype Stamp = Stamp(checkedAt: Time, now: Time, eventId: string)

  class WorkerTaskService {
    const store: MemoryTransitionStore
    const scheduler: bool
    const canonical: string -> Option<string>
    const decode: Store.Decoder

    constructor (store: MemoryTransitionStore, scheduler: bool, canonical: string -> Option<string>, decode: Store.Decoder)
      ensures this.store == store && this.scheduler == scheduler && this.canonical == canonical && this.decode == decode
    {
      this.store, this.scheduler, this.canonical, this.decode := store, scheduler, canonical, decode;
    }

    /** The snapshots of a call that starts in `h1`. */
    ghost function Seen(h1: Store.State, noise: Noise, at: Stamp): Context
    {
      var h2 := ApplyAll(decode, h1, noise.afterReplay);
      Context(h1, h2, ApplyAll(decode, h2, noise.afterCheck), at.checkedAt, at.now, at.eventId, canonical, scheduler)
    }

    /** The store at the moment of its write. */
    ghost function AtWrite(h1: Store.State, noise: Noise): Store.State
    {
      ApplyAll(decode, ApplyAll(decode, ApplyAll(decode, h1, noise.afterReplay), noise.afterCheck), noise.beforeWrite)
    }

    /** The task as a replay of this request would have left it, if it is there. */
    method FindReplay(l: Lease, statuses: set<Status>) returns (r: Result<Option<Task>>)
      requires store.Valid()
      ensures store.Valid() && store.View() == old(store.View()) && r == ReplayWorkerOperation(store.View(), l, statuses)
    {
      var token := CheckToken(l);
      if token.Err? {
        return Err(token.error);
      }
      var found := store.taskStore.Get(l.taskId);
      if found.Err? {
        return Err(found.error);
      }
      if found.value.record.version == token.value.version + 1 && found.value.record.status in statuses {
        return Ok(Some(found.value.record));
      }
      return Ok(None);
    }

    method ResolveVersion(l: Lease) returns (r: Result<nat>)
      requires store.Valid()
      ensures store.Valid() && store.View() == old(store.View()) && r == ResolveLeaseVersion(store.View(), l)
    {
      var token := CheckToken(l);
      if token.Err? {
        return Err(token.error);
      }
      var task := store.taskStore.Get(l.taskId);
      if task.Err? {
        return Err(task.error);
      }
      if task.value.record.version != token.value.version || task.value.record.leaseOwner != l.workerId {
        return Err(LeaseLost);
      }
      return Ok(token.value.version);
    }

    method PrepareCopy(l: Lease, version: nat, now: Time) returns (r: Result<TaskObject>)
      requires store.Valid()
      ensures store.Valid() && store.View() == old(store.View())
      ensures match PrepareRunningTask(store.View(), l.taskId, l.workerId, version, now)
              case Err(e) => r == Err(e)
              case Ok(t) => r.Ok? && fresh(r.value) && store.Detached(r.value) && r.value.record == t
    {
      if l.taskId == "" || TrimSpace(l.workerId) == "" {
        return Err(InvalidWorkerRequest);
      }
      var task := store.taskStore.Get(l.taskId);
      if task.Err? {
        return Err(task.error);
      }
      if !task.value.record.status.Running? || task.value.record.leaseOwner != l.workerId
         || task.value.record.leaseExpiresAt.None? || task.value.record.leaseExpiresAt.value <= now {
        return Err(LeaseLost);
      }
      if task.value.record.version != version {
        return Err(TaskConflict);
      }
      return task;
    }

    /** Token check, copy, edit and write, with other actors in between. */
    method Proceed(c: WorkerCall, at: Stamp, noise: Noise) returns (r: Result<Task>)
      requires store.Valid() && UsesToken(c)
      modifies store.taskStore, store.taskStore.tasks.Values, store.eventStore
      ensures store.Valid()
      ensures var h2 := old(store.View());
              var h3 := ApplyAll(decode, h2, noise.afterCheck);
              Answered(ApplyAll(decode, h3, noise.beforeWrite), store.View(), Opened(h2, h3, c, at), r)
    {
      var version := ResolveVersion(c.lease);
      store.Disturb(decode, noise.afterCheck);
      if version.Err? {
        store.Disturb(decode, noise.beforeWrite);
        return Err(version.error);
      }
      r := Continue(c, version.value, at, noise);
    }

    method Continue(c: WorkerCall, version: nat, at: Stamp, noise: Noise) returns (r: Result<Task>)
      requires store.Valid() && UsesToken(c)
      modifies store.taskStore, store.taskStore.tasks.Values, store.eventStore
      ensures store.Valid()
      ensures var h3 := old(store.View());
              Answered(ApplyAll(decode, h3, noise.beforeWrite), store.View(),
                       match PrepareRunningTask(h3, c.lease.taskId, c.lease.workerId, version, at.checkedAt)
                       case Err(e) => Reply(Err(e))
                       case Ok(t) => PlanWrite(t, DraftOf(c, scheduler, t, at.now, at.eventId)), r)
    {
      var copied := PrepareCopy(c.lease, version, at.checkedAt);
      if copied.Err? {
        store.Disturb(decode, noise.beforeWrite);
        return Err(copied.error);
      }
      var task := copied.value;
      ghost var t := task.record;
      var draft := DraftOf(c, scheduler, task.record, at.now, at.eventId);
      store.Disturb(decode, noise.beforeWrite);
      ghost var s := store.View();
      r := SubmitDraft(store, task, draft);
      WriteAnswers(s, store.View(), t, draft, r);
    }

    /** The plan of a call after its replay check. */
    ghost function Opened(h2: Store.State, h3: Store.State, c: WorkerCall, at: Stamp): Plan
      requires UsesToken(c)
    {
      match ResolveLeaseVersion(h2, c.lease)
      case Err(e) => Reply(Err(e))
      case Ok(version) =>
        match PrepareRunningTask(h3, c.lease.taskId, c.lease.workerId, version, at.checkedAt)
        case Err(e) => Reply(Err(e))
        case Ok(t) => PlanWrite(t, DraftOf(c, scheduler, t, at.now, at.eventId))
    }

    /** Answers at once; other actors go on. */
    method Answer(answer: Result<Task>, noise: Noise) returns (r: Result<Task>)
      requires store.Valid()
      modifies store.taskStore, store.taskStore.tasks.Values, store.eventStore
      ensures store.Valid() && Answered(AtWrite(old(store.View()), noise), store.View(), Reply(answer), r)
    {
      store.Disturb(decode, noise.afterReplay);
      store.Disturb(decode, noise.afterCheck);
      store.Disturb(decode, noise.beforeWrite);
      return answer;
    }

    /** Goes on after the replay check. */
    method GoOn(c: WorkerCall, at: Stamp, noise: Noise) returns (r: Result<Task>)
      requires store.Valid() && UsesToken(c)
      modifies store.taskStore, store.taskStore.tasks.Values, store.eventStore
      ensures store.Valid()
      ensures var x := Seen(old(store.View()), noise, at);
              Answered(AtWrite(old(store.View()), noise), store.View(), Opened(x.h2, x.h3, c, at), r)
    {
      store.Disturb(decode, noise.afterReplay);
      r := Proceed(c, at, noise);
    }

    /** Each call is its plan, made from what its reads saw and submitted to what the store is by then. */
    method CompleteTask(l: Lease, output: string, resultRef: string, at: Stamp, noise: Noise) returns (r: Result<Task>)
      requires store.Valid()
      modifies store.taskStore, store.taskStore.tasks.Values, store.eventStore
      ensures store.Valid()
      ensures Answered(AtWrite(old(store.View()), noise), store.View(),
                       PlanComplete(Seen(old(store.View()), noise, at), l, ResultOf(output, resultRef)), r)
    {
      var replay := FindReplay(l, {Succeeded});
      if replay.Err? {
        r := Answer(Err(replay.error), noise);
      } else if replay.value.Some? {
        var same := JsonSemanticallyEqual(canonical, replay.value.value.result, ResultOf(output, resultRef));
        r := Answer(if same then Ok(replay.value.value) else Err(TaskConflict), noise);
      } else {
        r := GoOn(Complete(l, output, resultRef), at, noise);
      }
    }

    method ReportProgress(l: Lease, progress: int, message: string, at: Stamp, noise: Noise) returns (r: Result<Task>)
      requires store.Valid()
      modifies store.taskStore, store.taskStore.tasks.Values, store.eventStore
      ensures store.Valid()
      ensures Answered(AtWrite(old(store.View()), noise), store.View(),
                       PlanProgress(Seen(old(store.View()), noise, at), l, progress, message), r)
    {
      if progress < 0 || progress >= 100 {
        r := Answer(Err(InvalidWorkerRequest), noise);
      } else {
        r := GoOn(Progress(l, progress, message), at, noise);
      }
    }

    method FailTask(l: Lease, code: string, message: string, retryable: bool, retryAfter: Duration, seed: nat, at: Stamp,
                    noise: Noise) returns (r: Result<Task>)
      requires store.Valid()
      modifies store.taskStore, store.taskStore.tasks.Values, store.eventStore
      ensures store.Valid()
      ensures Answered(AtWrite(old(store.View()), noise), store.View(),
                       PlanFail(Seen(old(store.View()), noise, at), l, code, message, retryable, retryAfter, seed), r)
    {
      var replay := FindReplay(l, {Retrying, Failed});
      if replay.Err? {
        r := Answer(Err(replay.error), noise);
      } else if replay.value.Some? {
        var same := replay.value.value.errorMessage == code + ": " + message;
        r := Answer(if same then Ok(replay.value.value) else Err(TaskConflict), noise);
      } else {
        r := GoOn(Fail(l, code, message, retryable, retryAfter, seed), at, noise);
      }
    }

    method ReleaseTask(l: Lease, at: Stamp, noise: Noise) returns (r: Result<Task>)
      requires store.Valid()
      modifies store.taskStore, store.taskStore.tasks.Values, store.eventStore
      ensures store.Valid()
      ensures Answered(AtWrite(old(store.View()), noise), store.View(), PlanRelease(Seen(old(store.View()), noise, at), l), r)
    {
      var replay := FindReplay(l, {Queued});
      if replay.Err? {
        r := Answer(Err(replay.error), noise);
      } else if replay.value.Some? {
        r := Answer(Ok(replay.value.value), noise);
      } else {
        r := GoOn(Release(l), at, noise);
      }
    }
  }

  // ---- The in-process worker ----

  /** How an execution ends. */
  datatype Ending = Finished(result: ExecutionResult) | Aborted(cause: ExecuteError) | LeaseGone

  class InProcessWorker {
    const store: MemoryTransitionStore
    const decode: Store.Decoder
    const policies: map<string, RetryPolicy>

    constructor (store: MemoryTransitionStore, decode: Store.Decoder, policies: map<string, RetryPolicy>)
      ensures this.store == store && this.decode == decode && this.policies == policies
    {
      this.store, this.decode, this.policies := store, decode, policies;
    }

    /** What the worker makes of its copy when the execution has ended. */
    function EndDraft(t: Task, ending: Ending, seed: nat, now: Time, eventId: string): Result<Draft>
    {
      match ending
      case LeaseGone => Err(LeaseLost)
      case Finished(result) => FinishDraft(t, result, now, eventId)
      case Aborted(cause) =>
        AbortDraft(t, cause, if t.workflow in policies then Some(policies[t.workflow]) else None, seed, now, eventId)
    }

    /** ProcessNext: claims a task, lets it execute while other actors do anything at all, its own renewals included,
        and writes the end of the execution. Its copy is never drawn into the store meanwhile. */
    method ProcessNext(o: ClaimOptions, claimId: string, noise: seq<Op>, ending: Ending, seed: nat, now: Time, eventId: string)
      returns (r: Result<bool>)
      requires store.Valid()
      modifies store.taskStore, store.taskStore.tasks.Values, store.eventStore
      ensures store.Valid()
      ensures var claim := Store.ClaimNextWithEvent(old(store.View()), o, claimId);
              match claim.reply
              case Err(e) => store.View() == claim.state && r == if e.NoTaskAvailable? then Ok(false) else Err(e)
              case Ok(t) =>
                exists written :: Submitted(ApplyAll(decode, claim.state, noise), store.View(),
                                            EndDraft(t, ending, seed, now, eventId), written)
                                  && r == match written case Ok(_) => Ok(true) case Err(e) => Err(e)
    {
      var claim := store.ClaimNextWithEvent(o, claimId);
      if claim.Err? {
        return if claim.error.NoTaskAvailable? then Ok(false) else Err(claim.error);
      }
      var task := claim.value;
      var draft := EndDraft(task.record, ending, seed, now, eventId);
      store.Disturb(decode, noise);
      var written := SubmitDraft(store, task, draft);
      return match written case Ok(_) => Ok(true) case Err(e) => Err(e);
    }
  }

  // ---- The reaper ----

  class Reaper {
    const store: MemoryTransitionStore

    constructor (store: MemoryTransitionStore)
      ensures this.store == store
    {
      this.store := store;
    }

    method ProcessNext(now: Time, eventId: string) returns (r: Result<bool>)
      requires store.Valid()
      modifies store.taskStore, store.taskStore.tasks.Values, store.eventStore
      ensures fresh(store.taskStore.tasks.Values - old(store.taskStore.tasks.Values))
      ensures store.Valid()
      ensures var spec := Store.FailNextExpiredWithEvent(old(store.View()), now, eventId);
              && store.View() == spec.state
              && r == match spec.reply
                      case Ok(_) => Ok(true)
                      case Err(e) => if e.NoExpiredTask? then Ok(false) else Err(e)
    {
      var reaped := store.FailNextExpiredWithEvent(now, eventId);
      if reaped.Err? {
        if reaped.error.NoExpiredTask? {
          return Ok(false);
        }
        return Err(reaped.error);
      }
      return Ok(true);
    }

    /** One round of the drain. */
    method Round(clock: seq<Time>, ids: seq<string>, processed: nat, ghost whole: Drains.Drained) returns (more: bool)
      requires store.Valid() && |ids| == |clock| && Drains.Draining(store.View(), clock, ids, processed, whole)
      modifies store.taskStore, store.taskStore.tasks.Values, store.eventStore
      ensures fresh(store.taskStore.tasks.Values - old(store.taskStore.tasks.Values))
      ensures store.Valid()
      ensures if more then Drains.Draining(store.View(), clock, ids, processed + 1, whole)
              else store.View() == whole.state && processed == |whole.handedOut|
    {
      Drains.DrainRound(store.View(), clock, ids, processed, whole);
      var r := ProcessNext(clock[processed], ids[processed]);
      return r == Ok(true);
    }

    /** The drain loop of Run, given a clock reading and an event id for every round: it is the specified drain, which
        fails exactly the tasks exhausted when it ends and leaves every other record and log as it was. */
    method Drain(clock: seq<Time>, ids: seq<string>) returns (processed: nat)
      requires store.Valid() && Drains.Sane(store.View()) && Drains.Ticks(clock) && Drains.FreshIds(store.View(), ids)
      requires |ids| == |clock| && Drains.Suffices(store.View(), clock)
      modifies store.taskStore, store.taskStore.tasks.Values, store.eventStore
      ensures store.Valid()
      ensures var d := Drains.DrainReaps(old(store.View()), clock, ids);
              store.View() == d.state && processed == |d.handedOut| && Drains.FullyReaped(old(store.View()), d, clock)
    {
      Drains.DrainStarts(store.View(), clock, ids);
      processed := Rounds(clock, ids, Drains.DrainReaps(store.View(), clock, ids));
    }

    method Rounds(clock: seq<Time>, ids: seq<string>, ghost whole: Drains.Drained) returns (processed: nat)
      requires store.Valid() && |ids| == |clock| && Drains.Draining(store.View(), clock, ids, 0, whole)
      modifies store.taskStore, store.taskStore.tasks.Values, store.eventStore
      ensures store.Valid() && store.View() == whole.state && processed == |whole.handedOut|
    {
      processed := 0;
      while true
        invariant store.Valid() && Drains.Draining(store.View(), clock, ids, processed, whole)
        invariant fresh(store.taskStore.tasks.Values - old(store.taskStore.tasks.Values))
        decreases |clock| - processed
      {
        var more := Round(clock, ids, processed, whole);
        if !more {
          return;
        }
        processed := processed + 1;
      }
    }
  }
}
