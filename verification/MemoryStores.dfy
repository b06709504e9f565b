/** The in-memory stores working together: each combined operation changes a task and its events, or nothing. */
module MemoryStores {
  import opened Basics
  import opened Domain
  import opened Selection
  import opened EventOrder
  import opened MemoryTasks
  import Store

  class MemoryEventStore {
    var eventsById: map<string, Event>
    var eventsByTaskId: map<string, seq<Event>>

    constructor ()
      ensures eventsById == map[] && eventsByTaskId == map[]
    {
      eventsById := map[];
      eventsByTaskId := map[];
    }

    /** A task's events in append order. */
    function Listed(taskId: string): seq<Event>
      reads this
    {
      if taskId in eventsByTaskId then eventsByTaskId[taskId] else []
    }

    /** Puts an event into both indexes. */
    method Record(event: Event)
      modifies this
      ensures eventsById == old(eventsById)[event.id := event]
      ensures eventsByTaskId == old(eventsByTaskId)[event.taskId := old(Listed(event.taskId)) + [event]]
    {
      eventsById := eventsById[event.id := event];
      eventsByTaskId := eventsByTaskId[event.taskId := Listed(event.taskId) + [event]];
    }

    method Append(event: Event) returns (r: Result<()>)
      modifies this
      ensures event.id in old(eventsById) ==> r == Err(EventAlreadyExists) && unchanged(this)
      ensures event.id !in old(eventsById) ==>
                && r == Ok(())
                && eventsById == old(eventsById)[event.id := event]
                && eventsByTaskId == old(eventsByTaskId)[event.taskId := old(Listed(event.taskId)) + [event]]
    {
      if event.id in eventsById {
        return Err(EventAlreadyExists);
      }
      Record(event);
      return Ok(());
    }

    /** The events of a task, stably sorted by time. */
    method ListByTaskId(taskId: string) returns (copied: seq<Event>)
      ensures copied == StableSort(Listed(taskId)) && IsStableSort(Listed(taskId), copied)
      ensures copied == Listed(taskId) <==> InTimeOrder(Listed(taskId))
    {
      var events := Listed(taskId);
      copied := [];
      for n := 0 to |events|
        invariant copied == StableSort(events[..n])
      {
        assert events[..n + 1][..n] == events[..n];
        copied := Insert(copied, events[n]);
      }
      assert events[..|events|] == events;
      StableSortIsStable(events);
      SortedIsAppendOrder(events);
    }
  }

  /** What another actor may do to the store while a call is under way: one locked operation. */
  datatype Op =
    | CreateOp(task: Task, event: Event)
    | ClaimOp(options: ClaimOptions, eventId: string)
    | ReapOp(now: Time, eventId: string)
    | WriteOp(task: Task, event: Event)
    | CancelOp(taskId: string, eventId: string, now: Time)
    | RenewOp(renewal: Store.RenewOptions)

  ghost function Apply(decode: Store.Decoder, s: Store.State, op: Op): Store.State
  {
    match op
    case CreateOp(t, e) => Store.CreateTaskWithEvent(decode, s, t, e).state
    case ClaimOp(o, eventId) => Store.ClaimNextWithEvent(s, o, eventId).state
    case ReapOp(now, eventId) => Store.FailNextExpiredWithEvent(s, now, eventId).state
    case WriteOp(t, e) => Store.UpdateTaskWithEvent(s, t, e).state
    case CancelOp(taskId, eventId, now) => Store.CancelTaskWithEvent(s, taskId, eventId, now).state
    case RenewOp(o) => Store.RenewLease(s, o).state
  }

  ghost function ApplyAll(decode: Store.Decoder, s: Store.State, ops: seq<Op>): Store.State
    decreases |ops|
  {
    if ops == [] then s else ApplyAll(decode, Apply(decode, s, ops[0]), ops[1..])
  }

  /** A copy, one version on. */
  method NextVersion(task: TaskObject) returns (updated: TaskObject)
    ensures fresh(updated) && updated.record == task.record.(version := task.record.version + 1)
  {
    updated := new TaskObject.Clone(task);
    updated.record := updated.record.(version := updated.record.version + 1);
  }

  /** Both locks held: the task store and the event store as one. */
  class MemoryTransitionStore {
    const taskStore: MemoryTaskStore
    const eventStore: MemoryEventStore

    ghost predicate Valid()
      reads taskStore, taskStore.tasks.Values
    {
      taskStore.Valid()
    }

    /** The abstract store these objects hold. */
    ghost function View(): Store.State
      reads taskStore, taskStore.tasks.Values, eventStore
    {
      Store.State(taskStore.Tasks(), taskStore.taskIdsByIdempotencyKey, eventStore.eventsById, eventStore.eventsByTaskId)
    }

    /** No stored task is this object. */
    ghost predicate Detached(t: TaskObject)
      reads taskStore
    {
      t !in taskStore.tasks.Values
    }

    constructor ()
      ensures fresh(taskStore) && fresh(eventStore) && Valid() && View() == Store.EMPTY
    {
      taskStore := new MemoryTaskStore();
      eventStore := new MemoryEventStore();
    }

    /** Appends the event of a task change already made in the task store: together they are one commit. */
    method AppendFor(event: Event, ghost s: Store.State, ghost t: Task)
      requires Valid() && taskStore.Tasks() == s.tasks[t.id := t] && taskStore.taskIdsByIdempotencyKey == s.index
      requires eventStore.eventsById == s.byId && eventStore.eventsByTaskId == s.log
      modifies eventStore
      ensures Valid() && View() == Store.Commit(s, t, event)
    {
      eventStore.Record(event);
    }

    /** Puts the record before a failed change back. */
    method Restore(previous: TaskObject, ghost s: Store.State, ghost t: Task)
      requires Valid() && previous.record.id in s.tasks && s.tasks[previous.record.id] == previous.record
      requires View() == s.(tasks := s.tasks[previous.record.id := t])
      modifies taskStore
      ensures Valid() && View() == s && taskStore.tasks == old(taskStore.tasks)[previous.record.id := previous]
    {
      taskStore.Put(previous);
      assert taskStore.Tasks() == s.tasks;
    }

    /** Claims in place, and puts the old record back if the event cannot be built. */
    method ClaimNextWithEvent(o: ClaimOptions, eventId: string) returns (r: Result<TaskObject>)
      requires Valid()
      modifies taskStore, taskStore.tasks.Values, eventStore
      ensures fresh(taskStore.tasks.Values - old(taskStore.tasks.Values))
      ensures Valid() && View() == Store.ClaimNextWithEvent(old(View()), o, eventId).state
      ensures match Store.ClaimNextWithEvent(old(View()), o, eventId).reply
              case Err(e) => r == Err(e)
              case Ok(t) => r.Ok? && r.value.record == t && fresh(r.value) && Detached(r.value)
    {
      if !ValidClaim(o) {
        return Err(InvalidClaim);
      }
      if eventId == "" {
        return Err(InvalidEventId);
      }
      if eventId in eventStore.eventsById {
        return Err(EventAlreadyExists);
      }
      ghost var s := View();
      var claim := taskStore.ClaimNextLocked(o);
      if claim.Err? {
        return Err(claim.error);
      }
      var task, previous := claim.value.task, claim.value.previous;
      var event := NewTaskClaimedEvent(eventId, task.record, claim.value.kind, o.now);
      if event.Err? {
        Restore(previous, s, task.record);
        return Err(event.error);
      }
      AppendFor(event.value, s, task.record);
      return Ok(task);
    }

    method FailNextExpiredWithEvent(now: Time, eventId: string) returns (r: Result<TaskObject>)
      requires Valid()
      modifies taskStore, taskStore.tasks.Values, eventStore
      ensures fresh(taskStore.tasks.Values - old(taskStore.tasks.Values))
      ensures Valid() && View() == Store.FailNextExpiredWithEvent(old(View()), now, eventId).state
      ensures match Store.FailNextExpiredWithEvent(old(View()), now, eventId).reply
              case Err(e) => r == Err(e)
              case Ok(t) => r.Ok? && r.value.record == t && fresh(r.value) && Detached(r.value)
    {
      if now == ZERO_TIME {
        return Err(InvalidCleanupTime);
      }
      if eventId == "" {
        return Err(InvalidEventId);
      }
      if eventId in eventStore.eventsById {
        return Err(EventAlreadyExists);
      }
      ghost var s := View();
      var reap := taskStore.FailNextExpiredLocked(now);
      if reap.Err? {
        return Err(reap.error);
      }
      var task, previous := reap.value.task, reap.value.previous;
      var event := NewTaskExpiredEvent(eventId, task.record, now);
      if event.Err? {
        Restore(previous, s, task.record);
        return Err(event.error);
      }
      AppendFor(event.value, s, task.record);
      return Ok(task);
    }

    /** The version-checked write stores a copy: the caller's object is neither changed nor kept. */
    method UpdateTaskWithEvent(task: TaskObject, event: Event) returns (r: Result<()>)
      requires Valid()
      modifies taskStore, eventStore
      ensures fresh(taskStore.tasks.Values - old(taskStore.tasks.Values))
      ensures Valid() && View() == Store.UpdateTaskWithEvent(old(View()), task.record, event).state
      ensures match Store.UpdateTaskWithEvent(old(View()), task.record, event).reply
              case Err(e) => r == Err(e)
              case Ok(_) => r == Ok(())
      ensures taskStore.tasks == old(taskStore.tasks)
              || (task.record.id in taskStore.tasks && fresh(taskStore.tasks[task.record.id])
                  && taskStore.tasks == old(taskStore.tasks)[task.record.id := taskStore.tasks[task.record.id]])
    {
      if event.taskId != task.record.id {
        return Err(TaskEventMismatch);
      }
      if task.record.id !in taskStore.tasks {
        return Err(TaskNotFound);
      }
      if taskStore.tasks[task.record.id].record.version != task.record.version {
        return Err(TaskConflict);
      }
      if event.id in eventStore.eventsById {
        return Err(EventAlreadyExists);
      }
      CommitCopy(task, event);
      return Ok(());
    }

    /** Stores a copy of an object, one version on, and its event. */
    method CommitCopy(task: TaskObject, event: Event)
      requires Valid() && event.taskId == task.record.id
      modifies taskStore, eventStore
      ensures Valid() && View() == Store.Commit(old(View()), task.record.(version := task.record.version + 1), event)
      ensures task.record.id in taskStore.tasks && fresh(taskStore.tasks[task.record.id])
      ensures taskStore.tasks == old(taskStore.tasks)[task.record.id := taskStore.tasks[task.record.id]]
      ensures fresh(taskStore.tasks.Values - old(taskStore.tasks.Values))
    {
      ghost var s := View();
      var updated := NextVersion(task);
      assert View() == s;
      taskStore.Put(updated);
      AppendFor(event, s, updated.record);
    }

    /** Cancels in place, and puts the old record back if the event cannot be built. */
    method CancelTaskWithEvent(taskId: string, eventId: string, now: Time) returns (r: Result<(TaskObject, bool)>)
      requires Valid()
      modifies taskStore, taskStore.tasks.Values, eventStore
      ensures fresh(taskStore.tasks.Values - old(taskStore.tasks.Values))
      ensures Valid() && View() == Store.CancelTaskWithEvent(old(View()), taskId, eventId, now).state
      ensures match Store.CancelTaskWithEvent(old(View()), taskId, eventId, now).reply
              case Err(e) => r == Err(e)
              case Ok(c) => r.Ok? && r.value.0.record == c.task && r.value.1 == c.canceled
                            && fresh(r.value.0) && Detached(r.value.0)
    {
      if taskId == "" {
        return Err(TaskNotFound);
      }
      if eventId == "" {
        return Err(InvalidEventId);
      }
      if now == ZERO_TIME {
        return Err(InvalidCancellationTime);
      }
      if taskId !in taskStore.tasks {
        return Err(TaskNotFound);
      }
      var stored := taskStore.tasks[taskId];
      if stored.record.status.Canceled? {
        var same := new TaskObject.Clone(stored);
        return Ok((same, false));
      }
      if !stored.record.status.Queued? && !stored.record.status.Retrying? && !stored.record.status.Running? {
        return Err(TaskNotCancelable);
      }
      if eventId in eventStore.eventsById {
        return Err(EventAlreadyExists);
      }
      var copied := CancelActive(taskId, eventId, now);
      return match copied case Err(e) => Err(e) case Ok(t) => Ok((t, true));
    }

    method CancelActive(taskId: string, eventId: string, now: Time) returns (r: Result<TaskObject>)
      requires Valid() && taskId in taskStore.tasks && CanTransition(taskStore.tasks[taskId].record.status, Canceled)
      modifies taskStore, taskStore.tasks.Values, eventStore
      ensures fresh(taskStore.tasks.Values - old(taskStore.tasks.Values))
      ensures Valid()
      ensures var s := old(View());
              var t := Store.CanceledTask(s.tasks[taskId], now);
              match NewTaskCanceledEvent(eventId, t, now)
              case Err(e) => r == Err(e) && View() == s
              case Ok(event) => r.Ok? && r.value.record == t && fresh(r.value) && Detached(r.value)
                                && View() == Store.Commit(s, t, event)
    {
      ghost var s := View();
      var change := taskStore.CancelLocked(taskId, now);
      var event := NewTaskCanceledEvent(eventId, change.task.record, now);
      if event.Err? {
        Restore(change.previous, s, change.task.record);
        return Err(event.error);
      }
      AppendFor(event.value, s, change.task.record);
      return Ok(change.task);
    }

    /** Creation stores a copy and returns another. */
    method CreateTaskWithEvent(decode: Store.Decoder, task: TaskObject, event: Event) returns (r: Result<(TaskObject, bool)>)
      requires Valid()
      modifies taskStore, eventStore
      ensures fresh(taskStore.tasks.Values - old(taskStore.tasks.Values))
      ensures Valid() && View() == Store.CreateTaskWithEvent(decode, old(View()), task.record, event).state
      ensures match Store.CreateTaskWithEvent(decode, old(View()), task.record, event).reply
              case Err(e) => r == Err(e)
              case Ok(c) => r.Ok? && r.value.0.record == c.task && r.value.1 == c.created
                            && fresh(r.value.0) && Detached(r.value.0)
    {
      if event.taskId != task.record.id {
        return Err(TaskEventMismatch);
      }
      if task.record.idempotencyKey != "" {
        var key := Store.IndexKey(task.record.workflow, task.record.idempotencyKey);
        if key in taskStore.taskIdsByIdempotencyKey {
          var taskId := taskStore.taskIdsByIdempotencyKey[key];
          if taskId !in taskStore.tasks
             || !Store.SameTaskCreationRequest(decode, taskStore.tasks[taskId].record, task.record) {
            return Err(IdempotencyConflict);
          }
          var existing := new TaskObject.Clone(taskStore.tasks[taskId]);
          return Ok((existing, false));
        }
      }
      if task.record.id in taskStore.tasks {
        return Err(TaskAlreadyExists);
      }
      if event.id in eventStore.eventsById {
        return Err(EventAlreadyExists);
      }
      var returned := InsertNew(task, event);
      return Ok((returned, true));
    }

    method InsertNew(task: TaskObject, event: Event) returns (returned: TaskObject)
      requires Valid() && event.taskId == task.record.id
      modifies taskStore, eventStore
      ensures fresh(taskStore.tasks.Values - old(taskStore.tasks.Values))
      ensures Valid() && returned.record == task.record && fresh(returned) && Detached(returned)
      ensures var s := old(View());
              var k := Store.IndexKey(task.record.workflow, task.record.idempotencyKey);
              View() == Store.Commit(s, task.record, event).(
                          index := if task.record.idempotencyKey != "" then s.index[k := task.record.id] else s.index)
    {
      returned := taskStore.Insert(task);
      eventStore.Record(event);
    }

    method RenewLease(o: Store.RenewOptions) returns (r: Result<()>)
      requires Valid()
      modifies taskStore.tasks.Values
      ensures Valid() && taskStore.tasks == old(taskStore.tasks)
      ensures r == Store.RenewLease(old(View()), o).reply && View() == Store.RenewLease(old(View()), o).state
    {
      r := taskStore.RenewLease(o);
    }

    /** One locked operation of another actor. */
    method Perform(decode: Store.Decoder, op: Op)
      requires Valid()
      modifies taskStore, taskStore.tasks.Values, eventStore
      ensures fresh(taskStore.tasks.Values - old(taskStore.tasks.Values))
      ensures Valid() && View() == Apply(decode, old(View()), op)
    {
      match op {
        case CreateOp(t, e) =>
          CreateOther(decode, t, e);
        case ClaimOp(o, eventId) =>
          var claimed := ClaimNextWithEvent(o, eventId);
        case ReapOp(now, eventId) =>
          var reaped := FailNextExpiredWithEvent(now, eventId);
        case WriteOp(t, e) =>
          WriteOther(t, e);
        case CancelOp(taskId, eventId, now) =>
          var canceled := CancelTaskWithEvent(taskId, eventId, now);
        case RenewOp(o) =>
          var renewed := RenewLease(o);
      }
    }

    method CreateOther(decode: Store.Decoder, t: Task, e: Event)
      requires Valid()
      modifies taskStore, eventStore
      ensures fresh(taskStore.tasks.Values - old(taskStore.tasks.Values))
      ensures Valid() && View() == Store.CreateTaskWithEvent(decode, old(View()), t, e).state
    {
      var task := new TaskObject(t);
      var created := CreateTaskWithEvent(decode, task, e);
    }

    method WriteOther(t: Task, e: Event)
      requires Valid()
      modifies taskStore, eventStore
      ensures fresh(taskStore.tasks.Values - old(taskStore.tasks.Values))
      ensures Valid() && View() == Store.UpdateTaskWithEvent(old(View()), t, e).state
    {
      var task := new TaskObject(t);
      var written := UpdateTaskWithEvent(task, e);
    }

    /** Whatever other actors do while a call holds no lock. No object that is apart from the store gets into it. */
    method Disturb(decode: Store.Decoder, ops: seq<Op>)
      requires Valid()
      modifies taskStore, taskStore.tasks.Values, eventStore
      ensures fresh(taskStore.tasks.Values - old(taskStore.tasks.Values))
      ensures Valid() && View() == ApplyAll(decode, old(View()), ops)
    {
      ghost var final := ApplyAll(decode, View(), ops);
      for n := 0 to |ops|
        invariant fresh(taskStore.tasks.Values - old(taskStore.tasks.Values))
        invariant Valid() && ApplyAll(decode, View(), ops[n..]) == final
      {
        assert ops[n..][0] == ops[n] && ops[n..][1..] == ops[n + 1..];
        Perform(decode, ops[n]);
      }
    }
  }
}
