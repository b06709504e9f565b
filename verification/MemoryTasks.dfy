/** The in-memory task store: a map of task objects, changed in place. */
module MemoryTasks {
  import opened Basics
  import opened Domain
  import opened Selection
  import Store

  /** A task object as the stores see it: one place in memory that holds a task. TaskLayout opens it up. Stored,
      returned and supplied objects are distinguished by identity. */
  class TaskObject {
    var record: Task

    constructor (t: Task)
      ensures record == t
    {
      record := t;
    }

    constructor Clone(t: TaskObject)
      ensures record == t.record
    {
      record := t.record;
    }
  }

  /** What a locked claim returns: a copy of the claimed task, a copy of it before, and the kind of claim. */
  datatype Claimed = Claimed(task: TaskObject, previous: TaskObject, kind: ClaimKind)

  /** Copies of a task changed in place, after and before. */
  datatype Changed = Changed(task: TaskObject, previous: TaskObject)

  class MemoryTaskStore {
    var tasks: map<string, TaskObject>
    var taskIdsByIdempotencyKey: map<string, string>

    ghost predicate Valid()
      reads this, tasks.Values
    {
      forall i :: i in tasks ==> tasks[i].record.id == i
    }

    /** The stored records. */
    ghost function Tasks(): Selection.Tasks
      reads this, tasks.Values
    {
      map i | i in tasks :: tasks[i].record
    }

    constructor ()
      ensures Valid() && tasks == map[] && taskIdsByIdempotencyKey == map[]
    {
      tasks := map[];
      taskIdsByIdempotencyKey := map[];
    }

    method Get(id: string) returns (r: Result<TaskObject>)
      requires Valid()
      ensures id !in tasks ==> r == Err(TaskNotFound)
      ensures id in tasks ==> r.Ok? && fresh(r.value) && r.value.record == Tasks()[id]
    {
      if id !in tasks {
        return Err(TaskNotFound);
      }
      var copied := new TaskObject.Clone(tasks[id]);
      return Ok(copied);
    }

    /** Stores an object under its id, in place of any earlier one. */
    method Put(t: TaskObject)
      requires Valid()
      modifies this`tasks
      ensures Valid() && tasks == old(tasks)[t.record.id := t]
      ensures Tasks() == old(Tasks())[t.record.id := t.record]
    {
      tasks := tasks[t.record.id := t];
    }

    /** Stores a copy of an object under its id. */
    method Keep(t: TaskObject)
      requires Valid()
      modifies this`tasks
      ensures Valid() && fresh(tasks.Values - old(tasks.Values)) && Tasks() == old(Tasks())[t.record.id := t.record]
    {
      var copied := new TaskObject.Clone(t);
      Put(copied);
    }

    /** Stores a copy of a new task, indexed by its key if it has one, and returns another copy. */
    method Insert(t: TaskObject) returns (returned: TaskObject)
      requires Valid()
      modifies this
      ensures Valid() && fresh(returned) && returned.record == t.record && returned !in tasks.Values
      ensures fresh(tasks.Values - old(tasks.Values))
      ensures Tasks() == old(Tasks())[t.record.id := t.record]
      ensures taskIdsByIdempotencyKey ==
              if t.record.idempotencyKey == "" then old(taskIdsByIdempotencyKey)
              else old(taskIdsByIdempotencyKey)[Store.IndexKey(t.record.workflow, t.record.idempotencyKey) := t.record.id]
    {
      Keep(t);
      if t.record.idempotencyKey != "" {
        var key := Store.IndexKey(t.record.workflow, t.record.idempotencyKey);
        taskIdsByIdempotencyKey := taskIdsByIdempotencyKey[key := t.record.id];
      }
      returned := new TaskObject.Clone(t);
    }

    /** Moves a stored task to canceled in place. */
    method CancelLocked(taskId: string, now: Time) returns (r: Changed)
      requires Valid() && taskId in tasks && CanTransition(tasks[taskId].record.status, Canceled)
      modifies tasks.Values
      ensures Valid() && tasks == old(tasks) && fresh(r.task) && fresh(r.previous) && r.previous.record == old(Tasks())[taskId]
      ensures r.task.record == Store.CanceledTask(r.previous.record, now)
      ensures Tasks() == old(Tasks())[taskId := r.task.record]
    {
      var stored := tasks[taskId];
      var previous := new TaskObject.Clone(stored);
      stored.record := Store.CanceledTask(stored.record, now);
      assert Tasks() == old(Tasks())[taskId := stored.record];
      var copied := new TaskObject.Clone(stored);
      return Changed(copied, previous);
    }

    /** First pass over the map, in any order: the recoverable task with the earliest lease expiry. */
    method SelectRecoverable(workflow: string, now: Time) returns (selected: TaskObject?)
      requires Valid()
      ensures selected == null ==> RecoverableIds(Tasks(), workflow, now) == {}
      ensures selected != null ==>
                selected.record.id in tasks && tasks[selected.record.id] == selected
                && IsFirst(ByLease, Tasks(), RecoverableIds(Tasks(), workflow, now), selected.record.id)
    {
      selected := null;
      ghost var all := Tasks();
      ghost var ids := RecoverableIds(all, workflow, now);
      var rest := tasks.Keys;
      while rest != {}
        invariant rest <= tasks.Keys && Best(ByLease, all, ids, rest, IdOf(selected))
        invariant selected != null ==> selected.record.id in tasks && tasks[selected.record.id] == selected
        decreases |rest|
      {
        var i :| i in rest;
        CardMinusOne(rest, i);
        PassOne(ByLease, all, ids, rest, IdOf(selected), i);
        rest := rest - {i};
        selected := RecoverableOf(selected, tasks[i], workflow, now, all);
      }
    }

    /** One task of that pass: skip it, keep the selected one, or select it. */
    method RecoverableOf(before: TaskObject?, task: TaskObject, workflow: string, now: Time, ghost all: Selection.Tasks)
      returns (selected: TaskObject?)
      requires task.record.id in all && all[task.record.id] == task.record
      requires before != null ==> before.record.id in all && all[before.record.id] == before.record
      requires before != null ==> before.record.id in RecoverableIds(all, workflow, now)
      ensures selected == task || selected == before
      ensures IdOf(selected) == Better(ByLease, all, RecoverableIds(all, workflow, now), IdOf(before), task.record.id)
    {
      selected := before;
      if workflow != "" && task.record.workflow != workflow {
        return;
      }
      if !task.record.status.Running? || task.record.leaseExpiresAt.None? || task.record.leaseExpiresAt.value > now
         || task.record.retryCount >= task.record.maxRetries {
        return;
      }
      if selected == null || ExpiresFirst(task.record, selected.record) {
        selected := task;
      }
    }

    /** Second pass: the due task available first, then created first. */
    method SelectDue(workflow: string, now: Time) returns (selected: TaskObject?, kind: ClaimKind)
      requires Valid()
      ensures selected == null ==> DueIds(Tasks(), workflow, now) == {}
      ensures selected != null ==>
                selected.record.id in tasks && tasks[selected.record.id] == selected && kind == StartKind(selected.record)
                && IsFirst(ByAvailability, Tasks(), DueIds(Tasks(), workflow, now), selected.record.id)
    {
      selected, kind := null, ClaimInitial;
      ghost var all := Tasks();
      ghost var ids := DueIds(all, workflow, now);
      var rest := tasks.Keys;
      while rest != {}
        invariant rest <= tasks.Keys && Best(ByAvailability, all, ids, rest, IdOf(selected))
        invariant selected != null ==> selected.record.id in tasks && tasks[selected.record.id] == selected && kind == StartKind(selected.record)
        decreases |rest|
      {
        var i :| i in rest;
        CardMinusOne(rest, i);
        PassOne(ByAvailability, all, ids, rest, IdOf(selected), i);
        rest := rest - {i};
        selected, kind := DueOf(selected, kind, tasks[i], workflow, now, all);
      }
    }

    /** One task of that pass: skip it, keep the selected one, or select it. */
    method DueOf(before: TaskObject?, kindBefore: ClaimKind, task: TaskObject, workflow: string, now: Time, ghost all: Selection.Tasks)
      returns (selected: TaskObject?, kind: ClaimKind)
      requires task.record.id in all && all[task.record.id] == task.record
      requires before != null ==> before.record.id in all && all[before.record.id] == before.record
      requires before != null ==> before.record.id in DueIds(all, workflow, now) && kindBefore == StartKind(before.record)
      ensures selected == task || selected == before
      ensures IdOf(selected) == Better(ByAvailability, all, DueIds(all, workflow, now), IdOf(before), task.record.id)
      ensures selected != null ==> kind == StartKind(selected.record)
    {
      selected, kind := before, kindBefore;
      if workflow != "" && task.record.workflow != workflow {
        return;
      }
      if (!task.record.status.Queued? && !task.record.status.Retrying?) || task.record.availableAt > now {
        return;
      }
      if selected == null || AvailableFirst(task.record, selected.record) {
        selected := task;
        kind := if task.record.status.Retrying? then ClaimRetry else ClaimInitial;
      }
    }

    /** The reaper's pass: the expired task out of retries with the earliest lease expiry. */
    method SelectExhausted(now: Time) returns (selected: TaskObject?)
      requires Valid()
      ensures selected == null ==> ExhaustedIds(Tasks(), now) == {}
      ensures selected != null ==>
                selected.record.id in tasks && tasks[selected.record.id] == selected
                && IsFirst(ByLease, Tasks(), ExhaustedIds(Tasks(), now), selected.record.id)
    {
      selected := null;
      ghost var all := Tasks();
      ghost var ids := ExhaustedIds(all, now);
      var rest := tasks.Keys;
      while rest != {}
        invariant rest <= tasks.Keys && Best(ByLease, all, ids, rest, IdOf(selected))
        invariant selected != null ==> selected.record.id in tasks && tasks[selected.record.id] == selected
        decreases |rest|
      {
        var i :| i in rest;
        CardMinusOne(rest, i);
        PassOne(ByLease, all, ids, rest, IdOf(selected), i);
        rest := rest - {i};
        selected := ExhaustedOf(selected, tasks[i], now, all);
      }
    }

    /** One task of that pass: skip it, keep the selected one, or select it. */
    method ExhaustedOf(before: TaskObject?, task: TaskObject, now: Time, ghost all: Selection.Tasks)
      returns (selected: TaskObject?)
      requires task.record.id in all && all[task.record.id] == task.record
      requires before != null ==> before.record.id in all && all[before.record.id] == before.record
      requires before != null ==> before.record.id in ExhaustedIds(all, now)
      ensures selected == task || selected == before
      ensures IdOf(selected) == Better(ByLease, all, ExhaustedIds(all, now), IdOf(before), task.record.id)
    {
      selected := before;
      if !task.record.status.Running? || task.record.leaseExpiresAt.None? || task.record.leaseExpiresAt.value > now
         || task.record.retryCount < task.record.maxRetries {
        return;
      }
      if selected == null || ExpiresFirst(task.record, selected.record) {
        selected := task;
      }
    }

    /** Both passes: the task the specification picks. */
    method SelectNext(workflow: string, now: Time) returns (selected: TaskObject?, kind: ClaimKind)
      requires Valid()
      ensures selected == null ==> ClaimPick(Tasks(), workflow, now) == None
      ensures selected != null ==>
                && selected.record.id in tasks && tasks[selected.record.id] == selected
                && ClaimPick(Tasks(), workflow, now) == Some(Pick(selected.record.id, kind))
                && (kind.ClaimRecovery? || CanTransition(selected.record.status, Running))
    {
      kind := ClaimRecovery;
      selected := SelectRecoverable(workflow, now);
      if selected == null {
        selected, kind := SelectDue(workflow, now);
      }
      if selected != null {
        PickedIs(Tasks(), workflow, now, selected.record.id, kind);
        assert kind.ClaimRecovery? || Due(Tasks()[selected.record.id], workflow, now);
      }
    }

    /** claimNextLocked: picks the specified task and claims it in place; only its object changes. */
    method ClaimNextLocked(o: ClaimOptions) returns (r: Result<Claimed>)
      requires Valid()
      modifies tasks.Values
      ensures Valid() && tasks == old(tasks)
      ensures match ClaimPick(old(Tasks()), o.workflow, o.now)
              case None => r == Err(NoTaskAvailable) && Tasks() == old(Tasks())
              case Some(pick) =>
                && r.Ok? && fresh(r.value.task) && fresh(r.value.previous) && r.value.kind == pick.kind
                && r.value.previous.record == old(Tasks())[pick.id]
                && r.value.task.record == ClaimedTask(old(Tasks())[pick.id], pick.kind, o)
                && Tasks() == old(Tasks())[pick.id := r.value.task.record]
    {
      var selected, kind := SelectNext(o.workflow, o.now);
      if selected == null {
        return Err(NoTaskAvailable);
      }
      var claimed := ClaimSelected(selected, kind, o);
      return Ok(claimed);
    }

    method ClaimSelected(selected: TaskObject, kind: ClaimKind, o: ClaimOptions) returns (c: Claimed)
      requires Valid() && selected.record.id in tasks && tasks[selected.record.id] == selected
      requires kind.ClaimRecovery? || CanTransition(selected.record.status, Running)
      modifies selected
      ensures Valid() && fresh(c.task) && fresh(c.previous) && c.kind == kind
      ensures c.previous.record == old(selected.record) && c.task.record == ClaimedTask(old(selected.record), kind, o)
      ensures Tasks() == old(Tasks())[old(selected.record.id) := c.task.record]
    {
      var previous := new TaskObject.Clone(selected);
      selected.record := ClaimedTask(selected.record, kind, o);
      assert Tasks() == old(Tasks())[selected.record.id := selected.record];
      var copied := new TaskObject.Clone(selected);
      return Claimed(copied, previous, kind);
    }

    /** failNextExpiredLocked. */
    method FailNextExpiredLocked(now: Time) returns (r: Result<Changed>)
      requires Valid()
      modifies tasks.Values
      ensures Valid() && tasks == old(tasks)
      ensures match ReapPick(old(Tasks()), now)
              case None => r == Err(NoExpiredTask) && Tasks() == old(Tasks())
              case Some(id) =>
                && r.Ok? && fresh(r.value.task) && fresh(r.value.previous)
                && r.value.previous.record == old(Tasks())[id]
                && r.value.task.record == ReapedTask(old(Tasks())[id], now)
                && Tasks() == old(Tasks())[id := r.value.task.record]
    {
      var selected := SelectExhausted(now);
      if selected == null {
        return Err(NoExpiredTask);
      }
      FirstUnique(ByLease, Tasks(), ExhaustedIds(Tasks(), now), selected.record.id,
                  First(ByLease, Tasks(), ExhaustedIds(Tasks(), now)));
      var reaped := ExpireSelected(selected, now);
      return Ok(reaped);
    }

    method ExpireSelected(selected: TaskObject, now: Time) returns (r: Changed)
      requires Valid() && selected.record.id in tasks && tasks[selected.record.id] == selected
      requires CanTransition(selected.record.status, Failed)
      modifies selected
      ensures Valid() && fresh(r.task) && fresh(r.previous)
      ensures r.previous.record == old(selected.record) && r.task.record == ReapedTask(old(selected.record), now)
      ensures Tasks() == old(Tasks())[old(selected.record.id) := r.task.record]
    {
      var previous := new TaskObject.Clone(selected);
      selected.record := ReapedTask(selected.record, now);
      assert Tasks() == old(Tasks())[selected.record.id := selected.record];
      var copied := new TaskObject.Clone(selected);
      return Changed(copied, previous);
    }

    method RenewLease(o: Store.RenewOptions) returns (r: Result<()>)
      requires Valid()
      modifies tasks.Values
      ensures Valid() && tasks == old(tasks)
      ensures var spec := Store.RenewLease(Store.State(old(Tasks()), map[], map[], map[]), o);
              r == spec.reply && Tasks() == spec.state.tasks
    {
      if !Store.ValidRenewal(o) {
        return Err(InvalidLeaseRenewal);
      }
      if o.taskId !in tasks {
        return Err(LeaseLost);
      }
      var task := tasks[o.taskId];
      if !task.record.status.Running? || task.record.leaseOwner != o.workerId || task.record.leaseExpiresAt.None?
         || task.record.leaseExpiresAt.value <= o.now {
        return Err(LeaseLost);
      }
      task.record := task.record.(leaseExpiresAt := Some(o.now + o.leaseDuration));
      task.record := task.record.(lastHeartbeatAt := Some(o.now), updatedAt := o.now);
      return Ok(());
    }
  }

  /** The comparison of the first and of the reaper's pass. */
  predicate ExpiresFirst(a: Task, b: Task)
    requires a.leaseExpiresAt.Some? && b.leaseExpiresAt.Some?
  {
    || a.leaseExpiresAt.value < b.leaseExpiresAt.value
    || (a.leaseExpiresAt.value == b.leaseExpiresAt.value && StrLess(a.id, b.id))
  }

  /** The comparison of the second pass. */
  predicate AvailableFirst(a: Task, b: Task)
  {
    || a.availableAt < b.availableAt
    || (a.availableAt == b.availableAt && a.createdAt < b.createdAt)
    || (a.availableAt == b.availableAt && a.createdAt == b.createdAt && StrLess(a.id, b.id))
  }

  ghost function IdOf(selected: TaskObject?): Option<string>
    reads selected
  {
    if selected == null then None else Some(selected.record.id)
  }

  /** `best` is the first of those tasks of `ids` that the walk has passed, if there is one. */
  ghost predicate Best(order: Order, tasks: Selection.Tasks, ids: set<string>, rest: set<string>, best: Option<string>)
    requires ids <= tasks.Keys
  {
    if best.None? then ids <= rest else best.value !in rest && IsFirst(order, tasks, ids - rest, best.value)
  }

  /** The best after one more task. */
  ghost function Better(order: Order, tasks: Selection.Tasks, ids: set<string>, best: Option<string>, i: string): Option<string>
    requires ids <= tasks.Keys && (best.Some? ==> best.value in tasks)
  {
    if i in ids && (best.None? || Before(order, tasks, i, best.value)) then Some(i) else best
  }

  lemma PassOne(order: Order, tasks: Selection.Tasks, ids: set<string>, rest: set<string>, best: Option<string>, i: string)
    requires ids <= tasks.Keys && i in rest && Best(order, tasks, ids, rest, best)
    ensures Best(order, tasks, ids, rest - {i}, Better(order, tasks, ids, best, i))
  {
    if i !in ids {
      assert ids - (rest - {i}) == ids - rest;
    } else if best.None? {
      assert ids - (rest - {i}) == {i};
    } else {
      assert ids - (rest - {i}) == (ids - rest) + {i};
      RankTotal(RankOf(order, i, tasks[i]), RankOf(order, best.value, tasks[best.value]));
      forall other | other in ids - rest && Before(order, tasks, i, best.value) && other != best.value
        ensures Before(order, tasks, i, other)
      {
        RankTransitive(RankOf(order, i, tasks[i]), RankOf(order, best.value, tasks[best.value]), RankOf(order, other, tasks[other]));
      }
    }
  }

  /** The two passes together compute the specified pick. */
  lemma PickedIs(tasks: Selection.Tasks, workflow: string, now: Time, id: string, kind: ClaimKind)
    requires var recoverable, due := RecoverableIds(tasks, workflow, now), DueIds(tasks, workflow, now);
             if kind.ClaimRecovery? then IsFirst(ByLease, tasks, recoverable, id)
             else recoverable == {} && IsFirst(ByAvailability, tasks, due, id) && kind == StartKind(tasks[id])
    ensures ClaimPick(tasks, workflow, now) == Some(Pick(id, kind))
  {
    var recoverable, due := RecoverableIds(tasks, workflow, now), DueIds(tasks, workflow, now);
    if kind.ClaimRecovery? {
      FirstUnique(ByLease, tasks, recoverable, id, First(ByLease, tasks, recoverable));
    } else {
      FirstUnique(ByAvailability, tasks, due, id, First(ByAvailability, tasks, due));
    }
  }
}
