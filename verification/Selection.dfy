/** Which task the scheduler hands out and which one the reaper fails: declaratively, as the least of a set. */
module Selection {
  import opened Basics
  import opened Domain

  type Tasks = map<string, Task>

  datatype ClaimOptions = ClaimOptions(workerId: string, workflow: string, now: Time, leaseDuration: Duration)

  predicate ValidClaim(o: ClaimOptions)
  {
    o.workerId != "" && o.now != ZERO_TIME && o.leaseDuration > 0
  }

  predicate InWorkflow(t: Task, workflow: string)
  {
    workflow == "" || t.workflow == workflow
  }

  /** A running task whose stored lease has run out. */
  predicate Expired(t: Task, now: Time)
  {
    t.status.Running? && t.leaseExpiresAt.Some? && t.leaseExpiresAt.value <= now
  }

  predicate Recoverable(t: Task, workflow: string, now: Time)
  {
    InWorkflow(t, workflow) && Expired(t, now) && t.retryCount < t.maxRetries
  }

  predicate Available(t: Task, now: Time)
  {
    (t.status.Queued? || t.status.Retrying?) && t.availableAt <= now
  }

  predicate Due(t: Task, workflow: string, now: Time)
  {
    InWorkflow(t, workflow) && Available(t, now)
  }

  /** Expired with no retry left: only the reaper may touch it. */
  predicate Exhausted(t: Task, now: Time)
  {
    Expired(t, now) && t.retryCount >= t.maxRetries
  }

  function RecoverableIds(tasks: Tasks, workflow: string, now: Time): set<string>
  {
    set id | id in tasks && Recoverable(tasks[id], workflow, now)
  }

  function DueIds(tasks: Tasks, workflow: string, now: Time): set<string>
  {
    set id | id in tasks && Due(tasks[id], workflow, now)
  }

  function ExhaustedIds(tasks: Tasks, now: Time): set<string>
  {
    set id | id in tasks && Exhausted(tasks[id], now)
  }

  datatype Order = ByLease | ByAvailability | ByCreation

  function RankOf(order: Order, id: string, t: Task): Rank
  {
    match order
    case ByLease => Rank(if t.leaseExpiresAt.Some? then t.leaseExpiresAt.value else 0, 0, id)
    case ByAvailability => Rank(t.availableAt, t.createdAt, id)
    case ByCreation => Rank(t.createdAt, 0, id)
  }

  predicate Before(order: Order, tasks: Tasks, a: string, b: string)
    requires a in tasks && b in tasks
  {
    RankLess(RankOf(order, a, tasks[a]), RankOf(order, b, tasks[b]))
  }

  ghost predicate IsFirst(order: Order, tasks: Tasks, ids: set<string>, id: string)
    requires ids <= tasks.Keys
  {
    id in ids && forall other :: other in ids && other != id ==> Before(order, tasks, id, other)
  }

  lemma {:induction false} FirstExists(order: Order, tasks: Tasks, ids: set<string>) returns (id: string)
    requires ids <= tasks.Keys && ids != {}
    ensures IsFirst(order, tasks, ids, id)
    decreases |ids|
  {
    id :| id in ids;
    if ids != {id} {
      var rest := ids - {id};
      assert rest != {};
      CardMinusOne(ids, id);
      var least := FirstExists(order, tasks, rest);
      RankTotal(RankOf(order, id, tasks[id]), RankOf(order, least, tasks[least]));
      if Before(order, tasks, least, id) {
        id := least;
      } else {
        forall other | other in ids && other != id && other != least ensures Before(order, tasks, id, other) {
          assert other in rest && Before(order, tasks, least, other);
          RankTransitive(RankOf(order, id, tasks[id]), RankOf(order, least, tasks[least]),
                         RankOf(order, other, tasks[other]));
        }
      }
    }
  }

  /** At most one task is first, so the choice does not depend on how the map is walked. */
  lemma FirstUnique(order: Order, tasks: Tasks, ids: set<string>, a: string, b: string)
    requires ids <= tasks.Keys && IsFirst(order, tasks, ids, a) && IsFirst(order, tasks, ids, b)
    ensures a == b
  {
    RankTotal(RankOf(order, a, tasks[a]), RankOf(order, b, tasks[b]));
  }

  ghost function First(order: Order, tasks: Tasks, ids: set<string>): (id: string)
    requires ids <= tasks.Keys && ids != {}
    ensures IsFirst(order, tasks, ids, id)
  {
    assert exists id :: IsFirst(order, tasks, ids, id) by {
      var id := FirstExists(order, tasks, ids);
    }
    var id :| IsFirst(order, tasks, ids, id);
    id
  }

  datatype Pick = Pick(id: string, kind: ClaimKind)

  function StartKind(t: Task): ClaimKind
  {
    if t.status.Retrying? then ClaimRetry else ClaimInitial
  }

  /** Expired leases first, then due work. */
  ghost function ClaimPick(tasks: Tasks, workflow: string, now: Time): (pick: Option<Pick>)
  {
    var recoverable := RecoverableIds(tasks, workflow, now);
    var due := DueIds(tasks, workflow, now);
    if recoverable != {} then Some(Pick(First(ByLease, tasks, recoverable), ClaimRecovery))
    else if due != {} then var id := First(ByAvailability, tasks, due); Some(Pick(id, StartKind(tasks[id])))
    else None
  }

  function ClaimedTask(t: Task, kind: ClaimKind, o: ClaimOptions): Task
  {
    var moved := if kind.ClaimRecovery? then t.(retryCount := t.retryCount + 1, updatedAt := o.now)
                 else Moved(t, Running, o.now);
    moved.(leaseOwner := o.workerId, leaseExpiresAt := Some(o.now + o.leaseDuration), lastHeartbeatAt := None,
           version := t.version + 1)
  }

  ghost function ReapPick(tasks: Tasks, now: Time): Option<string>
  {
    var exhausted := ExhaustedIds(tasks, now);
    if exhausted != {} then Some(First(ByLease, tasks, exhausted)) else None
  }

  const EXPIRED_MESSAGE := "task lease expired" + " and retry budget" + " exhausted"

  function ReapedTask(t: Task, now: Time): Task
  {
    Moved(t.(errorMessage := EXPIRED_MESSAGE), Failed, now).(version := t.version + 1)
  }
}
