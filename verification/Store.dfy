/** The abstract store: task records, the idempotency index, and the two event indexes, with each locked
    operation as one atomic step. */
module Store {
  import opened Basics
  import opened Domain
  import opened Selection

  datatype State = State(
    tasks: Tasks,
    index: map<string, string>,
    byId: map<string, Event>,
    log: map<string, seq<Event>>)

  const EMPTY := State(map[], map[], map[], map[])

  /** A task's events in append order. */
  function LogOf(s: State, id: string): seq<Event>
  {
    if id in s.log then s.log[id] else []
  }

  /** The one way a step changes a record and its log: replace one task, append one event to both indexes. */
  function Commit(s: State, t: Task, e: Event): State
  {
    State(s.tasks[t.id := t], s.index, s.byId[e.id := e], s.log[e.taskId := LogOf(s, e.taskId) + [e]])
  }

  datatype Outcome<+T> = Outcome(state: State, reply: Result<T>)

  ghost function ClaimNextWithEvent(s: State, o: ClaimOptions, eventId: string): Outcome<Task>
  {
    if !ValidClaim(o) then Outcome(s, Err(InvalidClaim))
    else if eventId == "" then Outcome(s, Err(InvalidEventId))
    else if eventId in s.byId then Outcome(s, Err(EventAlreadyExists))
    else
      match ClaimPick(s.tasks, o.workflow, o.now)
      case None => Outcome(s, Err(NoTaskAvailable))
      case Some(pick) =>
        var t := ClaimedTask(s.tasks[pick.id], pick.kind, o);
        match NewTaskClaimedEvent(eventId, t, pick.kind, o.now)
        case Err(error) => Outcome(s, Err(error))
        case Ok(e) => Outcome(Commit(s, t, e), Ok(t))
  }

  ghost function FailNextExpiredWithEvent(s: State, now: Time, eventId: string): Outcome<Task>
  {
    if now == ZERO_TIME then Outcome(s, Err(InvalidCleanupTime))
    else if eventId == "" then Outcome(s, Err(InvalidEventId))
    else if eventId in s.byId then Outcome(s, Err(EventAlreadyExists))
    else
      match ReapPick(s.tasks, now)
      case None => Outcome(s, Err(NoExpiredTask))
      case Some(id) =>
        var t := ReapedTask(s.tasks[id], now);
        match NewTaskExpiredEvent(eventId, t, now)
        case Err(error) => Outcome(s, Err(error))
        case Ok(e) => Outcome(Commit(s, t, e), Ok(t))
  }

  /** The version-checked write. */
  function UpdateTaskWithEvent(s: State, t: Task, e: Event): Outcome<Task>
  {
    if e.taskId != t.id then Outcome(s, Err(TaskEventMismatch))
    else if t.id !in s.tasks then Outcome(s, Err(TaskNotFound))
    else if s.tasks[t.id].version != t.version then Outcome(s, Err(TaskConflict))
    else if e.id in s.byId then Outcome(s, Err(EventAlreadyExists))
    else Outcome(Commit(s, t.(version := t.version + 1), e), Ok(t))
  }

  datatype RenewOptions = RenewOptions(taskId: string, workerId: string, now: Time, leaseDuration: Duration)

  predicate ValidRenewal(o: RenewOptions)
  {
    o.taskId != "" && o.workerId != "" && o.now != ZERO_TIME && o.leaseDuration > 0
  }

  predicate HoldsLease(t: Task, workerId: string, now: Time)
  {
    t.status.Running? && t.leaseOwner == workerId && t.leaseExpiresAt.Some? && t.leaseExpiresAt.value > now
  }

  function RenewedTask(t: Task, now: Time, leaseDuration: Duration): Task
  {
    t.(leaseExpiresAt := Some(now + leaseDuration), lastHeartbeatAt := Some(now), updatedAt := now)
  }

  function RenewLease(s: State, o: RenewOptions): Outcome<()>
  {
    if !ValidRenewal(o) then Outcome(s, Err(InvalidLeaseRenewal))
    else if o.taskId !in s.tasks || !HoldsLease(s.tasks[o.taskId], o.workerId, o.now) then Outcome(s, Err(LeaseLost))
    else Outcome(s.(tasks := s.tasks[o.taskId := RenewedTask(s.tasks[o.taskId], o.now, o.leaseDuration)]), Ok(()))
  }

  function CanceledTask(t: Task, now: Time): Task
  {
    Moved(t, Canceled, now).(version := t.version + 1)
  }

  datatype Cancellation = Cancellation(task: Task, canceled: bool)

  function CancelTaskWithEvent(s: State, taskId: string, eventId: string, now: Time): Outcome<Cancellation>
  {
    if taskId == "" then Outcome(s, Err(TaskNotFound))
    else if eventId == "" then Outcome(s, Err(InvalidEventId))
    else if now == ZERO_TIME then Outcome(s, Err(InvalidCancellationTime))
    else if taskId !in s.tasks then Outcome(s, Err(TaskNotFound))
    else
      var stored := s.tasks[taskId];
      if stored.status.Canceled? then Outcome(s, Ok(Cancellation(stored, false)))
      else if IsTerminal(stored.status) then Outcome(s, Err(TaskNotCancelable))
      else if eventId in s.byId then Outcome(s, Err(EventAlreadyExists))
      else
        var t := CanceledTask(stored, now);
        match NewTaskCanceledEvent(eventId, t, now)
        case Err(error) => Outcome(s, Err(error))
        case Ok(e) => Outcome(Commit(s, t, e), Ok(Cancellation(t, true)))
  }

  datatype Json =
    | JsonNull | JsonBool(b: bool) | JsonNumber(digits: string) | JsonString(text: string)
    | JsonArray(elements: seq<Json>) | JsonObject(members: map<string, Json>)

  /** JSON decoding is library code: any partial function from text to values. */
  type Decoder = string -> Option<Json>

  function SameTaskCreationRequest(decode: Decoder, left: Task, right: Task): bool
  {
    && left.idempotencyKey == right.idempotencyKey
    && left.workflow == right.workflow
    && left.maxRetries == right.maxRetries
    && match (decode(left.input), decode(right.input))
       case (None, _) => left.input == right.input
       case (Some(_), None) => false
       case (Some(l), Some(r)) => l == r
  }

  function IndexKey(workflow: string, key: string): string
  {
    workflow + "\0" + key
  }

  datatype Creation = Creation(task: Task, created: bool)

  function CreateTaskWithEvent(decode: Decoder, s: State, t: Task, e: Event): Outcome<Creation>
  {
    var k := IndexKey(t.workflow, t.idempotencyKey);
    if e.taskId != t.id then Outcome(s, Err(TaskEventMismatch))
    else if t.idempotencyKey != "" && k in s.index then
      if s.index[k] in s.tasks && SameTaskCreationRequest(decode, s.tasks[s.index[k]], t)
      then Outcome(s, Ok(Creation(s.tasks[s.index[k]], false)))
      else Outcome(s, Err(IdempotencyConflict))
    else if t.id in s.tasks then Outcome(s, Err(TaskAlreadyExists))
    else if e.id in s.byId then Outcome(s, Err(EventAlreadyExists))
    else
      var s' := Commit(s, t, e);
      Outcome(if t.idempotencyKey != "" then s'.(index := s.index[k := t.id]) else s', Ok(Creation(t, true)))
  }
}
