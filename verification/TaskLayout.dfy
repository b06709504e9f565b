/** Task objects as they lie in memory: a struct whose two byte slices and four time pointers refer to memory of their
    own, which a shallow copy would share. Copies share nothing, edits in place leave them alone, and nobody outside the
    store ever shares anything with a stored object. */
module TaskLayout {
  import opened Basics
  import opened Domain
  import opened Selection
  import Store

  /** What a byte slice points to. */
  class Bytes {
    var text: string

    constructor (text: string)
      ensures this.text == text
    {
      this.text := text;
    }
  }

  /** What a time pointer points to. */
  class TimeCell {
    var at: Time

    constructor (at: Time)
      ensures this.at == at
    {
      this.at := at;
    }
  }

  datatype TaskStruct = TaskStruct(
    id: string, idempotencyKey: string, workflow: string, status: Status, input: Bytes, result: Bytes, errorMessage: string,
    progress: int, retryCount: int, maxRetries: int, availableAt: Time, version: nat, leaseOwner: string,
    leaseExpiresAt: TimeCell?, lastHeartbeatAt: TimeCell?, createdAt: Time, updatedAt: Time,
    startedAt: TimeCell?, finishedAt: TimeCell?)

  function At(cell: TimeCell?): Option<Time>
    reads cell
  {
    if cell == null then None else Some(cell.at)
  }

  ghost function Slices(s: TaskStruct): set<Bytes>
  {
    {s.input, s.result}
  }

  ghost function Cells(s: TaskStruct): set<TimeCell?>
  {
    {s.leaseExpiresAt, s.lastHeartbeatAt, s.startedAt, s.finishedAt} - {null}
  }

  /** The task a struct and all it refers to stand for. */
  function Deref(s: TaskStruct): Task
    reads s.input, s.result, s.leaseExpiresAt, s.lastHeartbeatAt, s.startedAt, s.finishedAt
  {
    Task(s.id, s.idempotencyKey, s.workflow, s.status, s.input.text, s.result.text, s.errorMessage, s.progress, s.retryCount,
         s.maxRetries, s.availableAt, s.version, s.leaseOwner, At(s.leaseExpiresAt), At(s.lastHeartbeatAt), s.createdAt,
         s.updatedAt, At(s.startedAt), At(s.finishedAt))
  }

  /** A new cell for a time that is set. */
  method NewCell(time: Option<Time>) returns (cell: TimeCell?)
    ensures At(cell) == time && (cell != null ==> fresh(cell))
  {
    cell := null;
    if time.Some? {
      cell := new TimeCell(time.value);
    }
  }

  class TaskNode {
    var struct: TaskStruct

    function Record(): Task
      reads this, struct.input, struct.result, struct.leaseExpiresAt, struct.lastHeartbeatAt, struct.startedAt, struct.finishedAt
    {
      Deref(struct)
    }

    /** A new object for a given task. */
    constructor Of(t: Task)
      ensures Record() == t && fresh(Slices(struct)) && fresh(Cells(struct))
    {
      var input := new Bytes(t.input);
      var result := new Bytes(t.result);
      var lease := NewCell(t.leaseExpiresAt);
      var heartbeat := NewCell(t.lastHeartbeatAt);
      var started := NewCell(t.startedAt);
      var finished := NewCell(t.finishedAt);
      struct := TaskStruct(t.id, t.idempotencyKey, t.workflow, t.status, input, result, t.errorMessage, t.progress, t.retryCount,
                           t.maxRetries, t.availableAt, t.version, t.leaseOwner, lease, heartbeat, t.createdAt, t.updatedAt,
                           started, finished);
    }

    /** cloneTask: equal contents, and nothing shared with the original. */
    constructor Clone(t: TaskNode)
      ensures Record() == t.Record() && fresh(Slices(struct)) && fresh(Cells(struct))
    {
      var input := new Bytes(t.struct.input.text);
      var result := new Bytes(t.struct.result.text);
      var lease := NewCell(At(t.struct.leaseExpiresAt));
      var heartbeat := NewCell(At(t.struct.lastHeartbeatAt));
      var started := NewCell(At(t.struct.startedAt));
      var finished := NewCell(At(t.struct.finishedAt));
      struct := t.struct.(input := input, result := result, leaseExpiresAt := lease, lastHeartbeatAt := heartbeat,
                          startedAt := started, finishedAt := finished);
    }

    /** Edits replace pointers and never write through them. */
    twostate predicate NewPartsOnly()
      reads this
    {
      Slices(struct) == old(Slices(struct)) && fresh(Cells(struct) - old(Cells(struct)))
    }

    method MoveTo(next: Status, now: Time) returns (ok: bool)
      modifies this
      ensures ok <==> Domain.MoveTo(old(Record()), next, now).Ok?
      ensures Record() == if ok then Domain.MoveTo(old(Record()), next, now).value else old(Record())
      ensures NewPartsOnly()
    {
      if !CanTransition(struct.status, next) {
        return false;
      }
      struct := struct.(status := next, updatedAt := now);
      match next {
        case Running =>
          if struct.startedAt == null {
            var started := new TimeCell(now);
            struct := struct.(startedAt := started);
          }
        case Retrying =>
          struct := struct.(leaseOwner := "", leaseExpiresAt := null);
        case Queued =>
        case _ =>
          var finished := new TimeCell(now);
          struct := struct.(finishedAt := finished);
          struct := struct.(leaseOwner := "", leaseExpiresAt := null);
      }
      return true;
    }

    /** The in-place edit of a claim. */
    method TakeLease(kind: ClaimKind, o: ClaimOptions)
      requires kind.ClaimRecovery? || CanTransition(struct.status, Running)
      modifies this
      ensures Record() == ClaimedTask(old(Record()), kind, o) && NewPartsOnly()
    {
      if kind.ClaimRecovery? {
        TakeOver(o);
      } else {
        Start(kind, o);
      }
    }

    method TakeOver(o: ClaimOptions)
      modifies this
      ensures Record() == ClaimedTask(old(Record()), ClaimRecovery, o) && NewPartsOnly()
    {
      struct := struct.(retryCount := struct.retryCount + 1);
      struct := struct.(updatedAt := o.now);
      SetLease(o);
    }

    method Start(kind: ClaimKind, o: ClaimOptions)
      requires !kind.ClaimRecovery? && CanTransition(struct.status, Running)
      modifies this
      ensures Record() == ClaimedTask(old(Record()), kind, o) && NewPartsOnly()
    {
      var ok := MoveTo(Running, o.now);
      SetLease(o);
    }

    method SetLease(o: ClaimOptions)
      modifies this
      ensures Record() == old(Record()).(leaseOwner := o.workerId, leaseExpiresAt := Some(o.now + o.leaseDuration),
                                         lastHeartbeatAt := None, version := old(Record()).version + 1)
      ensures NewPartsOnly()
    {
      var expiry := new TimeCell(o.now + o.leaseDuration);
      struct := struct.(leaseOwner := o.workerId);
      struct := struct.(leaseExpiresAt := expiry, lastHeartbeatAt := null);
      struct := struct.(version := struct.version + 1);
    }

    /** The in-place edit of the reaper. */
    method Expire(now: Time)
      requires CanTransition(struct.status, Failed)
      modifies this
      ensures Record() == ReapedTask(old(Record()), now) && NewPartsOnly()
    {
      struct := struct.(errorMessage := EXPIRED_MESSAGE);
      var ok := MoveTo(Failed, now);
      struct := struct.(version := struct.version + 1);
    }

    /** The in-place edit of a cancellation. */
    method CancelNow(now: Time)
      requires CanTransition(struct.status, Canceled)
      modifies this
      ensures Record() == Store.CanceledTask(old(Record()), now) && NewPartsOnly()
    {
      var ok := MoveTo(Canceled, now);
      struct := struct.(version := struct.version + 1);
    }

    /** The in-place edit of a renewal. */
    method ExtendLease(now: Time, leaseDuration: Duration)
      modifies this
      ensures Record() == Store.RenewedTask(old(Record()), now, leaseDuration)
      ensures NewPartsOnly()
    {
      var expiry := new TimeCell(now + leaseDuration);
      var heartbeat := new TimeCell(now);
      struct := struct.(leaseExpiresAt := expiry);
      struct := struct.(lastHeartbeatAt := heartbeat, updatedAt := now);
    }

    method ScheduleRetry(now: Time, availableAt: Time) returns (r: Result<()>)
      modifies this
      ensures match Domain.ScheduleRetry(old(Record()), now, availableAt)
              case Ok(t) => r == Ok(()) && Record() == t
              case Err(e) => r == Err(e) && Record() == old(Record())
      ensures NewPartsOnly()
    {
      if availableAt <= now {
        return Err(InvalidRetryTime);
      }
      if struct.retryCount >= struct.maxRetries {
        return Err(RetryBudgetExhausted);
      }
      var ok := MoveTo(Retrying, now);
      if !ok {
        return Err(InvalidTransition);
      }
      struct := struct.(retryCount := struct.retryCount + 1);
      struct := struct.(availableAt := availableAt);
      return Ok(());
    }

    method RequeueForRelease(now: Time) returns (r: Result<()>)
      modifies this
      ensures match Domain.RequeueForRelease(old(Record()), now)
              case Ok(t) => r == Ok(()) && Record() == t
              case Err(e) => r == Err(e) && Record() == old(Record())
      ensures NewPartsOnly()
    {
      if !struct.status.Running? {
        return Err(WrongStatus);
      }
      if now == ZERO_TIME {
        return Err(InvalidReleaseTime);
      }
      struct := struct.(status := Queued, progress := 0, errorMessage := "", availableAt := now);
      struct := struct.(leaseOwner := "", leaseExpiresAt := null, updatedAt := now);
      return Ok(());
    }
  }

  /** The object and all it refers to is newly allocated. */
  twostate predicate AllNew(new t: TaskNode)
    reads t
  {
    fresh(t) && fresh(Slices(t.struct)) && fresh(Cells(t.struct))
  }

  /** Two objects that refer to nothing in common. */
  ghost predicate Disjoint(a: TaskNode, b: TaskNode)
    reads a, b
  {
    a != b && Slices(a.struct) !! Slices(b.struct) && Cells(a.struct) !! Cells(b.struct)
  }

  /** Copies of an object from before and after an edit in place. */
  datatype Copies = Copies(before: TaskNode, after: TaskNode)

  /** Neither copy shares anything with the object, with the other copy or with anything older, and the edit wrote
      through no pointer. */
  twostate predicate CopiedAround(new copies: Copies, t: TaskNode)
    reads t, copies.before, copies.after
  {
    && AllNew(copies.before) && AllNew(copies.after) && t.NewPartsOnly()
    && Disjoint(copies.before, t) && Disjoint(copies.after, t) && Disjoint(copies.before, copies.after)
  }

  method CopyOf(t: TaskNode) returns (copy: TaskNode)
    ensures AllNew(copy) && Disjoint(copy, t) && copy.Record() == old(t.Record()) && t.Record() == old(t.Record())
  {
    copy := new TaskNode.Clone(t);
  }

  method CopyBeside(t: TaskNode, other: TaskNode) returns (copy: TaskNode)
    ensures AllNew(copy) && Disjoint(copy, t) && Disjoint(copy, other)
    ensures copy.Record() == old(t.Record()) && t.Record() == old(t.Record()) && other.Record() == old(other.Record())
  {
    copy := new TaskNode.Clone(t);
  }

  // In-place edits leave copies alone.

  method ClaimApart(t: TaskNode, kind: ClaimKind, o: ClaimOptions, copy: TaskNode)
    requires (kind.ClaimRecovery? || CanTransition(t.struct.status, Running)) && Disjoint(copy, t)
    modifies t
    ensures t.Record() == ClaimedTask(old(t.Record()), kind, o) && t.NewPartsOnly()
    ensures Disjoint(copy, t) && copy.Record() == old(copy.Record())
  {
    t.TakeLease(kind, o);
  }

  method ClaimInPlace(t: TaskNode, kind: ClaimKind, o: ClaimOptions) returns (copies: Copies)
    requires (kind.ClaimRecovery? || CanTransition(t.struct.status, Running))
    modifies t
    ensures CopiedAround(copies, t) && copies.before.Record() == old(t.Record())
    ensures t.Record() == ClaimedTask(old(t.Record()), kind, o) && copies.after.Record() == ClaimedTask(old(t.Record()), kind, o)
  {
    var before := CopyOf(t);
    ClaimApart(t, kind, o, before);
    var after := CopyBeside(t, before);
    copies := Copies(before, after);
  }

  method ExpireApart(t: TaskNode, now: Time, copy: TaskNode)
    requires CanTransition(t.struct.status, Failed) && Disjoint(copy, t)
    modifies t
    ensures t.Record() == ReapedTask(old(t.Record()), now) && t.NewPartsOnly()
    ensures Disjoint(copy, t) && copy.Record() == old(copy.Record())
  {
    t.Expire(now);
  }

  method ExpireInPlace(t: TaskNode, now: Time) returns (copies: Copies)
    requires CanTransition(t.struct.status, Failed)
    modifies t
    ensures CopiedAround(copies, t) && copies.before.Record() == old(t.Record())
    ensures t.Record() == ReapedTask(old(t.Record()), now) && copies.after.Record() == ReapedTask(old(t.Record()), now)
  {
    var before := CopyOf(t);
    ExpireApart(t, now, before);
    var after := CopyBeside(t, before);
    copies := Copies(before, after);
  }

  method CancelApart(t: TaskNode, now: Time, copy: TaskNode)
    requires CanTransition(t.struct.status, Canceled) && Disjoint(copy, t)
    modifies t
    ensures t.Record() == Store.CanceledTask(old(t.Record()), now) && t.NewPartsOnly()
    ensures Disjoint(copy, t) && copy.Record() == old(copy.Record())
  {
    t.CancelNow(now);
  }

  method CancelInPlace(t: TaskNode, now: Time) returns (copies: Copies)
    requires CanTransition(t.struct.status, Canceled)
    modifies t
    ensures CopiedAround(copies, t) && copies.before.Record() == old(t.Record())
    ensures t.Record() == Store.CanceledTask(old(t.Record()), now) && copies.after.Record() == Store.CanceledTask(old(t.Record()), now)
  {
    var before := CopyOf(t);
    CancelApart(t, now, before);
    var after := CopyBeside(t, before);
    copies := Copies(before, after);
  }

  /** Overwrites everything an object refers to. */
  method Scribble(t: TaskNode, text: string, at: Time)
    modifies Slices(t.struct), Cells(t.struct)
    ensures t.struct.input.text == text && t.struct.result.text == text
    ensures forall c :: c in Cells(t.struct) ==> c.at == at
  {
    t.struct.input.text := text;
    t.struct.result.text := text;
    if t.struct.leaseExpiresAt != null {
      t.struct.leaseExpiresAt.at := at;
    }
    if t.struct.lastHeartbeatAt != null {
      t.struct.lastHeartbeatAt.at := at;
    }
    if t.struct.startedAt != null {
      t.struct.startedAt.at := at;
    }
    if t.struct.finishedAt != null {
      t.struct.finishedAt.at := at;
    }
  }

  /** The stored objects as they lie in memory, and everything they have ever referred to. */
  class TaskShelf {
    var tasks: map<string, TaskNode>
    ghost var slices: set<Bytes>
    ghost var cells: set<TimeCell?>

    ghost predicate Valid()
      reads this, tasks.Values
    {
      forall i :: i in tasks ==> tasks[i].struct.id == i && Slices(tasks[i].struct) <= slices && Cells(tasks[i].struct) <= cells
    }

    /** An object that shares nothing with the stored ones. */
    ghost predicate Apart(t: TaskNode)
      reads this, t
    {
      t !in tasks.Values && Slices(t.struct) !! slices && Cells(t.struct) !! cells
    }

    /** Whatever the shelf took in since the old state is newly allocated. */
    twostate predicate OnlyNew()
      reads this
    {
      fresh(tasks.Values - old(tasks.Values)) && fresh(slices - old(slices)) && fresh(cells - old(cells))
    }

    constructor ()
      ensures Valid() && tasks == map[] && slices == {} && cells == {}
    {
      tasks, slices, cells := map[], {}, {};
    }

    /** What was apart stays apart, whatever new objects the shelf takes in: a client's copy is never stored later. */
    twostate lemma StaysApart(t: TaskNode)
      requires old(Apart(t)) && OnlyNew() && t.struct == old(t.struct)
      ensures Apart(t)
    {
    }

    /** A client that overwrites everything its own copy refers to changes no stored task. */
    method ScribbleApart(t: TaskNode, text: string, at: Time)
      requires Valid() && Apart(t)
      modifies Slices(t.struct), Cells(t.struct)
      ensures Valid() && forall i :: i in tasks ==> tasks[i].Record() == old(tasks[i].Record())
    {
      Scribble(t, text, at);
    }

    /** A copy of a stored task. */
    method Get(id: string) returns (copied: TaskNode)
      requires Valid() && id in tasks
      ensures AllNew(copied) && Apart(copied) && copied.Record() == old(tasks[id].Record())
    {
      copied := new TaskNode.Clone(tasks[id]);
    }

    /** The store side of a creation or a version-checked write: a copy of the caller's object takes the place of the
        stored one. */
    method Keep(t: TaskNode)
      requires Valid()
      modifies this
      ensures Valid() && OnlyNew() && t.struct.id in tasks && tasks == old(tasks)[t.struct.id := tasks[t.struct.id]]
      ensures fresh(tasks[t.struct.id]) && tasks[t.struct.id].Record() == old(t.Record())
    {
      var copied := new TaskNode.Clone(t);
      Take(copied);
    }

    /** Stores an object itself: a new copy, or the copy from before an edit that is rolled back. */
    method Take(t: TaskNode)
      requires Valid()
      modifies this
      ensures Valid() && tasks == old(tasks)[t.struct.id := t]
      ensures slices == old(slices) + Slices(t.struct) && cells == old(cells) + Cells(t.struct)
    {
      tasks, slices, cells := tasks[t.struct.id := t], slices + Slices(t.struct), cells + Cells(t.struct);
    }

    /** Takes account of a stored object edited in place. */
    ghost method AdoptCells(id: string, node: TaskNode)
      requires id in tasks && node == tasks[id] && node.struct.id == id && Slices(node.struct) <= slices
      requires forall i :: i in tasks && i != id ==>
                 tasks[i].struct.id == i && Slices(tasks[i].struct) <= slices && Cells(tasks[i].struct) <= cells
      modifies this`cells
      ensures Valid() && cells == old(cells) + Cells(node.struct) && node.Record() == old(node.Record())
    {
      cells := cells + Cells(node.struct);
    }

    /** The same, with the copies made around the edit. */
    ghost method AdoptAround(id: string, node: TaskNode, copies: Copies)
      requires id in tasks && node == tasks[id] && node.struct.id == id && Slices(node.struct) <= slices
      requires forall i :: i in tasks && i != id ==>
                 tasks[i].struct.id == i && Slices(tasks[i].struct) <= slices && Cells(tasks[i].struct) <= cells
      requires Disjoint(copies.before, node) && Disjoint(copies.after, node) && Apart(copies.before) && Apart(copies.after)
      modifies this`cells
      ensures Valid() && cells == old(cells) + Cells(node.struct) && node.Record() == old(node.Record())
      ensures Apart(copies.before) && copies.before.Record() == old(copies.before.Record())
      ensures Apart(copies.after) && copies.after.Record() == old(copies.after.Record())
    {
      AdoptCells(id, node);
    }

    // The in-place operations: the stored object is edited, the caller gets copies.

    method ClaimLocked(id: string, kind: ClaimKind, o: ClaimOptions) returns (copies: Copies)
      requires Valid() && id in tasks && (kind.ClaimRecovery? || CanTransition(tasks[id].struct.status, Running))
      modifies this`cells, tasks[id]
      ensures Valid() && OnlyNew() && tasks == old(tasks) && Apart(copies.before) && Apart(copies.after)
      ensures AllNew(copies.before) && AllNew(copies.after) && copies.before.Record() == old(tasks[id].Record())
      ensures tasks[id].Record() == ClaimedTask(old(tasks[id].Record()), kind, o) && copies.after.Record() == ClaimedTask(old(tasks[id].Record()), kind, o)
    {
      copies := ClaimInPlace(tasks[id], kind, o);
      assert tasks[id].Record().id == id;
      AdoptAround(id, tasks[id], copies);
    }

    method ExpireLocked(id: string, now: Time) returns (copies: Copies)
      requires Valid() && id in tasks && CanTransition(tasks[id].struct.status, Failed)
      modifies this`cells, tasks[id]
      ensures Valid() && OnlyNew() && tasks == old(tasks) && Apart(copies.before) && Apart(copies.after)
      ensures AllNew(copies.before) && AllNew(copies.after) && copies.before.Record() == old(tasks[id].Record())
      ensures tasks[id].Record() == ReapedTask(old(tasks[id].Record()), now) && copies.after.Record() == ReapedTask(old(tasks[id].Record()), now)
    {
      copies := ExpireInPlace(tasks[id], now);
      assert tasks[id].Record().id == id;
      AdoptAround(id, tasks[id], copies);
    }

    method CancelLocked(id: string, now: Time) returns (copies: Copies)
      requires Valid() && id in tasks && CanTransition(tasks[id].struct.status, Canceled)
      modifies this`cells, tasks[id]
      ensures Valid() && OnlyNew() && tasks == old(tasks) && Apart(copies.before) && Apart(copies.after)
      ensures AllNew(copies.before) && AllNew(copies.after) && copies.before.Record() == old(tasks[id].Record())
      ensures tasks[id].Record() == Store.CanceledTask(old(tasks[id].Record()), now) && copies.after.Record() == Store.CanceledTask(old(tasks[id].Record()), now)
    {
      copies := CancelInPlace(tasks[id], now);
      assert tasks[id].Record().id == id;
      AdoptAround(id, tasks[id], copies);
    }

    method RenewLocked(id: string, now: Time, leaseDuration: Duration)
      requires Valid() && id in tasks
      modifies this`cells, tasks[id]
      ensures Valid() && OnlyNew() && tasks == old(tasks)
      ensures tasks[id].Record() == Store.RenewedTask(old(tasks[id].Record()), now, leaseDuration)
    {
      tasks[id].ExtendLease(now, leaseDuration);
      assert tasks[id].Record().id == id;
      AdoptCells(id, tasks[id]);
    }
  }

  /** Two clients: one takes a copy, the other claims the task in place, the first overwrites all its copy refers to. The
      stored task and the second client's copy are what the claim made them. */
  method TwoClients(stored: TaskNode, kind: ClaimKind, o: ClaimOptions, text: string, at: Time) returns (theirs: TaskNode)
    requires kind.ClaimRecovery? || CanTransition(stored.struct.status, Running)
    modifies stored
    ensures stored.Record() == ClaimedTask(old(stored.Record()), kind, o) && theirs.Record() == stored.Record()
  {
    var mine := CopyOf(stored);
    ClaimApart(stored, kind, o, mine);
    theirs := CopyBeside(stored, mine);
    ScribbleBeside(mine, text, at, stored, theirs);
  }

  method ScribbleBeside(mine: TaskNode, text: string, at: Time, stored: TaskNode, theirs: TaskNode)
    requires Disjoint(mine, stored) && Disjoint(mine, theirs)
    modifies Slices(mine.struct), Cells(mine.struct)
    ensures stored.Record() == old(stored.Record()) && theirs.Record() == old(theirs.Record())
  {
    Scribble(mine, text, at);
  }
}
