/** Reading a task's state back from its events alone. */
module EventLog {
  import opened Basics
  import opened Domain

  /** What the log is expected to reproduce of a record. */
  datatype Summary = Summary(
    status: Status, version: nat, retryCount: int, progress: int, availableAt: Time,
    startedAt: Option<Time>, finishedAt: Option<Time>, owner: string)

  function Summarize(t: Task): Summary
  {
    Summary(t.status, t.version, t.retryCount, t.progress, t.availableAt, t.startedAt, t.finishedAt, t.leaseOwner)
  }

  predicate IsClaim(kind: EventKind)
  {
    kind.TaskStarted? || kind.TaskRetryStarted? || kind.TaskRecovered?
  }

  /** Whether an event of this shape may follow a task in state `s`. */
  predicate Fits(s: Summary, e: Event)
  {
    match e.kind
    case TaskCreated => false
    case TaskStarted => s.status.Queued? && e.payload.ClaimInfo? && e.payload.retryCount == s.retryCount
    case TaskRetryStarted => s.status.Retrying? && e.payload.ClaimInfo? && e.payload.retryCount == s.retryCount
    case TaskRecovered => s.status.Running? && e.payload.ClaimInfo? && e.payload.retryCount == s.retryCount + 1
    case TaskRetrying => s.status.Running? && e.payload.RetryInfo? && e.payload.retryCount == s.retryCount + 1
    case TaskCanceled => !IsTerminal(s.status)
    case _ => s.status.Running?
  }

  /** The state after one more event, computed from the event's own contents. */
  function Advance(s: Summary, e: Event): Summary
  {
    var n := s.(version := s.version + 1, progress := e.progress);
    match e.kind
    case TaskCreated => n
    case TaskProgress => n
    case TaskRetrying =>
      n.(status := Retrying, owner := "", retryCount := s.retryCount + 1,
         availableAt := if e.payload.RetryInfo? then e.payload.availableAt else s.availableAt)
    case TaskReleased => n.(status := Queued, owner := "", availableAt := e.createdAt)
    case TaskSucceeded => n.(status := Succeeded, owner := "", finishedAt := Some(e.createdAt))
    case TaskPartial => n.(status := Partial, owner := "", finishedAt := Some(e.createdAt))
    case TaskFailed => n.(status := Failed, owner := "", finishedAt := Some(e.createdAt))
    case TaskCanceled => n.(status := Canceled, owner := "", finishedAt := Some(e.createdAt))
    case TaskStarted => Claimed(n, e)
    case TaskRetryStarted => Claimed(n, e)
    case TaskRecovered => Claimed(n, e).(retryCount := s.retryCount + 1, startedAt := s.startedAt)
  }

  function Claimed(s: Summary, e: Event): Summary
  {
    s.(status := Running, owner := if e.payload.ClaimInfo? then e.payload.workerId else s.owner,
       startedAt := if s.startedAt.None? then Some(e.createdAt) else s.startedAt)
  }

  /** A log folds to a state when it begins with the creation and every later event fits. */
  function Fold(log: seq<Event>): Option<Summary>
  {
    if |log| == 0 then None
    else
      var e := log[|log| - 1];
      if |log| == 1 then
        if e.kind.TaskCreated? then Some(Summary(Queued, 0, 0, e.progress, e.createdAt, None, None, "")) else None
      else
        match Fold(log[..|log| - 1])
        case None => None
        case Some(s) => if Fits(s, e) then Some(Advance(s, e)) else None
  }

  lemma FoldAppend(log: seq<Event>, e: Event)
    requires Fold(log).Some? && Fits(Fold(log).value, e)
    ensures Fold(log + [e]) == Some(Advance(Fold(log).value, e))
  {
    assert (log + [e])[..|log|] == log;
  }

  /** Any beginning of a legal log is legal. */
  lemma {:induction false} FoldPrefix(log: seq<Event>, n: nat)
    requires Fold(log).Some? && 1 <= n <= |log|
    ensures Fold(log[..n]).Some?
    ensures n < |log| ==> Fits(Fold(log[..n]).value, log[n]) && Fold(log[..n + 1]) == Some(Advance(Fold(log[..n]).value, log[n]))
    decreases |log|
  {
    if n == |log| {
      assert log[..n] == log;
    } else if n == |log| - 1 {
      assert log[..n + 1] == log;
    } else {
      var init := log[..|log| - 1];
      FoldPrefix(init, n);
      assert init[..n] == log[..n] && init[..n + 1] == log[..n + 1];
    }
  }

  function Count(log: seq<Event>, kind: EventKind): nat
  {
    if log == [] then 0
    else Count(log[..|log| - 1], kind) + if log[|log| - 1].kind == kind then 1 else 0
  }

  function Claims(log: seq<Event>): nat
  {
    Count(log, TaskStarted) + Count(log, TaskRetryStarted) + Count(log, TaskRecovered)
  }

  function Finals(log: seq<Event>): nat
  {
    Count(log, TaskSucceeded) + Count(log, TaskPartial) + Count(log, TaskFailed) + Count(log, TaskCanceled)
  }

  /** A legal log has one event per version, counting from zero. */
  lemma {:induction false} FoldLength(log: seq<Event>)
    requires Fold(log).Some?
    ensures |log| == Fold(log).value.version + 1
    decreases |log|
  {
    if |log| > 1 {
      FoldLength(log[..|log| - 1]);
    }
  }

  /** The retry count of a legal log is the number of its retrying and recovered events. */
  lemma {:induction false} FoldRetries(log: seq<Event>)
    requires Fold(log).Some?
    ensures Fold(log).value.retryCount == Count(log, TaskRetrying) + Count(log, TaskRecovered)
    decreases |log|
  {
    var init := log[..|log| - 1];
    if |log| == 1 {
      assert Count(init, TaskRetrying) == Count(init, TaskRecovered) == 0;
    } else {
      FoldRetries(init);
    }
  }

  /** One final event when the task is terminal, none before. */
  lemma {:induction false} FinalOnce(log: seq<Event>)
    requires Fold(log).Some?
    ensures Finals(log) == if IsTerminal(Fold(log).value.status) then 1 else 0
    decreases |log|
  {
    var init := log[..|log| - 1];
    var kind := log[|log| - 1].kind;
    assert Finals(log) == Finals(init)
                          + if kind in {TaskSucceeded, TaskPartial, TaskFailed, TaskCanceled} then 1 else 0;
    if |log| == 1 {
      assert init == [];
    } else {
      FinalOnce(init);
    }
  }

  /** Every start but the first needs an earlier exit from running. */
  lemma {:induction false} StartsNeedExits(log: seq<Event>)
    requires Fold(log).Some?
    ensures Count(log, TaskStarted) + Count(log, TaskRetryStarted)
            <= Count(log, TaskRetrying) + Count(log, TaskReleased)
               + if Fold(log).value.status.Queued? || Fold(log).value.status.Retrying? then 0 else 1
    decreases |log|
  {
    var init := log[..|log| - 1];
    if |log| == 1 {
      assert forall kind :: Count(init, kind) == 0;
    } else {
      StartsNeedExits(init);
    }
  }

  lemma {:induction false} CreatedOnce(log: seq<Event>)
    requires Fold(log).Some?
    ensures Count(log, TaskCreated) == 1 && log[0].kind.TaskCreated?
    decreases |log|
  {
    var init := log[..|log| - 1];
    if |log| == 1 {
      assert Count(init, TaskCreated) == 0;
    } else {
      CreatedOnce(init);
    }
  }

  /** Every event has one kind. */
  lemma {:induction false} CountsAddUp(log: seq<Event>)
    ensures |log| == Count(log, TaskCreated) + Claims(log) + Count(log, TaskRetrying) + Count(log, TaskReleased)
                     + Count(log, TaskProgress) + Finals(log)
  {
    if log != [] {
      CountsAddUp(log[..|log| - 1]);
    }
  }

  /** Attempts are bounded by the retry budget and the releases; the length of the log by those and the
      progress reports. */
  lemma AttemptBounds(log: seq<Event>, maxRetries: int)
    requires Fold(log).Some? && Fold(log).value.retryCount <= maxRetries
    ensures Claims(log) <= 1 + maxRetries + Count(log, TaskReleased)
    ensures Fold(log).value.version
            <= 2 + 2 * maxRetries + 2 * Count(log, TaskReleased) + Count(log, TaskProgress)
  {
    FoldLength(log);
    FoldRetries(log);
    StartsNeedExits(log);
    CountsAddUp(log);
    CreatedOnce(log);
    FinalOnce(log);
  }

  /** A claim other than a recovery directly follows the creation, a release or a scheduled retry. */
  lemma {:induction false} ClaimPredecessor(log: seq<Event>, b: nat)
    requires Fold(log).Some? && b < |log| && IsClaim(log[b].kind)
    ensures b > 0
    ensures log[b].kind.TaskRecovered? || log[b - 1].kind.TaskReleased? || log[b - 1].kind.TaskRetrying?
            || (log[b - 1].kind.TaskCreated? && b == 1)
  {
    FoldPrefix(log, 1);
    assert log[..1] == [log[0]];
    assert b > 0;
    FoldPrefix(log, b);
    if b > 1 {
      FoldPrefix(log, b - 1);
    }
  }

  /** Between two claims with no claim in between there is a released or retrying event, or the second is a
      recovery. */
  lemma {:induction false} SuccessiveClaims(log: seq<Event>, a: nat, b: nat)
    requires Fold(log).Some? && a < b < |log|
    requires IsClaim(log[a].kind) && IsClaim(log[b].kind)
    ensures log[b].kind.TaskRecovered?
            || exists k :: a < k < b && (log[k].kind.TaskReleased? || log[k].kind.TaskRetrying?)
  {
    ClaimPredecessor(log, a);
    ClaimPredecessor(log, b);
    if !log[b].kind.TaskRecovered? {
      assert a < b - 1 < b;
    }
  }
}
