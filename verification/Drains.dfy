/** Repeating claims or reaps until nothing is left: the order tasks come out in, what is left behind, and that
    together they leave no expired lease. */
module Drains {
  import opened Basics
  import opened Domain
  import opened Selection
  import opened Store
  import opened Worker
  import opened Runs
  import opened Guarantees

  /** What events need of the records; every reachable state has it. */
  ghost predicate Sane(s: State)
  {
    WellKeyed(s) && forall id :: id in s.tasks ==> id != "" && 0 <= s.tasks[id].progress <= 100
  }

  lemma ReachableIsSane(env: Env, run: Run, i: nat)
    requires IsRun(env, run) && i < |run.states|
    ensures Sane(run.states[i])
  {
    forall id | id in run.states[i].tasks ensures TaskGood(run.states[i], id) {
      EventSourcing(env, run, i, id);
    }
  }

  /** New, distinct event ids. */
  ghost predicate FreshIds(s: State, ids: seq<string>)
  {
    && (forall n :: 0 <= n < |ids| ==> ids[n] != "" && ids[n] !in s.byId)
    && (forall m, n :: 0 <= m < n < |ids| ==> ids[m] != ids[n])
  }

  // ---- The scheduler ----

  function Eligible(tasks: Tasks, workflow: string, now: Time): set<string>
  {
    RecoverableIds(tasks, workflow, now) + DueIds(tasks, workflow, now)
  }

  datatype Drained = Drained(state: State, handedOut: seq<string>)

  /** Claim again and again, one set of options and one event id per claim. */
  ghost function DrainClaims(s: State, claims: seq<ClaimOptions>, ids: seq<string>): Drained
    requires |ids| == |claims|
    decreases |claims|
  {
    if claims == [] then Drained(s, [])
    else
      var r := ClaimNextWithEvent(s, claims[0], ids[0]);
      if r.reply.Err? then Drained(r.state, [])
      else
        var rest := DrainClaims(r.state, claims[1..], ids[1..]);
        Drained(rest.state, [r.reply.value.id] + rest.handedOut)
  }

  /** Valid claims for one workflow filter at one instant, by any workers for any lease durations. */
  predicate AtInstant(claims: seq<ClaimOptions>, workflow: string, now: Time)
  {
    forall n :: 0 <= n < |claims| ==> ValidClaim(claims[n]) && claims[n].workflow == workflow && claims[n].now == now
  }

  /** Recoverable tasks by lease expiry and id, then due ones by available time, creation time and id. */
  predicate HandedBefore(tasks: Tasks, workflow: string, now: Time, a: string, b: string)
    requires a in tasks && b in tasks
  {
    if Recoverable(tasks[a], workflow, now) then
      Recoverable(tasks[b], workflow, now) ==> Before(ByLease, tasks, a, b)
    else
      Due(tasks[b], workflow, now) && Before(ByAvailability, tasks, a, b)
  }

  /** A task as an eligible one looks after its claim. */
  function Taken(t: Task, o: ClaimOptions): Task
  {
    ClaimedTask(t, if Recoverable(t, o.workflow, o.now) then ClaimRecovery else StartKind(t), o)
  }

  /** The n-th task handed out went to the n-th claim, and every other task is untouched. */
  ghost predicate AllTaken(tasks: Tasks, after: Tasks, claims: seq<ClaimOptions>, out: seq<string>)
  {
    && |out| <= |claims| && after.Keys == tasks.Keys
    && (forall n :: 0 <= n < |out| ==> out[n] in tasks && after[out[n]] == Taken(tasks[out[n]], claims[n]))
    && (forall id :: id in tasks && id !in out ==> after[id] == tasks[id])
  }

  /** The task the next claim picks comes before every other eligible one. */
  lemma PickIsFirst(tasks: Tasks, o: ClaimOptions)
    requires Eligible(tasks, o.workflow, o.now) != {}
    ensures ClaimPick(tasks, o.workflow, o.now).Some?
    ensures var pick := ClaimPick(tasks, o.workflow, o.now).value;
            && pick.id in Eligible(tasks, o.workflow, o.now)
            && ClaimedTask(tasks[pick.id], pick.kind, o) == Taken(tasks[pick.id], o)
            && forall b :: b in Eligible(tasks, o.workflow, o.now) && b != pick.id ==>
                 HandedBefore(tasks, o.workflow, o.now, pick.id, b)
  {
    var pick := ClaimPick(tasks, o.workflow, o.now).value;
    if pick.kind.ClaimRecovery? {
      assert Recoverable(tasks[pick.id], o.workflow, o.now);
    } else {
      assert Due(tasks[pick.id], o.workflow, o.now);
      assert pick.id !in RecoverableIds(tasks, o.workflow, o.now);
    }
  }

  /** Claiming one eligible task takes exactly that one out of the eligible ones. */
  lemma TakenIsOut(tasks: Tasks, o: ClaimOptions, id: string, tasks': Tasks)
    requires ValidClaim(o) && id in Eligible(tasks, o.workflow, o.now) && tasks' == tasks[id := Taken(tasks[id], o)]
    ensures Eligible(tasks', o.workflow, o.now) == Eligible(tasks, o.workflow, o.now) - {id}
  {
    assert !Recoverable(tasks'[id], o.workflow, o.now) && !Due(tasks'[id], o.workflow, o.now);
  }

  lemma ClaimCommits(s: State, o: ClaimOptions, eventId: string)
    requires Sane(s) && ValidClaim(o) && eventId != "" && eventId !in s.byId
    requires ClaimPick(s.tasks, o.workflow, o.now).Some?
    ensures var r := ClaimNextWithEvent(s, o, eventId);
            var pick := ClaimPick(s.tasks, o.workflow, o.now).value;
            && r.reply.Ok? && r.reply.value.id == pick.id
            && r.state.tasks == s.tasks[pick.id := ClaimedTask(s.tasks[pick.id], pick.kind, o)]
            && r.state.byId.Keys == s.byId.Keys + {eventId}
            && Sane(r.state)
  {
  }

  /** The tasks of `out` are exactly the eligible ones, each once, in hand-out order. */
  ghost predicate DrainOrder(tasks: Tasks, workflow: string, now: Time, out: seq<string>)
  {
    && (forall n :: 0 <= n < |out| ==> out[n] in Eligible(tasks, workflow, now))
    && (forall id :: id in Eligible(tasks, workflow, now) ==> id in out)
    && (forall a, b :: 0 <= a < b < |out| ==> out[a] != out[b] && HandedBefore(tasks, workflow, now, out[a], out[b]))
  }

  /** Putting the first task before the rest of the drain. */
  lemma FirstThenRest(tasks: Tasks, o: ClaimOptions, id: string, tasks': Tasks, rest: seq<string>)
    requires ValidClaim(o) && id in Eligible(tasks, o.workflow, o.now) && tasks' == tasks[id := Taken(tasks[id], o)]
    requires forall b :: b in Eligible(tasks, o.workflow, o.now) && b != id ==> HandedBefore(tasks, o.workflow, o.now, id, b)
    requires DrainOrder(tasks', o.workflow, o.now, rest)
    ensures DrainOrder(tasks, o.workflow, o.now, [id] + rest) && id !in rest
  {
    TakenIsOut(tasks, o, id, tasks');
    var all := [id] + rest;
    assert forall n :: 0 < n < |all| ==> all[n] == rest[n - 1] && all[n] != id;
    forall a, b | 0 <= a < b < |all| ensures all[a] != all[b] && HandedBefore(tasks, o.workflow, o.now, all[a], all[b]) {
      if a > 0 {
        assert HandedBefore(tasks', o.workflow, o.now, rest[a - 1], rest[b - 1]);
      }
    }
  }

  lemma FirstTaken(tasks: Tasks, after: Tasks, claims: seq<ClaimOptions>, id: string, tasks': Tasks, rest: seq<string>)
    requires claims != [] && id in tasks && tasks' == tasks[id := Taken(tasks[id], claims[0])]
    requires id !in rest && AllTaken(tasks', after, claims[1..], rest)
    ensures AllTaken(tasks, after, claims, [id] + rest)
  {
    var all := [id] + rest;
    assert all[0] == id;
    forall n | 0 <= n < |all| ensures all[n] in tasks && after[all[n]] == Taken(tasks[all[n]], claims[n]) {
      if n > 0 {
        assert all[n] == rest[n - 1] && claims[1..][n - 1] == claims[n];
      }
    }
  }

  lemma NothingEligible(tasks: Tasks, workflow: string, now: Time)
    requires Eligible(tasks, workflow, now) == {}
    ensures ClaimPick(tasks, workflow, now) == None
  {
    assert RecoverableIds(tasks, workflow, now) == {} && DueIds(tasks, workflow, now) == {};
  }

  /** One claim of the drain. */
  lemma ClaimFirst(s: State, o: ClaimOptions, ids: seq<string>) returns (id: string, s': State)
    requires Sane(s) && ValidClaim(o) && FreshIds(s, ids) && ids != [] && Eligible(s.tasks, o.workflow, o.now) != {}
    ensures s' == ClaimNextWithEvent(s, o, ids[0]).state
    ensures ClaimNextWithEvent(s, o, ids[0]).reply.Ok? && ClaimNextWithEvent(s, o, ids[0]).reply.value.id == id
    ensures id in Eligible(s.tasks, o.workflow, o.now) && s'.tasks == s.tasks[id := Taken(s.tasks[id], o)]
    ensures forall b :: b in Eligible(s.tasks, o.workflow, o.now) && b != id ==> HandedBefore(s.tasks, o.workflow, o.now, id, b)
    ensures Sane(s') && FreshIds(s', ids[1..])
    ensures |Eligible(s'.tasks, o.workflow, o.now)| == |Eligible(s.tasks, o.workflow, o.now)| - 1
  {
    PickIsFirst(s.tasks, o);
    ClaimCommits(s, o, ids[0]);
    id := ClaimPick(s.tasks, o.workflow, o.now).value.id;
    s' := ClaimNextWithEvent(s, o, ids[0]).state;
    TakenIsOut(s.tasks, o, id, s'.tasks);
    CardMinusOne(Eligible(s.tasks, o.workflow, o.now), id);
    RestIsFresh(s, s', ids);
  }

  /** Unfolding the drain by one claim. */
  lemma DrainStep(s: State, claims: seq<ClaimOptions>, ids: seq<string>)
    requires |ids| == |claims| > 0 && ClaimNextWithEvent(s, claims[0], ids[0]).reply.Ok?
    ensures var r := ClaimNextWithEvent(s, claims[0], ids[0]);
            var rest := DrainClaims(r.state, claims[1..], ids[1..]);
            DrainClaims(s, claims, ids) == Drained(rest.state, [r.reply.value.id] + rest.handedOut)
  {
  }

  /** Scheduler drain: claims repeated at one instant, by whatever workers and for whatever lease durations, hand out
      each eligible task exactly once, in order, the n-th task to the n-th claim, touch nothing else, and then find
      nothing. */
  lemma {:induction false} SchedulerDrain(s: State, claims: seq<ClaimOptions>, ids: seq<string>, workflow: string, now: Time)
    requires Sane(s) && AtInstant(claims, workflow, now) && FreshIds(s, ids)
    requires |ids| == |claims| >= |Eligible(s.tasks, workflow, now)|
    ensures var d := DrainClaims(s, claims, ids);
            && |d.handedOut| == |Eligible(s.tasks, workflow, now)|
            && DrainOrder(s.tasks, workflow, now, d.handedOut)
            && AllTaken(s.tasks, d.state.tasks, claims, d.handedOut)
            && ClaimPick(d.state.tasks, workflow, now) == None
    decreases |claims|
  {
    if Eligible(s.tasks, workflow, now) == {} {
      NothingEligible(s.tasks, workflow, now);
    } else {
      var id, s' := ClaimFirst(s, claims[0], ids);
      DrainStep(s, claims, ids);
      SchedulerDrain(s', claims[1..], ids[1..], workflow, now);
      var rest := DrainClaims(s', claims[1..], ids[1..]);
      FirstThenRest(s.tasks, claims[0], id, s'.tasks, rest.handedOut);
      FirstTaken(s.tasks, rest.state.tasks, claims, id, s'.tasks, rest.handedOut);
    }
  }

  /** What is handed out, from the fields: the tasks of the workflow that are queued or retrying with their available time
      come, or running past their lease with a retry left, and no others. */
  lemma DrainHandsOut(s: State, claims: seq<ClaimOptions>, ids: seq<string>, workflow: string, now: Time, id: string)
    requires Sane(s) && AtInstant(claims, workflow, now) && FreshIds(s, ids) && id in s.tasks
    requires |ids| == |claims| >= |Eligible(s.tasks, workflow, now)|
    ensures var t := s.tasks[id];
            id in DrainClaims(s, claims, ids).handedOut <==>
              && (workflow == "" || t.workflow == workflow)
              && match t.status
                 case Queued => t.availableAt <= now
                 case Retrying => t.availableAt <= now
                 case Running => t.leaseExpiresAt.Some? && t.leaseExpiresAt.value <= now && t.retryCount < t.maxRetries
                 case _ => false
  {
    SchedulerDrain(s, claims, ids, workflow, now);
  }

  // ---- The reaper ----

  /** Reap again and again, with one clock reading and one event id per round, until a round fails. */
  ghost function DrainReaps(s: State, clock: seq<Time>, ids: seq<string>): Drained
    requires |ids| == |clock|
    decreases |clock|
  {
    if clock == [] then Drained(s, [])
    else
      var r := FailNextExpiredWithEvent(s, clock[0], ids[0]);
      if r.reply.Err? then Drained(r.state, [])
      else
        var rest := DrainReaps(r.state, clock[1..], ids[1..]);
        Drained(rest.state, [r.reply.value.id] + rest.handedOut)
  }

  /** A clock that is set and does not go back. */
  predicate Ticks(clock: seq<Time>)
  {
    && (forall n :: 0 <= n < |clock| ==> clock[n] != ZERO_TIME)
    && (forall m, n :: 0 <= m <= n < |clock| ==> clock[m] <= clock[n])
  }

  /** The n-th reaped task was exhausted at the n-th clock reading and failed then; every other record and log is
      untouched. */
  ghost predicate AllReaped(s: State, after: State, clock: seq<Time>, out: seq<string>)
  {
    && |out| <= |clock| && after.tasks.Keys == s.tasks.Keys
    && (forall n :: 0 <= n < |out| ==> out[n] in ExhaustedIds(s.tasks, clock[n])
                                       && after.tasks[out[n]] == ReapedTask(s.tasks[out[n]], clock[n]))
    && (forall id :: id in s.tasks && id !in out ==> after.tasks[id] == s.tasks[id])
    && (forall id :: id !in out ==> LogOf(after, id) == LogOf(s, id))
  }

  lemma ReapOne(s: State, now: Time, eventId: string) returns (id: string)
    requires Sane(s) && now != ZERO_TIME && eventId != "" && eventId !in s.byId && ExhaustedIds(s.tasks, now) != {}
    ensures var r := FailNextExpiredWithEvent(s, now, eventId);
            && id in ExhaustedIds(s.tasks, now) && r.reply.Ok? && r.reply.value.id == id
            && r.state.tasks == s.tasks[id := ReapedTask(s.tasks[id], now)]
            && r.state.byId.Keys == s.byId.Keys + {eventId}
            && (forall x :: x != id ==> LogOf(r.state, x) == LogOf(s, x))
            && Sane(r.state)
  {
    id := ReapPick(s.tasks, now).value;
  }

  /** A reaped task is exhausted at no instant any more. */
  lemma ReapedIsOut(tasks: Tasks, id: string, now: Time, later: Time)
    requires id in ExhaustedIds(tasks, now) && now <= later
    ensures id in ExhaustedIds(tasks, later)
    ensures ExhaustedIds(tasks[id := ReapedTask(tasks[id], now)], later) == ExhaustedIds(tasks, later) - {id}
    ensures |ExhaustedIds(tasks[id := ReapedTask(tasks[id], now)], later)| == |ExhaustedIds(tasks, later)| - 1
  {
    CardMinusOne(ExhaustedIds(tasks, later), id);
  }

  lemma FirstReaped(s: State, s': State, after: State, clock: seq<Time>, id: string, rest: seq<string>)
    requires clock != [] && id in ExhaustedIds(s.tasks, clock[0]) && s'.tasks == s.tasks[id := ReapedTask(s.tasks[id], clock[0])]
    requires forall x :: x != id ==> LogOf(s', x) == LogOf(s, x)
    requires AllReaped(s', after, clock[1..], rest)
    ensures AllReaped(s, after, clock, [id] + rest) && id !in rest
  {
    var all := [id] + rest;
    assert all[0] == id && id !in rest;
    forall n | 0 <= n < |all|
      ensures all[n] in ExhaustedIds(s.tasks, clock[n]) && after.tasks[all[n]] == ReapedTask(s.tasks[all[n]], clock[n])
    {
      if n > 0 {
        assert all[n] == rest[n - 1] && clock[1..][n - 1] == clock[n];
      }
    }
  }

  /** The tasks of `out` are exactly those of `ids`, each once. */
  ghost predicate ListsOnce(ids: set<string>, out: seq<string>)
  {
    && (forall id :: id in ids <==> id in out) && |out| == |ids|
    && (forall m, n :: 0 <= m < n < |out| ==> out[m] != out[n])
  }

  lemma OneMoreListed(ids: set<string>, id: string, rest: seq<string>)
    requires id in ids && ListsOnce(ids - {id}, rest)
    ensures ListsOnce(ids, [id] + rest)
  {
    CardMinusOne(ids, id);
    assert id !in rest;
  }

  /** Unfolding the drain by one round. */
  lemma ReapStep(s: State, clock: seq<Time>, ids: seq<string>)
    requires |ids| == |clock| > 0
    ensures var r := FailNextExpiredWithEvent(s, clock[0], ids[0]);
            if r.reply.Err? then DrainReaps(s, clock, ids) == Drained(r.state, [])
            else
              var rest := DrainReaps(r.state, clock[1..], ids[1..]);
              DrainReaps(s, clock, ids) == Drained(rest.state, [r.reply.value.id] + rest.handedOut)
  {
  }

  /** What a finished drain from `s` leaves: its last round found nothing. The tasks it failed before are exactly those
      exhausted at that round's clock, each failed once, at a reading at which it was exhausted; no other record or log
      is touched. */
  ghost predicate FullyReaped(s: State, d: Drained, clock: seq<Time>)
  {
    && |d.handedOut| < |clock|
    && ListsOnce(ExhaustedIds(s.tasks, clock[|d.handedOut|]), d.handedOut)
    && AllReaped(s, d.state, clock, d.handedOut)
    && ReapPick(d.state.tasks, clock[|d.handedOut|]) == None
    && Sane(d.state)
  }

  lemma ReapThenRest(s: State, s': State, clock: seq<Time>, id: string, rest: Drained)
    requires Ticks(clock) && clock != [] && id in ExhaustedIds(s.tasks, clock[0])
    requires s'.tasks == s.tasks[id := ReapedTask(s.tasks[id], clock[0])]
    requires forall x :: x != id ==> LogOf(s', x) == LogOf(s, x)
    requires FullyReaped(s', rest, clock[1..])
    ensures FullyReaped(s, Drained(rest.state, [id] + rest.handedOut), clock)
  {
    FirstReaped(s, s', rest.state, clock, id, rest.handedOut);
    var last := clock[|rest.handedOut| + 1];
    assert clock[1..][|rest.handedOut|] == last;
    ReapedIsOut(s.tasks, id, clock[0], last);
    OneMoreListed(ExhaustedIds(s.tasks, last), id, rest.handedOut);
  }

  /** Enough rounds to come to an end. */
  predicate Suffices(s: State, clock: seq<Time>)
  {
    clock != [] && |clock| > |ExhaustedIds(s.tasks, clock[|clock| - 1])|
  }

  /** One round of the drain that finds a task. */
  lemma ReapFirst(s: State, clock: seq<Time>, ids: seq<string>) returns (id: string, s': State)
    requires Sane(s) && Ticks(clock) && FreshIds(s, ids) && |ids| == |clock| && Suffices(s, clock)
    requires ExhaustedIds(s.tasks, clock[0]) != {}
    ensures s' == FailNextExpiredWithEvent(s, clock[0], ids[0]).state
    ensures FailNextExpiredWithEvent(s, clock[0], ids[0]).reply.Ok? && FailNextExpiredWithEvent(s, clock[0], ids[0]).reply.value.id == id
    ensures id in ExhaustedIds(s.tasks, clock[0]) && s'.tasks == s.tasks[id := ReapedTask(s.tasks[id], clock[0])]
    ensures forall x :: x != id ==> LogOf(s', x) == LogOf(s, x)
    ensures Sane(s') && Ticks(clock[1..]) && FreshIds(s', ids[1..]) && Suffices(s', clock[1..])
  {
    id := ReapOne(s, clock[0], ids[0]);
    s' := FailNextExpiredWithEvent(s, clock[0], ids[0]).state;
    RestSuffices(s, s', clock, id);
    RestIsFresh(s, s', ids);
  }

  lemma RestSuffices(s: State, s': State, clock: seq<Time>, id: string)
    requires Ticks(clock) && Suffices(s, clock) && id in ExhaustedIds(s.tasks, clock[0])
    requires s'.tasks == s.tasks[id := ReapedTask(s.tasks[id], clock[0])]
    ensures Ticks(clock[1..]) && Suffices(s', clock[1..])
  {
    var last := clock[|clock| - 1];
    ReapedIsOut(s.tasks, id, clock[0], last);
    assert |ExhaustedIds(s.tasks, last)| >= 1;
    assert clock[1..][|clock| - 2] == last;
  }

  lemma RestIsFresh(s: State, s': State, ids: seq<string>)
    requires FreshIds(s, ids) && ids != [] && s'.byId.Keys == s.byId.Keys + {ids[0]}
    ensures FreshIds(s', ids[1..])
  {
    assert forall n :: 0 <= n < |ids[1..]| ==> ids[1..][n] == ids[n + 1] && ids[n + 1] in ids[1..];
  }

  /** Reaper drain, with a clock reading per round. */
  lemma {:induction false} ReaperDrain(s: State, clock: seq<Time>, ids: seq<string>)
    requires Sane(s) && Ticks(clock) && FreshIds(s, ids) && |ids| == |clock| && Suffices(s, clock)
    ensures FullyReaped(s, DrainReaps(s, clock, ids), clock)
    decreases |clock|
  {
    ReapStep(s, clock, ids);
    if ExhaustedIds(s.tasks, clock[0]) != {} {
      var id, s' := ReapFirst(s, clock, ids);
      ReaperDrain(s', clock[1..], ids[1..]);
      ReapThenRest(s, s', clock, id, DrainReaps(s', clock[1..], ids[1..]));
    }
  }

  /** What it ends, from the fields: the tasks that run past their lease with no retry left at the clock of its last round;
      those are failed, every other record is as it was. */
  lemma ReaperEnds(s: State, clock: seq<Time>, ids: seq<string>, id: string)
    requires Sane(s) && Ticks(clock) && FreshIds(s, ids) && |ids| == |clock| && Suffices(s, clock) && id in s.tasks
    ensures var d, t := DrainReaps(s, clock, ids), s.tasks[id];
            && |d.handedOut| < |clock| && id in d.state.tasks
            && if t.status.Running? && t.leaseExpiresAt.Some? && t.leaseExpiresAt.value <= clock[|d.handedOut|]
                  && t.retryCount >= t.maxRetries
               then id in d.handedOut && d.state.tasks[id].status.Failed? && d.state.tasks[id].leaseOwner == ""
               else id !in d.handedOut && d.state.tasks[id] == t
  {
    ReaperDrain(s, clock, ids);
    var d := DrainReaps(s, clock, ids);
    assert id in ExhaustedIds(s.tasks, clock[|d.handedOut|]) <==> id in d.handedOut;
    if id in d.handedOut {
      var n :| 0 <= n < |d.handedOut| && d.handedOut[n] == id;
    }
  }

  /** After `processed` rounds of a drain the rest of it starts from `s`. */
  ghost predicate Draining(s: State, clock: seq<Time>, ids: seq<string>, processed: nat, whole: Drained)
    requires |ids| == |clock|
  {
    && processed <= |whole.handedOut| < |clock|
    && var rest := DrainReaps(s, clock[processed..], ids[processed..]);
       rest.state == whole.state && processed + |rest.handedOut| == |whole.handedOut|
  }

  lemma DrainStarts(s: State, clock: seq<Time>, ids: seq<string>)
    requires Sane(s) && Ticks(clock) && FreshIds(s, ids) && |ids| == |clock| && Suffices(s, clock)
    ensures FullyReaped(s, DrainReaps(s, clock, ids), clock) && Draining(s, clock, ids, 0, DrainReaps(s, clock, ids))
  {
    ReaperDrain(s, clock, ids);
    assert clock[0..] == clock && ids[0..] == ids;
  }

  lemma DrainRound(s: State, clock: seq<Time>, ids: seq<string>, processed: nat, whole: Drained)
    requires |ids| == |clock| && Draining(s, clock, ids, processed, whole)
    ensures var r := FailNextExpiredWithEvent(s, clock[processed], ids[processed]);
            if r.reply.Err? then r.state == whole.state && processed == |whole.handedOut|
            else Draining(r.state, clock, ids, processed + 1, whole)
  {
    ReapStep(s, clock[processed..], ids[processed..]);
    assert clock[processed..][1..] == clock[processed + 1..] && ids[processed..][1..] == ids[processed + 1..];
  }

  // ---- Both ----

  /** At any instant an expired running task is eligible for exactly one of a recovery claim and the reaper. */
  lemma ExpiredHasOneTaker(t: Task, now: Time)
    ensures Expired(t, now) ==> (Recoverable(t, "", now) <==> !Exhausted(t, now))
    ensures Expired(t, now) ==> (Exhausted(t, now) <==> t.retryCount >= t.maxRetries)
    ensures !Expired(t, now) ==> !Recoverable(t, "", now) && !Exhausted(t, now)
  {
  }

  /** No task is stuck: after the reaper has drained, ending at some instant, and the scheduler, over all workflows, at
      that instant, no running task has an expired lease. */
  lemma NoTaskStuck(s: State, clock: seq<Time>, reapIds: seq<string>, claims: seq<ClaimOptions>, claimIds: seq<string>,
                    reaped: Drained, now: Time, final: State)
    requires Sane(s) && Ticks(clock) && FreshIds(s, reapIds)
    requires |reapIds| == |clock| && Suffices(s, clock)
    requires reaped == DrainReaps(s, clock, reapIds) && |reaped.handedOut| < |clock| && now == clock[|reaped.handedOut|]
    requires AtInstant(claims, "", now) && FreshIds(reaped.state, claimIds)
    requires |claimIds| == |claims| >= |Eligible(reaped.state.tasks, "", now)|
    requires final == DrainClaims(reaped.state, claims, claimIds).state
    ensures final.tasks.Keys == s.tasks.Keys && forall id :: id in final.tasks ==> !Expired(final.tasks[id], now)
  {
    ReaperDrain(s, clock, reapIds);
    SchedulerDrain(reaped.state, claims, claimIds, "", now);
    var out := DrainClaims(reaped.state, claims, claimIds).handedOut;
    forall id | id in final.tasks ensures !Expired(final.tasks[id], now) {
      NotExpired(reaped.state.tasks, final.tasks, claims, out, id, now);
    }
  }

  lemma NotExpired(tasks: Tasks, after: Tasks, claims: seq<ClaimOptions>, out: seq<string>, id: string, now: Time)
    requires AtInstant(claims, "", now) && AllTaken(tasks, after, claims, out) && DrainOrder(tasks, "", now, out)
    requires ReapPick(tasks, now) == None && id in after
    ensures !Expired(after[id], now)
  {
    if id in out {
      var n :| 0 <= n < |out| && out[n] == id;
      assert after[id] == Taken(tasks[id], claims[n]);
    } else {
      ExpiredHasOneTaker(tasks[id], now);
      assert id !in Eligible(tasks, "", now) && id !in ExhaustedIds(tasks, now);
    }
  }
}
