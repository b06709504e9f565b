/** The statistics snapshot, and its agreement with what the scheduler would hand out. */
module Stats {
  import opened Basics
  import opened Domain
  import opened Selection
  import opened Paging

  datatype Snapshot = Snapshot(
    statusCounts: map<Status, nat>, availableCounts: map<Status, nat>, oldestAvailableAge: map<Status, Duration>)

  const EMPTY_SNAPSHOT := Snapshot(map[], map[], map[])

  /** A Go map lookup: zero when absent. */
  function CountIn(counts: map<Status, nat>, status: Status): nat
  {
    if status in counts then counts[status] else 0
  }

  function WithStatus(tasks: Tasks, ids: set<string>, q: Query, status: Status): set<string>
  {
    set id | id in ids && id in tasks && Matches(tasks[id], q) && tasks[id].status == status
  }

  function AvailableWithStatus(tasks: Tasks, ids: set<string>, q: Query, now: Time, status: Status): set<string>
  {
    set id | id in ids && id in tasks && Matches(tasks[id], q) && Available(tasks[id], now) && tasks[id].status == status
  }

  /** `age` is the largest waiting time among the tasks `ids`. */
  ghost predicate IsOldestAge(tasks: Tasks, ids: set<string>, now: Time, age: Duration)
    requires ids <= tasks.Keys
  {
    && (exists id :: id in ids && age == now - tasks[id].availableAt)
    && (forall id :: id in ids ==> now - tasks[id].availableAt <= age)
  }

  /** What the snapshot says of one status, counting the tasks `ids`. */
  ghost predicate Counts(tasks: Tasks, ids: set<string>, q: Query, now: Time, s: Snapshot, status: Status)
  {
    var available := AvailableWithStatus(tasks, ids, q, now, status);
    && CountIn(s.statusCounts, status) == |WithStatus(tasks, ids, q, status)|
    && CountIn(s.availableCounts, status) == |available|
    && OldestRight(tasks, available, now, s, status)
  }

  /** The age recorded for a status is that of the longest waiting of its available tasks, if there are any. */
  ghost predicate OldestRight(tasks: Tasks, available: set<string>, now: Time, s: Snapshot, status: Status)
    requires available <= tasks.Keys
  {
    && (status in s.oldestAvailableAge <==> available != {})
    && (available != {} ==> IsOldestAge(tasks, available, now, s.oldestAvailableAge[status]))
  }

  ghost predicate IsSnapshot(tasks: Tasks, ids: set<string>, q: Query, now: Time, s: Snapshot)
  {
    forall status :: Counts(tasks, ids, q, now, s, status)
  }

  /** What the loop does with one task. */
  function Tally(s: Snapshot, t: Task, q: Query, now: Time): Snapshot
  {
    if !Matches(t, q) then s
    else
      var counted := s.(statusCounts := s.statusCounts[t.status := CountIn(s.statusCounts, t.status) + 1]);
      if !Available(t, now) then counted
      else
        var age := now - t.availableAt;
        var seen := counted.(availableCounts := s.availableCounts[t.status := CountIn(s.availableCounts, t.status) + 1]);
        if t.status !in s.oldestAvailableAge || age > s.oldestAvailableAge[t.status]
        then seen.(oldestAvailableAge := s.oldestAvailableAge[t.status := age]) else seen
  }

  /** Looking at one more task adds it to the sets it belongs to. */
  lemma OneMore(tasks: Tasks, ids: set<string>, q: Query, now: Time, id: string, status: Status)
    requires id in tasks && id !in ids
    ensures WithStatus(tasks, ids + {id}, q, status)
            == WithStatus(tasks, ids, q, status) + if Matches(tasks[id], q) && tasks[id].status == status then {id} else {}
    ensures AvailableWithStatus(tasks, ids + {id}, q, now, status)
            == AvailableWithStatus(tasks, ids, q, now, status)
               + if Matches(tasks[id], q) && Available(tasks[id], now) && tasks[id].status == status then {id} else {}
    ensures id !in WithStatus(tasks, ids, q, status) && id !in AvailableWithStatus(tasks, ids, q, now, status)
  {
  }

  predicate Falls(t: Task, q: Query, status: Status)
  {
    Matches(t, q) && t.status == status
  }

  lemma OneMoreCounted(tasks: Tasks, ids: set<string>, q: Query, now: Time, id: string, status: Status)
    requires id in tasks && id !in ids
    ensures |WithStatus(tasks, ids + {id}, q, status)|
            == |WithStatus(tasks, ids, q, status)| + if Falls(tasks[id], q, status) then 1 else 0
    ensures |AvailableWithStatus(tasks, ids + {id}, q, now, status)|
            == |AvailableWithStatus(tasks, ids, q, now, status)|
               + if Falls(tasks[id], q, status) && Available(tasks[id], now) then 1 else 0
  {
    OneMore(tasks, ids, q, now, id, status);
  }

  lemma TallyAdds(s: Snapshot, t: Task, q: Query, now: Time, status: Status)
    ensures var s' := Tally(s, t, q, now);
            && CountIn(s'.statusCounts, status) == CountIn(s.statusCounts, status) + (if Falls(t, q, status) then 1 else 0)
            && CountIn(s'.availableCounts, status)
               == CountIn(s.availableCounts, status) + (if Falls(t, q, status) && Available(t, now) then 1 else 0)
  {
  }

  /** Counting one more task keeps the snapshot right for every status. */
  lemma TallyCounts(tasks: Tasks, ids: set<string>, q: Query, now: Time, s: Snapshot, id: string, status: Status)
    requires ids <= tasks.Keys && id in tasks && id !in ids && Counts(tasks, ids, q, now, s, status)
    ensures Counts(tasks, ids + {id}, q, now, Tally(s, tasks[id], q, now), status)
  {
    TallyAdds(s, tasks[id], q, now, status);
    OneMoreCounted(tasks, ids, q, now, id, status);
    AvailableGrows(tasks, ids, q, now, id, status);
    TallyOldest(tasks, AvailableWithStatus(tasks, ids, q, now, status), q, now, s, id, status);
  }

  lemma AvailableGrows(tasks: Tasks, ids: set<string>, q: Query, now: Time, id: string, status: Status)
    requires id in tasks && id !in ids
    ensures var available := AvailableWithStatus(tasks, ids, q, now, status);
            AvailableWithStatus(tasks, ids + {id}, q, now, status)
            == if Falls(tasks[id], q, status) && Available(tasks[id], now) then available + {id} else available
  {
    OneMore(tasks, ids, q, now, id, status);
  }

  lemma TallyOldest(tasks: Tasks, available: set<string>, q: Query, now: Time, s: Snapshot, id: string, status: Status)
    requires available <= tasks.Keys && id in tasks && OldestRight(tasks, available, now, s, status)
    ensures OldestRight(tasks,
                        if Falls(tasks[id], q, status) && Available(tasks[id], now) then available + {id} else available,
                        now, Tally(s, tasks[id], q, now), status)
  {
    if Falls(tasks[id], q, status) && Available(tasks[id], now) {
      TallyAge(tasks, available, now, s, id, status);
    }
  }

  lemma TallyAge(tasks: Tasks, available: set<string>, now: Time, s: Snapshot, id: string, status: Status)
    requires available <= tasks.Keys && id in tasks
    requires (status in s.oldestAvailableAge <==> available != {})
    requires available != {} ==> IsOldestAge(tasks, available, now, s.oldestAvailableAge[status])
    ensures var age := now - tasks[id].availableAt;
            IsOldestAge(tasks, available + {id}, now,
                        if status !in s.oldestAvailableAge || age > s.oldestAvailableAge[status] then age
                        else s.oldestAvailableAge[status])
  {
    assert id in available + {id};
    if available != {} {
      var x :| x in available && s.oldestAvailableAge[status] == now - tasks[x].availableAt;
      assert x in available + {id};
    }
  }

  // ---- What the numbers mean ----

  function StatusTotal(tasks: Tasks, ids: set<string>, q: Query): nat
  {
    |WithStatus(tasks, ids, q, Queued)| + |WithStatus(tasks, ids, q, Running)| + |WithStatus(tasks, ids, q, Retrying)|
    + |WithStatus(tasks, ids, q, Succeeded)| + |WithStatus(tasks, ids, q, Partial)|
    + |WithStatus(tasks, ids, q, Failed)| + |WithStatus(tasks, ids, q, Canceled)|
  }

  lemma StatusTotalStep(tasks: Tasks, ids: set<string>, q: Query, id: string)
    requires id in tasks && id !in ids
    ensures StatusTotal(tasks, ids + {id}, q) == StatusTotal(tasks, ids, q) + if Matches(tasks[id], q) then 1 else 0
  {
    OneMoreCounted(tasks, ids, q, 0, id, Queued);
    OneMoreCounted(tasks, ids, q, 0, id, Running);
    OneMoreCounted(tasks, ids, q, 0, id, Retrying);
    OneMoreCounted(tasks, ids, q, 0, id, Succeeded);
    OneMoreCounted(tasks, ids, q, 0, id, Partial);
    OneMoreCounted(tasks, ids, q, 0, id, Failed);
    OneMoreCounted(tasks, ids, q, 0, id, Canceled);
  }

  lemma SelectedStep(tasks: Tasks, ids: set<string>, q: Query, id: string)
    requires id in tasks && id !in ids
    ensures |SelectedIds(tasks, q, None) * (ids + {id})|
            == |SelectedIds(tasks, q, None) * ids| + if Matches(tasks[id], q) then 1 else 0
  {
    var selected := SelectedIds(tasks, q, None);
    if Matches(tasks[id], q) {
      assert selected * (ids + {id}) == selected * ids + {id};
    } else {
      assert selected * (ids + {id}) == selected * ids;
    }
  }

  lemma NoneCounted(tasks: Tasks, q: Query)
    ensures StatusTotal(tasks, {}, q) == 0
  {
    forall status ensures WithStatus(tasks, {}, q, status) == {} {
    }
  }

  /** Every matching task has one status. */
  lemma {:induction false} SplitByStatus(tasks: Tasks, q: Query, ids: set<string>)
    requires ids <= tasks.Keys
    ensures StatusTotal(tasks, ids, q) == |SelectedIds(tasks, q, None) * ids|
    decreases |ids|
  {
    if ids == {} {
      NoneCounted(tasks, q);
      assert SelectedIds(tasks, q, None) * ids == {};
    } else {
      var id :| id in ids;
      var rest := ids - {id};
      CardMinusOne(ids, id);
      SplitByStatus(tasks, q, rest);
      StatusTotalStep(tasks, rest, q, id);
      SelectedStep(tasks, rest, q, id);
      assert rest + {id} == ids;
    }
  }

  lemma StatusCount(tasks: Tasks, q: Query, now: Time, s: Snapshot, status: Status)
    requires IsSnapshot(tasks, tasks.Keys, q, now, s)
    ensures CountIn(s.statusCounts, status) == |WithStatus(tasks, tasks.Keys, q, status)|
  {
    assert Counts(tasks, tasks.Keys, q, now, s, status);
  }

  /** The numbers of one status, from the fields of the tasks: how many of the workflow and status asked for are in it,
      how many of those are queued or retrying with their available time come, and how long the one of these that came
      first has waited. */
  lemma SnapshotNumbers(tasks: Tasks, q: Query, now: Time, s: Snapshot, status: Status)
    requires IsSnapshot(tasks, tasks.Keys, q, now, s)
    ensures var matching := set id | id in tasks && (q.workflow == "" || tasks[id].workflow == q.workflow)
                                     && (q.status.Some? ==> tasks[id].status == q.status.value) && tasks[id].status == status;
            var waiting := set id | id in matching && (status.Queued? || status.Retrying?) && tasks[id].availableAt <= now;
            && CountIn(s.statusCounts, status) == |matching| && CountIn(s.availableCounts, status) == |waiting|
            && (status in s.oldestAvailableAge <==> waiting != {})
            && (status in s.oldestAvailableAge ==>
                  && (forall id :: id in waiting ==> now - tasks[id].availableAt <= s.oldestAvailableAge[status])
                  && (exists id :: id in waiting && now - tasks[id].availableAt == s.oldestAvailableAge[status]))
  {
    assert Counts(tasks, tasks.Keys, q, now, s, status);
    var matching := set id | id in tasks && (q.workflow == "" || tasks[id].workflow == q.workflow)
                             && (q.status.Some? ==> tasks[id].status == q.status.value) && tasks[id].status == status;
    var waiting := set id | id in matching && (status.Queued? || status.Retrying?) && tasks[id].availableAt <= now;
    assert matching == WithStatus(tasks, tasks.Keys, q, status);
    assert waiting == AvailableWithStatus(tasks, tasks.Keys, q, now, status);
  }

  /** The counts add up to the number of matching tasks. */
  lemma StatusCountsSum(tasks: Tasks, q: Query, now: Time, s: Snapshot)
    requires IsSnapshot(tasks, tasks.Keys, q, now, s)
    ensures CountIn(s.statusCounts, Queued) + CountIn(s.statusCounts, Running) + CountIn(s.statusCounts, Succeeded)
            + CountIn(s.statusCounts, Partial) + CountIn(s.statusCounts, Failed) + CountIn(s.statusCounts, Canceled)
            + CountIn(s.statusCounts, Retrying) == |SelectedIds(tasks, q, None)|
  {
    var all := tasks.Keys;
    StatusCount(tasks, q, now, s, Queued);
    StatusCount(tasks, q, now, s, Running);
    StatusCount(tasks, q, now, s, Retrying);
    StatusCount(tasks, q, now, s, Succeeded);
    StatusCount(tasks, q, now, s, Partial);
    StatusCount(tasks, q, now, s, Failed);
    StatusCount(tasks, q, now, s, Canceled);
    SplitByStatus(tasks, q, all);
    assert SelectedIds(tasks, q, None) * all == SelectedIds(tasks, q, None);
  }

  lemma DueByStatus(tasks: Tasks, workflow: string, now: Time)
    ensures DueIds(tasks, workflow, now)
            == AvailableWithStatus(tasks, tasks.Keys, Query(workflow, None), now, Queued)
               + AvailableWithStatus(tasks, tasks.Keys, Query(workflow, None), now, Retrying)
  {
  }

  /** Available counts are positive exactly when the due-work phase has a candidate; only queued and retrying tasks
      are ever counted as available. */
  lemma AvailableMeansDue(tasks: Tasks, workflow: string, now: Time, s: Snapshot)
    requires IsSnapshot(tasks, tasks.Keys, Query(workflow, None), now, s)
    ensures CountIn(s.availableCounts, Queued) + CountIn(s.availableCounts, Retrying) == |DueIds(tasks, workflow, now)|
    ensures (CountIn(s.availableCounts, Queued) > 0 || CountIn(s.availableCounts, Retrying) > 0)
            <==> DueIds(tasks, workflow, now) != {}
    ensures forall status :: status in s.oldestAvailableAge ==> status.Queued? || status.Retrying?
  {
    DueByStatus(tasks, workflow, now);
    assert Counts(tasks, tasks.Keys, Query(workflow, None), now, s, Queued);
    assert Counts(tasks, tasks.Keys, Query(workflow, None), now, s, Retrying);
    forall status | status in s.oldestAvailableAge ensures status.Queued? || status.Retrying? {
      assert Counts(tasks, tasks.Keys, Query(workflow, None), now, s, status);
    }
  }

  /** The largest age in the snapshot is the waiting time of the task the due-work phase would pick. */
  lemma OldestIsNextDue(tasks: Tasks, workflow: string, now: Time, s: Snapshot)
    requires IsSnapshot(tasks, tasks.Keys, Query(workflow, None), now, s) && DueIds(tasks, workflow, now) != {}
    ensures var next := First(ByAvailability, tasks, DueIds(tasks, workflow, now));
            var age := now - tasks[next].availableAt;
            && tasks[next].status in s.oldestAvailableAge && s.oldestAvailableAge[tasks[next].status] == age
            && forall status :: status in s.oldestAvailableAge ==> s.oldestAvailableAge[status] <= age
  {
    var q := Query(workflow, None);
    var due := DueIds(tasks, workflow, now);
    var next := First(ByAvailability, tasks, due);
    forall status | status in s.oldestAvailableAge
      ensures s.oldestAvailableAge[status] <= now - tasks[next].availableAt
      ensures status == tasks[next].status ==> s.oldestAvailableAge[status] == now - tasks[next].availableAt
    {
      assert Counts(tasks, tasks.Keys, q, now, s, status);
      var available := AvailableWithStatus(tasks, tasks.Keys, q, now, status);
      var id :| id in available && s.oldestAvailableAge[status] == now - tasks[id].availableAt;
      assert id in due && (id == next || Before(ByAvailability, tasks, next, id));
      assert status == tasks[next].status ==> next in available;
    }
    assert Counts(tasks, tasks.Keys, q, now, s, tasks[next].status);
    assert next in AvailableWithStatus(tasks, tasks.Keys, q, now, tasks[next].status);
  }
}
