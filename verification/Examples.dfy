/** Concrete runs in which a tempting property fails: repeated calls that are refused or wrongly accepted, lease
    expiries that move back, and a creation refused for another pair's key. */
module Examples {
  import opened Basics
  import opened Domain
  import opened Selection
  import opened Backoff
  import opened Store
  import opened Worker
  import opened Plans
  import opened Runs
  import opened Claimants
  import opened Acceptance
  import opened Leases
  import opened Indexes

  /** A decoder that refuses one number; nothing else matters of it here. */
  const ENV := Env(_ => None, text => if text == "1e400" then None else Some(text), true)
  const CREATE := Create("", "w", "{}", 1, "t", "e0", 1)
  const CLAIM := Claim(ClaimOptions("a", "", 1, 10), "e1")
  const LEASE := Lease("t", "a", Some(LeaseToken("t", "a", 1)))
  const FAIL := Fail(LEASE, "c", "m", true, 0, 0)
  const ODD_FAIL := Fail(LEASE, "c: m", "x", true, 0, 0)
  const COMPLETE := Complete(LEASE, "1e400", "")
  const RENEW := Renew(RenewOptions("t", "a", 5, 10))
  const SHORT := Renew(RenewOptions("t", "a", 5, 1))
  const PROGRESS := Act(Progress(LEASE, 50, ""), 2, 2, 2, 3, 6, "e2")

  const QUEUED := Task("t", "", "w", Queued, "{}", "", "", 0, 0, 1, 1, 0, "", None, None, 1, 1, None, None)
  const RUNNING := Task("t", "", "w", Running, "{}", "", "", 0, 0, 1, 1, 1, "a", Some(11), None, 1, 1, Some(1), None)

  lemma AfterCreate() returns (s: State)
    ensures s == Next(ENV, [EMPTY], CREATE) && s.tasks == map["t" := QUEUED] && s.byId.Keys == {"e0"}
  {
    s := Next(ENV, [EMPTY], CREATE);
  }

  lemma AfterClaim(s1: State) returns (s: State)
    requires s1.tasks == map["t" := QUEUED] && s1.byId.Keys == {"e0"}
    ensures s == Next(ENV, [EMPTY, s1], CLAIM) && s.tasks == map["t" := RUNNING] && s.byId.Keys == {"e0", "e1"}
  {
    s := Next(ENV, [EMPTY, s1], CLAIM);
    assert RecoverableIds(s1.tasks, "", 1) == {};
    assert "t" in DueIds(s1.tasks, "", 1);
    assert DueIds(s1.tasks, "", 1) == {"t"};
  }

  /** Every run goes on with any step whose reads lie in its past. */
  lemma Extend(env: Env, run: Run, step: Step) returns (longer: Run)
    requires IsRun(env, run) && ReadsThePast(step, |run.steps|)
    ensures IsRun(env, longer) && longer.steps == run.steps + [step]
    ensures longer.states == run.states + [Next(env, run.states, step)]
  {
    longer := Run(run.states + [Next(env, run.states, step)], run.steps + [step]);
    forall i | 0 <= i < |longer.steps|
      ensures ReadsThePast(longer.steps[i], i) && IsStep(env, longer, i)
    {
      if i < |run.steps| {
        assert IsStep(env, run, i) && longer.states[..i + 1] == run.states[..i + 1];
      } else {
        assert longer.states[..i + 1] == run.states;
      }
    }
  }

  lemma TwoStepsExist() returns (run: Run)
    ensures IsRun(ENV, run) && run.steps == [CREATE, CLAIM]
    ensures run.states[2].tasks == map["t" := RUNNING] && run.states[2].byId.Keys == {"e0", "e1"}
  {
    var s1 := AfterCreate();
    var s2 := AfterClaim(s1);
    run := Extend(ENV, Run([EMPTY], []), CREATE);
    run := Extend(ENV, run, CLAIM);
  }

  /** After creation and claim: two deliveries with the token of the claim. */
  ghost predicate TwoDeliveries(run: Run, first: WorkerCall, second: WorkerCall)
  {
    && IsRun(ENV, run) && run.steps == [CREATE, CLAIM, Act(first, 2, 2, 2, 2, 2, "e2"), Act(second, 3, 3, 3, 3, 3, "e3")]
    && run.states[2].tasks == map["t" := RUNNING] && run.states[2].byId.Keys == {"e0", "e1"}
  }

  lemma TwoDeliveriesExist(first: WorkerCall, second: WorkerCall) returns (run: Run)
    ensures TwoDeliveries(run, first, second)
  {
    run := TwoStepsExist();
    run := Extend(ENV, run, Act(first, 2, 2, 2, 2, 2, "e2"));
    run := Extend(ENV, run, Act(second, 3, 3, 3, 3, 3, "e3"));
  }

  /** The first delivery lands. */
  lemma FirstLands(run: Run, first: WorkerCall, second: WorkerCall)
    requires TwoDeliveries(run, first, second) && UsesToken(first) && WellFormed(first) && first.lease == LEASE
    ensures run.states[3] != run.states[2] && ReplyAt(ENV, run, 2).Ok? && PlanAt(ENV, run, 2).Write?
  {
    assert IssuedAt(run, 2, LEASE.token.value);
    assert Live(run, 2, LEASE, run.steps[2]);
    LiveCallActs(ENV, run, 2);
    ActSubmits(ENV, run, 2, PlanAt(ENV, run, 2));
  }

  /** Idempotent Fail does not hold for a failure that led to a retry: the first delivery succeeds and schedules the
      retry, the second, identical one is refused. */
  lemma RetriedFailIsRefused() returns (run: Run)
    ensures TwoDeliveries(run, FAIL, FAIL) && ReplyAt(ENV, run, 2).Ok? && run.states[3] != run.states[2]
    ensures !ReplyAt(ENV, run, 3).Ok? && run.states[4] == run.states[3]
  {
    run := TwoDeliveriesExist(FAIL, FAIL);
    assert TrimSpace("a") == "a" && TrimSpace("c") == "c" && TrimSpace("m") == "m";
    FirstLands(run, FAIL, FAIL);
    SameFailAgain(ENV, run, 2, 3);
  }

  /** And a different Fail can be taken for a replay of the first one, when that one's code spells its code and message. */
  lemma ForeignFailIsAccepted() returns (run: Run)
    ensures TwoDeliveries(run, ODD_FAIL, FAIL) && ReplyAt(ENV, run, 2).Ok? && run.states[3] != run.states[2]
    ensures ReplyAt(ENV, run, 3).Ok? && run.states[4] == run.states[3]
  {
    run := TwoDeliveriesExist(ODD_FAIL, FAIL);
    OddFailIsWellFormed();
    FirstLands(run, ODD_FAIL, FAIL);
    FailStored(run, ODD_FAIL, FAIL);
    FailAfterFail(ENV, run, 2, 3);
    assert "c" + ": " + "m" == "c: m";
  }

  /** What the first delivery of a Fail leaves. */
  lemma FailStored(run: Run, first: WorkerCall, second: WorkerCall)
    requires TwoDeliveries(run, first, second) && first.Fail? && WellFormed(first) && first.lease == LEASE
    ensures "t" in run.states[3].tasks && run.states[3].tasks["t"].version == 2
  {
    FirstLands(run, first, second);
    FailAnswer(ENV, run, 2);
  }

  lemma OddFailIsWellFormed()
    ensures WellFormed(ODD_FAIL)
  {
    assert TrimSpace("a") == "a" && TrimSpace("x") == "x";
    assert "c: m"[0] == 'c' && "c: m"[3] == 'm';
  }

  /** Idempotent Complete does not hold for a result that does not decode: a number out of range, say. */
  lemma UndecodableCompleteIsRefused() returns (run: Run)
    ensures TwoDeliveries(run, COMPLETE, COMPLETE) && ReplyAt(ENV, run, 2).Ok? && run.states[3] != run.states[2]
    ensures !ReplyAt(ENV, run, 3).Ok? && run.states[4] == run.states[3]
  {
    run := TwoDeliveriesExist(COMPLETE, COMPLETE);
    assert TrimSpace("a") == "a";
    FirstLands(run, COMPLETE, COMPLETE);
    SameCompleteAgain(ENV, run, 2, 3);
  }

  // ---- Expiries that move back ----

  lemma AfterRenew(history: seq<State>, renewal: Step) returns (s: State)
    requires |history| == 3 && history[2].tasks == map["t" := RUNNING]
    requires renewal.Renew? && renewal.renewal.taskId == "t" && renewal.renewal.workerId == "a"
    requires 0 < renewal.renewal.now < 11 && renewal.renewal.leaseDuration > 0
    ensures s == Next(ENV, history, renewal) && s.byId == history[2].byId
    ensures s.tasks == map["t" := RenewedTask(RUNNING, renewal.renewal.now, renewal.renewal.leaseDuration)]
  {
    s := Next(ENV, history, renewal);
  }

  /** A progress report computed before a renewal lands after it, and puts the older expiry back. */
  lemma ProgressMovesExpiryBack() returns (run: Run)
    ensures IsRun(ENV, run) && run.steps == [CREATE, CLAIM, RENEW, PROGRESS] && Lowers(run, 3, "t")
    ensures "t" in run.states[3].tasks && run.states[3].tasks["t"].leaseExpiresAt == Some(15)
    ensures "t" in run.states[4].tasks && run.states[4].tasks["t"].leaseExpiresAt == Some(11)
  {
    run := TwoStepsExist();
    var s3 := AfterRenew(run.states, RENEW);
    run := Extend(ENV, run, RENEW);
    run := Extend(ENV, run, PROGRESS);
    assert TrimSpace("a") == "a";
    ProgressExactly(ENV, run, 3);
  }

  /** A renewal for a short time brings the expiry forward as well. */
  lemma RenewalMovesExpiryBack() returns (run: Run)
    ensures IsRun(ENV, run) && run.steps == [CREATE, CLAIM, SHORT] && Lowers(run, 2, "t")
    ensures "t" in run.states[2].tasks && run.states[2].tasks["t"].leaseExpiresAt == Some(11)
    ensures "t" in run.states[3].tasks && run.states[3].tasks["t"].leaseExpiresAt == Some(6)
  {
    run := TwoStepsExist();
    var s3 := AfterRenew(run.states, SHORT);
    run := Extend(ENV, run, SHORT);
  }

  // ---- Colliding index keys ----

  const KEYED := Create("c", "a\0b", "{}", 1, "t", "e0", 1)
  const COLLIDING := Create("b\0c", "a", "{}", 1, "u", "e1", 1)

  lemma CollidingIsAccepted()
    ensures Accepted(KEYED) && Accepted(COLLIDING)
  {
    assert TrimSpace("c") == "c";
    assert "b\0c"[0] == 'b' && "b\0c"[2] == 'c';
    assert Utf8Length("b\0c") == 3 by {
      assert "b\0c"[1..] == "\0c" && "\0c"[1..] == "c" && "c"[1..] == "";
    }
    assert Utf8Length("c") == 1 by {
      assert "c"[1..] == "";
    }
  }

  lemma AfterKeyed() returns (run: Run)
    ensures IsRun(ENV, run) && run.steps == [KEYED]
    ensures "t" in run.states[1].tasks && run.states[1].tasks.Keys == {"t"}
    ensures run.states[1].tasks["t"].workflow == "a\0b" && run.states[1].tasks["t"].idempotencyKey == "c"
  {
    CollidingIsAccepted();
    run := Extend(ENV, Run([EMPTY], []), KEYED);
    assert run.states[1] == CreateTask(ENV, EMPTY, KEYED).state;
  }

  /** With a NUL in a workflow and in a key, a request whose own pair and ids are new is refused. */
  lemma CollidingCreateIsRefused() returns (run: Run)
    ensures IsRun(ENV, run) && run.steps == [KEYED, COLLIDING] && PairIsNew(run.states[1], COLLIDING)
    ensures COLLIDING.taskId !in run.states[1].tasks
    ensures CreateTask(ENV, run.states[1], COLLIDING).reply == Err(IdempotencyConflict) && run.states[2] == run.states[1]
  {
    run := AfterKeyed();
    CollidingIsAccepted();
    IndexKeyCollision();
    assert CollidesWith(run.states[1].tasks["t"], COLLIDING);
    CreateMakesTask(ENV, run, 1, COLLIDING);
    run := Extend(ENV, run, COLLIDING);
  }
}
