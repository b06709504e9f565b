/** The secondary indexes: idempotency keys and the two views of the events, over every run. */
module Indexes {
  import opened Basics
  import opened Domain
  import opened EventLog
  import opened Store
  import opened Worker
  import opened Plans
  import opened Runs
  import opened Guarantees

  // ---- The two event indexes ----

  type ById = map<string, Event>
  type ByTask = map<string, seq<Event>>

  /** Both indexes hold the same events: ids are unique, and each event is once in its own task's list. */
  ghost predicate EventsAgree(byId: ById, log: ByTask)
  {
    && (forall e :: e in byId ==> byId[e].id == e && byId[e].taskId in log && byId[e] in log[byId[e].taskId])
    && (forall id, n :: id in log && 0 <= n < |log[id]| ==> Indexed(byId, id, log[id][n]))
    && (forall id, m, n :: id in log && 0 <= m < n < |log[id]| ==> log[id][m].id != log[id][n].id)
  }

  predicate Indexed(byId: ById, id: string, e: Event)
  {
    e.taskId == id && e.id in byId && byId[e.id] == e
  }

  /** Appending an event with a new id to both indexes keeps them in agreement. */
  lemma AppendKeepsAgreement(byId: ById, log: ByTask, e: Event, old': seq<Event>)
    requires EventsAgree(byId, log) && e.id !in byId && old' == (if e.taskId in log then log[e.taskId] else [])
    ensures EventsAgree(byId[e.id := e], log[e.taskId := old' + [e]])
  {
    var byId', log' := byId[e.id := e], log[e.taskId := old' + [e]];
    forall id, n | id in log' && 0 <= n < |log'[id]| ensures Indexed(byId', id, log'[id][n]) {
      if !(id == e.taskId && n == |old'|) {
        assert log'[id][n] == log[id][n] && Indexed(byId, id, log[id][n]);
      }
    }
    forall id, m, n | id in log' && 0 <= m < n < |log'[id]| ensures log'[id][m].id != log'[id][n].id {
      assert log'[id][m] == log[id][m] && Indexed(byId, id, log[id][m]);
      if !(id == e.taskId && n == |old'|) {
        assert log'[id][n] == log[id][n];
      }
    }
    forall x | x in byId' ensures byId'[x].id == x && byId'[x].taskId in log' && byId'[x] in log'[byId'[x].taskId] {
      if x == e.id {
        assert log'[e.taskId][|old'|] == e;
      } else {
        var id := byId[x].taskId;
        var n :| 0 <= n < |log[id]| && log[id][n] == byId[x];
        assert log'[id][n] == byId[x];
      }
    }
  }

  /** The event indexes agree after every step of every run. */
  lemma {:induction false} EventIndexes(env: Env, run: Run, i: nat)
    requires IsRun(env, run) && i < |run.states|
    ensures EventsAgree(run.states[i].byId, run.states[i].log)
  {
    if i > 0 {
      EventIndexes(env, run, i - 1);
      var eff := EffectAt(env, run, i - 1);
      var s := run.states[i - 1];
      if eff.Change? || eff.Birth? {
        AppendKeepsAgreement(s.byId, s.log, eff.event, LogOf(s, eff.event.taskId));
      }
    }
  }

  // ---- Idempotent creation ----

  predicate NulFree(s: string)
  {
    forall n :: 0 <= n < |s| ==> s[n] != '\0'
  }

  /** The second pair cuts the same joined text at a later NUL than the first. */
  ghost predicate CutsLater(w1: string, k1: string, w2: string, k2: string)
  {
    exists x: string :: w2 == w1 + "\0" + x && k1 == x + "\0" + k2
  }

  /** Two different pairs with the same joined key. */
  ghost predicate Collide(w1: string, k1: string, w2: string, k2: string)
  {
    CutsLater(w1, k1, w2, k2) || CutsLater(w2, k2, w1, k1)
  }

  lemma JoinedEarlier(w1: string, k1: string, w2: string, k2: string)
    requires |w1| < |w2| && IndexKey(w1, k1) == IndexKey(w2, k2)
    ensures CutsLater(w1, k1, w2, k2)
  {
    var joined := IndexKey(w1, k1);
    var x := w2[|w1| + 1..];
    assert joined[|w1|] == '\0' && joined[|w2|] == '\0';
    assert joined[..|w2|] == w2 && joined[..|w1|] == w1;
    assert w2[..|w1|] == w1 && w2[|w1|] == '\0';
    assert w2 == w1 + "\0" + x;
    assert k1 == joined[|w1| + 1..] && k2 == joined[|w2| + 1..];
    assert k1 == joined[|w1| + 1..|w2|] + "\0" + joined[|w2| + 1..];
    assert joined[|w1| + 1..|w2|] == x;
  }

  lemma CutsLaterJoins(w1: string, k1: string, w2: string, k2: string)
    requires CutsLater(w1, k1, w2, k2)
    ensures IndexKey(w1, k1) == IndexKey(w2, k2) && |w1| < |w2| && !NulFree(w2) && !NulFree(k1)
  {
    var x: string :| w2 == w1 + "\0" + x && k1 == x + "\0" + k2;
    assert w2[|w1|] == '\0' && k1[|x|] == '\0';
    assert IndexKey(w1, k1) == w1 + "\0" + x + "\0" + k2;
  }

  lemma SameLengthJoined(w1: string, k1: string, w2: string, k2: string)
    requires |w1| == |w2| && IndexKey(w1, k1) == IndexKey(w2, k2)
    ensures w1 == w2 && k1 == k2
  {
    var joined := IndexKey(w1, k1);
    assert w1 == joined[..|w1|] == w2;
    assert k1 == joined[|w1| + 1..] == k2;
  }

  /** Exactly when two pairs share an index key: they are equal, or one cuts the same text at a later NUL. */
  lemma IndexKeyExactly(w1: string, k1: string, w2: string, k2: string)
    ensures IndexKey(w1, k1) == IndexKey(w2, k2) <==> (w1 == w2 && k1 == k2) || Collide(w1, k1, w2, k2)
    ensures Collide(w1, k1, w2, k2) ==> w1 != w2
  {
    if IndexKey(w1, k1) == IndexKey(w2, k2) {
      if |w1| < |w2| {
        JoinedEarlier(w1, k1, w2, k2);
      } else if |w2| < |w1| {
        JoinedEarlier(w2, k2, w1, k1);
      } else {
        SameLengthJoined(w1, k1, w2, k2);
      }
    }
    if CutsLater(w1, k1, w2, k2) {
      CutsLaterJoins(w1, k1, w2, k2);
    }
    if CutsLater(w2, k2, w1, k1) {
      CutsLaterJoins(w2, k2, w1, k1);
    }
  }

  /** So the joined key is injective as soon as the workflows have no NUL, or the keys have none. */
  lemma IndexKeyInjective(w1: string, k1: string, w2: string, k2: string)
    requires (NulFree(w1) && NulFree(w2)) || (NulFree(k1) && NulFree(k2))
    requires IndexKey(w1, k1) == IndexKey(w2, k2)
    ensures w1 == w2 && k1 == k2
  {
    IndexKeyExactly(w1, k1, w2, k2);
    if CutsLater(w1, k1, w2, k2) {
      CutsLaterJoins(w1, k1, w2, k2);
    } else if CutsLater(w2, k2, w1, k1) {
      CutsLaterJoins(w2, k2, w1, k1);
    }
  }

  /** One such pair of pairs. */
  lemma IndexKeyCollision()
    ensures Collide("a\0b", "c", "a", "b\0c") && IndexKey("a\0b", "c") == IndexKey("a", "b\0c")
  {
    assert "a\0b" == "a" + "\0" + "b" && "b\0c" == "b" + "\0" + "c";
    assert CutsLater("a", "b\0c", "a\0b", "c");
  }

  /** Being the same creation request is an equivalence relation. */
  lemma SameRequestEquivalence(decode: Decoder, a: Task, b: Task, c: Task)
    ensures SameTaskCreationRequest(decode, a, a)
    ensures SameTaskCreationRequest(decode, a, b) ==> SameTaskCreationRequest(decode, b, a)
    ensures SameTaskCreationRequest(decode, a, b) && SameTaskCreationRequest(decode, b, c)
            ==> SameTaskCreationRequest(decode, a, c)
  {
  }

  /** The index holds exactly the tasks created with a key, each under its own joined key. */
  ghost predicate KeysAgree(s: State)
  {
    && (forall k :: k in s.index ==> s.index[k] in s.tasks && Keyed(s.tasks[s.index[k]], k))
    && (forall id :: id in s.tasks && s.tasks[id].idempotencyKey != "" ==>
          KeyOf(s.tasks[id]) in s.index && s.index[KeyOf(s.tasks[id])] == id)
  }

  function KeyOf(t: Task): string
  {
    IndexKey(t.workflow, t.idempotencyKey)
  }

  predicate Keyed(t: Task, k: string)
  {
    t.idempotencyKey != "" && KeyOf(t) == k
  }

  /** Replacing a record by one with the same identity keeps the index right. */
  lemma SameIdentityKeepsKeys(s: State, s': State, t: Task)
    requires KeysAgree(s) && t.id in s.tasks && IdentityOf(t) == IdentityOf(s.tasks[t.id])
    requires s'.tasks == s.tasks[t.id := t] && s'.index == s.index
    ensures KeysAgree(s')
  {
    forall k | k in s'.index ensures s'.index[k] in s'.tasks && Keyed(s'.tasks[s'.index[k]], k) {
      assert Keyed(s.tasks[s.index[k]], k);
    }
  }

  lemma BirthKeepsKeys(s: State, s': State, t: Task)
    requires KeysAgree(s) && t.id !in s.tasks && s'.tasks == s.tasks[t.id := t]
    requires t.idempotencyKey != "" ==> KeyOf(t) !in s.index
    requires s'.index == if t.idempotencyKey != "" then s.index[KeyOf(t) := t.id] else s.index
    ensures KeysAgree(s')
  {
    forall k | k in s'.index ensures s'.index[k] in s'.tasks && Keyed(s'.tasks[s'.index[k]], k) {
      assert k in s.index ==> Keyed(s.tasks[s.index[k]], k);
    }
  }

  /** The idempotency index agrees with the task map after every step of every run. */
  lemma {:induction false} KeyIndex(env: Env, run: Run, i: nat)
    requires IsRun(env, run) && i < |run.states|
    ensures KeysAgree(run.states[i])
  {
    if i > 0 {
      KeyIndex(env, run, i - 1);
      var s, s' := run.states[i - 1], run.states[i];
      var eff := WriteIsCurrent(env, run, i - 1);
      match eff
      case Nothing =>
      case Renewal(t) => SameIdentityKeepsKeys(s, s', t);
      case Change(copy, next, _) =>
        assert IdentityOf(next) == IdentityOf(copy) == IdentityOf(s.tasks[next.id]);
        SameIdentityKeepsKeys(s, s', next);
      case Birth(t, _) => BirthKeepsKeys(s, s', t);
    }
  }

  /** At most one task, and so one created event, per workflow and key. */
  lemma OneTaskPerKey(env: Env, run: Run, i: nat, a: string, b: string)
    requires IsRun(env, run) && i < |run.states| && a in run.states[i].tasks && b in run.states[i].tasks
    requires run.states[i].tasks[a].idempotencyKey != ""
    requires run.states[i].tasks[a].idempotencyKey == run.states[i].tasks[b].idempotencyKey
    requires run.states[i].tasks[a].workflow == run.states[i].tasks[b].workflow
    ensures a == b && Count(LogOf(run.states[i], a), TaskCreated) == 1
  {
    KeyIndex(env, run, i);
    EventSourcing(env, run, i, a);
    CreatedOnce(LogOf(run.states[i], a));
  }

  /** The input a creation step stores. */
  function InputOf(step: Step): string
    requires step.Create?
  {
    if step.input == "" then "{}" else step.input
  }

  /** Equal texts, or texts that decode to equal values. */
  predicate SameInput(decode: Decoder, a: string, b: string)
  {
    a == b || (decode(a).Some? && decode(a) == decode(b))
  }

  predicate Accepted(step: Step)
    requires step.Create?
  {
    && step.workflow != "" && step.maxRetries >= 0 && step.taskId != "" && step.eventId != ""
    && (step.key == "" || (TrimSpace(step.key) == step.key && Utf8Length(step.key) <= 128))
  }

  /** A keyed request against a task that holds its pair: answered with that task if it asks for the same budget and the
      same input, refused otherwise, and in both cases nothing changes. */
  lemma CreateFindsTask(env: Env, run: Run, i: nat, step: Step, id: string)
    requires IsRun(env, run) && i < |run.states| && step.Create? && Accepted(step) && step.key != ""
    requires id in run.states[i].tasks
    requires run.states[i].tasks[id].workflow == step.workflow && run.states[i].tasks[id].idempotencyKey == step.key
    ensures CreateTask(env, run.states[i], step)
            == Outcome(run.states[i], if run.states[i].tasks[id].maxRetries == step.maxRetries
                                         && SameInput(env.decode, run.states[i].tasks[id].input, InputOf(step))
                                      then Ok(Creation(run.states[i].tasks[id], false)) else Err(IdempotencyConflict))
  {
    KeyIndex(env, run, i);
  }

  /** The task was created with a key, for another pair that shares its joined key with this request. */
  ghost predicate CollidesWith(t: Task, step: Step)
    requires step.Create?
  {
    t.idempotencyKey != "" && Collide(t.workflow, t.idempotencyKey, step.workflow, step.key)
  }

  /** Some stored task collides with this keyed request. */
  ghost predicate Blocked(s: State, step: Step)
    requires step.Create?
  {
    step.key != "" && exists id :: id in s.tasks && CollidesWith(s.tasks[id], step)
  }

  /** No stored task was created for the pair of this request. */
  predicate PairIsNew(s: State, step: Step)
    requires step.Create?
  {
    step.key != "" ==> forall id :: id in s.tasks ==> !(s.tasks[id].workflow == step.workflow && s.tasks[id].idempotencyKey == step.key)
  }

  lemma BlockedExactly(env: Env, run: Run, i: nat, step: Step)
    requires IsRun(env, run) && i < |run.states| && step.Create? && step.key != "" && PairIsNew(run.states[i], step)
    ensures Blocked(run.states[i], step) <==> IndexKey(step.workflow, step.key) in run.states[i].index
  {
    KeyIndex(env, run, i);
    var s, k := run.states[i], IndexKey(step.workflow, step.key);
    if k in s.index {
      var t := s.tasks[s.index[k]];
      IndexKeyExactly(t.workflow, t.idempotencyKey, step.workflow, step.key);
      assert CollidesWith(t, step);
    }
    if Blocked(s, step) {
      var id :| id in s.tasks && CollidesWith(s.tasks[id], step);
      IndexKeyExactly(s.tasks[id].workflow, s.tasks[id].idempotencyKey, step.workflow, step.key);
    }
  }

  /** A request whose pair no task holds creates its task exactly when it is acceptable, its task and event ids are new
      and no stored task collides with it; it is refused for its key exactly when one does. The task it creates is what
      was asked for: workflow, key, input and budget, queued and available from the request's own clock on. */
  lemma CreateMakesTask(env: Env, run: Run, i: nat, step: Step)
    requires IsRun(env, run) && i < |run.states| && step.Create? && PairIsNew(run.states[i], step)
    ensures var s, r := run.states[i], CreateTask(env, run.states[i], step);
            && (r.reply.Ok? <==> Accepted(step) && step.taskId !in s.tasks && step.eventId !in s.byId && !Blocked(s, step))
            && (r.reply.Ok? ==>
                  && step.taskId in r.state.tasks && r.reply.value == Creation(r.state.tasks[step.taskId], true)
                  && r.state.tasks[step.taskId]
                     == Task(step.taskId, step.key, step.workflow, Queued, if step.input == "" then "{}" else step.input, "", "",
                             0, 0, step.maxRetries, step.now, 0, "", None, None, step.now, step.now, None, None))
            && (r.reply == Err(IdempotencyConflict) <==> Accepted(step) && Blocked(s, step))
            && (r.reply.Err? ==> r.state == s)
  {
    KeyIndex(env, run, i);
    if step.key != "" {
      BlockedExactly(env, run, i, step);
    }
  }

  /** The task was created with the joined key of this request, for another request: another pair that joins to the
      same key, another budget or another input. */
  predicate HoldsKeyOf(env: Env, t: Task, step: Step)
    requires step.Create?
  {
    && Keyed(t, IndexKey(step.workflow, step.key))
    && !(t.workflow == step.workflow && t.idempotencyKey == step.key && t.maxRetries == step.maxRetries
         && SameInput(env.decode, t.input, InputOf(step)))
  }

  /** A request is refused for its key exactly when a stored task holds the same joined key for another request. */
  lemma ConflictExactly(env: Env, run: Run, i: nat, step: Step)
    requires IsRun(env, run) && i < |run.states| && step.Create? && Accepted(step)
    ensures CreateTask(env, run.states[i], step).reply == Err(IdempotencyConflict)
            <==> step.key != "" && exists id :: id in run.states[i].tasks && HoldsKeyOf(env, run.states[i].tasks[id], step)
  {
    KeyIndex(env, run, i);
    var s := run.states[i];
    var k := IndexKey(step.workflow, step.key);
    if step.key != "" && k in s.index {
      assert Keyed(s.tasks[s.index[k]], k);
    }
  }

  lemma CreatedAsRequested(env: Env, s: State, step: Step)
    requires step.Create? && CreateTask(env, s, step).reply.Ok? && CreateTask(env, s, step).reply.value.created
    ensures var s' := CreateTask(env, s, step).state;
            && step.taskId in s'.tasks
            && var t := s'.tasks[step.taskId];
               t.workflow == step.workflow && t.idempotencyKey == step.key && t.input == InputOf(step) && t.maxRetries == step.maxRetries
  {
  }

  lemma CreateStepIs(env: Env, run: Run, i: nat)
    requires IsRun(env, run) && i < |run.steps| && run.steps[i].Create?
    ensures run.states[i + 1] == CreateTask(env, run.states[i], run.steps[i]).state
  {
    StepIsNext(env, run, i);
  }

  /** Idempotent creation over a run: after a keyed creation, every later request for the same pair returns that
      very task if it asks for the same budget and the same input, is refused if it does not, and changes nothing. */
  lemma CreateAgain(env: Env, run: Run, k: nat, i: nat)
    requires IsRun(env, run) && k < i < |run.steps| && run.steps[k].Create? && run.steps[i].Create?
    requires Accepted(run.steps[i]) && run.steps[k].key == run.steps[i].key != ""
    requires run.steps[k].workflow == run.steps[i].workflow
    requires CreateTask(env, run.states[k], run.steps[k]).reply.Ok?
             && CreateTask(env, run.states[k], run.steps[k]).reply.value.created
    ensures run.states[i + 1] == run.states[i]
    ensures var first := run.steps[k].taskId;
            && first in run.states[i].tasks
            && CreateTask(env, run.states[i], run.steps[i]).reply
               == if run.steps[k].maxRetries == run.steps[i].maxRetries
                     && SameInput(env.decode, InputOf(run.steps[k]), InputOf(run.steps[i]))
                  then Ok(Creation(run.states[i].tasks[first], false)) else Err(IdempotencyConflict)
  {
    CreateStepIs(env, run, k);
    CreateStepIs(env, run, i);
    var id := run.steps[k].taskId;
    CreatedAsRequested(env, run.states[k], run.steps[k]);
    IdentityForever(env, run, k + 1, i, id);
    CreateFindsTask(env, run, i, run.steps[i], id);
  }
}
