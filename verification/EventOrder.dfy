/** The stable sort by time that listing a task's events applies. */
module EventOrder {
  import opened Basics
  import opened Domain
  import opened Store
  import opened Runs
  import opened Guarantees

  predicate InTimeOrder(s: seq<Event>)
  {
    forall m, n :: 0 <= m <= n < |s| ==> s[m].createdAt <= s[n].createdAt
  }

  /** The events of one instant, in order. */
  function AtTime(s: seq<Event>, t: Time): seq<Event>
  {
    if s == [] then []
    else AtTime(s[..|s| - 1], t) + if s[|s| - 1].createdAt == t then [s[|s| - 1]] else []
  }

  /** What a stable sort promises: time order, and the events of each instant as they were. */
  ghost predicate IsStableSort(s: seq<Event>, r: seq<Event>)
  {
    InTimeOrder(r) && forall t :: AtTime(r, t) == AtTime(s, t)
  }

  /** `r` with `e` after the last event that is not later than it. */
  function Insert(r: seq<Event>, e: Event): seq<Event>
  {
    if r == [] || r[|r| - 1].createdAt <= e.createdAt then r + [e]
    else Insert(r[..|r| - 1], e) + [r[|r| - 1]]
  }

  function StableSort(s: seq<Event>): seq<Event>
  {
    if s == [] then [] else Insert(StableSort(s[..|s| - 1]), s[|s| - 1])
  }

  lemma AtTimeSnoc(s: seq<Event>, e: Event, t: Time)
    ensures AtTime(s + [e], t) == AtTime(s, t) + if e.createdAt == t then [e] else []
  {
    assert (s + [e])[..|s|] == s;
  }

  lemma {:induction false} InsertBelow(r: seq<Event>, e: Event, bound: Time)
    requires e.createdAt <= bound && forall n :: 0 <= n < |r| ==> r[n].createdAt <= bound
    ensures |Insert(r, e)| == |r| + 1 && forall n :: 0 <= n <= |r| ==> Insert(r, e)[n].createdAt <= bound
  {
    if r != [] && r[|r| - 1].createdAt > e.createdAt {
      InsertBelow(r[..|r| - 1], e, bound);
    }
  }

  lemma {:induction false} InsertInOrder(r: seq<Event>, e: Event)
    requires InTimeOrder(r)
    ensures InTimeOrder(Insert(r, e)) && |Insert(r, e)| == |r| + 1
  {
    if r != [] && r[|r| - 1].createdAt > e.createdAt {
      InsertInOrder(r[..|r| - 1], e);
      InsertBelow(r[..|r| - 1], e, r[|r| - 1].createdAt);
    }
  }

  lemma {:induction false} InsertAtTime(r: seq<Event>, e: Event, t: Time)
    ensures AtTime(Insert(r, e), t) == AtTime(r, t) + if e.createdAt == t then [e] else []
  {
    if r == [] || r[|r| - 1].createdAt <= e.createdAt {
      AtTimeSnoc(r, e, t);
    } else {
      var init, last := r[..|r| - 1], r[|r| - 1];
      InsertAtTime(init, e, t);
      AtTimeSnoc(Insert(init, e), last, t);
    }
  }

  lemma {:induction false} StableSortIsStable(s: seq<Event>)
    ensures IsStableSort(s, StableSort(s)) && |StableSort(s)| == |s|
  {
    if s != [] {
      var init := s[..|s| - 1];
      StableSortIsStable(init);
      InsertInOrder(StableSort(init), s[|s| - 1]);
      forall t ensures AtTime(StableSort(s), t) == AtTime(s, t) {
        InsertAtTime(StableSort(init), s[|s| - 1], t);
      }
    }
  }

  lemma {:induction false} LastAtTime(s: seq<Event>, n: nat)
    requires n < |s|
    ensures AtTime(s, s[n].createdAt) != []
    ensures n == |s| - 1 ==> AtTime(s, s[n].createdAt)[|AtTime(s, s[n].createdAt)| - 1] == s[n]
  {
    if n < |s| - 1 {
      LastAtTime(s[..|s| - 1], n);
    }
  }

  lemma {:induction false} HasTime(s: seq<Event>, t: Time) returns (n: nat)
    requires AtTime(s, t) != []
    ensures n < |s| && s[n].createdAt == t
  {
    n := |s| - 1;
    if s[n].createdAt != t {
      n := HasTime(s[..|s| - 1], t);
    }
  }

  lemma SameLast(a: seq<Event>, b: seq<Event>)
    requires a != [] && InTimeOrder(a) && IsStableSort(a, b)
    ensures b != [] && a[|a| - 1] == b[|b| - 1]
  {
    LastAtTime(a, |a| - 1);
    var n := HasTime(b, a[|a| - 1].createdAt);
    LastAtTime(b, |b| - 1);
    var m := HasTime(a, b[|b| - 1].createdAt);
  }

  /** The promise of a stable sort leaves no choice, so any correct stable sort gives the same list. */
  lemma {:induction false} StableSortUnique(a: seq<Event>, b: seq<Event>)
    requires InTimeOrder(a) && IsStableSort(a, b)
    ensures a == b
    decreases |a|
  {
    if a != [] {
      SameLast(a, b);
      var a', b' := a[..|a| - 1], b[..|b| - 1];
      forall t ensures AtTime(b', t) == AtTime(a', t) {
        var both := AtTime(a, t);
        var k := |both| - if a[|a| - 1].createdAt == t then 1 else 0;
        assert both == AtTime(b, t) && AtTime(a', t) == both[..k] && AtTime(b', t) == both[..k];
      }
      StableSortUnique(a', b');
      assert a == a' + [a[|a| - 1]] && b == b' + [b[|b| - 1]];
    } else if b != [] {
      LastAtTime(b, |b| - 1);
    }
  }

  /** Listing returns the append order exactly when that order is already the time order. */
  lemma {:induction false} SortedIsAppendOrder(s: seq<Event>)
    ensures StableSort(s) == s <==> InTimeOrder(s)
  {
    StableSortIsStable(s);
    if InTimeOrder(s) {
      StableSortUnique(s, StableSort(s));
    }
  }

  /** So with step times that do not go back, listing a task's events gives them in append order in every run. */
  lemma ListingIsAppendOrder(env: Env, run: Run, i: nat, id: string)
    requires IsRun(env, run) && i < |run.states|
    requires forall a, b :: 0 <= a <= b < |run.steps| ==> StepTime(run.steps[a]) <= StepTime(run.steps[b])
    ensures StableSort(LogOf(run.states[i], id)) == LogOf(run.states[i], id)
  {
    LogInTimeOrder(env, run, i, id);
    SortedIsAppendOrder(LogOf(run.states[i], id));
  }
}
