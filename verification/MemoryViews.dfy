/** The read-only views computed over the in-memory task store, whatever the order its map is walked in. */
module MemoryViews {
  import opened Basics
  import opened Domain
  import opened Selection
  import opened Paging
  import opened Stats
  import opened Worker
  import opened MemoryTasks

  /** `sorted` with `x` in its place, newest first. */
  function InsertItem(sorted: seq<Item>, x: Item): seq<Item>
  {
    if sorted == [] || Newer(x, sorted[0]) then [x] + sorted
    else [sorted[0]] + InsertItem(sorted[1..], x)
  }

  lemma {:induction false} InsertItemKeepsOrder(sorted: seq<Item>, x: Item)
    requires NewestFirst(sorted) && forall n :: 0 <= n < |sorted| ==> sorted[n].id != x.id
    ensures NewestFirst(InsertItem(sorted, x))
    ensures forall y :: y in InsertItem(sorted, x) <==> y == x || y in sorted
  {
    if sorted == [] {
    } else if Newer(x, sorted[0]) {
      forall n | 0 <= n < |sorted| ensures Newer(x, sorted[n]) {
        NewerOrder(x, sorted[0], sorted[n]);
      }
    } else {
      RankTotal(Place(x.createdAt, x.id), Place(sorted[0].createdAt, sorted[0].id));
      var rest := InsertItem(sorted[1..], x);
      InsertItemKeepsOrder(sorted[1..], x);
      forall n | 0 <= n < |rest| ensures Newer(sorted[0], rest[n]) {
        assert rest[n] in rest;
      }
      assert forall y :: y in sorted <==> y == sorted[0] || y in sorted[1..];
    }
  }

  /** The sort of the collected items. */
  method SortNewestFirst(items: seq<Item>) returns (sorted: seq<Item>)
    requires forall m, n :: 0 <= m < n < |items| ==> items[m].id != items[n].id
    ensures NewestFirst(sorted) && forall y :: y in sorted <==> y in items
  {
    sorted := [];
    for n := 0 to |items|
      invariant NewestFirst(sorted) && forall y :: y in sorted <==> y in items[..n]
    {
      forall k | 0 <= k < |sorted| ensures sorted[k].id != items[n].id {
        assert sorted[k] in items[..n];
      }
      InsertItemKeepsOrder(sorted, items[n]);
      sorted := InsertItem(sorted, items[n]);
      assert items[..n + 1] == items[..n] + [items[n]];
    }
    assert items[..|items|] == items;
  }

  /** `items` holds one item for each task of `ids`. */
  ghost predicate Collects(tasks: Tasks, ids: set<string>, items: seq<Item>)
    requires ids <= tasks.Keys
  {
    && (forall n :: 0 <= n < |items| ==> items[n].id in ids && items[n] == ItemOf(tasks[items[n].id]))
    && (forall id :: id in ids ==> ItemOf(tasks[id]) in items)
    && (forall m, n :: 0 <= m < n < |items| ==> items[m].id != items[n].id)
  }

  lemma CollectOne(tasks: Tasks, ids: set<string>, items: seq<Item>, id: string)
    requires ids <= tasks.Keys && Collects(tasks, ids, items) && id in tasks && id !in ids && tasks[id].id == id
    ensures Collects(tasks, ids + {id}, items + [ItemOf(tasks[id])])
  {
    var more := items + [ItemOf(tasks[id])];
    assert more[|items|] == ItemOf(tasks[id]);
    assert forall y :: y in items ==> y in more;
  }

  /** The filter loop. */
  method CollectItems(store: MemoryTaskStore, q: Query, cursor: Option<Cursor>) returns (items: seq<Item>)
    requires store.Valid()
    ensures Collects(store.Tasks(), SelectedIds(store.Tasks(), q, cursor), items)
  {
    ghost var all := store.Tasks();
    ghost var wanted := SelectedIds(all, q, cursor);
    items := [];
    var rest := store.tasks.Keys;
    while rest != {}
      invariant rest <= store.tasks.Keys
      invariant Collects(all, wanted - rest, items)
      decreases |rest|
    {
      var i :| i in rest;
      CardMinusOne(rest, i);
      var task := store.tasks[i];
      assert task.record == all[i] && task.record.id == i;
      ghost var before := wanted - rest;
      rest := rest - {i};
      if (q.workflow != "" && task.record.workflow != q.workflow)
         || (q.status.Some? && task.record.status != q.status.value)
         || !BeforeCursor(task.record.createdAt, task.record.id, cursor) {
        assert i !in wanted && wanted - rest == before;
      } else {
        assert i in wanted && wanted - rest == before + {i};
        CollectOne(all, before, items, i);
        items := items + [ItemOf(task.record)];
      }
    }
    assert wanted - {} == wanted;
  }

  /** MemoryTaskStore.ListTasks: filter in any order, sort newest first, cut at the limit. */
  method ListTasks(store: MemoryTaskStore, q: Query, cursor: Option<Cursor>, limit: int) returns (r: Result<seq<Item>>)
    requires store.Valid()
    ensures r == StoreList(store.Tasks(), q, cursor, limit)
  {
    if limit <= 0 || limit > 101 {
      return Err(InvalidTaskQuery);
    }
    if cursor.Some? && cursor.value.id == "" {
      return Err(InvalidTaskQuery);
    }
    var items := CollectItems(store, q, cursor);
    var sorted := SortNewestFirst(items);
    SortedIsListing(store.Tasks(), SelectedIds(store.Tasks(), q, cursor), items, sorted);
    return Ok(if |sorted| > limit then sorted[..limit] else sorted);
  }

  /** TaskService.ListTasks: asks for one item more than the page holds, to know whether there is more.
      The store cannot refuse a query this method lets through. */
  method ListPage(store: MemoryTaskStore, q: Query, cursor: Option<Cursor>, limit: int) returns (r: Result<Page>)
    requires store.Valid()
    ensures r == Paging.ListTasks(store.Tasks(), q, cursor, limit)
  {
    var size := limit;
    if size == 0 {
      size := 50;
    }
    if TrimSpace(q.workflow) != q.workflow || size < 1 || size > 100
       || (cursor.Some? && (cursor.value.id == "" || cursor.value.createdAt == ZERO_TIME)) {
      return Err(InvalidInput);
    }
    var found := ListTasks(store, q, cursor, size + 1);
    var items := found.value;
    var hasMore := |items| > size;
    if hasMore {
      items := items[..size];
      var last := items[|items| - 1];
      return Ok(Page(items, Some(Cursor(last.createdAt, last.id)), true));
    }
    return Ok(Page(items, None, false));
  }

  lemma SortedIsListing(tasks: Tasks, ids: set<string>, items: seq<Item>, sorted: seq<Item>)
    requires KeysAreIds(tasks) && ids <= tasks.Keys && Collects(tasks, ids, items)
    requires NewestFirst(sorted) && forall y :: y in sorted <==> y in items
    ensures sorted == Listing(tasks, ids)
  {
    forall n | 0 <= n < |sorted| ensures sorted[n].id in ids && sorted[n] == ItemOf(tasks[sorted[n].id]) {
      assert sorted[n] in items;
    }
    ListingUnique(tasks, ids, sorted);
  }

  /** What the statistics loop does with one task. */
  method TallyTask(snapshot: Snapshot, t: Task, q: Query, now: Time) returns (s: Snapshot)
    ensures s == Tally(snapshot, t, q, now)
  {
    s := snapshot;
    if q.workflow != "" && t.workflow != q.workflow {
      return;
    }
    if q.status.Some? && t.status != q.status.value {
      return;
    }
    s := s.(statusCounts := s.statusCounts[t.status := CountIn(s.statusCounts, t.status) + 1]);
    if (t.status.Queued? || t.status.Retrying?) && t.availableAt <= now {
      s := s.(availableCounts := s.availableCounts[t.status := CountIn(s.availableCounts, t.status) + 1]);
      var age := now - t.availableAt;
      if t.status !in s.oldestAvailableAge || age > s.oldestAvailableAge[t.status] {
        s := s.(oldestAvailableAge := s.oldestAvailableAge[t.status := age]);
      }
    }
  }

  /** SnapshotFilteredTaskStats: one pass in any order. */
  method SnapshotTaskStats(store: MemoryTaskStore, q: Query, now: Time) returns (s: Snapshot)
    requires store.Valid()
    ensures IsSnapshot(store.Tasks(), store.Tasks().Keys, q, now, s)
  {
    ghost var all := store.Tasks();
    s := EMPTY_SNAPSHOT;
    var rest := store.tasks.Keys;
    ghost var seen: set<string> := {};
    while rest != {}
      invariant rest <= store.tasks.Keys && seen == store.tasks.Keys - rest && all.Keys == store.tasks.Keys
      invariant IsSnapshot(all, seen, q, now, s)
      decreases |rest|
    {
      var i :| i in rest;
      CardMinusOne(rest, i);
      forall status ensures Counts(all, seen + {i}, q, now, Tally(s, all[i], q, now), status) {
        TallyCounts(all, seen, q, now, s, i, status);
      }
      s := TallyTask(s, store.tasks[i].record, q, now);
      rest := rest - {i};
      seen := seen + {i};
    }
    assert seen == store.Tasks().Keys && all == store.Tasks();
  }
}
