/** Task lists, newest first, in pages that follow a cursor. */
module Paging {
  import opened Basics
  import opened Domain
  import opened Selection
  import opened Worker
  import opened Plans
  import opened Runs
  import opened Guarantees

  datatype Item = Item(
    id: string, workflow: string, status: Status, errorMessage: string, progress: int, retryCount: int, maxRetries: int,
    leaseOwner: string, leaseExpiresAt: Option<Time>, createdAt: Time, updatedAt: Time)

  function ItemOf(t: Task): Item
  {
    Item(t.id, t.workflow, t.status, t.errorMessage, t.progress, t.retryCount, t.maxRetries, t.leaseOwner,
         t.leaseExpiresAt, t.createdAt, t.updatedAt)
  }

  datatype Query = Query(workflow: string, status: Option<Status>)

  /** A place in the list: after the task with this creation time and id. */
  datatype Cursor = Cursor(createdAt: Time, id: string)

  predicate Matches(t: Task, q: Query)
  {
    InWorkflow(t, q.workflow) && (q.status.None? || t.status == q.status.value)
  }

  function Place(createdAt: Time, id: string): Rank
  {
    Rank(createdAt, 0, id)
  }

  predicate BeforeCursor(createdAt: Time, id: string, cursor: Option<Cursor>)
  {
    cursor.None? || createdAt < cursor.value.createdAt
    || (createdAt == cursor.value.createdAt && StrLess(id, cursor.value.id))
  }

  function SelectedIds(tasks: Tasks, q: Query, cursor: Option<Cursor>): set<string>
  {
    set id | id in tasks && Matches(tasks[id], q) && BeforeCursor(tasks[id].createdAt, id, cursor)
  }

  predicate Newer(a: Item, b: Item)
  {
    RankLess(Place(b.createdAt, b.id), Place(a.createdAt, a.id))
  }

  predicate NewestFirst(items: seq<Item>)
  {
    forall m, n :: 0 <= m < n < |items| ==> Newer(items[m], items[n])
  }

  ghost predicate KeysAreIds(tasks: Tasks)
  {
    forall id :: id in tasks ==> tasks[id].id == id
  }

  /** `items` lists exactly the tasks `ids`, newest first. */
  ghost predicate IsListing(tasks: Tasks, ids: set<string>, items: seq<Item>)
    requires ids <= tasks.Keys
  {
    && NewestFirst(items)
    && (forall n :: 0 <= n < |items| ==> items[n].id in ids && items[n] == ItemOf(tasks[items[n].id]))
    && (forall id :: id in ids ==> ItemOf(tasks[id]) in items)
  }

  /** The list, built from its oldest task up. */
  ghost function Listing(tasks: Tasks, ids: set<string>): seq<Item>
    requires ids <= tasks.Keys
    decreases |ids|
  {
    if ids == {} then []
    else
      var oldest := First(ByCreation, tasks, ids);
      CardMinusOne(ids, oldest);
      Listing(tasks, ids - {oldest}) + [ItemOf(tasks[oldest])]
  }

  /** Adding the oldest task at the end of the list of the others. */
  lemma AddOldest(tasks: Tasks, ids: set<string>, oldest: string, items: seq<Item>)
    requires KeysAreIds(tasks) && ids <= tasks.Keys && IsFirst(ByCreation, tasks, ids, oldest)
    requires IsListing(tasks, ids - {oldest}, items)
    ensures IsListing(tasks, ids, items + [ItemOf(tasks[oldest])])
  {
    var all := items + [ItemOf(tasks[oldest])];
    forall n | 0 <= n < |items| ensures Newer(items[n], ItemOf(tasks[oldest])) {
      assert Before(ByCreation, tasks, oldest, items[n].id);
    }
    forall id | id in ids ensures ItemOf(tasks[id]) in all {
      if id == oldest {
        assert all[|items|] == ItemOf(tasks[id]);
      } else {
        assert ItemOf(tasks[id]) in items;
      }
    }
  }

  lemma {:induction false} ListingLists(tasks: Tasks, ids: set<string>)
    requires KeysAreIds(tasks) && ids <= tasks.Keys
    ensures IsListing(tasks, ids, Listing(tasks, ids)) && |Listing(tasks, ids)| == |ids|
    decreases |ids|
  {
    if ids != {} {
      var oldest := First(ByCreation, tasks, ids);
      CardMinusOne(ids, oldest);
      ListingLists(tasks, ids - {oldest});
      AddOldest(tasks, ids, oldest, Listing(tasks, ids - {oldest}));
    }
  }

  lemma NewerOrder(a: Item, b: Item, c: Item)
    ensures Newer(a, b) ==> !Newer(b, a) && a != b
    ensures Newer(a, b) && Newer(b, c) ==> Newer(a, c)
  {
    RankTotal(Place(a.createdAt, a.id), Place(b.createdAt, b.id));
    if Newer(a, b) && Newer(b, c) {
      RankTransitive(Place(c.createdAt, c.id), Place(b.createdAt, b.id), Place(a.createdAt, a.id));
    }
  }

  /** A newest-first list is determined by its elements. */
  lemma {:induction false} NewestFirstUnique(a: seq<Item>, b: seq<Item>)
    requires NewestFirst(a) && NewestFirst(b) && forall x :: x in a <==> x in b
    ensures a == b
    decreases |a|
  {
    if b != [] {
      assert b[0] in b;
    }
    if a != [] {
      assert a[0] in a && a[0] in b;
      assert b[0] in b && b[0] in a;
      NewerOrder(a[0], b[0], a[0]);
      assert a[0] == b[0];
      forall x ensures x in a[1..] <==> x in b[1..] {
        NotInRest(a);
        NotInRest(b);
        assert x in a <==> x == a[0] || x in a[1..];
        assert x in b <==> x == b[0] || x in b[1..];
      }
      NewestFirstUnique(a[1..], b[1..]);
    }
  }

  lemma NotInRest(a: seq<Item>)
    requires NewestFirst(a) && a != []
    ensures a[0] !in a[1..]
  {
    if a[0] in a[1..] {
      var n :| 0 < n < |a| && a[n] == a[0];
      NewerOrder(a[0], a[n], a[0]);
    }
  }

  lemma ListingUnique(tasks: Tasks, ids: set<string>, items: seq<Item>)
    requires KeysAreIds(tasks) && ids <= tasks.Keys && IsListing(tasks, ids, items)
    ensures items == Listing(tasks, ids)
  {
    ListingLists(tasks, ids);
    var spec := Listing(tasks, ids);
    forall x ensures x in items <==> x in spec {
      if x in items {
        var n :| 0 <= n < |items| && items[n] == x;
      }
      if x in spec {
        var n :| 0 <= n < |spec| && spec[n] == x;
      }
    }
    NewestFirstUnique(items, spec);
  }

  // ---- Pages ----

  datatype Page = Page(items: seq<Item>, next: Option<Cursor>, hasMore: bool)

  /** MemoryTaskStore.ListTasks. */
  ghost function StoreList(tasks: Tasks, q: Query, cursor: Option<Cursor>, limit: int): Result<seq<Item>>
  {
    if limit <= 0 || limit > 101 || (cursor.Some? && cursor.value.id == "") then Err(InvalidTaskQuery)
    else
      var all := Listing(tasks, SelectedIds(tasks, q, cursor));
      Ok(if |all| > limit then all[..limit] else all)
  }

  /** The page made of the items found when one more than its size was asked for. */
  function MakePage(items: seq<Item>, size: int): Page
    requires size >= 1
  {
    if |items| > size then Page(items[..size], Some(Cursor(items[size - 1].createdAt, items[size - 1].id)), true)
    else Page(items, None, false)
  }

  function PageSize(limit: int): int
  {
    if limit == 0 then 50 else limit
  }

  /** TaskService.ListTasks. */
  ghost function ListTasks(tasks: Tasks, q: Query, cursor: Option<Cursor>, limit: int): Result<Page>
  {
    var size := PageSize(limit);
    if TrimSpace(q.workflow) != q.workflow || size < 1 || size > 100
       || (cursor.Some? && (cursor.value.id == "" || cursor.value.createdAt == ZERO_TIME))
    then Err(InvalidInput)
    else
      match StoreList(tasks, q, cursor, size + 1)
      case Err(e) => Err(e)
      case Ok(items) => Ok(MakePage(items, size))
  }

  /** Tasks with real creation times, as NewTask and the clock make them: their cursors decode. */
  ghost predicate Datable(tasks: Tasks)
  {
    KeysAreIds(tasks) && forall id :: id in tasks ==> id != "" && tasks[id].createdAt != ZERO_TIME
  }

  predicate ValidQuery(q: Query, limit: int)
  {
    TrimSpace(q.workflow) == q.workflow && 0 <= limit <= 100
  }

  predicate ValidCursor(cursor: Option<Cursor>)
  {
    cursor.Some? ==> cursor.value.id != "" && cursor.value.createdAt != ZERO_TIME
  }

  /** What a page `p` over the tasks `ids` shows and leaves. */
  ghost predicate GoodPage(tasks: Tasks, ids: set<string>, p: Page)
    requires ids <= tasks.Keys
  {
    && NewestFirst(p.items)
    && (forall n :: 0 <= n < |p.items| ==> p.items[n].id in ids && p.items[n] == ItemOf(tasks[p.items[n].id]))
    && (p.hasMore <==> p.next.Some?)
    && (p.hasMore ==> p.items != [] && p.next == Some(Cursor(p.items[|p.items| - 1].createdAt, p.items[|p.items| - 1].id)))
    && (forall id :: id in ids ==>
          ItemOf(tasks[id]) in p.items || (p.hasMore && BeforeCursor(tasks[id].createdAt, id, p.next)))
  }

  /** Cutting a listing after `size` items makes a good page; if something is cut off, it is below the next cursor. */
  lemma CutIsGood(tasks: Tasks, ids: set<string>, all: seq<Item>, size: int)
    requires KeysAreIds(tasks) && ids <= tasks.Keys && IsListing(tasks, ids, all) && size >= 1
    ensures GoodPage(tasks, ids, MakePage(all, size))
  {
    var p := MakePage(all, size);
    forall id | id in ids ensures ItemOf(tasks[id]) in p.items || (p.hasMore && BeforeCursor(tasks[id].createdAt, id, p.next)) {
      CutOff(tasks, ids, all, size, id);
    }
  }

  lemma CutOff(tasks: Tasks, ids: set<string>, all: seq<Item>, size: int, id: string)
    requires KeysAreIds(tasks) && ids <= tasks.Keys && IsListing(tasks, ids, all) && size >= 1 && id in ids
    ensures var p := MakePage(all, size);
            ItemOf(tasks[id]) in p.items || (p.hasMore && BeforeCursor(tasks[id].createdAt, id, p.next))
  {
    var p := MakePage(all, size);
    var n :| 0 <= n < |all| && all[n] == ItemOf(tasks[id]);
    if n < |p.items| {
      assert p.items[n] == all[n];
    } else {
      assert all[n].id in ids && Newer(all[size - 1], all[n]);
    }
  }

  lemma ListTasksPages(tasks: Tasks, q: Query, cursor: Option<Cursor>, limit: int)
    requires ValidQuery(q, limit) && ValidCursor(cursor)
    ensures var r := ListTasks(tasks, q, cursor, limit);
            r == Ok(MakePage(Listing(tasks, SelectedIds(tasks, q, cursor)), PageSize(limit)))
  {
    var all := Listing(tasks, SelectedIds(tasks, q, cursor));
    var size := PageSize(limit);
    if |all| > size + 1 {
      assert all[..size + 1][..size] == all[..size];
    }
  }

  /** A page shows the newest matching tasks below its cursor, at most as many as asked for (50 unless said otherwise);
      everything not shown is below the next cursor; it says there is more exactly when some matching task is, and then
      it is full. */
  lemma PageFacts(tasks: Tasks, q: Query, cursor: Option<Cursor>, limit: int)
    requires Datable(tasks) && ValidQuery(q, limit) && ValidCursor(cursor)
    ensures ListTasks(tasks, q, cursor, limit).Ok?
    ensures var p := ListTasks(tasks, q, cursor, limit).value;
            var ids := SelectedIds(tasks, q, cursor);
            var size := if limit == 0 then 50 else limit;
            && GoodPage(tasks, ids, p) && ValidCursor(p.next)
            && (p.hasMore <==> exists id :: id in ids && ItemOf(tasks[id]) !in p.items)
            && |p.items| <= size && (p.hasMore ==> |p.items| == size)
  {
    var ids := SelectedIds(tasks, q, cursor);
    var all := Listing(tasks, ids);
    ListTasksPages(tasks, q, cursor, limit);
    ListingLists(tasks, ids);
    CutIsGood(tasks, ids, all, PageSize(limit));
    var p := MakePage(all, PageSize(limit));
    if p.hasMore {
      var left := all[|p.items|];
      assert left.id in ids && Newer(all[|p.items| - 1], left);
      NotShown(p.items, left);
    }
  }

  /** A page is refused exactly for a workflow with white space around it, a limit out of range, or a cursor that lacks an
      id or a time. */
  lemma PageExactly(tasks: Tasks, q: Query, cursor: Option<Cursor>, limit: int)
    ensures ListTasks(tasks, q, cursor, limit).Ok? <==>
              && TrimSpace(q.workflow) == q.workflow && 0 <= limit <= 100
              && (cursor.Some? ==> cursor.value.id != "" && cursor.value.createdAt != ZERO_TIME)
  {
    if ValidQuery(q, limit) && ValidCursor(cursor) {
      ListTasksPages(tasks, q, cursor, limit);
    }
  }

  /** An item on a page, from the fields: it shows its task as stored, which is of the workflow and the status asked for
      and below the cursor, and it comes before everything on the page that is older, or as old with a smaller id. */
  lemma ItemFacts(tasks: Tasks, q: Query, cursor: Option<Cursor>, limit: int, n: nat)
    requires Datable(tasks) && ValidQuery(q, limit) && ValidCursor(cursor)
    requires ListTasks(tasks, q, cursor, limit).Ok? && n < |ListTasks(tasks, q, cursor, limit).value.items|
    ensures var items := ListTasks(tasks, q, cursor, limit).value.items;
            && items[n].id in tasks
            && var x, t := items[n], tasks[items[n].id];
               && x == Item(t.id, t.workflow, t.status, t.errorMessage, t.progress, t.retryCount, t.maxRetries, t.leaseOwner,
                            t.leaseExpiresAt, t.createdAt, t.updatedAt)
               && (q.workflow == "" || t.workflow == q.workflow) && (q.status.Some? ==> t.status == q.status.value)
               && (cursor.Some? ==> t.createdAt < cursor.value.createdAt
                                    || (t.createdAt == cursor.value.createdAt && StrLess(t.id, cursor.value.id)))
    ensures var items := ListTasks(tasks, q, cursor, limit).value.items;
            forall m :: n < m < |items| ==> items[m].createdAt < items[n].createdAt
                                            || (items[m].createdAt == items[n].createdAt && StrLess(items[m].id, items[n].id))
  {
    PageFacts(tasks, q, cursor, limit);
    var items := ListTasks(tasks, q, cursor, limit).value.items;
    assert items[n].id in SelectedIds(tasks, q, cursor);
    assert forall m :: n < m < |items| ==> Newer(items[n], items[m]);
  }

  /** And nothing is passed over: a task of the workflow and status asked for, below the cursor, is on the page, or the
      page is full and the task is below its last item. */
  lemma NothingPassedOver(tasks: Tasks, q: Query, cursor: Option<Cursor>, limit: int, id: string)
    requires Datable(tasks) && ValidQuery(q, limit) && ValidCursor(cursor) && id in tasks
    requires (q.workflow == "" || tasks[id].workflow == q.workflow) && (q.status.Some? ==> tasks[id].status == q.status.value)
    requires cursor.Some? ==> tasks[id].createdAt < cursor.value.createdAt
                              || (tasks[id].createdAt == cursor.value.createdAt && StrLess(id, cursor.value.id))
    ensures ListTasks(tasks, q, cursor, limit).Ok?
    ensures var p := ListTasks(tasks, q, cursor, limit).value;
            || (exists n :: 0 <= n < |p.items| && p.items[n].id == id)
            || (p.hasMore && p.items != [] && p.next.Some?
                && var last := p.items[|p.items| - 1];
                   tasks[id].createdAt < last.createdAt || (tasks[id].createdAt == last.createdAt && StrLess(id, last.id)))
  {
    PageFacts(tasks, q, cursor, limit);
    assert id in SelectedIds(tasks, q, cursor);
    var p := ListTasks(tasks, q, cursor, limit).value;
    if ItemOf(tasks[id]) in p.items {
      var n :| 0 <= n < |p.items| && p.items[n] == ItemOf(tasks[id]);
    }
  }

  /** What lies below the last item of a list is not in it. */
  lemma NotShown(items: seq<Item>, x: Item)
    requires NewestFirst(items) && items != []
    requires BeforeCursor(x.createdAt, x.id, Some(Cursor(items[|items| - 1].createdAt, items[|items| - 1].id)))
    ensures x !in items
  {
    var last := items[|items| - 1];
    if x in items {
      var n :| 0 <= n < |items| && items[n] == x;
      NewerOrder(x, last, x);
      NewerOrder(last, x, last);
    }
  }

  /** Following next cursors: page `k` is asked for when the store shows `views[k]`. */
  datatype Traversal = Traversal(views: seq<Tasks>, pages: seq<Page>, q: Query, start: Option<Cursor>, limit: int)

  function CursorAt(t: Traversal, k: nat): Option<Cursor>
    requires k <= |t.pages|
  {
    if k == 0 then t.start else t.pages[k - 1].next
  }

  ghost predicate PageAt(t: Traversal, k: nat)
    requires k < |t.pages| == |t.views|
  {
    ListTasks(t.views[k], t.q, CursorAt(t, k), t.limit) == Ok(t.pages[k])
  }

  /** A finished traversal: every page but the last says there is more. */
  ghost predicate IsTraversal(t: Traversal)
  {
    && |t.pages| == |t.views| > 0 && ValidQuery(t.q, t.limit) && ValidCursor(t.start)
    && (forall k :: 0 <= k < |t.pages| ==> (t.pages[k].hasMore <==> k < |t.pages| - 1))
    && (forall k :: 0 <= k < |t.pages| ==> PageAt(t, k))
  }

  /** Matching tasks stay, keep matching and keep their place; new tasks may appear. With no status filter every run
      does this; with one, a store that stands still does. */
  ghost predicate OnlyGrows(views: seq<Tasks>, q: Query)
  {
    && (forall k :: 0 <= k < |views| ==> Datable(views[k]))
    && (forall j, k, id :: 0 <= j < k < |views| && id in views[j] && Matches(views[j][id], q) ==>
          id in views[k] && Matches(views[k][id], q) && views[k][id].createdAt == views[j][id].createdAt)
  }

  /** All items from page `k` on. */
  function Joined(pages: seq<Page>, k: nat): seq<Item>
    requires k <= |pages|
    decreases |pages| - k
  {
    if k == |pages| then [] else pages[k].items + Joined(pages, k + 1)
  }

  lemma {:induction false} PageAtFacts(t: Traversal, k: nat)
    requires IsTraversal(t) && OnlyGrows(t.views, t.q) && k < |t.pages|
    ensures ValidCursor(CursorAt(t, k)) && GoodPage(t.views[k], SelectedIds(t.views[k], t.q, CursorAt(t, k)), t.pages[k])
    decreases k
  {
    if k > 0 {
      PageAtFacts(t, k - 1);
      assert PageAt(t, k - 1);
      PageFacts(t.views[k - 1], t.q, CursorAt(t, k - 1), t.limit);
    }
    assert PageAt(t, k);
    PageFacts(t.views[k], t.q, CursorAt(t, k), t.limit);
  }

  /** All items below a cursor. */
  predicate AllBelow(items: seq<Item>, cursor: Option<Cursor>)
  {
    forall n :: 0 <= n < |items| ==> BeforeCursor(items[n].createdAt, items[n].id, cursor)
  }

  lemma CursorsDescend(createdAt: Time, id: string, last: Item, cursor: Option<Cursor>)
    requires BeforeCursor(createdAt, id, Some(Cursor(last.createdAt, last.id)))
    requires BeforeCursor(last.createdAt, last.id, cursor)
    ensures BeforeCursor(createdAt, id, cursor)
  {
    if cursor.Some? {
      RankTransitive(Place(createdAt, id), Place(last.createdAt, last.id), Place(cursor.value.createdAt, cursor.value.id));
    }
  }

  lemma PagesJoin(items: seq<Item>, rest: seq<Item>, cursor: Option<Cursor>)
    requires items != [] && NewestFirst(items) && NewestFirst(rest) && AllBelow(items, cursor)
    requires var last := items[|items| - 1]; AllBelow(rest, Some(Cursor(last.createdAt, last.id)))
    ensures NewestFirst(items + rest) && AllBelow(items + rest, cursor)
  {
    var last := items[|items| - 1];
    forall n | 0 <= n < |rest| ensures BeforeCursor(rest[n].createdAt, rest[n].id, cursor) {
      CursorsDescend(rest[n].createdAt, rest[n].id, last, cursor);
    }
    forall m, n | 0 <= m < |items| && 0 <= n < |rest| ensures Newer(items[m], rest[n]) {
      assert Newer(last, rest[n]);
      NewerOrder(items[m], last, rest[n]);
    }
  }

  lemma {:induction false} JoinedInOrder(t: Traversal, k: nat)
    requires IsTraversal(t) && OnlyGrows(t.views, t.q) && k < |t.pages|
    ensures NewestFirst(Joined(t.pages, k)) && AllBelow(Joined(t.pages, k), CursorAt(t, k))
    decreases |t.pages| - k
  {
    PageAtFacts(t, k);
    var items := t.pages[k].items;
    assert AllBelow(items, CursorAt(t, k));
    if k < |t.pages| - 1 {
      JoinedInOrder(t, k + 1);
      PagesJoin(items, Joined(t.pages, k + 1), CursorAt(t, k));
    } else {
      assert Joined(t.pages, k) == items;
    }
  }

  /** A task that is there, matches and lies below the cursor of page `k` is on that page or on a later one. */
  lemma {:induction false} ShownSomewhere(t: Traversal, k: nat, id: string) returns (shown: Item)
    requires IsTraversal(t) && OnlyGrows(t.views, t.q) && k < |t.pages|
    requires id in SelectedIds(t.views[k], t.q, CursorAt(t, k))
    ensures shown in Joined(t.pages, k) && shown.id == id && shown.createdAt == t.views[k][id].createdAt
    decreases |t.pages| - k
  {
    PageAtFacts(t, k);
    if ItemOf(t.views[k][id]) in t.pages[k].items {
      shown := ItemOf(t.views[k][id]);
    } else {
      assert t.pages[k].hasMore && CursorAt(t, k + 1) == t.pages[k].next;
      assert id in SelectedIds(t.views[k + 1], t.q, CursorAt(t, k + 1));
      shown := ShownSomewhere(t, k + 1, id);
    }
  }

  /** Paging is complete: a finished traversal shows its tasks newest first, and every matching task that was there
      at the start, below the first cursor, exactly once, even when tasks are added between pages. */
  lemma PagingComplete(t: Traversal)
    requires IsTraversal(t) && OnlyGrows(t.views, t.q)
    ensures NewestFirst(Joined(t.pages, 0))
    ensures forall id :: id in SelectedIds(t.views[0], t.q, t.start) ==> ShownOnce(Joined(t.pages, 0), id)
    ensures t.start.None? ==>
              forall id :: id in t.views[0] && (t.q.workflow == "" || t.views[0][id].workflow == t.q.workflow)
                           && (t.q.status.Some? ==> t.views[0][id].status == t.q.status.value)
                           ==> ShownOnce(Joined(t.pages, 0), id)
  {
    JoinedInOrder(t, 0);
    forall id | id in SelectedIds(t.views[0], t.q, t.start) ensures ShownOnce(Joined(t.pages, 0), id) {
      var shown := ShownSomewhere(t, 0, id);
      SameTimeOnEveryPage(t, id);
      PlaceIsUnique(Joined(t.pages, 0), shown);
    }
  }

  /** A task there at the start has one creation time on all pages. */
  lemma SameTimeOnEveryPage(t: Traversal, id: string)
    requires IsTraversal(t) && OnlyGrows(t.views, t.q) && id in SelectedIds(t.views[0], t.q, t.start)
    ensures var items := Joined(t.pages, 0);
            forall n :: 0 <= n < |items| && items[n].id == id ==> items[n].createdAt == t.views[0][id].createdAt
  {
    var items := Joined(t.pages, 0);
    forall n | 0 <= n < |items| && items[n].id == id ensures items[n].createdAt == t.views[0][id].createdAt {
      var j := JoinedFrom(t, 0, items[n]);
      PageAtFacts(t, j);
    }
  }

  lemma {:induction false} JoinedFrom(t: Traversal, k: nat, x: Item) returns (j: nat)
    requires k <= |t.pages| && x in Joined(t.pages, k)
    ensures k <= j < |t.pages| && x in t.pages[j].items
    decreases |t.pages| - k
  {
    j := k;
    if x !in t.pages[k].items {
      j := JoinedFrom(t, k + 1, x);
    }
  }

  /** Over a store that stands still the pages join to exactly the filtered list below the first cursor. */
  lemma PagingExact(t: Traversal, tasks: Tasks)
    requires IsTraversal(t) && Datable(tasks) && forall k :: 0 <= k < |t.views| ==> t.views[k] == tasks
    ensures Joined(t.pages, 0) == Listing(tasks, SelectedIds(tasks, t.q, t.start))
  {
    var ids := SelectedIds(tasks, t.q, t.start);
    var items := Joined(t.pages, 0);
    JoinedInOrder(t, 0);
    forall n | 0 <= n < |items| ensures items[n].id in ids && items[n] == ItemOf(tasks[items[n].id]) {
      var j := JoinedFrom(t, 0, items[n]);
      PageAtFacts(t, j);
      assert t.views[j] == tasks;
      assert BeforeCursor(items[n].createdAt, items[n].id, t.start);
    }
    forall id | id in ids ensures ItemOf(tasks[id]) in items {
      var shown := ShownSomewhere(t, 0, id);
      var n :| 0 <= n < |items| && items[n] == shown;
    }
    ListingUnique(tasks, ids, items);
  }

  /** From one view to a later one a matching task was there before, or is newer than every task that was. */
  ghost predicate GrowsOnTop(views: seq<Tasks>, q: Query)
  {
    && (forall k :: 0 <= k < |views| ==> Datable(views[k]))
    && (forall j, k :: 0 <= j < k < |views| ==> AddsOnTop(views[j], views[k], q))
  }

  ghost predicate AddsOnTop(before: Tasks, after: Tasks, q: Query)
  {
    forall id :: id in after && Matches(after[id], q) ==>
      WasThere(before, after, q, id) || IsNewest(before, id, after[id].createdAt)
  }

  predicate WasThere(before: Tasks, after: Tasks, q: Query, id: string)
    requires id in after
  {
    id in before && Matches(before[id], q) && before[id].createdAt == after[id].createdAt
  }

  ghost predicate IsNewest(tasks: Tasks, id: string, createdAt: Time)
  {
    forall other :: other in tasks ==> RankLess(Place(tasks[other].createdAt, other), Place(createdAt, id))
  }

  /** Following the cursors comes to an end, after at most one page per matching task there at the start and one more,
      as long as tasks are added only on top. */
  lemma {:induction false} PagingFinishes(views: seq<Tasks>, q: Query, start: Option<Cursor>, limit: int) returns (t: Traversal)
    requires GrowsOnTop(views, q) && ValidQuery(q, limit) && ValidCursor(start)
    requires views != [] && |views| > |SelectedIds(views[0], q, start)|
    ensures IsTraversal(t) && t.q == q && t.start == start && t.limit == limit
    ensures |t.views| <= 1 + |SelectedIds(views[0], q, start)| && t.views == views[..|t.views|]
    decreases |views|
  {
    PageFacts(views[0], q, start, limit);
    var p := ListTasks(views[0], q, start, limit).value;
    if !p.hasMore {
      t := LastPage(views[0], p, q, start, limit);
    } else {
      FewerLeft(views, q, start, p);
      TailGrowsOnTop(views, q);
      var rest := PagingFinishes(views[1..], q, p.next, limit);
      t := Traversal([views[0]] + rest.views, [p] + rest.pages, q, start, limit);
      PageFirst(views[0], p, rest, t);
      PrefixOf(views, rest.views);
    }
  }

  lemma TailGrowsOnTop(views: seq<Tasks>, q: Query)
    requires GrowsOnTop(views, q) && views != []
    ensures GrowsOnTop(views[1..], q)
  {
  }

  lemma PrefixOf(views: seq<Tasks>, rest: seq<Tasks>)
    requires views != [] && |rest| < |views| && rest == views[1..][..|rest|]
    ensures [views[0]] + rest == views[..|rest| + 1]
  {
  }

  lemma LastPage(tasks: Tasks, p: Page, q: Query, start: Option<Cursor>, limit: int) returns (t: Traversal)
    requires ListTasks(tasks, q, start, limit) == Ok(p) && !p.hasMore && ValidQuery(q, limit) && ValidCursor(start)
    ensures t == Traversal([tasks], [p], q, start, limit) && IsTraversal(t)
  {
    t := Traversal([tasks], [p], q, start, limit);
    assert PageAt(t, 0);
  }

  lemma PageFirst(tasks: Tasks, p: Page, rest: Traversal, t: Traversal)
    requires IsTraversal(rest) && p.hasMore && rest.start == p.next && ValidCursor(t.start)
    requires t == Traversal([tasks] + rest.views, [p] + rest.pages, rest.q, t.start, rest.limit)
    requires ListTasks(tasks, t.q, t.start, t.limit) == Ok(p)
    ensures IsTraversal(t)
  {
    forall k | 0 <= k < |t.pages| ensures PageAt(t, k) && (t.pages[k].hasMore <==> k < |t.pages| - 1) {
      if k > 0 {
        PageShifts(p, rest, t, k);
      }
    }
  }

  lemma PageShifts(p: Page, rest: Traversal, t: Traversal, k: nat)
    requires IsTraversal(rest) && rest.start == p.next && 0 < k < |t.pages| == |t.views|
    requires t.views[1..] == rest.views && t.pages == [p] + rest.pages && t.q == rest.q && t.limit == rest.limit
    ensures PageAt(t, k) && t.pages[k].hasMore == rest.pages[k - 1].hasMore
  {
    assert PageAt(rest, k - 1);
    assert t.views[k] == t.views[1..][k - 1];
    assert CursorAt(t, k) == CursorAt(rest, k - 1);
  }

  lemma FewerLeft(views: seq<Tasks>, q: Query, start: Option<Cursor>, p: Page)
    requires GrowsOnTop(views, q) && views != [] && GoodPage(views[0], SelectedIds(views[0], q, start), p) && p.hasMore
    ensures |SelectedIds(views[0], q, start)| >= 1
    ensures |views| > 1 ==> |SelectedIds(views[1], q, p.next)| < |SelectedIds(views[0], q, start)|
  {
    var before := SelectedIds(views[0], q, start);
    var last := p.items[|p.items| - 1];
    CardMonotone({last.id}, before);
    if |views| > 1 {
      var after := SelectedIds(views[1], q, p.next);
      forall id | id in after ensures id in before {
        BelowWasThere(views, q, start, last, id);
      }
      NewerOrder(last, last, last);
      assert last.id in before;
      if last.id in after {
        BelowWasThere(views, q, start, last, last.id);
      }
      CardMonotone(after, before);
    }
  }

  /** What matches below an item of the last page was there already. */
  lemma BelowWasThere(views: seq<Tasks>, q: Query, start: Option<Cursor>, last: Item, id: string)
    requires GrowsOnTop(views, q) && |views| > 1 && last.id in SelectedIds(views[0], q, start)
    requires last == ItemOf(views[0][last.id]) && id in SelectedIds(views[1], q, Some(Cursor(last.createdAt, last.id)))
    ensures id in SelectedIds(views[0], q, start) && views[0][id].createdAt == views[1][id].createdAt
  {
    var createdAt := views[1][id].createdAt;
    RankTotal(Place(createdAt, id), Place(last.createdAt, last.id));
    assert AddsOnTop(views[0], views[1], q);
    CursorsDescend(createdAt, id, last, start);
  }

  /** The list shows the task with this id at exactly one place. */
  ghost predicate ShownOnce(items: seq<Item>, id: string)
  {
    && (exists n :: 0 <= n < |items| && items[n].id == id)
    && (forall m, n :: 0 <= m < n < |items| && items[m].id == id ==> items[n].id != id)
  }

  lemma PlaceIsUnique(items: seq<Item>, x: Item)
    requires NewestFirst(items) && x in items
    requires forall n :: 0 <= n < |items| && items[n].id == x.id ==> items[n].createdAt == x.createdAt
    ensures ShownOnce(items, x.id)
  {
    forall m, n | 0 <= m < n < |items| && items[m].id == x.id ensures items[n].id != x.id {
      assert Newer(items[m], items[n]);
      RankTotal(Place(items[m].createdAt, items[m].id), Place(items[n].createdAt, items[n].id));
    }
  }

  /** Without a status filter, states of one run in order are views that only grow. */
  lemma RunsOnlyGrow(env: Env, run: Run, at: seq<nat>, q: Query)
    requires IsRun(env, run) && q.status == None
    requires forall k :: 0 <= k < |at| ==> at[k] < |run.states|
    requires forall j, k :: 0 <= j < k < |at| ==> at[j] <= at[k]
    requires forall k :: 0 <= k < |run.steps| && run.steps[k].Create? ==> run.steps[k].now != ZERO_TIME
    ensures OnlyGrows(seq(|at|, k requires 0 <= k < |at| => run.states[at[k]].tasks), q)
  {
    var views := seq(|at|, k requires 0 <= k < |at| => run.states[at[k]].tasks);
    forall k | 0 <= k < |views| ensures Datable(views[k]) {
      RunIsDatable(env, run, at[k]);
    }
    forall j, k, id | 0 <= j < k < |views| && id in views[j] && Matches(views[j][id], q)
      ensures id in views[k] && Matches(views[k][id], q) && views[k][id].createdAt == views[j][id].createdAt
    {
      IdentityForever(env, run, at[j], at[k], id);
    }
  }

  /** The step that created a task. */
  lemma {:induction false} BornAt(env: Env, run: Run, i: nat, id: string) returns (m: nat)
    requires IsRun(env, run) && i < |run.states| && id in run.states[i].tasks
    ensures m < i && run.steps[m].Create? && id in run.states[m + 1].tasks
    ensures run.states[i].tasks[id].createdAt == run.steps[m].now
  {
    if i > 0 && id in run.states[i - 1].tasks {
      m := BornAt(env, run, i - 1, id);
      IdentityForever(env, run, i - 1, i, id);
    } else if i > 0 {
      m := i - 1;
      var eff := EffectAt(env, run, i - 1);
    }
  }

  /** With creation clocks that only go forward, and no status filter, the states of a run grow on top. */
  lemma RunsGrowOnTop(env: Env, run: Run, at: seq<nat>, q: Query)
    requires IsRun(env, run) && q.status == None
    requires forall k :: 0 <= k < |at| ==> at[k] < |run.states|
    requires forall j, k :: 0 <= j < k < |at| ==> at[j] <= at[k]
    requires forall k :: 0 <= k < |run.steps| && run.steps[k].Create? ==> run.steps[k].now != ZERO_TIME
    requires forall j, k :: 0 <= j < k < |run.steps| && run.steps[j].Create? && run.steps[k].Create? ==>
               run.steps[j].now < run.steps[k].now
    ensures GrowsOnTop(seq(|at|, k requires 0 <= k < |at| => run.states[at[k]].tasks), q)
  {
    var views := seq(|at|, k requires 0 <= k < |at| => run.states[at[k]].tasks);
    forall k | 0 <= k < |views| ensures Datable(views[k]) {
      RunIsDatable(env, run, at[k]);
    }
    forall j, k | 0 <= j < k < |views| ensures AddsOnTop(views[j], views[k], q) {
      AddedOnTop(env, run, at[j], at[k], q);
    }
  }

  lemma AddedOnTop(env: Env, run: Run, j: nat, i: nat, q: Query)
    requires IsRun(env, run) && j <= i < |run.states| && q.status == None
    requires forall j, k :: 0 <= j < k < |run.steps| && run.steps[j].Create? && run.steps[k].Create? ==>
               run.steps[j].now < run.steps[k].now
    ensures AddsOnTop(run.states[j].tasks, run.states[i].tasks, q)
  {
    var before, after := run.states[j].tasks, run.states[i].tasks;
    forall id | id in after && Matches(after[id], q)
      ensures WasThere(before, after, q, id) || IsNewest(before, id, after[id].createdAt)
    {
      if id in before {
        IdentityForever(env, run, j, i, id);
      } else {
        forall other | other in before ensures before[other].createdAt < after[id].createdAt {
          BornLater(env, run, j, i, other, id);
        }
      }
    }
  }

  lemma BornLater(env: Env, run: Run, j: nat, i: nat, other: string, id: string)
    requires IsRun(env, run) && j <= i < |run.states| && other in run.states[j].tasks
    requires id !in run.states[j].tasks && id in run.states[i].tasks
    requires forall j, k :: 0 <= j < k < |run.steps| && run.steps[j].Create? && run.steps[k].Create? ==>
               run.steps[j].now < run.steps[k].now
    ensures run.states[j].tasks[other].createdAt < run.states[i].tasks[id].createdAt
  {
    var a := BornAt(env, run, j, other);
    var b := BornAt(env, run, i, id);
    if b < j {
      IdentityForever(env, run, b + 1, j, id);
    }
  }

  lemma {:induction false} RunIsDatable(env: Env, run: Run, i: nat)
    requires IsRun(env, run) && i < |run.states|
    requires forall k :: 0 <= k < |run.steps| && run.steps[k].Create? ==> run.steps[k].now != ZERO_TIME
    ensures Datable(run.states[i].tasks)
  {
    if i > 0 {
      RunIsDatable(env, run, i - 1);
      var eff := WriteIsCurrent(env, run, i - 1);
    }
  }
}
