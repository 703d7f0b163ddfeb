/** The list order of tasks, keyset cursors, and what a page is. */
module ListOrder {
  import opened Options
  import opened Uuids
  import opened Tasks
  import opened FiniteSets

  const DEFAULT_PAGE_SIZE := 20
  const MAX_PAGE_SIZE := 100

  /** A keyset position: the (created_at, id) of the last task returned. */
  datatype Cursor = Cursor(createdAt: int, id: Uuid)

  const ZERO := Cursor(0, NIL)

  datatype Query = Query(status: Option<Status>, limit: nat, cursor: Cursor)

  datatype Page = Page(tasks: seq<Task>, next: Cursor)

  function CursorOf(t: Task): Cursor {
    Cursor(t.createdAt, t.id)
  }

  /** Newest first, id descending as the tiebreak; ids compare by their text. */
  predicate Less(a: Task, b: Task) {
    if a.createdAt != b.createdAt then a.createdAt > b.createdAt else TextLess(Text(b.id), Text(a.id))
  }

  /** Whether t sorts strictly after the position. */
  predicate After(c: Cursor, t: Task) {
    if c == ZERO then true
    else if t.createdAt > c.createdAt then false
    else if t.createdAt < c.createdAt then true
    else TextLess(Text(t.id), Text(c.id))
  }

  /** The page-size policy: None is a refusal. */
  function ClampLimit(n: int): Option<nat> {
    if n < 0 then None
    else if n == 0 then Some(DEFAULT_PAGE_SIZE)
    else if n > MAX_PAGE_SIZE then None
    else Some(n)
  }

  /** A page size that is accepted is between 1 and 100, and is what was asked for; 20 if nothing was. */
  lemma ClampedLimitIsUsable(n: int)
    ensures ClampLimit(n).Some? <==> 0 <= n <= 100
    ensures ClampLimit(n).Some? ==> ClampLimit(n).value == if n == 0 then 20 else n
  {
  }

  // ---------- the order ----------

  /** Tasks with different ids are comparable one way and one way only. */
  lemma LessTotal(a: Task, b: Task)
    ensures !Less(a, a)
    ensures !(Less(a, b) && Less(b, a))
    ensures a.id != b.id ==> Less(a, b) || Less(b, a)
  {
    TextOrder(a.id, b.id);
    LexTotal(Codes(Text(a.id)), Codes(Text(b.id)));
    if Codes(Text(a.id)) == Codes(Text(b.id)) { CodesInjective(Text(a.id), Text(b.id)); }
  }

  lemma LessTransitive(a: Task, b: Task, c: Task)
    requires Less(a, b) && Less(b, c)
    ensures Less(a, c)
  {
    if a.createdAt == b.createdAt == c.createdAt {
      LexTransitive(Codes(Text(c.id)), Codes(Text(b.id)), Codes(Text(a.id)));
    }
  }

  /** The cursor of a task, unless it happens to be the zero cursor, cuts the list exactly behind that task. */
  lemma AfterIsLess(t: Task, u: Task)
    requires CursorOf(t) != ZERO
    ensures After(CursorOf(t), u) <==> Less(t, u)
  {
  }

  /** The durable store's row comparison, (created_at, id) < (c.created_at, c.id), on the bytes of the ids. */
  predicate RowBefore(createdAt: int, id: Uuid, c: Cursor) {
    createdAt < c.createdAt || (createdAt == c.createdAt && LexLess(id, c.id))
  }

  /** The keyset predicate of the SQL: no restriction for the zero cursor. */
  predicate SqlAfter(c: Cursor, t: Task) {
    c == ZERO || RowBefore(t.createdAt, t.id, c)
  }

  /** ORDER BY created_at DESC, id DESC. */
  predicate SqlLess(a: Task, b: Task) {
    RowBefore(b.createdAt, b.id, CursorOf(a))
  }

  /** Both backends order tasks alike, and cut the list at the same place. */
  lemma BackendsAgree(a: Task, b: Task, c: Cursor)
    ensures SqlLess(a, b) <==> Less(a, b)
    ensures SqlAfter(c, b) <==> After(c, b)
  {
    TextOrder(b.id, a.id);
    TextOrder(b.id, c.id);
  }

  /** Spelled out: later creations first, and of two at the same time the one with the greater id. */
  lemma NewestFirst(a: Task, b: Task)
    ensures Less(a, b) <==> a.createdAt > b.createdAt || (a.createdAt == b.createdAt && LexLess(b.id, a.id))
  {
    TextOrder(b.id, a.id);
  }

  /** The position behind which a page starts: the beginning, or strictly behind the cursor's time and id. */
  lemma AfterSpelled(c: Cursor, t: Task)
    ensures After(c, t) <==>
      || (c.createdAt == 0 && c.id == NIL)
      || t.createdAt < c.createdAt || (t.createdAt == c.createdAt && LexLess(t.id, c.id))
  {
    TextOrder(t.id, c.id);
  }

  // ---------- pages ----------

  predicate Selected(q: Query, t: Task) {
    (q.status.Some? ==> t.status == q.status.value) && After(q.cursor, t)
  }

  function Matching(tasks: TaskMap, q: Query): set<Task> {
    set id | id in tasks && Selected(q, tasks[id]) :: tasks[id]
  }

  ghost predicate Sorted(ts: seq<Task>) {
    forall i, j | 0 <= i < j < |ts| :: Less(ts[i], ts[j])
  }

  function Elements(ts: seq<Task>): set<Task> {
    set t | t in ts
  }

  /** `here` comes before everything else in `all`. */
  ghost predicate Leading(here: set<Task>, all: set<Task>) {
    forall t, u | t in here && u in all && u !in here :: Less(t, u)
  }

  /** The first `limit` selected tasks in list order, and the way to the rest, if there is a rest. */
  ghost predicate IsPage(tasks: TaskMap, q: Query, page: Page) {
    && Sorted(page.tasks)
    && Elements(page.tasks) <= Matching(tasks, q)
    && (if |Matching(tasks, q)| <= q.limit
        then Elements(page.tasks) == Matching(tasks, q) && page.next == ZERO
        else |page.tasks| == q.limit && Leading(Elements(page.tasks), Matching(tasks, q))
             && (q.limit > 0 ==> page.next == CursorOf(page.tasks[q.limit - 1])))
  }

  lemma LastIsNew(ts: seq<Task>)
    requires Sorted(ts) && ts != []
    ensures ts[|ts| - 1] !in Elements(ts[..|ts| - 1])
    ensures Elements(ts) == Elements(ts[..|ts| - 1]) + {ts[|ts| - 1]}
  {
    var init, last := ts[..|ts| - 1], ts[|ts| - 1];
    assert ts == init + [last];
    if last in init {
      LessTotal(last, last);
    }
  }

  lemma {:induction false} SortedSetSize(ts: seq<Task>)
    requires Sorted(ts)
    ensures |Elements(ts)| == |ts|
  {
    if ts != [] {
      LastIsNew(ts);
      SortedSetSize(ts[..|ts| - 1]);
    }
  }

  /** The order leaves no choice: a set of tasks is sorted in one way. */
  lemma {:induction false} SortedIsUnique(a: seq<Task>, b: seq<Task>)
    requires Sorted(a) && Sorted(b) && Elements(a) == Elements(b)
    ensures a == b
  {
    SortedSetSize(a);
    SortedSetSize(b);
    if a != [] {
      FirstIsFirst(a, b);
      RestOfSorted(a);
      RestOfSorted(b);
      SortedIsUnique(a[1..], b[1..]);
      assert a == [a[0]] + a[1..] && b == [b[0]] + b[1..];
    }
  }

  lemma FirstIsFirst(a: seq<Task>, b: seq<Task>)
    requires Sorted(a) && Sorted(b) && Elements(a) == Elements(b) && a != [] && b != []
    ensures a[0] == b[0]
  {
    assert a[0] in Elements(b);
    assert b[0] in Elements(a);
    var i :| 0 <= i < |b| && b[i] == a[0];
    var j :| 0 <= j < |a| && a[j] == b[0];
    LessTotal(a[0], b[0]);
  }

  lemma RestOfSorted(a: seq<Task>)
    requires Sorted(a) && a != []
    ensures Sorted(a[1..])
    ensures Elements(a[1..]) == Elements(a) - {a[0]}
  {
    forall t | t in a[1..] ensures t != a[0] {
      var i :| 1 <= i < |a| && a[i] == t;
      LessTotal(t, t);
      assert Less(a[0], a[i]);
    }
    forall t | t in a && t != a[0] ensures t in a[1..] {
      var i :| 0 <= i < |a| && a[i] == t;
      assert a[1..][i - 1] == t;
    }
  }

  /** A query has one answer, so any two backends that return pages return the same one. */
  lemma PageIsUnique(tasks: TaskMap, q: Query, p: Page, r: Page)
    requires Keyed(tasks) && q.limit > 0 && IsPage(tasks, q, p) && IsPage(tasks, q, r)
    ensures p == r
  {
    var all := Matching(tasks, q);
    var here, there := Elements(p.tasks), Elements(r.tasks);
    SortedSetSize(p.tasks);
    SortedSetSize(r.tasks);
    if here != there {
      if here <= there { SmallerSubset(here, there); assert false; }
      if there <= here { SmallerSubset(there, here); assert false; }
      var t :| t in here && t !in there;
      var u :| u in there && u !in here;
      LessTotal(t, u);
      assert false;
    }
    SortedIsUnique(p.tasks, r.tasks);
  }
}
