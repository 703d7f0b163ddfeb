/** The two repositories' reads and the in-memory one's writes. */
module MemRepo {
  import opened Options
  import opened Uuids
  import opened Tasks
  import opened ListOrder

  ghost predicate DistinctIds(ts: seq<Task>) {
    forall i, j | 0 <= i < j < |ts| :: ts[i].id != ts[j].id
  }

  /** Cuts the page; one row past the limit tells that there is a next one. */
  function Paginate(ts: seq<Task>, limit: nat): Page
    requires limit >= 1
  {
    if |ts| <= limit then Page(ts, ZERO) else Page(ts[..limit], CursorOf(ts[limit - 1]))
  }

  lemma ElementsSplit(a: seq<Task>, b: seq<Task>)
    ensures Elements(a + b) == Elements(a) + Elements(b)
  {
  }

  lemma CutLeads(ts: seq<Task>, n: nat)
    requires Sorted(ts) && n <= |ts|
    ensures Sorted(ts[..n]) && Leading(Elements(ts[..n]), Elements(ts))
  {
    forall t, u | t in Elements(ts[..n]) && u in Elements(ts) && u !in Elements(ts[..n])
      ensures Less(t, u)
    {
      var i :| 0 <= i < n && ts[i] == t;
      var j :| 0 <= j < |ts| && ts[j] == u;
    }
  }

  /** Cutting the sorted matches gives the page of the query. */
  lemma CutIsPage(tasks: TaskMap, q: Query, ts: seq<Task>)
    requires q.limit >= 1 && Sorted(ts) && Elements(ts) == Matching(tasks, q)
    ensures IsPage(tasks, q, Paginate(ts, q.limit))
  {
    SortedSetSize(ts);
    if |ts| > q.limit {
      CutLeads(ts, q.limit);
      assert ts == ts[..q.limit] + ts[q.limit..];
      ElementsSplit(ts[..q.limit], ts[q.limit..]);
      assert ts[..q.limit][q.limit - 1] == ts[q.limit - 1];
    }
  }

  // ---------- in memory ----------

  /** b has the tasks of a; b[..i] is sorted but for the task at j, which comes before what follows it there. */
  ghost predicate Sinking(a: seq<Task>, b: seq<Task>, i: nat, j: int) {
    && 0 <= j < i <= |b| && DistinctIds(b) && multiset(b) == multiset(a)
    && SortedBut(b, i, j)
    && (forall q | j < q < i :: Less(b[j], b[q]))
  }

  ghost predicate SortedBut(a: seq<Task>, i: nat, j: int)
    requires i <= |a|
  {
    forall p, q | 0 <= p < q < i && p != j && q != j :: Less(a[p], a[q])
  }

  lemma SwapIsPermutation(a: seq<Task>, b: seq<Task>, j: nat)
    requires 0 < j < |a| && b == a[j := a[j - 1]][j - 1 := a[j]] && DistinctIds(a)
    ensures DistinctIds(b) && multiset(b) == multiset(a)
  {
  }

  lemma SwapOrder(a: seq<Task>, b: seq<Task>, i: nat, j: nat)
    requires 0 < j < i <= |a| && b == a[j := a[j - 1]][j - 1 := a[j]]
    requires SortedBut(a, i, j) && Less(a[j], a[j - 1])
    requires forall q | j < q < i :: Less(a[j], a[q])
    ensures SortedBut(b, i, j - 1)
    ensures forall q | j - 1 < q < i :: Less(b[j - 1], b[q])
  {
    forall p, q | 0 <= p < q < i && p != j - 1 && q != j - 1 ensures Less(b[p], b[q]) {
      if p == j { assert Less(a[j - 1], a[q]); }
      else if q == j { assert Less(a[p], a[j - 1]); }
      else { assert Less(a[p], a[q]); }
    }
  }

  lemma SwapSinks(start: seq<Task>, a: seq<Task>, b: seq<Task>, i: nat, j: nat)
    requires Sinking(start, a, i, j) && j > 0 && Less(a[j], a[j - 1])
    requires b == a[j := a[j - 1]][j - 1 := a[j]]
    ensures Sinking(start, b, i, j - 1)
  {
    SwapIsPermutation(a, b, j);
    SwapOrder(a, b, i, j);
  }

  lemma SettledIsSorted(start: seq<Task>, a: seq<Task>, i: nat, j: nat)
    requires Sinking(start, a, i, j)
    requires j > 0 ==> !Less(a[j], a[j - 1])
    ensures Sorted(a[..i])
  {
    forall p | 0 <= p < j ensures Less(a[p], a[j]) {
      LessTotal(a[j], a[j - 1]);
      if p < j - 1 { LessTransitive(a[p], a[j - 1], a[j]); }
    }
  }

  lemma StartsSinking(a: seq<Task>, i: nat)
    requires i < |a| && DistinctIds(a) && Sorted(a[..i])
    ensures Sinking(a, a, i + 1, i)
  {
    assert forall p | 0 <= p < i :: a[..i][p] == a[p];
  }

  method SwapBack(a: array<Task>, j: nat)
    requires 0 < j < a.Length
    modifies a
    ensures a[..] == old(a[..])[j := old(a[j - 1])][j - 1 := old(a[j])]
  {
    a[j - 1], a[j] := a[j], a[j - 1];
  }

  /** Moves a[i] down to its place among the sorted a[..i]. */
  method Insert(a: array<Task>, i: nat)
    requires i < a.Length && DistinctIds(a[..]) && Sorted(a[..i])
    modifies a
    ensures DistinctIds(a[..]) && multiset(a[..]) == multiset(old(a[..]))
    ensures Sorted(a[..i + 1])
  {
    var j := i;
    assert a[..][..i] == a[..i];
    StartsSinking(a[..], i);
    while j > 0 && Less(a[j], a[j - 1])
      invariant Sinking(old(a[..]), a[..], i + 1, j)
    {
      ghost var before := a[..];
      SwapBack(a, j);
      SwapSinks(old(a[..]), before, a[..], i + 1, j);
      j := j - 1;
    }
    SettledIsSorted(old(a[..]), a[..], i + 1, j);
    assert a[..][..i + 1] == a[..i + 1];
  }

  /** Newest first, in place: the list order leaves exactly one result. */
  method SortNewestFirst(a: array<Task>)
    requires DistinctIds(a[..])
    modifies a
    ensures Sorted(a[..]) && multiset(a[..]) == multiset(old(a[..]))
  {
    for i := 0 to a.Length
      invariant DistinctIds(a[..]) && multiset(a[..]) == multiset(old(a[..]))
      invariant Sorted(a[..i])
    {
      Insert(a, i);
    }
    assert a[..a.Length] == a[..];
  }

  lemma SameElements(a: seq<Task>, b: seq<Task>)
    requires multiset(a) == multiset(b)
    ensures Elements(a) == Elements(b)
  {
    forall t ensures t in a <==> t in b {
      assert t in a <==> t in multiset(a);
      assert t in b <==> t in multiset(b);
    }
  }

  class Store {
    var tasks: TaskMap

    ghost predicate Valid()
      reads this
    {
      Keyed(tasks)
    }

    constructor ()
      ensures Valid() && tasks == map[]
    {
      tasks := map[];
    }

    /** The service hands over a new task with version 1 and equal times. */
    method CreateTask(t: Task) returns (r: Outcome)
      requires Valid()
      modifies this
      ensures Valid()
      ensures r == if t.id in old(tasks) then Conflict else Written(t)
      ensures tasks == if t.id in old(tasks) then old(tasks) else old(tasks)[t.id := t]
      ensures t.version == 1 && t.createdAt == t.updatedAt ==>
        var op := Create(t.id, t.name, t.status, t.createdAt);
        r == OutcomeOf(old(tasks), op) && tasks == Apply(old(tasks), op) && WriteDoes(old(tasks), op, tasks, r)
    {
      if t.id in tasks { return Conflict; }
      tasks := tasks[t.id := t];
      r := Written(t);
    }

    method Get(id: Uuid) returns (r: Outcome)
      requires Valid()
      ensures r == if id in tasks then Written(tasks[id]) else NotFound
      ensures r.Written? ==> r.task.id == id
    {
      r := if id in tasks then Written(tasks[id]) else NotFound;
    }

    /** The creation time and the version of t are the caller's, and are ignored. */
    method UpdateTask(t: Task, expected: int) returns (r: Outcome)
      requires Valid()
      modifies this
      ensures Valid()
      ensures r == OutcomeOf(old(tasks), Update(t.id, t.name, t.status, t.updatedAt, expected))
      ensures tasks == Apply(old(tasks), Update(t.id, t.name, t.status, t.updatedAt, expected))
      ensures r.NotFound? <==> t.id !in old(tasks)
      ensures r.Conflict? <==> t.id in old(tasks) && Outdated(old(tasks)[t.id], expected)
      ensures r.Written? ==>
        && IsUpdated(old(tasks)[t.id], r.task, t.id, t.name, t.status, t.updatedAt)
        && tasks == old(tasks)[t.id := r.task]
      ensures !r.Written? ==> tasks == old(tasks)
    {
      if t.id !in tasks { return NotFound; }
      var existing := tasks[t.id];
      if expected != 0 && existing.version != expected { return Conflict; }
      var next := t.(createdAt := existing.createdAt, version := existing.version + 1);
      tasks := tasks[t.id := next];
      r := Written(next);
    }

    method DeleteTask(id: Uuid) returns (r: Outcome)
      requires Valid()
      modifies this
      ensures Valid()
      ensures r == OutcomeOf(old(tasks), Delete(id)) && tasks == Apply(old(tasks), Delete(id))
      ensures if id in old(tasks) then r == Written(old(tasks)[id]) && tasks == old(tasks) - {id}
              else r == NotFound && tasks == old(tasks)
    {
      if id !in tasks { return NotFound; }
      r := Written(tasks[id]);
      tasks := tasks - {id};
    }

    /** Visits the map in any order. */
    method Collect(q: Query) returns (out: seq<Task>)
      requires Valid()
      ensures Elements(out) == Matching(tasks, q) && DistinctIds(out)
    {
      out := [];
      var left := tasks.Keys;
      while left != {}
        invariant left <= tasks.Keys && DistinctIds(out)
        invariant forall t | t in out :: t.id in tasks && t.id !in left && t == tasks[t.id] && Selected(q, t)
        invariant forall id | id in tasks && id !in left && Selected(q, tasks[id]) :: tasks[id] in out
        decreases |left|
      {
        var id :| id in left;
        left := left - {id};
        if Selected(q, tasks[id]) {
          out := out + [tasks[id]];
        }
      }
    }

    /** The page of the query, whatever order the map was visited in. */
    method List(q: Query) returns (page: Page)
      requires Valid() && q.limit >= 1
      ensures IsPage(tasks, q, page)
    {
      var matched := Collect(q);
      var a := new Task[|matched|](i requires 0 <= i < |matched| => matched[i]);
      assert a[..] == matched;
      SortNewestFirst(a);
      SameElements(a[..], matched);
      CutIsPage(tasks, q, a[..]);
      page := Paginate(a[..], q.limit);
    }
  }

  // ---------- the durable store ----------

  /** The rows of the SELECT before its LIMIT. */
  ghost predicate SelectedRows(tasks: TaskMap, q: Query, rows: seq<Task>) {
    && (forall i, j | 0 <= i < j < |rows| :: SqlLess(rows[i], rows[j]))
    && (forall t | t in rows :: t.id in tasks && t == tasks[t.id])
    && (forall id | id in tasks ::
          tasks[id] in rows <==> (q.status.Some? ==> tasks[id].status == q.status.value) && SqlAfter(q.cursor, tasks[id]))
  }

  /** LIMIT q.limit + 1. */
  function Limited(rows: seq<Task>, n: nat): seq<Task> {
    if |rows| <= n then rows else rows[..n]
  }

  lemma RowsAreMatches(tasks: TaskMap, q: Query, rows: seq<Task>)
    requires Keyed(tasks) && SelectedRows(tasks, q, rows)
    ensures Sorted(rows) && Elements(rows) == Matching(tasks, q)
  {
    forall i, j | 0 <= i < j < |rows| ensures Less(rows[i], rows[j]) {
      assert SqlLess(rows[i], rows[j]);
      BackendsAgree(rows[i], rows[j], q.cursor);
    }
    forall id | id in tasks ensures tasks[id] in rows <==> Selected(q, tasks[id]) {
      BackendsAgree(tasks[id], tasks[id], q.cursor);
    }
  }

  /** Asking for one row more than the page holds is enough to cut it. */
  lemma LimitedCut(rows: seq<Task>, limit: nat)
    requires limit >= 1
    ensures Paginate(Limited(rows, limit + 1), limit) == Paginate(rows, limit)
  {
  }

  /** The durable repository's List: the scan loop over the rows it was sent, and the cut. Its page is the
    page of the query, so it is the page the in-memory repository returns. */
  method ListRows(ghost tasks: TaskMap, q: Query, ghost rows: seq<Task>, sent: seq<Task>) returns (page: Page)
    requires Keyed(tasks) && q.limit >= 1
    requires SelectedRows(tasks, q, rows) && sent == Limited(rows, q.limit + 1)
    ensures IsPage(tasks, q, page)
  {
    page := Cut(sent, q.limit);
    LimitedCut(rows, q.limit);
    RowsAreMatches(tasks, q, rows);
    CutIsPage(tasks, q, rows);
  }

  method Cut(sent: seq<Task>, limit: nat) returns (page: Page)
    requires limit >= 1
    ensures page == Paginate(sent, limit)
  {
    var scanned := [];
    for i := 0 to |sent|
      invariant scanned == sent[..i]
    {
      scanned := scanned + [sent[i]];
    }
    page := Page(scanned, ZERO);
    if |scanned| > limit {
      page := Page(scanned[..limit], CursorOf(scanned[limit - 1]));
    }
  }
}
