/** Following `next` from the start, while tasks are created, updated and deleted between the pages. */
module PageWalk {
  import opened Options
  import opened Uuids
  import opened Tasks
  import opened ListOrder
  import opened MemRepo
  import opened FiniteSets

  /** A client's walk: page i was read when the tasks were states[i]. */
  datatype Walk = Walk(status: Option<Status>, limit: nat, states: seq<TaskMap>, pages: seq<Page>) {
    function Cursor(i: nat): Cursor
      requires i <= |pages|
    {
      if i == 0 then ZERO else pages[i - 1].next
    }

    function Request(i: nat): Query
      requires i <= |pages|
    {
      Query(status, limit, Cursor(i))
    }

    ghost predicate PageValid(i: nat)
      requires i < |pages| == |states|
    {
      Keyed(states[i]) && IsPage(states[i], Request(i), pages[i])
    }

    ghost predicate Valid() {
      && limit >= 1 && |states| == |pages|
      && (forall i: nat | i < |pages| :: PageValid(i))
      && (forall i | 0 < i < |pages| :: Cursor(i) != ZERO)
    }

    /** The client was told that there is no further page. */
    predicate Ended() {
      pages != [] && pages[|pages| - 1].next == ZERO
    }
  }

  /** Everything the first n pages returned, in order. */
  function Returned(w: Walk, n: nat): seq<Task>
    requires n <= |w.pages|
  {
    if n == 0 then [] else Returned(w, n - 1) + w.pages[n - 1].tasks
  }

  // ---------- a page and its cursor ----------

  /** A page that has a next one is full, and its cursor is its last task's. */
  lemma NextIsLast(w: Walk, i: nat)
    requires w.Valid() && i < |w.pages| && w.pages[i].next != ZERO
    ensures |w.pages[i].tasks| == w.limit
    ensures w.pages[i].next == CursorOf(w.pages[i].tasks[w.limit - 1])
    ensures Leading(Elements(w.pages[i].tasks), Matching(w.states[i], w.Request(i)))
  {
    assert w.PageValid(i);
  }

  lemma PageIsAfter(w: Walk, i: nat, t: Task)
    requires w.Valid() && i < |w.pages| && t in w.pages[i].tasks
    ensures t in Matching(w.states[i], w.Request(i)) && Selected(w.Request(i), t)
    ensures t.id in w.states[i] && w.states[i][t.id] == t
  {
    assert w.PageValid(i);
    assert t in Elements(w.pages[i].tasks);
  }

  lemma LastOf(w: Walk, i: nat) returns (last: Task)
    requires w.Valid() && i < |w.pages| && w.pages[i].next != ZERO
    ensures last in w.pages[i].tasks && w.pages[i].next == CursorOf(last)
    ensures After(w.Cursor(i), last)
  {
    NextIsLast(w, i);
    last := w.pages[i].tasks[w.limit - 1];
    PageIsAfter(w, i, last);
  }

  lemma LastIsLast(page: seq<Task>, t: Task)
    requires Sorted(page) && t in page
    ensures t == page[|page| - 1] || Less(t, page[|page| - 1])
  {
  }

  lemma PageBeforeRest(w: Walk, i: nat, t: Task, u: Task)
    requires w.Valid() && i < |w.pages| && t in w.pages[i].tasks
    requires w.pages[i].next != ZERO && After(w.pages[i].next, u)
    ensures Less(t, u)
  {
    var page := w.pages[i].tasks;
    NextIsLast(w, i);
    PageIsSorted(w, i);
    LastIsLast(page, t);
    AfterIsLess(page[|page| - 1], u);
    if t != page[|page| - 1] { LessTransitive(t, page[|page| - 1], u); }
  }

  lemma PageIsSorted(w: Walk, i: nat)
    requires w.Valid() && i < |w.pages|
    ensures Sorted(w.pages[i].tasks)
  {
    assert w.PageValid(i);
  }

  /** Whatever has been returned comes before whatever is after the cursor. */
  lemma {:induction false} ReturnedBeforeRest(w: Walk, n: nat, t: Task, u: Task)
    requires w.Valid() && n <= |w.pages| && t in Returned(w, n) && w.Cursor(n) != ZERO && After(w.Cursor(n), u)
    ensures Less(t, u)
  {
    if t in w.pages[n - 1].tasks {
      PageBeforeRest(w, n - 1, t, u);
    } else {
      var last := LastOf(w, n - 1);
      ReturnedBeforeRest(w, n - 1, t, last);
      PageBeforeRest(w, n - 1, last, u);
      LessTransitive(t, last, u);
    }
  }

  // ---------- nothing twice ----------

  lemma JoinSorted(a: seq<Task>, b: seq<Task>)
    requires Sorted(a) && Sorted(b) && forall t, u | t in a && u in b :: Less(t, u)
    ensures Sorted(a + b)
  {
    var ab := a + b;
    forall i, j | 0 <= i < j < |ab| ensures Less(ab[i], ab[j]) {
      if i < |a| <= j { assert a[i] in a && b[j - |a|] in b; }
    }
  }

  /** The walk returns strictly decreasing keys, across pages, whatever was written between them. */
  lemma {:induction false} StrictlyDecreasing(w: Walk, n: nat)
    requires w.Valid() && n <= |w.pages|
    ensures Sorted(Returned(w, n))
  {
    if n > 0 {
      StrictlyDecreasing(w, n - 1);
      PageIsSorted(w, n - 1);
      forall t, u | t in Returned(w, n - 1) && u in w.pages[n - 1].tasks ensures Less(t, u) {
        PageIsAfter(w, n - 1, u);
        ReturnedBeforeRest(w, n - 1, t, u);
      }
      JoinSorted(Returned(w, n - 1), w.pages[n - 1].tasks);
    }
  }

  /** So no key is returned twice. */
  lemma NothingTwice(w: Walk, i: nat, j: nat)
    requires w.Valid() && i < j < |Returned(w, |w.pages|)|
    ensures CursorOf(Returned(w, |w.pages|)[i]) != CursorOf(Returned(w, |w.pages|)[j])
  {
    var all := Returned(w, |w.pages|);
    StrictlyDecreasing(w, |w.pages|);
    LexTotal(Codes(Text(all[i].id)), Codes(Text(all[j].id)));
  }

  // ---------- nothing missed ----------

  /** The key is held by a task that matches the filter, in every state the walk read. */
  ghost predicate Throughout(w: Walk, key: Cursor) {
    forall i | 0 <= i < |w.states| ::
      && key.id in w.states[i]
      && CursorOf(w.states[i][key.id]) == key
      && (w.status.Some? ==> w.states[i][key.id].status == w.status.value)
  }

  ghost predicate HasKey(ts: seq<Task>, key: Cursor) {
    exists k | 0 <= k < |ts| :: CursorOf(ts[k]) == key
  }

  /** Nothing comes after a task at the zero key, if there is one. */
  ghost predicate ZeroIsLast(tasks: TaskMap) {
    forall i, j | i in tasks && j in tasks && CursorOf(tasks[i]) == ZERO :: !Less(tasks[i], tasks[j])
  }

  predicate KeyAfter(c: Cursor, key: Cursor) {
    After(c, Task(key.id, "", Incomplete, key.createdAt, 0, 0))
  }

  lemma KeyAfterIsAfter(c: Cursor, t: Task)
    ensures After(c, t) <==> KeyAfter(c, CursorOf(t))
  {
  }

  /** After each page, a lasting key has been returned or is still ahead of the cursor. */
  lemma {:induction false} ReturnedOrAhead(w: Walk, n: nat, key: Cursor)
    requires w.Valid() && n <= |w.pages| && Throughout(w, key)
    requires n == 0 || w.Cursor(n) != ZERO
    ensures HasKey(Returned(w, n), key) || KeyAfter(w.Cursor(n), key)
  {
    if n > 0 {
      ReturnedOrAhead(w, n - 1, key);
      var page, t := w.pages[n - 1].tasks, w.states[n - 1][key.id];
      if HasKey(Returned(w, n - 1), key) {
        StaysReturned(w, n, key);
      } else {
        KeyAfterIsAfter(w.Cursor(n - 1), t);
        assert t in Matching(w.states[n - 1], w.Request(n - 1));
        NextIsLast(w, n - 1);
        if t in page {
          InPage(w, n, t);
        } else {
          var last := page[w.limit - 1];
          assert last in Elements(page) && t !in Elements(page);
          PageIsAfter(w, n - 1, last);
          AfterIsLess(last, t);
          KeyAfterIsAfter(w.Cursor(n), t);
        }
      }
    }
  }

  lemma StaysReturned(w: Walk, n: nat, key: Cursor)
    requires 0 < n <= |w.pages| && HasKey(Returned(w, n - 1), key)
    ensures HasKey(Returned(w, n), key)
  {
    var before := Returned(w, n - 1);
    var k :| 0 <= k < |before| && CursorOf(before[k]) == key;
    assert Returned(w, n)[k] == before[k];
  }

  lemma InPage(w: Walk, n: nat, t: Task)
    requires 0 < n <= |w.pages| && t in w.pages[n - 1].tasks
    ensures HasKey(Returned(w, n), CursorOf(t))
  {
    var before, page := Returned(w, n - 1), w.pages[n - 1].tasks;
    var k :| 0 <= k < |page| && page[k] == t;
    assert Returned(w, n)[|before| + k] == t;
  }

  /** The page without a next one has everything that is left. */
  lemma FinalPageIsAll(w: Walk, i: nat)
    requires w.Valid() && i < |w.pages| && w.pages[i].next == ZERO && ZeroIsLast(w.states[i])
    ensures Elements(w.pages[i].tasks) == Matching(w.states[i], w.Request(i))
  {
    var page, all := w.pages[i].tasks, Matching(w.states[i], w.Request(i));
    assert w.PageValid(i);
    if |all| > w.limit {
      SortedSetSize(page);
      SomethingLeft(Elements(page), all);
      var u :| u in all && u !in Elements(page);
      NothingBehindZero(w, i, u);
    }
  }

  lemma NothingBehindZero(w: Walk, i: nat, u: Task)
    requires w.Valid() && i < |w.pages| && w.pages[i].next == ZERO && ZeroIsLast(w.states[i])
    requires |Matching(w.states[i], w.Request(i))| > w.limit
    ensures u in Matching(w.states[i], w.Request(i)) ==> u in Elements(w.pages[i].tasks)
  {
    assert w.PageValid(i);
    var last := w.pages[i].tasks[w.limit - 1];
    assert last in Elements(w.pages[i].tasks);
    PageIsAfter(w, i, last);
  }

  lemma SomethingLeft<T>(a: set<T>, b: set<T>)
    requires a <= b && |a| < |b|
    ensures exists u :: u in b && u !in a
  {
    assert a != b;
  }

  /** Everything returned was stored, as returned, and matched when its page was read. */
  lemma {:induction false} ReturnedWasThere(w: Walk, n: nat, t: Task) returns (i: nat)
    requires w.Valid() && n <= |w.pages| && t in Returned(w, n)
    ensures i < n && t.id in w.states[i] && w.states[i][t.id] == t
    ensures w.status.Some? ==> t.status == w.status.value
  {
    if t in w.pages[n - 1].tasks {
      PageIsAfter(w, n - 1, t);
      i := n - 1;
    } else {
      i := ReturnedWasThere(w, n - 1, t);
    }
  }

  /** A walk that has ended returned every task that was present and matched throughout, exactly once. */
  lemma NothingMissed(w: Walk, key: Cursor)
    requires w.Valid() && w.Ended() && Throughout(w, key)
    requires ZeroIsLast(w.states[|w.states| - 1])
    ensures HasKey(Returned(w, |w.pages|), key)
    ensures forall i, j | 0 <= i < j < |Returned(w, |w.pages|)| ::
      !(CursorOf(Returned(w, |w.pages|)[i]) == key == CursorOf(Returned(w, |w.pages|)[j]))
  {
    EventuallyReturned(w, key);
    forall i, j | 0 <= i < j < |Returned(w, |w.pages|)|
      ensures !(CursorOf(Returned(w, |w.pages|)[i]) == key == CursorOf(Returned(w, |w.pages|)[j]))
    {
      NothingTwice(w, i, j);
    }
  }

  lemma EventuallyReturned(w: Walk, key: Cursor)
    requires w.Valid() && w.Ended() && Throughout(w, key)
    requires ZeroIsLast(w.states[|w.states| - 1])
    ensures HasKey(Returned(w, |w.pages|), key)
  {
    var n := |w.pages| - 1;
    ReturnedOrAhead(w, n, key);
    if HasKey(Returned(w, n), key) {
      StaysReturned(w, n + 1, key);
    } else {
      var t := w.states[n][key.id];
      KeyAfterIsAfter(w.Cursor(n), t);
      FinalPageIsAll(w, n);
      assert t in Matching(w.states[n], w.Request(n));
      InPage(w, n + 1, t);
    }
  }

  /** Stores whose tasks were all created at or after the zero time have nothing after the zero key, and so
    have stores without a task at it. */
  lemma ZeroIsLastWhen(tasks: TaskMap)
    requires Keyed(tasks)
    requires (forall id | id in tasks :: tasks[id].createdAt >= 0) || (forall id | id in tasks :: CursorOf(tasks[id]) != ZERO)
    ensures ZeroIsLast(tasks)
  {
    forall i, j | i in tasks && j in tasks && CursorOf(tasks[i]) == ZERO ensures !Less(tasks[i], tasks[j]) {
      if tasks[i] == tasks[j] { LessTotal(tasks[i], tasks[i]); }
      else { NothingAfterZero(tasks[i], tasks[j]); }
    }
  }

  lemma NothingAfterZero(t: Task, u: Task)
    requires CursorOf(t) == ZERO && u.createdAt >= 0
    ensures !Less(t, u)
  {
    var id := t.id;
    forall i | 0 <= i < 16 ensures id[i] == 0 { assert NIL[i] == 0; }
    NotBelowZeros(u.id, id);
  }

  lemma NotBelowZeros(u: Uuid, zeros: Uuid)
    requires forall i | 0 <= i < 16 :: zeros[i] == 0
    ensures !TextLess(Text(u), Text(zeros))
  {
    TextOrder(u, zeros);
    NothingBelowNil(u, zeros);
  }

  lemma {:induction false} NothingBelowNil(a: seq<Byte>, zeros: seq<Byte>)
    requires |a| == |zeros| && forall i | 0 <= i < |zeros| :: zeros[i] == 0
    ensures !LexLess(a, zeros)
  {
    if a != [] { NothingBelowNil(a[1..], zeros[1..]); }
  }

  // ---------- exactly when a walk can miss a task ----------

  lemma {:induction false} FirstOf(s: set<Task>) returns (first: Task)
    requires s != {} && forall t, u | t in s && u in s && t.id == u.id :: t == u
    ensures first in s && forall u | u in s && u != first :: Less(first, u)
    decreases |s|
  {
    var x :| x in s;
    if s == {x} { return x; }
    var rest := s - {x};
    assert rest != {} by { assert rest == {} ==> s == {x}; }
    first := FirstOf(rest);
    LessTotal(x, first);
    if Less(x, first) {
      forall u | u in s && u != x ensures Less(x, u) {
        if u != first { LessTransitive(x, first, u); }
      }
      first := x;
    }
  }

  lemma {:induction false} SortedOf(s: set<Task>) returns (ts: seq<Task>)
    requires forall t, u | t in s && u in s && t.id == u.id :: t == u
    ensures Sorted(ts) && Elements(ts) == s
    decreases |s|
  {
    if s == {} { return []; }
    var first := FirstOf(s);
    var rest := SortedOf(s - {first});
    ts := [first] + rest;
    forall t, u | t in [first] && u in rest ensures Less(t, u) { assert u in Elements(rest); }
    JoinSorted([first], rest);
    ElementsSplit([first], rest);
    assert Elements([first]) == {first};
  }

  /** All tasks in list order, with the places of two of them. */
  lemma PlacesOf(tasks: TaskMap, t: Task, u: Task) returns (ts: seq<Task>, p: nat, n: nat)
    requires Keyed(tasks) && t.id in tasks && u.id in tasks && tasks[t.id] == t && tasks[u.id] == u && Less(t, u)
    ensures Sorted(ts) && Elements(ts) == Matching(tasks, Query(None, 1, ZERO))
    ensures p < n < |ts| && ts[p] == t && ts[n] == u
  {
    var q := Query(None, 1, ZERO);
    ts := SortedOf(Matching(tasks, q));
    assert Selected(q, t) && Selected(q, u);
    assert t in Elements(ts) && u in Elements(ts);
    p :| 0 <= p < |ts| && ts[p] == t;
    n :| 0 <= n < |ts| && ts[n] == u;
    OrderOfPlaces(ts, p, n);
  }

  lemma OrderOfPlaces(ts: seq<Task>, p: nat, n: nat)
    requires Sorted(ts) && p < |ts| && n < |ts| && Less(ts[p], ts[n])
    ensures p < n
  {
    LessTotal(ts[p], ts[n]);
    LessTotal(ts[p], ts[p]);
  }

  lemma NotInFront(ts: seq<Task>, p: nat, n: nat)
    requires Sorted(ts) && p < n < |ts|
    ensures !HasKey(ts[..p + 1], CursorOf(ts[n]))
  {
    var front := ts[..p + 1];
    forall k | 0 <= k < |front| ensures CursorOf(front[k]) != CursorOf(ts[n]) {
      LessMeansOtherKey(front[k], ts[n]);
    }
  }

  lemma LessMeansOtherKey(t: Task, u: Task)
    requires Less(t, u)
    ensures CursorOf(t) != CursorOf(u)
  {
    LexTotal(Codes(Text(t.id)), Codes(Text(t.id)));
  }

  /** The walk of one page that stops at the zero key. */
  lemma WalkToZero(tasks: TaskMap, t: Task, u: Task) returns (w: Walk)
    requires Keyed(tasks) && t.id in tasks && u.id in tasks && tasks[t.id] == t && tasks[u.id] == u
    requires CursorOf(t) == ZERO && Less(t, u)
    ensures w.Valid() && w.Ended() && w.states == [tasks] && Throughout(w, CursorOf(u))
    ensures !HasKey(Returned(w, |w.pages|), CursorOf(u))
  {
    var ts, p, n := PlacesOf(tasks, t, u);
    w := Walk(None, p + 1, [tasks], [Page(ts[..p + 1], ZERO)]);
    PageToZero(tasks, ts, p);
    assert w.PageValid(0);
    OnlyPage(w);
    NotInFront(ts, p, n);
  }

  lemma OnlyPage(w: Walk)
    requires |w.pages| == 1
    ensures Returned(w, 1) == w.pages[0].tasks
  {
    assert Returned(w, 0) == [];
  }

  lemma PageToZero(tasks: TaskMap, ts: seq<Task>, p: nat)
    requires Sorted(ts) && Elements(ts) == Matching(tasks, Query(None, 1, ZERO))
    requires p + 1 < |ts| && CursorOf(ts[p]) == ZERO
    ensures IsPage(tasks, Query(None, p + 1, ZERO), Page(ts[..p + 1], ZERO))
  {
    var q := Query(None, p + 1, ZERO);
    assert Matching(tasks, q) == Matching(tasks, Query(None, 1, ZERO));
    CutIsPage(tasks, q, ts);
  }

  /** In every walk that ended on these tasks, whatever was there throughout was returned. */
  ghost predicate NeverMisses(tasks: TaskMap) {
    forall w: Walk, key: Cursor | w.Valid() && w.Ended() && w.states[|w.states| - 1] == tasks && Throughout(w, key) ::
      HasKey(Returned(w, |w.pages|), key)
  }

  /** Walks never miss a lasting task exactly when nothing sorts behind a task at the zero key: the cursor of
    that task says "the end". */
  lemma CompleteIffZeroIsLast(tasks: TaskMap)
    requires Keyed(tasks)
    ensures NeverMisses(tasks) <==> ZeroIsLast(tasks)
  {
    if ZeroIsLast(tasks) {
      forall w: Walk, key: Cursor | w.Valid() && w.Ended() && w.states[|w.states| - 1] == tasks && Throughout(w, key)
        ensures HasKey(Returned(w, |w.pages|), key)
      {
        EventuallyReturned(w, key);
      }
    } else {
      var i, j :| i in tasks && j in tasks && CursorOf(tasks[i]) == ZERO && Less(tasks[i], tasks[j]);
      var w := WalkToZero(tasks, tasks[i], tasks[j]);
      assert !HasKey(Returned(w, |w.pages|), CursorOf(tasks[j]));
    }
  }

  // ---------- it ends ----------

  /** The tasks after the position, matching or not. */
  function Ahead(tasks: TaskMap, c: Cursor): set<Uuid> {
    set id | id in tasks && After(c, tasks[id])
  }

  /** Creates nothing at or behind the position in time. */
  ghost predicate CreatesNewer(ops: seq<Op>, c: Cursor) {
    forall i | 0 <= i < |ops| && ops[i].Create? :: ops[i].at > c.createdAt
  }

  lemma {:induction false} WritesLeaveNoMoreAhead(tasks: TaskMap, ops: seq<Op>, c: Cursor)
    requires c != ZERO && CreatesNewer(ops, c) && Keyed(tasks)
    ensures Keyed(ApplyAll(tasks, ops))
    ensures Ahead(ApplyAll(tasks, ops), c) <= Ahead(tasks, c)
  {
    if ops != [] {
      var init, op := ops[..|ops| - 1], ops[|ops| - 1];
      forall i | 0 <= i < |init| && init[i].Create? ensures init[i].at > c.createdAt { assert ops[i] == init[i]; }
      WritesLeaveNoMoreAhead(tasks, init, c);
      var before, after := ApplyAll(tasks, init), ApplyAll(tasks, ops);
      assert op.Create? ==> op == ops[|ops| - 1] && op.at > c.createdAt;
      forall id | id in Ahead(after, c) ensures id in Ahead(before, c) {
        assert after[id] == before[id] || (id == op.id && op.Update? && after[id].createdAt == before[id].createdAt && after[id].id == before[id].id);
      }
    }
  }

  /** What is ahead behind a page was ahead before it, and is not on it. */
  lemma AheadIsNotOnPage(w: Walk, i: nat, last: Task, u: Task)
    requires w.Valid() && i < |w.pages| && last in w.pages[i].tasks && w.pages[i].next == CursorOf(last) != ZERO
    requires After(w.pages[i].next, u)
    ensures After(w.Cursor(i), u) && u !in w.pages[i].tasks
  {
    AfterIsLess(last, u);
    if i > 0 { StillAhead(w, i, last, u); }
    if u in w.pages[i].tasks {
      PageBeforeRest(w, i, u, u);
      LessTotal(u, u);
    }
  }

  /** The page's tasks are ahead before it is read, and not afterwards. */
  lemma PageConsumes(w: Walk, i: nat)
    requires w.Valid() && i < |w.pages| && w.pages[i].next != ZERO
    ensures |Ahead(w.states[i], w.Cursor(i + 1))| + w.limit <= |Ahead(w.states[i], w.Cursor(i))|
  {
    var tasks, page := w.states[i], w.pages[i].tasks;
    var ids := set t | t in page :: t.id;
    var last := LastOf(w, i);
    NextIsLast(w, i);
    PageIsSorted(w, i);
    forall t | t in page ensures t.id in tasks && tasks[t.id] == t && t.id in Ahead(tasks, w.Cursor(i)) { PageIsAfter(w, i, t); }
    SortedIdsSize(tasks, page);
    forall id | id in Ahead(tasks, w.Cursor(i + 1)) ensures id in Ahead(tasks, w.Cursor(i)) && id !in ids {
      AheadIsNotOnPage(w, i, last, tasks[id]);
    }
    DisjointSizes(Ahead(tasks, w.Cursor(i + 1)), ids, Ahead(tasks, w.Cursor(i)));
  }

  lemma StillAhead(w: Walk, i: nat, last: Task, u: Task)
    requires w.Valid() && 0 < i < |w.pages| && last in w.pages[i].tasks && Less(last, u)
    ensures After(w.Cursor(i), u)
  {
    PageIsAfter(w, i, last);
    NextIsLast(w, i - 1);
    var previous := w.pages[i - 1].tasks[w.limit - 1];
    AfterIsLess(previous, last);
    AfterIsLess(previous, u);
    LessTransitive(previous, last, u);
  }

  lemma {:induction false} SortedIdsSize(tasks: TaskMap, page: seq<Task>)
    requires Sorted(page) && forall t | t in page :: t.id in tasks && tasks[t.id] == t
    ensures |set t | t in page :: t.id| == |page|
  {
    if page != [] {
      var init, last := page[..|page| - 1], page[|page| - 1];
      SortedIdsSize(tasks, init);
      LastIsNew(page);
      assert (set t | t in page :: t.id) == (set t | t in init :: t.id) + {last.id};
      assert last in page && last !in init;
      if last.id in (set t | t in init :: t.id) {
        assert false;
      }
    }
  }

  /** The states of the walk are connected by writes. */
  ghost predicate Written(w: Walk, writes: seq<seq<Op>>) {
    |writes| == |w.states| && forall i | 0 < i < |w.states| :: w.states[i] == ApplyAll(w.states[i - 1], writes[i])
  }

  lemma {:induction false} AheadShrinks(w: Walk, writes: seq<seq<Op>>, n: nat)
    requires w.Valid() && n <= |w.pages| && Written(w, writes)
    requires forall i | 0 < i < |w.pages| :: CreatesNewer(writes[i], w.Cursor(i))
    requires forall i | 0 <= i < n :: w.pages[i].next != ZERO
    ensures n > 0 ==> n * w.limit + |Ahead(w.states[n - 1], w.Cursor(n))| <= |w.states[0]|
  {
    if n == 1 {
      PageConsumes(w, 0);
      assert Ahead(w.states[0], ZERO) == w.states[0].Keys;
      assert |w.states[0].Keys| == |w.states[0]|;
    } else if n > 1 {
      AheadShrinks(w, writes, n - 1);
      PageConsumes(w, n - 1);
      assert w.PageValid(n - 2);
      WritesLeaveNoMoreAhead(w.states[n - 2], writes[n - 1], w.Cursor(n - 1));
      SubsetSize(Ahead(w.states[n - 1], w.Cursor(n - 1)), Ahead(w.states[n - 2], w.Cursor(n - 1)));
      assert n * w.limit == (n - 1) * w.limit + w.limit;
    }
  }

  /** If whatever is created meanwhile is newer than the position of the walk, it ends: every page but the
    last one takes `limit` tasks off the ones there were at the start. */
  lemma WalkEnds(w: Walk, writes: seq<seq<Op>>)
    requires w.Valid() && w.pages != [] && Written(w, writes)
    requires forall i | 0 < i < |w.pages| :: CreatesNewer(writes[i], w.Cursor(i))
    ensures (|w.pages| - 1) * w.limit <= |w.states[0]|
    ensures |w.pages| * w.limit > |w.states[0]| ==> w.Ended()
  {
    assert forall i | 0 <= i < |w.pages| - 1 :: w.pages[i].next == w.Cursor(i + 1);
    AheadShrinks(w, writes, |w.pages| - 1);
    if !w.Ended() { AheadShrinks(w, writes, |w.pages|); }
  }
}
