/** Every interleaving of requests is equivalent to running the committed ones one after the other, in commit
  order. */
module IdempotencySerial {
  import opened Options
  import opened Uuids
  import opened Tasks
  import opened TaskEvents
  import opened IdempotentWrites

  /** The writes of all commits, in commit order. */
  function CommittedOps(log: seq<LogEntry>): seq<Op> {
    if log == [] then []
    else CommittedOps(log[..|log| - 1]) + if log[|log| - 1].Committed? then log[|log| - 1].commit.ops else []
  }

  /** The events of a sequence of writes, each with the task as it was at its turn. */
  function EventsOf(tasks: TaskMap, ops: seq<Op>): seq<Event> {
    if ops == [] then []
    else
      var init, op := ops[..|ops| - 1], ops[|ops| - 1];
      var result := OutcomeOf(ApplyAll(tasks, init), op);
      EventsOf(tasks, init) + if result.Written? then [EventFor(op, result.task)] else []
  }

  // ---------- sequences of writes compose ----------

  lemma OneMoreOp(tasks: TaskMap, ops: seq<Op>, op: Op)
    ensures ApplyAll(tasks, ops + [op]) == Apply(ApplyAll(tasks, ops), op)
    ensures AllWritten(tasks, ops + [op]) <==> AllWritten(tasks, ops) && OutcomeOf(ApplyAll(tasks, ops), op).Written?
    ensures var result := OutcomeOf(ApplyAll(tasks, ops), op);
      EventsOf(tasks, ops + [op]) == EventsOf(tasks, ops) + if result.Written? then [EventFor(op, result.task)] else []
  {
    assert (ops + [op])[..|ops + [op]| - 1] == ops;
  }

  /** The writes `all` are those of `a` and then, on what these leave, those of `b`. */
  ghost predicate Composes(tasks: TaskMap, all: seq<Op>, a: seq<Op>, b: seq<Op>) {
    && ApplyAll(tasks, all) == ApplyAll(ApplyAll(tasks, a), b)
    && (AllWritten(tasks, all) <==> AllWritten(tasks, a) && AllWritten(ApplyAll(tasks, a), b))
    && EventsOf(tasks, all) == EventsOf(tasks, a) + EventsOf(ApplyAll(tasks, a), b)
  }

  lemma ComposesOne(tasks: TaskMap, all: seq<Op>, a: seq<Op>, b: seq<Op>, last: Op)
    requires Composes(tasks, all, a, b)
    ensures Composes(tasks, all + [last], a, b + [last])
  {
    OneMoreOp(tasks, all, last);
    OneMoreOp(ApplyAll(tasks, a), b, last);
  }

  lemma ComposesNone(tasks: TaskMap, a: seq<Op>)
    ensures Composes(tasks, a, a, [])
  {
  }

  lemma {:induction false} OpsComposed(tasks: TaskMap, a: seq<Op>, b: seq<Op>) returns (all: seq<Op>)
    ensures all == a + b && Composes(tasks, all, a, b)
  {
    if b == [] {
      all := a;
      ComposesNone(tasks, a);
    } else {
      var init, last := b[..|b| - 1], b[|b| - 1];
      var front := OpsComposed(tasks, a, init);
      all := front + [last];
      ComposesOne(tasks, front, a, init, last);
      assert b == init + [last];
    }
  }

  lemma OpsAppend(tasks: TaskMap, a: seq<Op>, b: seq<Op>)
    ensures Composes(tasks, a + b, a, b)
  {
    var _ := OpsComposed(tasks, a, b);
  }

  // ---------- a write depends on its own task only ----------

  ghost predicate AgreeOn(t: TaskMap, u: TaskMap, ids: set<Uuid>) {
    forall id | id in ids :: Lookup(t, id) == Lookup(u, id)
  }

  ghost predicate OpsWithin(ops: seq<Op>, ids: set<Uuid>) {
    forall op | op in ops :: op.id in ids
  }

  lemma ApplyLookup(tasks: TaskMap, op: Op, id: Uuid)
    ensures Lookup(Apply(tasks, op), id)
      == if id == op.id then Effect(Lookup(tasks, id), op).0 else Lookup(tasks, id)
  {
  }

  /** Writes to the tasks of `ids` do the same to any two stores that agree on those, and nothing else. */
  lemma {:induction false} OpsLocal(t: TaskMap, u: TaskMap, ops: seq<Op>, ids: set<Uuid>)
    requires AgreeOn(t, u, ids) && OpsWithin(ops, ids)
    ensures AgreeOn(ApplyAll(t, ops), ApplyAll(u, ops), ids)
    ensures AllWritten(t, ops) <==> AllWritten(u, ops)
    ensures EventsOf(t, ops) == EventsOf(u, ops)
    ensures forall id | id !in ids :: Lookup(ApplyAll(u, ops), id) == Lookup(u, id)
  {
    if ops != [] {
      var init, op := ops[..|ops| - 1], ops[|ops| - 1];
      assert forall o | o in init :: o in ops;
      assert op in ops;
      OpsLocal(t, u, init, ids);
      forall id: Uuid
        ensures id in ids ==> Lookup(ApplyAll(t, ops), id) == Lookup(ApplyAll(u, ops), id)
        ensures id !in ids ==> Lookup(ApplyAll(u, ops), id) == Lookup(u, id)
      {
        ApplyLookup(ApplyAll(t, init), op, id);
        ApplyLookup(ApplyAll(u, init), op, id);
      }
    }
  }

  lemma OverlayLookup(tasks: TaskMap, writes: map<Uuid, Option<Task>>, id: Uuid)
    ensures Lookup(Overlay(tasks, writes), id) == if id in writes then writes[id] else Lookup(tasks, id)
  {
  }

  lemma SameLookups(t: TaskMap, u: TaskMap)
    requires forall id: Uuid :: Lookup(t, id) == Lookup(u, id)
    ensures t == u
  {
    forall id: Uuid ensures id in t <==> id in u { assert Lookup(t, id) == Lookup(u, id); }
    forall id: Uuid | id in t ensures t[id] == u[id] { assert Lookup(t, id) == Lookup(u, id); }
  }

  // ---------- the invariant ----------

  /** What a transaction has staged is what its writes do to the committed tasks, whatever else commits. */
  ghost predicate StagedFaithfully(db: Database, t: Txn) {
    && OpsWithin(t.ops, t.writes.Keys)
    && AllWritten(db.tasks, t.ops)
    && ApplyAll(db.tasks, t.ops) == Overlay(db.tasks, t.writes)
    && EventsOf(db.tasks, t.ops) == t.deferred
  }

  ghost predicate LocksDisjoint(s: State) {
    forall r, q | r in s.open && q in s.open && r != q :: s.open[r].writes.Keys !! s.open[q].writes.Keys
  }

  ghost predicate Serial(s: State) {
    && AllWritten(map[], CommittedOps(s.log))
    && s.db.tasks == ApplyAll(map[], CommittedOps(s.log))
  }

  ghost predicate Inv(s: State) {
    && LocksDisjoint(s)
    && (forall r | r in s.open :: StagedFaithfully(s.db, s.open[r]))
    && Serial(s)
  }

  /** What the transaction sees after an accepted write. */
  lemma StagedView(db: Database, t: Txn, op: Op)
    requires OutcomeOf(Overlay(db.tasks, t.writes), op).Written?
    ensures Overlay(db.tasks, Staged(db, t, op).writes) == Apply(Overlay(db.tasks, t.writes), op)
  {
    var view, t' := Overlay(db.tasks, t.writes), Staged(db, t, op);
    forall id: Uuid
      ensures Lookup(Overlay(db.tasks, t'.writes), id) == Lookup(Apply(view, op), id)
    {
      OverlayLookup(db.tasks, t'.writes, id);
      OverlayLookup(db.tasks, t.writes, id);
      ApplyLookup(view, op, id);
    }
    SameLookups(Overlay(db.tasks, t'.writes), Apply(view, op));
  }

  lemma StageKeeps(db: Database, t: Txn, op: Op)
    requires StagedFaithfully(db, t)
    ensures StagedFaithfully(db, Staged(db, t, op))
  {
    var t' := Staged(db, t, op);
    if OutcomeOf(Overlay(db.tasks, t.writes), op).Written? {
      assert t'.ops[..|t'.ops| - 1] == t.ops;
      StagedView(db, t, op);
    }
  }

  /** A commit elsewhere does not disturb what is staged here. */
  lemma CommitElsewhere(db: Database, db': Database, committed: Txn, t: Txn)
    requires StagedFaithfully(db, t) && committed.writes.Keys !! t.writes.Keys
    requires db'.tasks == Overlay(db.tasks, committed.writes)
    ensures StagedFaithfully(db', t)
  {
    forall id: Uuid { OverlayLookup(db.tasks, committed.writes, id); }
    OpsLocal(db.tasks, db'.tasks, t.ops, t.writes.Keys);
    forall id: Uuid
      ensures Lookup(ApplyAll(db'.tasks, t.ops), id) == Lookup(Overlay(db'.tasks, t.writes), id)
    {
      OverlayLookup(db'.tasks, t.writes, id);
      OverlayLookup(db.tasks, t.writes, id);
    }
    SameLookups(ApplyAll(db'.tasks, t.ops), Overlay(db'.tasks, t.writes));
  }

  lemma LogOps(log: seq<LogEntry>, e: LogEntry)
    ensures CommittedOps(log + [e]) == CommittedOps(log) + if e.Committed? then e.commit.ops else []
  {
    assert (log + [e])[..|log + [e]| - 1] == log;
  }

  lemma CommitKeeps(s: State, request: RequestId, response: Option<Response>)
    requires Inv(s) && request in s.open
    ensures Inv(DoCommit(s, request, response))
  {
    var t, s' := s.open[request], DoCommit(s, request, response);
    LogOps(s.log, Committed(Commit(t.key, t.row.fingerprint, response, t.ops)));
    OpsAppend(map[], CommittedOps(s.log), t.ops);
    forall r | r in s'.open ensures StagedFaithfully(s'.db, s'.open[r]) {
      CommitElsewhere(s.db, s'.db, t, s.open[r]);
    }
  }

  lemma WriteLocks(s: State, request: RequestId, op: Op)
    requires LocksDisjoint(s) && request in s.open && !TaskLocked(s, request, op.id)
    ensures LocksDisjoint(DoWrite(s, request, op))
  {
    var s' := DoWrite(s, request, op);
    assert s'.open[request].writes.Keys <= s.open[request].writes.Keys + {op.id};
    forall r, q | r in s'.open && q in s'.open && r != q
      ensures s'.open[r].writes.Keys !! s'.open[q].writes.Keys
    {
    }
  }

  lemma WriteKeeps(s: State, request: RequestId, op: Op)
    requires Inv(s) && request in s.open && !TaskLocked(s, request, op.id)
    ensures Inv(DoWrite(s, request, op))
  {
    var s' := DoWrite(s, request, op);
    WriteLocks(s, request, op);
    StageKeeps(s.db, s.open[request], op);
    forall r | r in s'.open ensures StagedFaithfully(s'.db, s'.open[r]) {
      assert r == request || StagedFaithfully(s.db, s.open[r]);
    }
  }

  lemma NothingStaged(db: Database, t: Txn)
    requires t.ops == [] && t.writes == map[] && t.deferred == []
    ensures StagedFaithfully(db, t)
  {
    assert Overlay(db.tasks, t.writes) == db.tasks;
  }

  /** A new transaction has staged nothing. */
  lemma OpenKeeps(s: State, request: RequestId, t: Txn)
    requires Inv(s) && request !in s.open && t.ops == [] && t.writes == map[] && t.deferred == []
    ensures Inv(s.(open := s.open[request := t]))
  {
    NothingStaged(s.db, t);
    var s' := s.(open := s.open[request := t]);
    forall r | r in s'.open ensures StagedFaithfully(s'.db, s'.open[r]) {
      assert r == request || StagedFaithfully(s.db, s.open[r]);
    }
  }

  /** Nothing here depends on the outbox rows or the keys. */
  lemma SameTasksKeep(s: State, s': State)
    requires Inv(s) && s'.db.tasks == s.db.tasks && s'.open == s.open
    requires CommittedOps(s'.log) == CommittedOps(s.log)
    ensures Inv(s')
  {
    forall r | r in s'.open ensures StagedFaithfully(s'.db, s'.open[r]) {
      assert StagedFaithfully(s.db, s.open[r]);
    }
  }

  lemma RollbackKeeps(s: State, request: RequestId)
    requires Inv(s)
    ensures Inv(Rollback(s, request))
  {
  }

  lemma FinishKeeps(s: State, request: RequestId, response: Response, commits: bool)
    requires Inv(s)
    ensures Inv(DoFinish(s, request, response, commits))
  {
    RollbackKeeps(s, request);
    if request in s.open { CommitKeeps(s, request, Some(response)); }
  }

  lemma CommitOwnKeeps(s: State, request: RequestId, commits: bool)
    requires Inv(s)
    ensures Inv(DoCommitOwn(s, request, commits))
  {
    RollbackKeeps(s, request);
    if request in s.open { CommitKeeps(s, request, None); }
  }

  lemma ReserveOpens(s: State, request: RequestId, key: Key, fingerprint: Fingerprint, ttl: int)
    ensures DoReserve(s, request, key, fingerprint, ttl) == s
      || (request !in s.open && DoReserve(s, request, key, fingerprint, ttl)
            == s.(open := s.open[request := Txn(Some(key), KeyRow(fingerprint, None, s.now + ttl), [], map[], [], [])]))
  {
  }

  lemma ReserveKeeps(s: State, request: RequestId, key: Key, fingerprint: Fingerprint, ttl: int)
    requires Inv(s)
    ensures Inv(DoReserve(s, request, key, fingerprint, ttl))
  {
    ReserveOpens(s, request, key, fingerprint, ttl);
    if request !in s.open {
      OpenKeeps(s, request, Txn(Some(key), KeyRow(fingerprint, None, s.now + ttl), [], map[], [], []));
    }
  }

  lemma OtherKeeps(s: State, a: Action)
    requires Inv(s) && (a.Advance? || a.Wake? || a.Lose? || a.FinalizeJob? || a.Purge?)
    ensures Inv(Next(s, a))
  {
    LogOps(s.log, PurgedKeys(Expired(s)));
    SameTasksKeep(s, Next(s, a));
  }

  lemma BeginKeeps(s: State, request: RequestId)
    requires Inv(s)
    ensures Inv(Next(s, Begin(request)))
  {
    if request !in s.open { OpenKeeps(s, request, Txn(None, KeyRow([], None, 0), [], map[], [], [])); }
  }

  lemma WriteStep(s: State, request: RequestId, op: Op)
    requires Inv(s)
    ensures Inv(DoWrite(s, request, op))
  {
    if request in s.open && !TaskLocked(s, request, op.id) { WriteKeeps(s, request, op); }
  }

  lemma Step(s: State, a: Action)
    requires Inv(s)
    ensures Inv(Next(s, a))
  {
    match a
    case Reserve(request, key, fingerprint, ttl) => ReserveKeeps(s, request, key, fingerprint, ttl);
    case Begin(request) => BeginKeeps(s, request);
    case Write(request, op) => WriteStep(s, request, op);
    case Finish(request, response, commits) => FinishKeeps(s, request, response, commits);
    case CommitOwn(request, commits) => CommitOwnKeeps(s, request, commits);
    case Abort(request) => RollbackKeeps(s, request);
    case _ => OtherKeeps(s, a);
  }

  lemma {:induction false} RunInv(actions: seq<Action>)
    ensures Inv(Run(actions))
  {
    if actions != [] {
      RunInv(actions[..|actions| - 1]);
      Step(Run(actions[..|actions| - 1]), actions[|actions| - 1]);
    }
  }

  /** The committed tasks are those of the committed requests run one after the other, in commit order, each
    of whose writes was accepted at its turn. */
  lemma Serializable(actions: seq<Action>)
    ensures var s, ops := Run(actions), CommittedOps(Run(actions).log);
      AllWritten(map[], ops) && s.db.tasks == ApplyAll(map[], ops)
  {
    RunInv(actions);
  }
}
