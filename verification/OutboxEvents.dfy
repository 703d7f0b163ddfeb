/** The outbox of the write protocol: with fresh task ids, deduplication never drops an event, so every
  committed write has exactly one job. */
module OutboxEvents {
  import opened Options
  import opened Uuids
  import opened Tasks
  import opened TaskEvents
  import opened IdempotentWrites
  import opened IdempotencySerial

  /** The service draws a new id for each task it creates. */
  ghost predicate FreshIds(actions: seq<Action>) {
    actions == [] || (var init, a := actions[..|actions| - 1], actions[|actions| - 1];
                      && FreshIds(init)
                      && (a.Write? && a.op.Create? ==> a.op.id !in Run(init).created))
  }

  function EventsIn(jobs: seq<JobRow>): (es: seq<Event>)
    ensures |es| == |jobs|
  {
    seq(|jobs|, i requires 0 <= i < |jobs| => jobs[i].event)
  }

  ghost predicate Distinct(es: seq<Event>) {
    forall i, j | 0 <= i < j < |es| :: !SameChange(es[i], es[j])
  }

  /** An event of a task that exists is no newer than the task, and not its deletion. */
  predicate NotAhead(e: Event, current: Option<Task>) {
    current.Some? ==> e.version <= current.value.version && e.kind != TaskDeleted
  }

  /** Everything enqueued so far is behind the tasks, as committed and as one transaction sees them. */
  ghost predicate Behind(tasks: TaskMap, es: seq<Event>) {
    forall e | e in es :: NotAhead(e, Lookup(tasks, e.task))
  }

  ghost predicate TxnEvents(s: State, t: Txn) {
    && t.jobs == t.deferred
    && (forall e | e in t.jobs :: e.task in t.writes)
    && t.writes.Keys <= s.created
    && Behind(Overlay(s.db.tasks, t.writes), EventsIn(s.db.jobs) + t.jobs)
    && Distinct(EventsIn(s.db.jobs) + t.jobs)
  }

  ghost predicate EventInv(s: State) {
    && s.db.tasks.Keys <= s.created
    && (forall e | e in EventsIn(s.db.jobs) :: e.task in s.created)
    && Behind(s.db.tasks, EventsIn(s.db.jobs))
    && Distinct(EventsIn(s.db.jobs))
    && EventsIn(s.db.jobs) == EventsOf(map[], CommittedOps(s.log))
    && forall r | r in s.open :: TxnEvents(s, s.open[r])
  }

  // ---------- staging ----------

  /** The event of an accepted write is new. */
  lemma NewEventIsNew(tasks: TaskMap, created: set<Uuid>, es: seq<Event>, op: Op)
    requires Behind(tasks, es) && (forall e | e in es :: e.task in created)
    requires op.Create? ==> op.id !in created
    requires OutcomeOf(tasks, op).Written? && Lookup(tasks, op.id).Some? ==> Lookup(tasks, op.id).value.id == op.id
    requires OutcomeOf(tasks, op).Written?
    ensures var e := EventFor(op, OutcomeOf(tasks, op).task);
      && e.task == op.id
      && (forall f | f in es :: !SameChange(e, f))
      && Behind(Apply(tasks, op), es + [e])
  {
    var e := EventFor(op, OutcomeOf(tasks, op).task);
    forall f | f in es
      ensures !SameChange(e, f) && NotAhead(f, Lookup(Apply(tasks, op), f.task))
    {
      assert NotAhead(f, Lookup(tasks, f.task));
      ApplyLookup(tasks, op, f.task);
    }
    ApplyLookup(tasks, op, op.id);
  }

  lemma {:induction false} ApplyAllKeyed(ops: seq<Op>)
    ensures Keyed(ApplyAll(map[], ops))
  {
    if ops != [] { ApplyAllKeyed(ops[..|ops| - 1]); }
  }

  lemma ApplyAllKeyedFrom(tasks: TaskMap, ops: seq<Op>)
    requires Keyed(tasks)
    ensures Keyed(ApplyAll(tasks, ops))
  {
    if ops != [] { ApplyAllKeyedFrom(tasks, ops[..|ops| - 1]); }
  }

  lemma NotDuplicate(db: Database, staged: seq<Event>, e: Event)
    requires forall f | f in EventsIn(db.jobs) + staged :: !SameChange(e, f)
    ensures !Duplicate(db, staged, e)
  {
    var all := EventsIn(db.jobs) + staged;
    forall i | 0 <= i < |db.jobs| ensures EventId(db.jobs[i].event) != EventId(e) {
      assert all[i] == db.jobs[i].event && all[i] in all;
      EventIdIdentifies(db.jobs[i].event, e);
    }
    forall i | 0 <= i < |staged| ensures EventId(staged[i]) != EventId(e) {
      assert all[|db.jobs| + i] == staged[i] && staged[i] in all;
      EventIdIdentifies(staged[i], e);
    }
  }

  lemma NotWritten(s: State, t: Txn, op: Op, created: set<Uuid>)
    requires TxnEvents(s, t) && s.created <= created && !OutcomeOf(Overlay(s.db.tasks, t.writes), op).Written?
    ensures TxnEvents(s.(created := created), Staged(s.db, t, op))
  {
  }

  /** The events of a transaction after an accepted write. */
  lemma WrittenEvents(s: State, t: Txn, op: Op, created: set<Uuid>, e: Event)
    requires OutcomeOf(Overlay(s.db.tasks, t.writes), op).Written? && e == EventFor(op, OutcomeOf(Overlay(s.db.tasks, t.writes), op).task)
    requires TxnEvents(s, t) && e.task == op.id && op.id in created && s.created <= created && !Duplicate(s.db, t.jobs, e)
    requires forall f | f in EventsIn(s.db.jobs) + t.jobs :: !SameChange(e, f)
    requires Behind(Apply(Overlay(s.db.tasks, t.writes), op), EventsIn(s.db.jobs) + t.jobs + [e])
    ensures TxnEvents(s.(created := created), Staged(s.db, t, op))
  {
    var es, t' := EventsIn(s.db.jobs) + t.jobs, Staged(s.db, t, op);
    assert EventsIn(s.db.jobs) + t'.jobs == es + [e];
    StagedView(s.db, t, op);
    forall i, j | 0 <= i < j < |es + [e]| ensures !SameChange((es + [e])[i], (es + [e])[j]) {
      if j == |es| { assert es[i] in es; }
    }
  }

  lemma StageEvents(s: State, t: Txn, op: Op, created: set<Uuid>)
    requires StagedFaithfully(s.db, t) && Keyed(Overlay(s.db.tasks, t.writes)) && TxnEvents(s, t)
    requires forall e | e in EventsIn(s.db.jobs) :: e.task in s.created
    requires op.Create? ==> op.id !in s.created
    requires created == if op.Create? then s.created + {op.id} else s.created
    requires s.db.tasks.Keys <= s.created
    ensures TxnEvents(s.(created := created), Staged(s.db, t, op))
  {
    var view, es := Overlay(s.db.tasks, t.writes), EventsIn(s.db.jobs) + t.jobs;
    if OutcomeOf(view, op).Written? {
      var e := EventFor(op, OutcomeOf(view, op).task);
      forall f | f in es ensures f.task in s.created { }
      OverlayLookup(s.db.tasks, t.writes, op.id);
      NewEventIsNew(view, s.created, es, op);
      NotDuplicate(s.db, t.jobs, e);
      WrittenEvents(s, t, op, created, e);
    } else {
      NotWritten(s, t, op, created);
    }
  }

  lemma ViewKeyed(s: State, request: RequestId)
    requires IdempotencySerial.Inv(s) && request in s.open
    ensures Keyed(s.db.tasks) && Keyed(Overlay(s.db.tasks, s.open[request].writes))
  {
    ApplyAllKeyed(CommittedOps(s.log));
    ApplyAllKeyedFrom(s.db.tasks, s.open[request].ops);
  }

  lemma WriteEvents(s: State, request: RequestId, op: Op)
    requires IdempotencySerial.Inv(s) && EventInv(s) && request in s.open && !TaskLocked(s, request, op.id)
    requires op.Create? ==> op.id !in s.created
    ensures EventInv(DoWrite(s, request, op))
  {
    var s' := DoWrite(s, request, op);
    ViewKeyed(s, request);
    StageEvents(s, s.open[request], op, s'.created);
    forall r | r in s'.open ensures TxnEvents(s', s'.open[r]) {
      if r != request { assert TxnEvents(s, s.open[r]); }
    }
  }

  // ---------- committing ----------

  lemma EventsInLive(jobs: seq<JobRow>, es: seq<Event>)
    ensures EventsIn(jobs + Live(es)) == EventsIn(jobs) + es
  {
  }

  /** A transaction that stays open while another commits. */
  lemma CommitElsewhereEvents(s: State, s': State, committed: Txn, t: Txn)
    requires TxnEvents(s, committed) && TxnEvents(s, t) && committed.writes.Keys !! t.writes.Keys
    requires s'.db.tasks == Overlay(s.db.tasks, committed.writes)
    requires s'.db.jobs == s.db.jobs + Live(committed.jobs) && s'.created == s.created
    ensures TxnEvents(s', t)
  {
    EventsInLive(s.db.jobs, committed.jobs);
    var earlier, mine, theirs := EventsIn(s.db.jobs), t.jobs, committed.jobs;
    var all := earlier + theirs + mine;
    assert EventsIn(s'.db.jobs) + mine == all;
    forall e | e in all ensures NotAhead(e, Lookup(Overlay(s'.db.tasks, t.writes), e.task)) {
      OverlayLookup(s'.db.tasks, t.writes, e.task);
      OverlayLookup(s.db.tasks, committed.writes, e.task);
      OverlayLookup(s.db.tasks, t.writes, e.task);
      if e in theirs {
        assert e in earlier + theirs;
      } else {
        assert e in earlier + mine;
        if e in earlier { assert e in earlier + theirs; }
      }
    }
    forall i, j | 0 <= i < j < |all| ensures !SameChange(all[i], all[j]) {
      var n, m := |earlier|, |theirs|;
      if j < n + m {
        assert all[i] == (earlier + theirs)[i] && all[j] == (earlier + theirs)[j];
      } else if i < n {
        assert all[i] == (earlier + mine)[i] && all[j] == (earlier + mine)[j - m];
      } else if i < n + m {
        assert all[i] == theirs[i - n] && all[j] == mine[j - n - m];
      } else {
        assert all[i] == (earlier + mine)[i - m] && all[j] == (earlier + mine)[j - m];
      }
    }
  }

  /** The events of a log that grows by one commit. */
  lemma CommittedEvents(s: State, request: RequestId, response: Option<Response>)
    requires IdempotencySerial.Inv(s) && request in s.open
    ensures EventsOf(map[], CommittedOps(DoCommit(s, request, response).log))
      == EventsOf(map[], CommittedOps(s.log)) + s.open[request].deferred
  {
    var t := s.open[request];
    LogOps(s.log, Committed(Commit(t.key, t.row.fingerprint, response, t.ops)));
    OpsAppend(map[], CommittedOps(s.log), t.ops);
    assert StagedFaithfully(s.db, t);
  }

  lemma CommitEvents(s: State, request: RequestId, response: Option<Response>)
    requires IdempotencySerial.Inv(s) && EventInv(s) && request in s.open
    ensures EventInv(DoCommit(s, request, response))
  {
    var t, s' := s.open[request], DoCommit(s, request, response);
    CommittedEvents(s, request, response);
    EventsInLive(s.db.jobs, t.jobs);
    forall r | r in s'.open ensures TxnEvents(s', s'.open[r]) {
      CommitElsewhereEvents(s, s', t, s.open[r]);
    }
  }

  // ---------- every run ----------

  /** Opening, rolling back, finalizing a job and purging leave the tasks and the events alone. */
  lemma SameEvents(s: State, s': State)
    requires EventInv(s)
    requires s'.db.tasks == s.db.tasks && EventsIn(s'.db.jobs) == EventsIn(s.db.jobs)
    requires CommittedOps(s'.log) == CommittedOps(s.log) && s'.created == s.created
    requires forall r | r in s'.open :: (r in s.open && s'.open[r] == s.open[r])
               || (s'.open[r].jobs == [] && s'.open[r].deferred == [] && s'.open[r].writes == map[])
    ensures EventInv(s')
  {
    forall r | r in s'.open ensures TxnEvents(s', s'.open[r]) {
      if r in s.open && s'.open[r] == s.open[r] {
        assert TxnEvents(s, s.open[r]);
      } else {
        assert Overlay(s'.db.tasks, s'.open[r].writes) == s'.db.tasks;
        assert EventsIn(s'.db.jobs) + [] == EventsIn(s'.db.jobs);
      }
    }
  }

  lemma FinalizedEvents(jobs: seq<JobRow>, i: nat)
    requires i < |jobs|
    ensures EventsIn(jobs[i := jobs[i].(live := false)]) == EventsIn(jobs)
  {
  }

  lemma FinishEvents(s: State, request: RequestId, response: Response, commits: bool)
    requires IdempotencySerial.Inv(s) && EventInv(s)
    ensures EventInv(DoFinish(s, request, response, commits)) && EventInv(DoCommitOwn(s, request, commits))
  {
    SameEvents(s, Rollback(s, request));
    if request in s.open {
      CommitEvents(s, request, Some(response));
      CommitEvents(s, request, None);
    }
  }

  lemma EventStep(s: State, a: Action)
    requires IdempotencySerial.Inv(s) && EventInv(s)
    requires a.Write? && a.op.Create? ==> a.op.id !in s.created
    ensures EventInv(Next(s, a))
  {
    match a
    case Write(request, op) =>
      if request in s.open && !TaskLocked(s, request, op.id) { WriteEvents(s, request, op); }
    case Finish(request, response, commits) => FinishEvents(s, request, response, commits);
    case CommitOwn(request, commits) => FinishEvents(s, request, Response(200, "", []), commits);
    case FinalizeJob(i) =>
      if i < |s.db.jobs| { FinalizedEvents(s.db.jobs, i); }
      SameEvents(s, Next(s, a));
    case _ => OtherEvents(s, a);
  }

  lemma EventsAlike(s: State, a: Action)
    requires a.Advance? || a.Reserve? || a.Begin? || a.Abort? || a.Wake? || a.Lose? || a.Purge?
    ensures var s' := Next(s, a);
      && s'.db.tasks == s.db.tasks && s'.db.jobs == s.db.jobs && s'.created == s.created
      && CommittedOps(s'.log) == CommittedOps(s.log)
      && forall r | r in s'.open :: (r in s.open && s'.open[r] == s.open[r])
           || (s'.open[r].jobs == [] && s'.open[r].deferred == [] && s'.open[r].writes == map[])
  {
    LogOps(s.log, PurgedKeys(Expired(s)));
  }

  lemma OtherEvents(s: State, a: Action)
    requires EventInv(s)
    requires a.Advance? || a.Reserve? || a.Begin? || a.Abort? || a.Wake? || a.Lose? || a.Purge?
    ensures EventInv(Next(s, a))
  {
    EventsAlike(s, a);
    SameEvents(s, Next(s, a));
  }

  lemma {:induction false} RunEvents(actions: seq<Action>)
    requires FreshIds(actions)
    ensures EventInv(Run(actions))
  {
    if actions != [] {
      var init := actions[..|actions| - 1];
      RunEvents(init);
      RunInv(init);
      EventStep(Run(init), actions[|actions| - 1]);
    }
  }

  lemma {:induction false} OneEventEach(tasks: TaskMap, ops: seq<Op>)
    requires AllWritten(tasks, ops) && Keyed(tasks)
    ensures |EventsOf(tasks, ops)| == |ops|
    ensures forall i | 0 <= i < |ops| :: EventsOf(tasks, ops)[i].task == ops[i].id
  {
    if ops != [] {
      var init := ops[..|ops| - 1];
      OneEventEach(tasks, init);
      ApplyAllKeyedFrom(tasks, init);
    }
  }

  /** The i-th event tells of the i-th write, and of the task as it was at its turn. */
  lemma {:induction false} EachDescribes(tasks: TaskMap, ops: seq<Op>, i: nat)
    requires AllWritten(tasks, ops) && Keyed(tasks) && i < |ops| == |EventsOf(tasks, ops)|
    ensures Describes(EventsOf(tasks, ops)[i], ops[i], ApplyAll(tasks, ops[..i]))
  {
    var init := ops[..|ops| - 1];
    OneEventEach(tasks, init);
    if i < |init| {
      EachDescribes(tasks, init, i);
      assert init[..i] == ops[..i];
    } else {
      EventDescribes(ApplyAll(tasks, init), ops[i]);
    }
  }

  /** Exactly one outbox job per committed write, in commit order, whatever became of earlier jobs: no event id
    is ever used twice, so the deduplication has nothing to drop. */
  lemma OneJobPerWrite(actions: seq<Action>)
    requires FreshIds(actions)
    ensures var s, ops := Run(actions), CommittedOps(Run(actions).log);
      && EventsIn(s.db.jobs) == EventsOf(map[], ops)
      && |s.db.jobs| == |ops|
      && (forall i | 0 <= i < |ops| :: s.db.jobs[i].event.task == ops[i].id)
      && (forall i | 0 <= i < |ops| :: Describes(s.db.jobs[i].event, ops[i], ApplyAll(map[], ops[..i])))
      && (forall i, j | 0 <= i < j < |s.db.jobs| :: EventId(s.db.jobs[i].event) != EventId(s.db.jobs[j].event))
  {
    RunEvents(actions);
    Serializable(actions);
    var s, ops := Run(actions), CommittedOps(Run(actions).log);
    OneEventEach(map[], ops);
    var es := EventsIn(s.db.jobs);
    forall i, j | 0 <= i < j < |s.db.jobs| ensures EventId(s.db.jobs[i].event) != EventId(s.db.jobs[j].event) {
      assert !SameChange(es[i], es[j]);
      EventIdIdentifies(es[i], es[j]);
    }
    forall i | 0 <= i < |ops|
      ensures es[i] == s.db.jobs[i].event && Describes(s.db.jobs[i].event, ops[i], ApplyAll(map[], ops[..i]))
    {
      EachDescribes(map[], ops, i);
    }
  }
}
