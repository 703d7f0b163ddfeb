/** The outbox's deduplication in any run, also one that uses task ids again: an event is dropped exactly if a live
  job already has its id, and no two live jobs have the same one. */
module OutboxDedup {
  import opened Options
  import opened Uuids
  import opened Tasks
  import opened TaskEvents
  import opened IdempotentWrites
  import opened IdempotencySerial
  import OutboxEvents

  // ---------- marks ----------

  /** No two places carry the same mark. */
  predicate Apart<T(==)>(marks: seq<Option<T>>) {
    forall i, j | 0 <= i < j < |marks| && marks[i].Some? && marks[j].Some? :: marks[i] != marks[j]
  }

  lemma ApartOneMore<T>(marks: seq<Option<T>>, m: Option<T>)
    requires Apart(marks) && m !in marks
    ensures Apart(marks + [m])
  {
  }

  lemma ApartTogether<T>(a: seq<Option<T>>, b: seq<Option<T>>, c: seq<Option<T>>)
    requires Apart(a + b) && Apart(a + c) && forall i, j | 0 <= i < |b| && 0 <= j < |c| :: b[i] != c[j]
    ensures Apart(a + b + c)
  {
    var n, m := |a|, |b|;
    forall i, j | 0 <= i < j < |a + b + c| && (a + b + c)[i].Some? && (a + b + c)[j].Some?
      ensures (a + b + c)[i] != (a + b + c)[j]
    {
      if j < n + m { assert (a + b)[i] == (a + b + c)[i] && (a + b)[j] == (a + b + c)[j]; }
      else if i < n { assert (a + c)[i] == a[i] && (a + c)[j - m] == c[j - n - m]; }
      else if i < n + m { assert (a + b + c)[i] == b[i - n] && (a + b + c)[j] == c[j - n - m]; }
      else { assert (a + c)[i - m] == c[i - n - m] && (a + c)[j - m] == c[j - n - m]; }
    }
  }

  lemma ApartFewer<T>(marks: seq<Option<T>>, fewer: seq<Option<T>>)
    requires Apart(marks) && |fewer| == |marks| && forall i | 0 <= i < |marks| :: fewer[i] == marks[i] || fewer[i] == None
    ensures Apart(fewer)
  {
  }

  // ---------- the ids of live jobs and of staged events ----------

  function LiveIds(jobs: seq<JobRow>): (marks: seq<Option<string>>)
    ensures |marks| == |jobs|
  {
    seq(|jobs|, i requires 0 <= i < |jobs| => if jobs[i].live then Some(EventId(jobs[i].event)) else None)
  }

  function StagedIds(staged: seq<Event>): (marks: seq<Option<string>>)
    ensures |marks| == |staged|
  {
    seq(|staged|, i requires 0 <= i < |staged| => Some(EventId(staged[i])))
  }

  /** What a transaction has staged is about tasks it has locked, and clashes with nothing live. */
  ghost predicate StagedApart(jobs: seq<JobRow>, t: Txn) {
    && (forall e | e in t.jobs :: e.task in t.writes)
    && Apart(LiveIds(jobs) + StagedIds(t.jobs))
  }

  ghost predicate DedupInv(s: State) {
    Apart(LiveIds(s.db.jobs)) && forall r | r in s.open :: StagedApart(s.db.jobs, s.open[r])
  }

  // ---------- staging ----------

  lemma LiveIsMark(jobs: seq<JobRow>, id: string)
    ensures (exists i | 0 <= i < |jobs| :: jobs[i].live && EventId(jobs[i].event) == id) <==> Some(id) in LiveIds(jobs)
  {
    var marks := LiveIds(jobs);
    forall i | 0 <= i < |jobs| ensures marks[i] == Some(id) <==> jobs[i].live && EventId(jobs[i].event) == id {}
  }

  lemma StagedIsMark(staged: seq<Event>, id: string)
    ensures (exists i | 0 <= i < |staged| :: EventId(staged[i]) == id) <==> Some(id) in StagedIds(staged)
  {
    var marks := StagedIds(staged);
    forall i | 0 <= i < |staged| ensures marks[i] == Some(id) <==> EventId(staged[i]) == id {}
  }

  lemma DuplicateIsMark(db: Database, staged: seq<Event>, e: Event)
    ensures Duplicate(db, staged, e) <==> Some(EventId(e)) in LiveIds(db.jobs) + StagedIds(staged)
  {
    LiveIsMark(db.jobs, EventId(e));
    StagedIsMark(staged, EventId(e));
  }

  /** An accepted write stages its event, unless a live job or an event staged before it has the same id. */
  lemma DroppedIff(db: Database, t: Txn, op: Op)
    requires OutcomeOf(Overlay(db.tasks, t.writes), op).Written?
    ensures var e, t' := EventFor(op, OutcomeOf(Overlay(db.tasks, t.writes), op).task), Staged(db, t, op);
      && Describes(e, op, Overlay(db.tasks, t.writes))
      && t'.jobs == (if Some(EventId(e)) in LiveIds(db.jobs) + StagedIds(t.jobs) then t.jobs else t.jobs + [e])
      && t'.deferred == t.deferred + [e] && t'.ops == t.ops + [op]
      && t'.writes.Keys == t.writes.Keys + {op.id} && t'.key == t.key && t'.row == t.row
  {
    EventDescribes(Overlay(db.tasks, t.writes), op);
    DuplicateIsMark(db, t.jobs, EventFor(op, OutcomeOf(Overlay(db.tasks, t.writes), op).task));
  }

  lemma OneMoreApart(jobs: seq<JobRow>, t: Txn, t': Txn, e: Event)
    requires StagedApart(jobs, t) && t.writes.Keys + {e.task} <= t'.writes.Keys
    requires t'.jobs == t.jobs || (t'.jobs == t.jobs + [e] && Some(EventId(e)) !in LiveIds(jobs) + StagedIds(t.jobs))
    ensures StagedApart(jobs, t')
  {
    if t'.jobs != t.jobs {
      ApartOneMore(LiveIds(jobs) + StagedIds(t.jobs), Some(EventId(e)));
      assert LiveIds(jobs) + StagedIds(t'.jobs) == LiveIds(jobs) + StagedIds(t.jobs) + [Some(EventId(e))];
    }
  }

  lemma StageApart(db: Database, t: Txn, op: Op)
    requires StagedApart(db.jobs, t) && Keyed(Overlay(db.tasks, t.writes))
    ensures StagedApart(db.jobs, Staged(db, t, op))
  {
    var view := Overlay(db.tasks, t.writes);
    if OutcomeOf(view, op).Written? {
      DroppedIff(db, t, op);
      OneMoreApart(db.jobs, t, Staged(db, t, op), EventFor(op, OutcomeOf(view, op).task));
    }
  }

  // ---------- committing ----------

  lemma LiveIdsAppended(jobs: seq<JobRow>, staged: seq<Event>)
    ensures LiveIds(jobs + Live(staged)) == LiveIds(jobs) + StagedIds(staged)
  {
  }

  /** Events of different tasks have different ids. */
  lemma OtherTasksOtherIds(a: seq<Event>, b: seq<Event>, ids: set<Uuid>)
    requires (forall e | e in a :: e.task in ids) && (forall e | e in b :: e.task !in ids)
    ensures forall i, j | 0 <= i < |a| && 0 <= j < |b| :: StagedIds(a)[i] != StagedIds(b)[j]
  {
    forall i, j | 0 <= i < |a| && 0 <= j < |b| ensures StagedIds(a)[i] != StagedIds(b)[j] {
      assert a[i] in a && b[j] in b;
      EventIdIdentifies(a[i], b[j]);
    }
  }

  lemma CommitApart(s: State, request: RequestId, response: Option<Response>)
    requires Inv(s) && DedupInv(s) && request in s.open
    ensures DedupInv(DoCommit(s, request, response))
  {
    var t, s' := s.open[request], DoCommit(s, request, response);
    LiveIdsAppended(s.db.jobs, t.jobs);
    forall r | r in s'.open ensures StagedApart(s'.db.jobs, s'.open[r]) {
      var u := s.open[r];
      assert StagedApart(s.db.jobs, u) && u.writes.Keys !! t.writes.Keys;
      OtherTasksOtherIds(t.jobs, u.jobs, t.writes.Keys);
      ApartTogether(LiveIds(s.db.jobs), StagedIds(t.jobs), StagedIds(u.jobs));
    }
  }

  // ---------- every run ----------

  lemma FewerMarks(jobs: seq<JobRow>, jobs': seq<JobRow>)
    requires |jobs'| == |jobs|
    requires forall i | 0 <= i < |jobs| :: jobs'[i].event == jobs[i].event && (jobs'[i].live ==> jobs[i].live)
    ensures forall i | 0 <= i < |jobs| :: LiveIds(jobs')[i] == LiveIds(jobs)[i] || LiveIds(jobs')[i] == None
  {
  }

  /** No job becomes live, and no transaction stages anything. */
  lemma FewerLive(s: State, s': State)
    requires DedupInv(s) && |s'.db.jobs| == |s.db.jobs|
    requires forall i | 0 <= i < |s.db.jobs| :: s'.db.jobs[i].event == s.db.jobs[i].event && (s'.db.jobs[i].live ==> s.db.jobs[i].live)
    requires forall r | r in s'.open :: (r in s.open && s'.open[r] == s.open[r]) || s'.open[r].jobs == []
    ensures DedupInv(s')
  {
    var before, after := LiveIds(s.db.jobs), LiveIds(s'.db.jobs);
    FewerMarks(s.db.jobs, s'.db.jobs);
    ApartFewer(before, after);
    forall r | r in s'.open ensures StagedApart(s'.db.jobs, s'.open[r]) {
      var mine := StagedIds(s'.open[r].jobs);
      if s'.open[r].jobs == [] {
        assert after + mine == after;
      } else {
        ApartFewer(before + mine, after + mine);
      }
    }
  }

  lemma OthersAlike(s: State, a: Action)
    requires !a.Write? && !a.Finish? && !a.CommitOwn?
    ensures var s' := Next(s, a);
      && |s'.db.jobs| == |s.db.jobs|
      && (forall i | 0 <= i < |s.db.jobs| :: s'.db.jobs[i].event == s.db.jobs[i].event && (s'.db.jobs[i].live ==> s.db.jobs[i].live))
      && (forall r | r in s'.open :: (r in s.open && s'.open[r] == s.open[r]) || s'.open[r].jobs == [])
  {
  }

  lemma WriteApart(s: State, request: RequestId, op: Op)
    requires Inv(s) && DedupInv(s)
    ensures DedupInv(DoWrite(s, request, op))
  {
    if request in s.open {
      OutboxEvents.ViewKeyed(s, request);
      StageApart(s.db, s.open[request], op);
    }
  }

  lemma EndApart(s: State, request: RequestId, response: Response, commits: bool)
    requires Inv(s) && DedupInv(s)
    ensures DedupInv(DoFinish(s, request, response, commits)) && DedupInv(DoCommitOwn(s, request, commits))
  {
    FewerLive(s, Rollback(s, request));
    if request in s.open {
      CommitApart(s, request, Some(response));
      CommitApart(s, request, None);
    }
  }

  lemma OtherApart(s: State, a: Action)
    requires DedupInv(s) && !a.Write? && !a.Finish? && !a.CommitOwn?
    ensures DedupInv(Next(s, a))
  {
    OthersAlike(s, a);
    FewerLive(s, Next(s, a));
  }

  lemma DedupStep(s: State, a: Action)
    requires Inv(s) && DedupInv(s)
    ensures DedupInv(Next(s, a))
  {
    match a
    case Write(request, op) => WriteApart(s, request, op);
    case Finish(request, response, commits) => EndApart(s, request, response, commits);
    case CommitOwn(request, commits) => EndApart(s, request, Response(200, "", []), commits);
    case _ => OtherApart(s, a);
  }

  lemma {:induction false} RunDedup(actions: seq<Action>)
    ensures DedupInv(Run(actions))
  {
    if actions != [] {
      RunDedup(actions[..|actions| - 1]);
      RunInv(actions[..|actions| - 1]);
      DedupStep(Run(actions[..|actions| - 1]), actions[|actions| - 1]);
    }
  }

  /** In every run no two live jobs tell of the same change. */
  lemma OneLiveJobPerChange(actions: seq<Action>, i: nat, j: nat)
    requires var jobs := Run(actions).db.jobs; i < j < |jobs| && jobs[i].live && jobs[j].live
    ensures !SameChange(Run(actions).db.jobs[i].event, Run(actions).db.jobs[j].event)
  {
    RunDedup(actions);
    var jobs := Run(actions).db.jobs;
    assert LiveIds(jobs)[i] != LiveIds(jobs)[j];
    EventIdIdentifies(jobs[i].event, jobs[j].event);
  }
}
