/** One worker pool: which statements it issues, and what it keeps track of. */
module WorkerPool {
  import opened Options
  import opened JobTable
  import opened JobLaws
  import opened JobStore
  import opened FiniteSets

  datatype Outcome = OutSucceeded | OutRetried | OutCancelled | OutDiscarded | OutSnoozed | OutLost

  function OutcomeOf(c: Completion): Outcome {
    match c
    case Succeed => OutSucceeded
    case Retry(_, _) => OutRetried
    case Finalize(to, _) => if to == Cancelled then OutCancelled else OutDiscarded
    case Snooze(_) => OutSnoozed
  }

  /** The outcome that is reported for a job that ended in this state. */
  predicate Names(outcome: Outcome, state: JobState) {
    match outcome
    case OutSucceeded => state == Succeeded
    case OutSnoozed => state == Scheduled
    case OutRetried => state == Retryable
    case OutCancelled => state == Cancelled
    case OutDiscarded => state == Discarded
    case OutLost => false
  }

  predicate Runs(rows: Rows, id: JobId, w: WorkerId) {
    id in rows && RunsUnder(rows[id], w)
  }

  /** The job is running under this worker and this attempt. */
  predicate StillMine(rows: Rows, w: WorkerId, j: Job) {
    Runs(rows, j.id, w) && rows[j.id].attempt == j.attempt
  }

  lemma OutcomeLaw(r: Row, now: Time, w: WorkerId, cause: Cause, attempt: int, maxAttempts: int, fleet: int, backoff: int)
    ensures var c := Decide(cause, attempt, maxAttempts, fleet, backoff);
      && Resolves(r, CompleteRow(r, now, w, c), now, w, cause, attempt, maxAttempts, fleet, backoff)
      && Names(OutcomeOf(c), CompleteRow(r, now, w, c).state)
  {
    CompletionLaw(r, now, w, cause, attempt, maxAttempts, fleet, backoff);
  }

  lemma HeldRuns(rows: Rows, w: WorkerId, ids: set<JobId>)
    ensures Held(rows, w, ids) == ids <==> forall id | id in ids :: Runs(rows, id, w)
    ensures forall id | id in ids :: id in Held(rows, w, ids) <==> Runs(rows, id, w)
  {
  }

  /** How many of the claimed jobs a worker goroutine received, when `room` could be received in all. */
  function HandedOver(jobs: seq<Job>, room: nat): nat {
    if room < |jobs| then room else |jobs|
  }

  class Pool {
    const store: Store
    const workerId: WorkerId
    const batch: nat
    const lease: int
    const fleet: int
    var inflight: map<JobId, bool>  // tracked; true once the handler runs and can be cancelled
    var draining: bool
    var done: bool                  // the context of Run is cancelled

    constructor (store: Store, workerId: WorkerId, batch: nat, lease: int, fleet: int)
      ensures this.store == store && this.workerId == workerId && this.batch == batch
      ensures this.lease == lease && this.fleet == fleet
      ensures inflight == map[] && !draining && !done
    {
      this.store, this.workerId, this.batch, this.lease, this.fleet := store, workerId, batch, lease, fleet;
      inflight, draining, done := map[], false, false;
    }

    /** Claims once and hands the jobs over one by one; the context is cancelled after `room` of them.

      On cancellation only the job that was waiting is handed back. Those behind it stay claimed by this
      worker and tracked by nobody: their leases have to lapse. */
    method ClaimBatch(now: Time, locked: set<JobId>, room: nat) returns (jobs: seq<Job>, more: bool)
      modifies this`inflight, this`done, store`rows
      ensures old(done || draining) ==> jobs == [] && !more && store.rows == old(store.rows) && inflight == old(inflight) && done == old(done)
      ensures !old(done || draining) ==> IsBatch(old(store.rows), now, locked, batch, Ids(jobs)) && |jobs| == |Ids(jobs)|
      ensures !old(done || draining) ==>
        var claimed := ClaimRows(old(store.rows), now, workerId, lease, Ids(jobs));
        var n := HandedOver(jobs, room);
        && more == (n == |jobs| == batch && batch > 0)
        && done == (n < |jobs|)
        && store.rows == (if n < |jobs| then ReleaseRows(claimed, workerId, {jobs[n].id}) else claimed)
        && inflight.Keys == old(inflight.Keys) + Ids(jobs[..n]) - (if n < |jobs| then {jobs[n].id} else {})
      ensures forall j | j in jobs :: j.id in old(store.rows) && j == JobOf(old(store.rows), j.id, now)
      ensures forall i | HandedOver(jobs, room) < i < |jobs| :: jobs[i].id in store.rows && HeldBy(store.rows[jobs[i].id], workerId)
    {
      if done || draining { return [], false; }
      jobs := ClaimOnce(now, locked);
      DistinctIds(jobs);
      Dispatch(jobs, room);
      more := |jobs| > 0 && !done && |jobs| == batch;
    }

    method ClaimOnce(now: Time, locked: set<JobId>) returns (jobs: seq<Job>)
      modifies store`rows
      ensures IsBatch(old(store.rows), now, locked, batch, Ids(jobs)) && |jobs| == |Ids(jobs)|
      ensures store.rows == ClaimRows(old(store.rows), now, workerId, lease, Ids(jobs))
      ensures forall j | j in jobs :: j.id in old(store.rows) && j == JobOf(old(store.rows), j.id, now)
      ensures forall j | j in jobs :: j.id in store.rows && HeldBy(store.rows[j.id], workerId)
    {
      jobs := store.Claim(now, workerId, batch, lease, locked);
    }

    method HandBack(id: JobId)
      modifies store`rows
      ensures store.rows == ReleaseRows(old(store.rows), workerId, {id})
    {
      var _ := store.Release(workerId, {id});
    }

    /** The loop over the claimed jobs: each is tracked before it is handed over. */
    method Dispatch(jobs: seq<Job>, room: nat)
      requires !done
      modifies this`inflight, this`done, store`rows
      ensures done == (HandedOver(jobs, room) < |jobs|)
      ensures store.rows == if done then ReleaseRows(old(store.rows), workerId, {jobs[HandedOver(jobs, room)].id}) else old(store.rows)
      ensures inflight.Keys == old(inflight.Keys) + Ids(jobs[..HandedOver(jobs, room)])
                               - (if done then {jobs[HandedOver(jobs, room)].id} else {})
    {
      var i := 0;
      while i < |jobs|
        invariant 0 <= i <= HandedOver(jobs, room)
        invariant inflight.Keys == old(inflight.Keys) + Ids(jobs[..i])
        invariant !done && store.rows == old(store.rows)
      {
        Track(jobs[i].id, false);
        if i >= room {
          Untrack(jobs[i].id);
          HandBack(jobs[i].id);
          done := true;
          return;
        }
        IdsAppend(jobs[..i], jobs[i]);
        assert jobs[..i + 1] == jobs[..i] + [jobs[i]];
        i := i + 1;
      }
    }

    method Track(id: JobId, running: bool)
      modifies this`inflight
      ensures inflight == old(inflight)[id := running]
    {
      inflight := inflight[id := running];
    }

    method Untrack(id: JobId)
      modifies this`inflight
      ensures inflight == old(inflight) - {id}
    {
      inflight := inflight - {id};
    }

    /** Executes one job whose handler returned `cause`: exactly one completion write, whose kind is decided
      from the cause and the attempt of this claim. `reached` is false if the database could not be reached. */
    method RunJob(now: Time, j: Job, cause: Cause, backoff: int, reached: bool) returns (outcome: Outcome)
      modifies this`inflight, store`rows
      ensures inflight == old(inflight) - {j.id}
      ensures reached ==>
        store.rows == Completed(old(store.rows), now, workerId, j, Decide(cause, j.attempt, j.maxAttempts, fleet, backoff))
      ensures !reached ==> store.rows == old(store.rows)
      ensures outcome == if reached && ClaimGuard(old(store.rows), j.id, workerId, j.attempt)
                         then OutcomeOf(Decide(cause, j.attempt, j.maxAttempts, fleet, backoff)) else OutLost
      ensures outcome == OutLost <==> !reached || !StillMine(old(store.rows), workerId, j)
      ensures outcome == OutLost ==> store.rows == old(store.rows)
      ensures outcome != OutLost ==>
        && j.id in store.rows && store.rows == old(store.rows)[j.id := store.rows[j.id]]
        && Resolves(old(store.rows)[j.id], store.rows[j.id], now, workerId, cause, j.attempt, j.maxAttempts, fleet, backoff)
        && Names(outcome, store.rows[j.id].state)
    {
      if j.id in store.rows {
        OutcomeLaw(store.rows[j.id], now, workerId, cause, j.attempt, j.maxAttempts, fleet, backoff);
      }
      Track(j.id, true);
      var held := false;
      var decided := OutLost;
      if reached {
        decided, held := Write(now, j, cause, backoff);
      }
      outcome := if held then decided else OutLost;
      Untrack(j.id);
      assert old(inflight)[j.id := true] - {j.id} == old(inflight) - {j.id};
    }

    /** Applies the outcome the error implies. */
    method Write(now: Time, j: Job, cause: Cause, backoff: int) returns (outcome: Outcome, held: bool)
      modifies store`rows
      ensures store.rows == Completed(old(store.rows), now, workerId, j, Decide(cause, j.attempt, j.maxAttempts, fleet, backoff))
      ensures outcome == OutcomeOf(Decide(cause, j.attempt, j.maxAttempts, fleet, backoff))
      ensures held == ClaimGuard(old(store.rows), j.id, workerId, j.attempt)
      ensures held == StillMine(old(store.rows), workerId, j)
      ensures held ==>
        && j.id in store.rows && store.rows == old(store.rows)[j.id := store.rows[j.id]]
        && Resolves(old(store.rows)[j.id], store.rows[j.id], now, workerId, cause, j.attempt, j.maxAttempts, fleet, backoff)
        && Names(outcome, store.rows[j.id].state)
    {
      if j.id in store.rows {
        OutcomeLaw(store.rows[j.id], now, workerId, cause, j.attempt, j.maxAttempts, fleet, backoff);
      }
      match cause
      case NoError =>
        held := store.Complete(now, workerId, j, Succeed);
        outcome := OutSucceeded;
      case SnoozeFor(delay) =>
        held := store.Complete(now, workerId, j, Snooze(delay));
        outcome := OutSnoozed;
      case Failure(terminal, transient, text) =>
        if terminal || !transient {
          held := store.Complete(now, workerId, j, Finalize(Cancelled, text));
          outcome := OutCancelled;
        } else if j.attempt >= PoolBudget(fleet, j.maxAttempts) {
          held := store.Complete(now, workerId, j, Finalize(Discarded, text));
          outcome := OutDiscarded;
        } else {
          held := store.Complete(now, workerId, j, Retry(backoff, text));
          outcome := OutRetried;
        }
    }

    /** The tracked jobs, and those among them whose handler can be cancelled. */
    method Snapshot() returns (ids: set<JobId>, cancels: set<JobId>)
      ensures ids == inflight.Keys
      ensures cancels == set id | id in inflight && inflight[id]
    {
      ids, cancels := {}, {};
      var left := inflight.Keys;
      while left != {}
        invariant left <= inflight.Keys && ids == inflight.Keys - left
        invariant cancels == set id | id in inflight && id !in left && inflight[id]
        decreases |left|
      {
        var id :| id in left;
        left := left - {id};
        ids := ids + {id};
        if inflight[id] { cancels := cancels + {id}; }
      }
    }

    /** Extends the leases of the jobs that were found tracked a moment ago. On any shortfall every handler found
      then is cancelled, also when one of the jobs merely finished in between. */
    method Renew(ids: set<JobId>, cancels: set<JobId>, now: Time, reached: bool) returns (cancelled: set<JobId>)
      modifies store`rows
      ensures store.rows == if reached then HeartbeatRows(old(store.rows), now, workerId, lease, ids) else old(store.rows)
      ensures cancelled == if reached && Held(old(store.rows), workerId, ids) != ids then cancels else {}
      ensures cancelled == if reached && exists id | id in ids :: !Runs(old(store.rows), id, workerId) then cancels else {}
    {
      HeldRuns(store.rows, workerId, ids);
      if ids == {} || !reached {
        assert ids == {} ==> HeartbeatRows(store.rows, now, workerId, lease, ids) == store.rows;
        return {};
      }
      var held := store.Heartbeat(now, workerId, ids, lease);
      var all := Held(old(store.rows), workerId, ids);
      assert all <= ids;
      if held == |ids| {
        if all != ids { SmallerSubset(all, ids); assert false; }
        return {};
      }
      cancelled := cancels;
    }

    /** The first thing Stop does. */
    method CloseDraining()
      modifies this`draining
      ensures draining
    {
      draining := true;
    }

    /** The end of Stop's wait, which is over when nothing is tracked any more, or else at the drain deadline: then
      every tracked job is handed back, and no completion write of this worker can match any of them any more. */
    method EndDrain() returns (released: nat)
      requires draining
      modifies store`rows
      ensures released == |Held(old(store.rows), workerId, inflight.Keys)|
      ensures store.rows == ReleaseRows(old(store.rows), workerId, inflight.Keys)
      ensures inflight == map[] ==> store.rows == old(store.rows) && released == 0
      ensures forall id, attempt | id in inflight :: !ClaimGuard(store.rows, id, workerId, attempt)
    {
      if |inflight| == 0 {
        assert ReleaseRows(store.rows, workerId, {}) == store.rows && Held(store.rows, workerId, {}) == {};
        return 0;
      }
      var ids, _ := Snapshot();
      released := store.Release(workerId, ids);
    }
  }

  lemma DistinctIds(jobs: seq<Job>)
    requires |jobs| == |Ids(jobs)|
    ensures forall i, k | 0 <= i < k < |jobs| :: jobs[i].id != jobs[k].id
  {
    forall i, k | 0 <= i < k < |jobs| ensures jobs[i].id != jobs[k].id {
      if jobs[i].id == jobs[k].id {
        var rest := jobs[..k] + jobs[k + 1..];
        assert forall j :: j in jobs ==> j in rest || j == jobs[k];
        assert jobs[i] in rest;
        assert Ids(rest) == Ids(jobs);
        FewIds(rest);
      }
    }
  }

  lemma {:induction false} FewIds(jobs: seq<Job>)
    ensures |Ids(jobs)| <= |jobs|
  {
    if jobs != [] {
      var init, last := jobs[..|jobs| - 1], jobs[|jobs| - 1];
      FewIds(init);
      IdsAppend(init, last);
      assert jobs == init + [last];
    }
  }
}
