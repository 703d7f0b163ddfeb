/** The queue's Store: one method per statement, over a table that each call updates in place. */
module JobStore {
  import opened Options
  import opened JobTable
  import opened JobLaws
  import opened FiniteSets

  /** A job as the claim statement returns it. */
  datatype Job = Job(id: JobId, kind: string, payload: string, attempt: int, maxAttempts: int, waited: int)

  datatype EnqueueResult = Inserted(id: JobId) | Deduplicated | Refused

  const PURGE_BATCH := 10000

  /** ORDER BY priority, scheduled_at, id. */
  predicate Sooner(rows: Rows, a: JobId, b: JobId)
    requires a in rows && b in rows
  {
    || rows[a].priority < rows[b].priority
    || (rows[a].priority == rows[b].priority &&
        (rows[a].scheduledAt < rows[b].scheduledAt || (rows[a].scheduledAt == rows[b].scheduledAt && a < b)))
  }

  /** The rows the claim's inner SELECT sees: claimable, and not locked by another transaction. */
  function Eligible(rows: Rows, now: Time, locked: set<JobId>): set<JobId> {
    set id | id in rows && id !in locked && Claimable(rows[id], now)
  }

  /** The first `batch` eligible rows in claim order. */
  ghost predicate IsBatch(rows: Rows, now: Time, locked: set<JobId>, batch: nat, chosen: set<JobId>) {
    && chosen <= Eligible(rows, now, locked)
    && |chosen| <= batch
    && (|chosen| < batch ==> chosen == Eligible(rows, now, locked))
    && forall a, b | a in chosen && b in Eligible(rows, now, locked) && b !in chosen :: Sooner(rows, a, b)
  }

  lemma BatchLaw(rows: Rows, now: Time, locked: set<JobId>, batch: nat, chosen: set<JobId>)
    requires IsBatch(rows, now, locked, batch, chosen)
    ensures |chosen| <= batch && (forall id | id in chosen :: MayClaim(rows, now, locked, id))
    ensures forall a, b | a in chosen && MayClaim(rows, now, locked, b) && b !in chosen :: ComesFirst(rows[a], a, rows[b], b)
    ensures |chosen| < batch ==> forall b | MayClaim(rows, now, locked, b) :: b in chosen
  {
    assert forall b | MayClaim(rows, now, locked, b) :: b in Eligible(rows, now, locked);
  }

  /** Priority, due time and id decide the batch completely. */
  lemma BatchIsUnique(rows: Rows, now: Time, locked: set<JobId>, batch: nat, c: set<JobId>, d: set<JobId>)
    requires IsBatch(rows, now, locked, batch, c) && IsBatch(rows, now, locked, batch, d)
    ensures c == d
  {
    if c != d {
      if c <= d { SmallerSubset(c, d); assert false; }
      if d <= c { SmallerSubset(d, c); assert false; }
      var a :| a in c && a !in d;
      var b :| b in d && b !in c;
      assert false;
    }
  }

  function Ids(jobs: seq<Job>): set<JobId> {
    set j | j in jobs :: j.id
  }

  function Held(rows: Rows, w: WorkerId, ids: set<JobId>): set<JobId> {
    set id | id in rows && id in ids && HeldBy(rows[id], w)
  }

  function LapsedIds(rows: Rows, now: Time): set<JobId> {
    set id | id in rows && Lapsed(rows[id], now)
  }

  function PurgeableIds(rows: Rows, now: Time, keepSucceeded: int, keepDiscarded: int): set<JobId> {
    set id | id in rows && Purgeable(rows[id], now, keepSucceeded, keepDiscarded)
  }

  function InState(rows: Rows, ids: set<JobId>, state: JobState): set<JobId> {
    set id | id in rows && id in ids && rows[id].state == state
  }

  /** Which rows each of these sets has. */
  lemma NamedSets(rows: Rows, now: Time, w: WorkerId, ids: set<JobId>, keepSucceeded: int, keepDiscarded: int, state: JobState, id: JobId)
    ensures id in Held(rows, w, ids) <==> id in ids && id in rows && RunsUnder(rows[id], w)
    ensures id in LapsedIds(rows, now) <==> id in rows && IsLapsed(rows[id], now)
    ensures id in PurgeableIds(rows, now, keepSucceeded, keepDiscarded) <==> id in rows && Outlived(rows[id], now, keepSucceeded, keepDiscarded)
    ensures id in InState(rows, ids, state) <==> id in ids && id in rows && rows[id].state == state
  {
    if id in rows { PurgeLaw(rows[id], now, keepSucceeded, keepDiscarded); }
  }

  lemma InStateAdd(rows: Rows, ids: set<JobId>, id: JobId, state: JobState)
    requires id in rows && id !in ids
    ensures |InState(rows, ids + {id}, state)| == |InState(rows, ids, state)| + (if rows[id].state == state then 1 else 0)
  {
    var before, after := InState(rows, ids, state), InState(rows, ids + {id}, state);
    assert id !in before;
    if rows[id].state == state {
      assert after == before + {id};
    } else {
      assert after == before;
    }
  }

  /** The completion write of a job claimed by w. */
  function Completed(rows: Rows, now: Time, w: WorkerId, j: Job, c: Completion): Rows {
    CompleteRows(rows, now, j.id, w, j.attempt, c)
  }

  /** The first of the rows left, in claim order. */
  method Soonest(rows: Rows, left: set<JobId>) returns (best: JobId)
    requires left != {} && left <= rows.Keys
    ensures best in left && forall b | b in left && b != best :: Sooner(rows, best, b)
  {
    best :| best in left;
    var rest := left - {best};
    while rest != {}
      invariant rest <= left && best in left && best !in rest
      invariant forall b | b in left && b != best && b !in rest :: Sooner(rows, best, b)
      decreases |rest|
    {
      var c :| c in rest;
      rest := rest - {c};
      if Sooner(rows, c, best) { best := c; }
    }
  }

  /** The inner SELECT of the claim: ORDER BY, SKIP LOCKED, LIMIT. */
  method SelectBatch(rows: Rows, now: Time, locked: set<JobId>, batch: nat) returns (chosen: set<JobId>)
    ensures IsBatch(rows, now, locked, batch, chosen)
  {
    var left := Eligible(rows, now, locked);
    chosen := {};
    while |chosen| < batch && left != {}
      invariant chosen + left == Eligible(rows, now, locked) && chosen !! left
      invariant |chosen| <= batch
      invariant forall a, b | a in chosen && b in left :: Sooner(rows, a, b)
      decreases |left|
    {
      var id := Soonest(rows, left);
      chosen, left := chosen + {id}, left - {id};
    }
  }

  /** The loop over the rows the claim returned, in the order they arrive. */
  method ScanJobs(rows: Rows, chosen: set<JobId>, now: Time) returns (jobs: seq<Job>)
    requires chosen <= rows.Keys
    ensures Ids(jobs) == chosen && |jobs| == |chosen|
    ensures forall j | j in jobs :: j.id in chosen && j == JobOf(rows, j.id, now)
  {
    jobs := [];
    var left := chosen;
    while left != {}
      invariant left <= chosen && Ids(jobs) == chosen - left && |jobs| + |left| == |chosen|
      invariant forall j | j in jobs :: j.id in chosen && j == JobOf(rows, j.id, now)
      decreases |left|
    {
      var id :| id in left;
      IdsAppend(jobs, JobOf(rows, id, now));
      assert chosen - (left - {id}) == chosen - left + {id};
      left := left - {id};
      jobs := jobs + [JobOf(rows, id, now)];
    }
  }

  /** The reaper's loop over the states its statement returned. */
  method CountStates(rows: Rows, returned: set<JobId>) returns (retryable: nat, discarded: nat)
    requires returned <= rows.Keys && forall id | id in returned :: rows[id].state in {Retryable, Discarded}
    ensures retryable == |InState(rows, returned, Retryable)|
    ensures discarded == |InState(rows, returned, Discarded)|
    ensures retryable + discarded == |returned|
  {
    retryable, discarded := 0, 0;
    var left := returned;
    while left != {}
      invariant left <= returned
      invariant retryable == |InState(rows, returned - left, Retryable)|
      invariant discarded == |InState(rows, returned - left, Discarded)|
      invariant retryable + discarded + |left| == |returned|
      decreases |left|
    {
      var id :| id in left;
      InStateAdd(rows, returned - left, id, Retryable);
      InStateAdd(rows, returned - left, id, Discarded);
      assert returned - (left - {id}) == returned - left + {id};
      left := left - {id};
      if rows[id].state == Discarded {
        discarded := discarded + 1;
      } else {
        retryable := retryable + 1;
      }
    }
    assert returned - left == returned;
  }

  class Store {
    var rows: Rows
    var nextId: JobId

    constructor ()
      ensures rows == map[] && nextId == 1
    {
      rows, nextId := map[], 1;
    }

    /** Insert with ON CONFLICT DO NOTHING against the live unique keys. */
    method Enqueue(now: Time, j: NewJob) returns (r: EnqueueResult)
      requires forall id | id in rows :: id < nextId
      modifies this
      ensures r.Refused? <==> Rejected(j)
      ensures r.Inserted? <==> Inserts(old(rows), j)
      ensures if r.Inserted?
              then r.id == old(nextId) && r.id !in old(rows) && rows == old(rows)[r.id := FreshRow(j, now)] && nextId == r.id + 1
              else rows == old(rows) && nextId == old(nextId)
      ensures r.Refused? <==> Malformed(j)
      ensures r.Deduplicated? <==> !Malformed(j) && KeyTaken(old(rows), j.uniqueKey)
      ensures r.Inserted? ==> IsNew(rows[r.id], j, now)
    {
      InsertLaw(rows, j, now);
      if j.kind == "" || EffectiveMaxAttempts(j.maxAttempts) < 1 { return Refused; }
      var key := UniqueKeyOf(j.uniqueKey);
      if key.Some? && exists id | id in rows :: rows[id].Live() && rows[id].uniqueKey == key { return Deduplicated; }
      r := Inserted(nextId);
      rows, nextId := rows[nextId := FreshRow(j, now)], nextId + 1;
    }

    /** Takes up to `batch` jobs and stamps a lease on each. */
    method Claim(now: Time, w: WorkerId, batch: nat, lease: int, locked: set<JobId>) returns (jobs: seq<Job>)
      modifies this`rows
      ensures IsBatch(old(rows), now, locked, batch, Ids(jobs))
      ensures rows == ClaimRows(old(rows), now, w, lease, Ids(jobs))
      ensures |jobs| == |Ids(jobs)|
      ensures forall j | j in jobs :: j.id in old(rows) && j == JobOf(old(rows), j.id, now)
      ensures forall j | j in jobs :: j.id in rows && Handed(rows[j.id], w, now, j)
      ensures ClaimedTable(old(rows), rows, now, w, batch, lease, locked, Ids(jobs))
    {
      var chosen := SelectBatch(rows, now, locked, batch);
      BatchLaw(rows, now, locked, batch, chosen);
      ClaimedTableLaw(rows, now, w, batch, lease, locked, chosen);
      jobs := ScanJobs(rows, chosen, now);
      rows := ClaimRows(rows, now, w, lease, chosen);
    }

    /** Extends the lease on the jobs still held, and reports how many that was. */
    method Heartbeat(now: Time, w: WorkerId, ids: set<JobId>, lease: int) returns (held: nat)
      modifies this`rows
      ensures rows == HeartbeatRows(old(rows), now, w, lease, ids)
      ensures held == |Held(old(rows), w, ids)|
      ensures BeatenTable(old(rows), rows, now, w, lease, ids)
    {
      HolderTableLaws(rows, now, w, lease, ids);
      if ids == {} {
        assert HeartbeatRows(rows, now, w, lease, ids) == rows;
        assert Held(rows, w, ids) == {};
        return 0;
      }
      held := |Held(rows, w, ids)|;
      rows := HeartbeatRows(rows, now, w, lease, ids);
    }

    /** Every completion write: it reports whether the claim still held, and writes nothing if not. */
    method Complete(now: Time, w: WorkerId, j: Job, c: Completion) returns (held: bool)
      modifies this`rows
      ensures held == ClaimGuard(old(rows), j.id, w, j.attempt)
      ensures rows == Completed(old(rows), now, w, j, c)
    {
      held := j.id in rows && rows[j.id].state == Running && rows[j.id].lockedBy == Some(w) && rows[j.id].attempt == j.attempt;
      if held { rows := rows[j.id := CompleteRow(rows[j.id], now, w, c)]; }
    }

    /** Hands jobs back with their attempt, guarded by the worker alone. */
    method Release(w: WorkerId, ids: set<JobId>) returns (released: nat)
      modifies this`rows
      ensures rows == ReleaseRows(old(rows), w, ids)
      ensures released == |Held(old(rows), w, ids)|
      ensures ReleasedTable(old(rows), rows, w, ids)
    {
      HolderTableLaws(rows, 0, w, 0, ids);
      if ids == {} {
        assert ReleaseRows(rows, w, ids) == rows;
        assert Held(rows, w, ids) == {};
        return 0;
      }
      released := |Held(rows, w, ids)|;
      rows := ReleaseRows(rows, w, ids);
    }

    /** Makes due jobs claimable. */
    method Schedule(now: Time) returns (n: nat)
      modifies this`rows
      ensures rows == ScheduleRows(old(rows), now)
      ensures n == |set id | id in old(rows) && Due(old(rows)[id], now)|
      ensures ScheduledTable(old(rows), rows, now)
    {
      ScheduledTableLaw(rows, now);
      n := |set id | id in rows && Due(rows[id], now)|;
      rows := ScheduleRows(rows, now);
    }

    /** Reclaims the lapsed jobs and counts where each went. */
    method Reap(now: Time, delay: int, fleet: int) returns (retryable: nat, discarded: nat)
      modifies this`rows
      ensures rows == ReapRows(old(rows), now, delay, fleet)
      ensures retryable == |InState(rows, LapsedIds(old(rows), now), Retryable)|
      ensures discarded == |InState(rows, LapsedIds(old(rows), now), Discarded)|
      ensures retryable + discarded == |LapsedIds(old(rows), now)|
      ensures ReapedTable(old(rows), rows, now, delay, fleet)
    {
      ReapedTableLaw(rows, now, delay, fleet);
      var returned := LapsedIds(rows, now);
      rows := ReapRows(rows, now, delay, fleet);
      retryable, discarded := CountStates(rows, returned);
    }

    /** Deletes finalized jobs past their retention, no more than one batch. */
    method Purge(now: Time, keepSucceeded: int, keepDiscarded: int) returns (n: nat)
      modifies this`rows
      ensures n == if |PurgeableIds(old(rows), now, keepSucceeded, keepDiscarded)| < PURGE_BATCH
                   then |PurgeableIds(old(rows), now, keepSucceeded, keepDiscarded)| else PURGE_BATCH
      ensures exists chosen :: |chosen| == n && chosen <= PurgeableIds(old(rows), now, keepSucceeded, keepDiscarded)
                && rows == PurgeRows(old(rows), now, keepSucceeded, keepDiscarded, chosen)
      ensures PurgedTable(old(rows), rows, now, keepSucceeded, keepDiscarded, n)
    {
      var all := PurgeableIds(rows, now, keepSucceeded, keepDiscarded);
      var chosen, left: set<JobId> := {}, all;
      while left != {} && |chosen| < PURGE_BATCH
        invariant chosen + left == all && chosen !! left
        invariant |chosen| + |left| == |all| && |chosen| <= PURGE_BATCH
        decreases |left|
      {
        var id :| id in left;
        chosen, left := chosen + {id}, left - {id};
      }
      n := |chosen|;
      PurgedTableLaw(rows, now, keepSucceeded, keepDiscarded, chosen, all);
      rows := PurgeRows(rows, now, keepSucceeded, keepDiscarded, chosen);
    }
  }

  /** A due row as the claim statement returns it, with the attempt it has just been given. */
  function JobOf(rows: Rows, id: JobId, now: Time): Job
    requires id in rows
  {
    Job(id, rows[id].kind, rows[id].payload, rows[id].attempt + 1, rows[id].maxAttempts,
        if now < rows[id].scheduledAt then 0 else now - rows[id].scheduledAt)
  }

  /** The worker's copy agrees with the row it now holds. */
  predicate Handed(r: Row, w: WorkerId, now: Time, j: Job) {
    && HeldBy(r, w) && r.leaseExpiresAt.Some?
    && j.kind == r.kind && j.payload == r.payload && j.attempt == r.attempt && j.maxAttempts == r.maxAttempts
    && j.waited == now - r.scheduledAt >= 0
  }

  lemma IdsAppend(jobs: seq<Job>, j: Job)
    ensures Ids(jobs + [j]) == Ids(jobs) + {j.id}
  {
    assert forall x :: x in jobs + [j] <==> x in jobs || x == j;
  }
}
