/** The objects run the protocol: however the calls of a fleet of pools and of the leader interleave, the table and
  the pools are those of one run of `JobProtocol`, which every call extends by its own events. */
module QueueRefinement {
  import opened Options
  import opened JobTable
  import opened JobProtocol
  import opened JobAccounting
  import opened JobFencing
  import opened JobStore
  import WorkerPool
  import LeaseTiming

  // ---------- the coupling ----------

  /** The protocol's view of a pool: what it tracks, whether it stops, and that no claim of its own is half done. */
  ghost predicate Tracked(s: System, w: WorkerId, inflight: set<JobId>, stopping: bool) {
    && PoolOf(s, w).inflight == inflight && PoolOf(s, w).stopping == stopping
    && !PoolOf(s, w).claiming && !HasUndispatched(s, w)
  }

  ghost predicate InStep(p: WorkerPool.Pool, s: System)
    reads p
  {
    Tracked(s, p.workerId, p.inflight.Keys, p.draining || p.done)
  }

  /** The pools of a fleet share the table, the run es has brought everything where it is, and no drain deadline in
    it did harm. */
  ghost predicate Fleet(pools: set<WorkerPool.Pool>, store: Store, es: seq<Event>)
    reads pools, store
  {
    && store.rows == Run(es).rows && store.nextId == Run(es).nextId
    && (forall p | p in pools :: p.store == store && InStep(p, Run(es)) && Orderly(es, p.workerId))
    && (forall p, q | p in pools && q in pools && p.workerId == q.workerId :: p == q)
  }

  /** A worker goroutine has this job, claimed under this claim. */
  predicate Carries(c: Claim, w: WorkerId, j: Job) {
    c.worker == w && c.job == j.id && c.attempt == j.attempt && c.maxAttempts == j.maxAttempts
  }

  /** Since s, a goroutine of w has been given this job. */
  ghost predicate Given(s: System, s': System, w: WorkerId, j: Job) {
    exists c :: c in s'.dispatched && c !in s.dispatched && Carries(c, w, j)
  }

  // ---------- the events of one pool leave the others in step ----------

  ghost predicate OnlyBy(events: seq<Event>, w: WorkerId) {
    forall e, v | e in events && v != w :: !LeaseTiming.By(e, v)
  }

  lemma OtherStep(s: System, e: Event, w: WorkerId, inflight: set<JobId>, stopping: bool)
    requires Tracked(s, w, inflight, stopping) && !LeaseTiming.By(e, w)
    ensures Tracked(Next(s, e), w, inflight, stopping)
  {
    forall c | c in Next(s, e).claims && c !in Next(s, e).dispatched ensures c.worker != w {
      if c !in s.claims { LeaseTiming.JustClaimed(s, e, c); }
    }
  }

  lemma {:induction false} OthersStay(s: System, events: seq<Event>, actor: WorkerId, w: WorkerId, inflight: set<JobId>, stopping: bool)
    requires Tracked(s, w, inflight, stopping) && OnlyBy(events, actor) && w != actor
    ensures Tracked(RunOn(s, events), w, inflight, stopping)
  {
    if events != [] {
      var init, e := events[..|events| - 1], events[|events| - 1];
      assert e in events && forall d | d in init :: d in events;
      OthersStay(s, init, actor, w, inflight, stopping);
      OtherStep(RunOn(s, init), e, w, inflight, stopping);
    }
  }

  // ---------- claiming ----------

  ghost predicate Claimed(s: System, jobs: seq<Job>) {
    && (forall j | j in jobs :: j.id in s.rows && j.id in s.history && Claimable(s.rows[j.id], s.now))
    && (forall i, k | 0 <= i < k < |jobs| :: jobs[i].id != jobs[k].id)
  }

  /** What the claim statement returned is such a list. */
  lemma BatchIsClaimed(s: System, locked: set<JobId>, batch: nat, jobs: seq<Job>)
    requires Accounted(s) && IsBatch(s.rows, s.now, locked, batch, Ids(jobs)) && |jobs| == |Ids(jobs)|
    ensures Claimed(s, jobs)
  {
    WorkerPool.DistinctIds(jobs);
    forall j | j in jobs ensures j.id in s.rows && Claimable(s.rows[j.id], s.now) {
      assert j.id in Ids(jobs);
    }
  }

  /** The claims of the first n jobs. */
  function ClaimsOf(s: System, w: WorkerId, jobs: seq<Job>, n: nat): set<Claim>
    requires n <= |jobs| && forall j | j in jobs :: j.id in s.rows && j.id in s.history
  {
    set i | 0 <= i < n :: ClaimOf(s, w, jobs[i].id)
  }

  lemma ClaimsOfOne(s: System, w: WorkerId, jobs: seq<Job>, n: nat)
    requires 0 < n <= |jobs| && forall j | j in jobs :: j.id in s.rows && j.id in s.history
    ensures ClaimsOf(s, w, jobs, n) == ClaimsOf(s, w, jobs, n - 1) + {ClaimOf(s, w, jobs[n - 1].id)}
  {
  }

  function Dispatches(s: System, w: WorkerId, jobs: seq<Job>, n: nat): seq<Event>
    requires n <= |jobs| && forall j | j in jobs :: j.id in s.rows && j.id in s.history
  {
    if n == 0 then []
    else Dispatches(s, w, jobs, n - 1) + [Track(ClaimOf(s, w, jobs[n - 1].id)), Dispatch(ClaimOf(s, w, jobs[n - 1].id))]
  }

  /** The state after the claim statement. */
  function AfterClaim(s: System, w: WorkerId, lease: int, jobs: seq<Job>): System {
    Next(Next(s, StartClaim(w)), ClaimBatch(w, lease, Ids(jobs)))
  }

  lemma ClaimsOfBatch(s: System, w: WorkerId, jobs: seq<Job>)
    requires Claimed(s, jobs)
    ensures (set id | id in s.rows && Takes(s, id, Ids(jobs)) :: ClaimOf(s, w, id)) == ClaimsOf(s, w, jobs, |jobs|)
  {
    var taken := set id | id in s.rows && Takes(s, id, Ids(jobs)) :: ClaimOf(s, w, id);
    forall c | c in taken ensures c in ClaimsOf(s, w, jobs, |jobs|) {
      var id :| id in s.rows && Takes(s, id, Ids(jobs)) && c == ClaimOf(s, w, id);
      var i :| 0 <= i < |jobs| && jobs[i].id == id;
    }
    forall i | 0 <= i < |jobs| ensures ClaimOf(s, w, jobs[i].id) in taken {
      assert jobs[i] in jobs && jobs[i].id in Ids(jobs) && Takes(s, jobs[i].id, Ids(jobs));
    }
  }

  lemma ClaimIsTwoEvents(s: System, w: WorkerId, lease: int, jobs: seq<Job>)
    requires !PoolOf(s, w).stopping && !PoolOf(s, w).claiming && !HasUndispatched(s, w) && Claimed(s, jobs)
    ensures var s' := AfterClaim(s, w, lease, jobs);
      && s'.rows == ClaimRows(s.rows, s.now, w, lease, Ids(jobs)) && s'.nextId == s.nextId && s'.now == s.now
      && s'.dispatched == s.dispatched && PoolOf(s', w) == PoolOf(s, w)
      && s'.claims == s.claims + ClaimsOf(s, w, jobs, |jobs|)
  {
    var s1 := Next(s, StartClaim(w));
    assert s1 == s.(pools := s1.pools) && PoolOf(s1, w).claiming;
    ClaimsOfBatch(s, w, jobs);
    assert (set id | id in s1.rows && Takes(s1, id, Ids(jobs)) :: ClaimOf(s1, w, id))
        == (set id | id in s.rows && Takes(s, id, Ids(jobs)) :: ClaimOf(s, w, id));
  }

  /** No claim of the batch has been handed over before: its epoch is new. */
  lemma ClaimsAreNew(s: System, w: WorkerId, jobs: seq<Job>)
    requires ClaimsTracked(s) && Claimed(s, jobs)
    ensures forall j | j in jobs :: ClaimOf(s, w, j.id) !in s.dispatched
  {
  }

  lemma ClaimsDiffer(s: System, w: WorkerId, jobs: seq<Job>, i: nat, n: nat)
    requires Claimed(s, jobs) && n <= i < |jobs|
    ensures ClaimOf(s, w, jobs[i].id) !in ClaimsOf(s, w, jobs, n)
  {
  }

  ghost predicate AfterDispatches(s: System, w: WorkerId, s1: System, s': System, jobs: seq<Job>, n: nat)
    requires n <= |jobs| && Claimed(s, jobs)
  {
    && s'.rows == s1.rows && s'.claims == s1.claims && s'.nextId == s1.nextId && s'.now == s1.now
    && PoolOf(s', w) == PoolOf(s1, w).(inflight := PoolOf(s1, w).inflight + Ids(jobs[..n]))
    && s'.dispatched == s1.dispatched + ClaimsOf(s, w, jobs, n)
  }

  lemma DispatchOne(s: System, w: WorkerId, s1: System, s2: System, jobs: seq<Job>, n: nat)
    requires 0 < n <= |jobs| && Claimed(s, jobs) && AfterDispatches(s, w, s1, s2, jobs, n - 1)
    requires ClaimOf(s, w, jobs[n - 1].id) in s1.claims && ClaimOf(s, w, jobs[n - 1].id) !in s1.dispatched
    ensures var c := ClaimOf(s, w, jobs[n - 1].id); AfterDispatches(s, w, s1, Next(Next(s2, Track(c)), Dispatch(c)), jobs, n)
  {
    IdsAppend(jobs[..n - 1], jobs[n - 1]);
    assert jobs[..n] == jobs[..n - 1] + [jobs[n - 1]];
    ClaimsDiffer(s, w, jobs, n - 1, n - 1);
    ClaimsOfOne(s, w, jobs, n);
  }

  lemma {:induction false} DispatchesRun(s: System, w: WorkerId, s1: System, jobs: seq<Job>, n: nat)
    requires n <= |jobs| && Claimed(s, jobs) && ClaimsOf(s, w, jobs, |jobs|) <= s1.claims
    requires forall j | j in jobs :: ClaimOf(s, w, j.id) !in s1.dispatched
    ensures AfterDispatches(s, w, s1, RunOn(s1, Dispatches(s, w, jobs, n)), jobs, n)
  {
    if n > 0 {
      var c := ClaimOf(s, w, jobs[n - 1].id);
      DispatchesRun(s, w, s1, jobs, n - 1);
      RunOnAfter(s1, Dispatches(s, w, jobs, n - 1), [Track(c), Dispatch(c)]);
      RunTwo(RunOn(s1, Dispatches(s, w, jobs, n - 1)), Track(c), Dispatch(c));
      assert jobs[n - 1] in jobs && c in ClaimsOf(s, w, jobs, |jobs|);
      DispatchOne(s, w, s1, RunOn(s1, Dispatches(s, w, jobs, n - 1)), jobs, n);
    }
  }

  /** claimBatch as a run: the claim, the hand-overs, and if the context is cancelled, the one hand-back. */
  function BatchEvents(s: System, w: WorkerId, lease: int, jobs: seq<Job>, room: nat): seq<Event>
    requires Claimed(s, jobs)
  {
    var n := WorkerPool.HandedOver(jobs, room);
    [StartClaim(w), ClaimBatch(w, lease, Ids(jobs))] + Dispatches(s, w, jobs, n)
      + if n < |jobs| then [Track(ClaimOf(s, w, jobs[n].id)), Stop(w), HandBack(ClaimOf(s, w, jobs[n].id))] else []
  }

  lemma {:induction false} DispatchesBy(s: System, w: WorkerId, jobs: seq<Job>, n: nat)
    requires n <= |jobs| && Claimed(s, jobs)
    ensures OnlyBy(Dispatches(s, w, jobs, n), w)
  {
    if n > 0 { DispatchesBy(s, w, jobs, n - 1); }
  }

  lemma BatchBy(s: System, w: WorkerId, lease: int, jobs: seq<Job>, room: nat)
    requires Claimed(s, jobs)
    ensures OnlyBy(BatchEvents(s, w, lease, jobs, room), w)
  {
    DispatchesBy(s, w, jobs, WorkerPool.HandedOver(jobs, room));
  }

  lemma HandBackOne(s: System, w: WorkerId, s1: System, s2: System, jobs: seq<Job>, n: nat)
    requires n < |jobs| && Claimed(s, jobs) && AfterDispatches(s, w, s1, s2, jobs, n)
    requires ClaimOf(s, w, jobs[n].id) in s1.claims && ClaimOf(s, w, jobs[n].id) !in s1.dispatched
    ensures var c := ClaimOf(s, w, jobs[n].id); var s' := Next(Next(Next(s2, Track(c)), Stop(w)), HandBack(c));
      && s'.rows == ReleaseRows(s1.rows, w, {jobs[n].id}) && s'.nextId == s1.nextId && s'.now == s1.now
      && PoolOf(s', w) == PoolOf(s1, w).(stopping := true, inflight := PoolOf(s1, w).inflight + Ids(jobs[..n]) - {jobs[n].id})
      && s'.dispatched == s1.dispatched + ClaimsOf(s, w, jobs, n)
      && !HasUndispatched(s', w)
  {
    ClaimsDiffer(s, w, jobs, n, n);
  }

  /** What claimBatch leaves, as that run leaves it: the tail behind a cancelled hand-over is in no goroutine's
    hands and in nobody's memory. */
  ghost predicate BatchDone(s: System, w: WorkerId, lease: int, jobs: seq<Job>, n: nat, s': System)
    requires Claimed(s, jobs) && n <= |jobs|
  {
    var claimed := ClaimRows(s.rows, s.now, w, lease, Ids(jobs));
    && s'.nextId == s.nextId && s'.now == s.now
    && s'.rows == (if n < |jobs| then ReleaseRows(claimed, w, {jobs[n].id}) else claimed)
    && s'.dispatched == s.dispatched + ClaimsOf(s, w, jobs, n)
    && Tracked(s', w, PoolOf(s, w).inflight + Ids(jobs[..n]) - (if n < |jobs| then {jobs[n].id} else {}), n < |jobs|)
  }

  lemma AllHandedOver(s: System, w: WorkerId, s1: System, s2: System, jobs: seq<Job>)
    requires Claimed(s, jobs) && AfterDispatches(s, w, s1, s2, jobs, |jobs|)
    requires s1.claims == s.claims + ClaimsOf(s, w, jobs, |jobs|) && s1.dispatched == s.dispatched && !HasUndispatched(s, w)
    ensures !HasUndispatched(s2, w)
  {
  }

  lemma BatchIsARun(s: System, w: WorkerId, lease: int, jobs: seq<Job>, room: nat)
    requires Tracked(s, w, PoolOf(s, w).inflight, false) && Claimed(s, jobs) && ClaimsTracked(s)
    ensures BatchDone(s, w, lease, jobs, WorkerPool.HandedOver(jobs, room), RunOn(s, BatchEvents(s, w, lease, jobs, room)))
  {
    var n := WorkerPool.HandedOver(jobs, room);
    var first, middle := [StartClaim(w), ClaimBatch(w, lease, Ids(jobs))], Dispatches(s, w, jobs, n);
    var s1 := AfterClaim(s, w, lease, jobs);
    ClaimIsTwoEvents(s, w, lease, jobs);
    RunTwo(s, first[0], first[1]);
    ClaimsAreNew(s, w, jobs);
    DispatchesRun(s, w, s1, jobs, n);
    RunOnAfter(s, first, middle);
    var s2 := RunOn(s1, middle);
    if n < |jobs| {
      var c := ClaimOf(s, w, jobs[n].id);
      var last := [Track(c), Stop(w), HandBack(c)];
      RunOnAfter(s, first + middle, last);
      RunOnOne(s2, Track(c));
      RunTwo(Next(s2, Track(c)), Stop(w), HandBack(c));
      RunOnAfter(s2, [Track(c)], [Stop(w), HandBack(c)]);
      assert last == [Track(c)] + [Stop(w), HandBack(c)];
      assert jobs[n] in jobs && ClaimOf(s, w, jobs[n].id) in ClaimsOf(s, w, jobs, |jobs|);
      HandBackOne(s, w, s1, s2, jobs, n);
    } else {
      assert first + middle + [] == first + middle;
      AllHandedOver(s, w, s1, s2, jobs);
    }
  }

  // ---------- the other events of a pool ----------

  lemma FinishTracked(s: System, c: Claim, e: Event, inflight: set<JobId>, stopping: bool)
    requires Tracked(s, c.worker, inflight, stopping) && c in s.dispatched && (e.Finish? || e.Drop?) && e.claim == c
    ensures Tracked(Next(s, e), c.worker, inflight - {c.job}, stopping) && c !in Next(s, e).dispatched
    ensures Next(s, e).nextId == s.nextId
  {
  }

  lemma SnapTracked(s: System, w: WorkerId, inflight: set<JobId>, stopping: bool)
    requires Tracked(s, w, inflight, stopping)
    ensures Tracked(Next(s, Snap(w)), w, inflight, stopping) && PoolOf(Next(s, Snap(w)), w).snap == inflight
    ensures Next(s, Snap(w)).rows == s.rows && Next(s, Snap(w)).nextId == s.nextId
  {
  }

  lemma BeatTracked(s: System, e: Event, w: WorkerId, inflight: set<JobId>, stopping: bool)
    requires Tracked(s, w, inflight, stopping) && (e.Beat? || e.MissedBeat?) && e.worker == w
    ensures Tracked(Next(s, e), w, inflight, stopping) && Next(s, e).nextId == s.nextId
    ensures Next(s, e).rows == if e.Beat? then HeartbeatRows(s.rows, s.now, w, e.lease, PoolOf(s, w).snap) else s.rows
  {
  }

  lemma StopTracked(s: System, w: WorkerId, inflight: set<JobId>, stopping: bool)
    requires Tracked(s, w, inflight, stopping)
    ensures Tracked(Next(s, Stop(w)), w, inflight, true)
    ensures Next(s, Stop(w)).rows == s.rows && Next(s, Stop(w)).nextId == s.nextId
  {
  }

  lemma ReleaseTracked(s: System, w: WorkerId, inflight: set<JobId>)
    requires Tracked(s, w, inflight, true)
    ensures Tracked(Next(s, ReleaseInflight(w)), w, inflight, true)
    ensures Next(s, ReleaseInflight(w)).rows == ReleaseRows(s.rows, w, inflight) && Next(s, ReleaseInflight(w)).nextId == s.nextId
  {
  }

  /** What the events Finish and Drop do to the table. */
  lemma FinishRows(s: System, c: Claim, j: Job, cause: Cause, fleet: int, backoff: int)
    requires c in s.dispatched && Carries(c, c.worker, j)
    ensures Next(s, Finish(c, cause, fleet, backoff)).rows
      == Completed(s.rows, s.now, c.worker, j, Decide(cause, j.attempt, j.maxAttempts, fleet, backoff))
    ensures Next(s, Drop(c)).rows == s.rows
    ensures Matches(s, c) <==> ClaimGuard(s.rows, j.id, c.worker, j.attempt)
  {
  }

  /** What no event of another kind changes. */
  lemma Unaffected(s: System, e: Event)
    ensures !e.Tick? ==> Next(s, e).now == s.now
    ensures !e.Dispatch? && !e.Finish? && !e.Drop? && !e.Crash? ==> Next(s, e).dispatched == s.dispatched
    ensures (e.Finish? || e.Drop?) ==> Next(s, e).dispatched == s.dispatched - {e.claim}
    ensures forall w | e != Snap(w) && e != Crash(w) :: PoolOf(Next(s, e), w).snap == PoolOf(s, w).snap
  {
  }

  // ---------- the calls ----------

  /** What is left of a fleet while p is in the middle of a call. */
  ghost predicate OthersInStep(pools: set<WorkerPool.Pool>, p: WorkerPool.Pool, store: Store, es: seq<Event>)
    reads pools
  {
    && p in pools && (forall q | q in pools :: q.store == store && Orderly(es, q.workerId))
    && (forall q | q in pools && q != p :: InStep(q, Run(es)) && q.workerId != p.workerId)
    && (forall q, r | q in pools && r in pools && q.workerId == r.workerId :: q == r)
  }

  /** A call of p, seen from the fleet: the others are where they were, p and the table are where the events of the
    call bring them. */
  lemma FleetExtended(pools: set<WorkerPool.Pool>, p: WorkerPool.Pool, store: Store, es: seq<Event>, events: seq<Event>)
    requires OthersInStep(pools, p, store, es) && OnlyBy(events, p.workerId) && NoRelease(events, p.workerId)
    requires InStep(p, RunOn(Run(es), events))
    requires store.rows == RunOn(Run(es), events).rows && store.nextId == RunOn(Run(es), events).nextId
    ensures Fleet(pools, store, es + events)
  {
    RunOnIsRun(es, events);
    forall q | q in pools ensures InStep(q, Run(es + events)) && Orderly(es + events, q.workerId) {
      if q != p {
        OthersStay(Run(es), events, p.workerId, q.workerId, q.inflight.Keys, q.draining || q.done);
        forall e | e in events ensures e != ReleaseInflight(q.workerId) { assert !LeaseTiming.By(e, q.workerId); }
      }
      OrderlyMore(es, events, q.workerId);
    }
  }

  lemma FleetExtendedByOne(pools: set<WorkerPool.Pool>, p: WorkerPool.Pool, store: Store, es: seq<Event>, e: Event)
    requires OthersInStep(pools, p, store, es) && (forall v | v != p.workerId :: !LeaseTiming.By(e, v))
    requires e == ReleaseInflight(p.workerId) ==> !PoolOf(Run(es), p.workerId).claiming
    requires InStep(p, Next(Run(es), e))
    requires store.rows == Next(Run(es), e).rows && store.nextId == Next(Run(es), e).nextId
    ensures Fleet(pools, store, es + [e]) && Run(es + [e]) == Next(Run(es), e)
  {
    RunAppend(es, e);
    forall q | q in pools ensures InStep(q, Run(es + [e])) && Orderly(es + [e], q.workerId) {
      if q != p {
        OtherStep(Run(es), e, q.workerId, q.inflight.Keys, q.draining || q.done);
        assert !LeaseTiming.By(e, q.workerId);
      }
      OrderlyOne(es, e, q.workerId);
    }
  }

  lemma {:induction false} DispatchesRelease(s: System, w: WorkerId, jobs: seq<Job>, n: nat)
    requires n <= |jobs| && Claimed(s, jobs)
    ensures NoRelease(Dispatches(s, w, jobs, n), w)
  {
    if n > 0 { DispatchesRelease(s, w, jobs, n - 1); }
  }

  /** What `Pool.ClaimBatch` promises, as a relation between the states around the call. */
  ghost predicate BatchClaimed(s: System, p: WorkerPool.Pool, locked: set<JobId>, jobs: seq<Job>, room: nat, inflight: set<JobId>)
    reads p, p.store
  {
    var claimed, n := ClaimRows(s.rows, s.now, p.workerId, p.lease, Ids(jobs)), WorkerPool.HandedOver(jobs, room);
    && IsBatch(s.rows, s.now, locked, p.batch, Ids(jobs)) && |jobs| == |Ids(jobs)|
    && (forall j | j in jobs :: j.id in s.rows && j == JobOf(s.rows, j.id, s.now))
    && p.store.nextId == s.nextId
    && p.store.rows == (if n < |jobs| then ReleaseRows(claimed, p.workerId, {jobs[n].id}) else claimed)
    && p.inflight.Keys == inflight + Ids(jobs[..n]) - (if n < |jobs| then {jobs[n].id} else {})
    && (p.draining || p.done) == (n < |jobs|)
  }

  lemma BatchReleasesNothing(s: System, w: WorkerId, lease: int, jobs: seq<Job>, room: nat)
    requires Claimed(s, jobs)
    ensures NoRelease(BatchEvents(s, w, lease, jobs, room), w)
  {
    DispatchesRelease(s, w, jobs, WorkerPool.HandedOver(jobs, room));
  }

  lemma BatchInStep(s: System, p: WorkerPool.Pool, locked: set<JobId>, jobs: seq<Job>, room: nat, inflight: set<JobId>, s': System)
    requires Tracked(s, p.workerId, inflight, false) && BatchClaimed(s, p, locked, jobs, room, inflight) && Claimed(s, jobs)
    requires BatchDone(s, p.workerId, p.lease, jobs, WorkerPool.HandedOver(jobs, room), s')
    ensures InStep(p, s') && p.store.rows == s'.rows && p.store.nextId == s'.nextId
  {
  }

  /** It brings the fleet where the run brings it. */
  lemma BatchFleet(pools: set<WorkerPool.Pool>, p: WorkerPool.Pool, es: seq<Event>, locked: set<JobId>,
                   jobs: seq<Job>, room: nat, inflight: set<JobId>)
    requires OthersInStep(pools, p, p.store, es) && Tracked(Run(es), p.workerId, inflight, false)
    requires BatchClaimed(Run(es), p, locked, jobs, room, inflight)
    ensures Claimed(Run(es), jobs)
    ensures var es' := es + BatchEvents(Run(es), p.workerId, p.lease, jobs, room);
      && Fleet(pools, p.store, es') && Run(es').now == Run(es).now && Run(es).dispatched <= Run(es').dispatched
      && forall i | 0 <= i < WorkerPool.HandedOver(jobs, room) :: Given(Run(es), Run(es'), p.workerId, jobs[i])
  {
    var s, w, n := Run(es), p.workerId, WorkerPool.HandedOver(jobs, room);
    RunAccounted(es);
    RunClaimsTracked(es);
    BatchIsClaimed(s, locked, p.batch, jobs);
    var events := BatchEvents(s, w, p.lease, jobs, room);
    var s' := RunOn(s, events);
    BatchIsARun(s, w, p.lease, jobs, room);
    BatchInStep(s, p, locked, jobs, room, inflight, s');
    BatchBy(s, w, p.lease, jobs, room);
    BatchReleasesNothing(s, w, p.lease, jobs, room);
    FleetExtended(pools, p, p.store, es, events);
    RunOnIsRun(es, events);
    CarriedAfter(s, w, jobs, n, s');
  }

  lemma CarriedAfter(s: System, w: WorkerId, jobs: seq<Job>, n: nat, s': System)
    requires Claimed(s, jobs) && n <= |jobs| && ClaimsTracked(s) && s'.dispatched == s.dispatched + ClaimsOf(s, w, jobs, n)
    requires forall j | j in jobs :: j == JobOf(s.rows, j.id, s.now)
    ensures forall i | 0 <= i < n :: Given(s, s', w, jobs[i])
  {
    ClaimsAreNew(s, w, jobs);
    forall i | 0 <= i < n ensures Given(s, s', w, jobs[i]) {
      assert jobs[i] in jobs;
      var c := ClaimOf(s, w, jobs[i].id);
      assert jobs[i] == JobOf(s.rows, jobs[i].id, s.now);
      assert Carries(c, w, jobs[i]);
      assert c in ClaimsOf(s, w, jobs, n) && c in s'.dispatched && c !in s.dispatched;
    }
  }

  /** One claimBatch of one pool. The jobs it handed over are in goroutines, each under its own claim. */
  method ClaimBatchRuns(ghost pools: set<WorkerPool.Pool>, p: WorkerPool.Pool, now: Time, locked: set<JobId>, room: nat,
                        ghost es: seq<Event>)
    returns (jobs: seq<Job>, more: bool, ghost es': seq<Event>)
    requires p in pools && Fleet(pools, p.store, es) && now == Run(es).now
    modifies p`inflight, p`done, p.store`rows
    ensures Fleet(pools, p.store, es') && now == Run(es').now
    ensures old(p.done || p.draining) ==> jobs == [] && es' == es
    ensures !old(p.done || p.draining) ==>
      Claimed(Run(es), jobs) && es' == es + BatchEvents(Run(es), p.workerId, p.lease, jobs, room)
    ensures Run(es).dispatched <= Run(es').dispatched
    ensures forall i | 0 <= i < WorkerPool.HandedOver(jobs, room) :: Given(Run(es), Run(es'), p.workerId, jobs[i])
  {
    var idle := p.done || p.draining;
    assert InStep(p, Run(es));
    ghost var inflight := p.inflight.Keys;
    jobs, more := p.ClaimBatch(now, locked, room);
    es' := es;
    if !idle {
      BatchFleet(pools, p, es, locked, jobs, room, inflight);
      es' := es + BatchEvents(Run(es), p.workerId, p.lease, jobs, room);
    }
  }

  /** One job run to its end by a goroutine. Its outcome is recorded exactly if the write got through and matched;
    and then the job was still running under this very claim. */
  method RunJobRuns(ghost pools: set<WorkerPool.Pool>, p: WorkerPool.Pool, now: Time, j: Job, cause: Cause, backoff: int,
                    reached: bool, ghost c: Claim, ghost es: seq<Event>)
    returns (outcome: WorkerPool.Outcome, ghost es': seq<Event>)
    requires p in pools && Fleet(pools, p.store, es) && now == Run(es).now
    requires c in Run(es).dispatched && Carries(c, p.workerId, j)
    modifies p`inflight, p.store`rows
    ensures Fleet(pools, p.store, es') && now == Run(es').now
    ensures es' == es + [if reached then Finish(c, cause, p.fleet, backoff) else Drop(c)]
    ensures Run(es').dispatched == Run(es).dispatched - {c}
    ensures outcome != WorkerPool.OutLost <==> reached && Matches(Run(es), c)
    ensures outcome != WorkerPool.OutLost ==>
      c.job in Run(es).rows && c.job in Run(es).history && Current(c, Run(es).rows[c.job], Run(es).history[c.job])
  {
    ghost var s := Run(es);
    ghost var e := if reached then Finish(c, cause, p.fleet, backoff) else Drop(c);
    assert InStep(p, s) && Orderly(es, p.workerId);
    Fenced(es, c);
    FinishRows(s, c, j, cause, p.fleet, backoff);
    FinishTracked(s, c, e, p.inflight.Keys, p.draining || p.done);
    outcome := p.RunJob(now, j, cause, backoff, reached);
    es' := es + [e];
    Unaffected(s, e);
    FleetExtendedByOne(pools, p, p.store, es, e);
  }

  /** The first half of a heartbeat: what is tracked, and who can be cancelled. */
  method SnapshotRuns(ghost pools: set<WorkerPool.Pool>, p: WorkerPool.Pool, ghost es: seq<Event>)
    returns (ids: set<JobId>, cancels: set<JobId>, ghost es': seq<Event>)
    requires p in pools && Fleet(pools, p.store, es)
    ensures Fleet(pools, p.store, es') && es' == es + [Snap(p.workerId)]
    ensures Run(es').now == Run(es).now && Run(es').dispatched == Run(es).dispatched
    ensures ids == PoolOf(Run(es'), p.workerId).snap == p.inflight.Keys && cancels <= ids
  {
    ghost var e := Snap(p.workerId);
    assert InStep(p, Run(es));
    ids, cancels := p.Snapshot();
    es' := es + [e];
    SnapTracked(Run(es), p.workerId, p.inflight.Keys, p.draining || p.done);
    Unaffected(Run(es), e);
    FleetExtendedByOne(pools, p, p.store, es, e);
  }

  /** Its second half, after whatever the others did meanwhile: the handlers are cancelled exactly if a job found
    then is not held any more. */
  method RenewRuns(ghost pools: set<WorkerPool.Pool>, p: WorkerPool.Pool, ids: set<JobId>, cancels: set<JobId>, now: Time,
                   reached: bool, ghost es: seq<Event>)
    returns (cancelled: set<JobId>, ghost es': seq<Event>)
    requires p in pools && Fleet(pools, p.store, es) && now == Run(es).now && ids == PoolOf(Run(es), p.workerId).snap
    modifies p.store`rows
    ensures Fleet(pools, p.store, es') && now == Run(es').now && Run(es').dispatched == Run(es).dispatched
    ensures es' == es + [if reached then Beat(p.workerId, p.lease) else MissedBeat(p.workerId)]
    ensures cancelled == if reached && Held(Run(es).rows, p.workerId, ids) != ids then cancels else {}
  {
    ghost var e := if reached then Beat(p.workerId, p.lease) else MissedBeat(p.workerId);
    assert InStep(p, Run(es));
    cancelled := p.Renew(ids, cancels, now, reached);
    es' := es + [e];
    BeatTracked(Run(es), e, p.workerId, p.inflight.Keys, p.draining || p.done);
    Unaffected(Run(es), e);
    FleetExtendedByOne(pools, p, p.store, es, e);
  }

  /** The start of Stop, and its end: in between the other calls go on. */
  method CloseDrainingRuns(ghost pools: set<WorkerPool.Pool>, p: WorkerPool.Pool, ghost es: seq<Event>)
    returns (ghost es': seq<Event>)
    requires p in pools && Fleet(pools, p.store, es)
    modifies p`draining
    ensures Fleet(pools, p.store, es') && es' == es + [Stop(p.workerId)] && p.draining
    ensures Run(es').now == Run(es).now && Run(es').dispatched == Run(es).dispatched
  {
    ghost var e := Stop(p.workerId);
    assert InStep(p, Run(es));
    StopTracked(Run(es), p.workerId, p.inflight.Keys, p.draining || p.done);
    p.CloseDraining();
    es' := es + [e];
    Unaffected(Run(es), e);
    FleetExtendedByOne(pools, p, p.store, es, e);
  }

  method EndDrainRuns(ghost pools: set<WorkerPool.Pool>, p: WorkerPool.Pool, ghost es: seq<Event>)
    returns (released: nat, ghost es': seq<Event>)
    requires p in pools && Fleet(pools, p.store, es) && p.draining
    modifies p.store`rows
    ensures Fleet(pools, p.store, es') && es' == es + [ReleaseInflight(p.workerId)]
    ensures Run(es').now == Run(es).now && Run(es').dispatched == Run(es).dispatched
    ensures forall c | c in Run(es').dispatched && c.worker == p.workerId && c.job in p.inflight :: !Matches(Run(es'), c)
  {
    ghost var e := ReleaseInflight(p.workerId);
    assert InStep(p, Run(es));
    released := p.EndDrain();
    es' := es + [e];
    ReleaseTracked(Run(es), p.workerId, p.inflight.Keys);
    Unaffected(Run(es), e);
    FleetExtendedByOne(pools, p, p.store, es, e);
  }

  /** The drain deadline passes while a handler runs, and some time later it returns: whatever it returns, its write
    is refused. */
  method DrainedHandlerIsRefused(ghost pools: set<WorkerPool.Pool>, p: WorkerPool.Pool, now: Time, elapsed: nat, j: Job,
                                 cause: Cause, backoff: int, reached: bool, ghost c: Claim, ghost es: seq<Event>)
    returns (outcome: WorkerPool.Outcome, ghost es': seq<Event>)
    requires p in pools && Fleet(pools, p.store, es) && now == Run(es).now && p.draining
    requires c in Run(es).dispatched && Carries(c, p.workerId, j) && j.id in p.inflight
    modifies p`inflight, p.store`rows
    ensures Fleet(pools, p.store, es') && outcome == WorkerPool.OutLost
    ensures es' == es + [ReleaseInflight(p.workerId)] + [Tick(elapsed)]
                   + [if reached then Finish(c, cause, p.fleet, backoff) else Drop(c)]
  {
    var released;
    released, es' := EndDrainRuns(pools, p, es);
    TimePasses(pools, p.store, es', elapsed);
    es' := es' + [Tick(elapsed)];
    outcome, es' := RunJobRuns(pools, p, now + elapsed, j, cause, backoff, reached, c, es');
  }

  // ---------- pools come and go ----------

  lemma KnownStep(s: System, e: Event)
    requires forall c | c in s.claims :: c.worker in s.pools
    ensures forall c | c in Next(s, e).claims :: c.worker in Next(s, e).pools
  {
  }

  lemma {:induction false} ClaimersAreKnown(es: seq<Event>)
    ensures forall c | c in Run(es).claims :: c.worker in Run(es).pools
  {
    if es != [] {
      ClaimersAreKnown(es[..|es| - 1]);
      KnownStep(Run(es[..|es| - 1]), es[|es| - 1]);
    }
  }

  lemma PoolsGrow(s: System, e: Event)
    ensures s.pools.Keys <= Next(s, e).pools.Keys
  {
  }

  lemma {:induction false} UnknownIsOrderly(es: seq<Event>, w: WorkerId)
    requires w !in Run(es).pools
    ensures Orderly(es, w)
  {
    if es != [] {
      var init, e := es[..|es| - 1], es[|es| - 1];
      PoolsGrow(Run(init), e);
      UnknownIsOrderly(init, w);
      OrderlyOne(init, e, w);
      assert es == init + [e];
    }
  }

  lemma FleetStarts(store: Store)
    requires store.rows == map[] && store.nextId == 1
    ensures Fleet({}, store, [])
  {
  }

  /** A new process has a worker id that was never used. */
  lemma PoolJoins(pools: set<WorkerPool.Pool>, p: WorkerPool.Pool, store: Store, es: seq<Event>)
    requires Fleet(pools, store, es) && p.store == store && p.inflight == map[] && !p.draining && !p.done
    requires p.workerId !in Run(es).pools && forall q | q in pools :: q.workerId != p.workerId
    ensures Fleet(pools + {p}, store, es)
  {
    ClaimersAreKnown(es);
    UnknownIsOrderly(es, p.workerId);
  }

  /** A process dies: its jobs keep their leases, and nobody acts for it any more. */
  lemma PoolDies(pools: set<WorkerPool.Pool>, p: WorkerPool.Pool, store: Store, es: seq<Event>)
    requires Fleet(pools, store, es) && p in pools
    ensures Fleet(pools - {p}, store, es + [Crash(p.workerId)])
  {
    var e := Crash(p.workerId);
    RunAppend(es, e);
    forall q | q in pools && q != p ensures InStep(q, Run(es + [e])) && Orderly(es + [e], q.workerId) {
      OtherStep(Run(es), e, q.workerId, q.inflight.Keys, q.draining || q.done);
      OrderlyOne(es, e, q.workerId);
    }
  }

  // ---------- the producer and the leader ----------

  /** An event of nobody's pool. */
  lemma FleetMoves(pools: set<WorkerPool.Pool>, store: Store, es: seq<Event>, e: Event)
    requires forall p | p in pools :: p.store == store && InStep(p, Run(es)) && Orderly(es, p.workerId)
    requires forall p, q | p in pools && q in pools && p.workerId == q.workerId :: p == q
    requires e.Tick? || e.Enqueue? || e.Schedule? || e.Reap? || e.Purge?
    requires store.rows == Next(Run(es), e).rows && store.nextId == Next(Run(es), e).nextId
    ensures Fleet(pools, store, es + [e]) && Run(es + [e]) == Next(Run(es), e)
    ensures Run(es + [e]).now == Run(es).now + (if e.Tick? then e.elapsed else 0) && Run(es + [e]).dispatched == Run(es).dispatched
  {
    RunAppend(es, e);
    Unaffected(Run(es), e);
    forall p | p in pools ensures InStep(p, Next(Run(es), e)) && Orderly(es + [e], p.workerId) {
      OtherStep(Run(es), e, p.workerId, p.inflight.Keys, p.draining || p.done);
      OrderlyOne(es, e, p.workerId);
    }
  }

  lemma TimePasses(pools: set<WorkerPool.Pool>, store: Store, es: seq<Event>, elapsed: nat)
    requires Fleet(pools, store, es)
    ensures Fleet(pools, store, es + [Tick(elapsed)])
    ensures var s, s' := Run(es), Run(es + [Tick(elapsed)]);
      s'.now == s.now + elapsed && s'.rows == s.rows && s'.dispatched == s.dispatched && s'.pools == s.pools
  {
    FleetMoves(pools, store, es, Tick(elapsed));
  }

  method EnqueueRuns(ghost pools: set<WorkerPool.Pool>, store: Store, now: Time, j: NewJob, ghost es: seq<Event>)
    returns (r: EnqueueResult, ghost es': seq<Event>)
    requires Fleet(pools, store, es) && now == Run(es).now
    modifies store
    ensures Fleet(pools, store, es') && es' == es + [Enqueue(j)]
    ensures now == Run(es').now && Run(es').dispatched == Run(es).dispatched
    ensures r.Inserted? ==> r.id == Run(es).nextId && r.id in Run(es').rows && r.id !in Run(es).rows
  {
    RunAccounted(es);
    r := store.Enqueue(now, j);
    es' := es + [Enqueue(j)];
    FleetMoves(pools, store, es, Enqueue(j));
  }

  /** One sweep of the leader: what is due first, then what has lapsed. */
  method SweepRuns(ghost pools: set<WorkerPool.Pool>, store: Store, now: Time, delay: int, fleet: int, ghost es: seq<Event>)
    returns (n: nat, retryable: nat, discarded: nat, ghost es': seq<Event>)
    requires Fleet(pools, store, es) && now == Run(es).now
    modifies store`rows
    ensures Fleet(pools, store, es') && es' == es + [Schedule] + [Reap(delay, fleet)]
    ensures now == Run(es').now && Run(es').dispatched == Run(es).dispatched
  {
    n := store.Schedule(now);
    ghost var scheduled := es + [Schedule];
    FleetMoves(pools, store, es, Schedule);
    retryable, discarded := store.Reap(now, delay, fleet);
    es' := scheduled + [Reap(delay, fleet)];
    FleetMoves(pools, store, scheduled, Reap(delay, fleet));
  }

  method PurgeOnce(store: Store, now: Time, keepSucceeded: int, keepDiscarded: int) returns (n: nat, ghost chosen: set<JobId>)
    modifies store`rows
    ensures |chosen| == n && chosen <= PurgeableIds(old(store.rows), now, keepSucceeded, keepDiscarded)
    ensures store.rows == PurgeRows(old(store.rows), now, keepSucceeded, keepDiscarded, chosen)
  {
    n := store.Purge(now, keepSucceeded, keepDiscarded);
    chosen :| |chosen| == n && chosen <= PurgeableIds(old(store.rows), now, keepSucceeded, keepDiscarded)
              && store.rows == PurgeRows(old(store.rows), now, keepSucceeded, keepDiscarded, chosen);
  }

  method PurgeRuns(ghost pools: set<WorkerPool.Pool>, store: Store, now: Time, keepSucceeded: int, keepDiscarded: int,
                   ghost es: seq<Event>)
    returns (n: nat, ghost chosen: set<JobId>, ghost es': seq<Event>)
    requires Fleet(pools, store, es) && now == Run(es).now
    modifies store`rows
    ensures Fleet(pools, store, es') && es' == es + [Purge(keepSucceeded, keepDiscarded, chosen)]
    ensures |chosen| == n && chosen <= PurgeableIds(Run(es).rows, now, keepSucceeded, keepDiscarded)
    ensures now == Run(es').now && Run(es').dispatched == Run(es).dispatched
  {
    n, chosen := PurgeOnce(store, now, keepSucceeded, keepDiscarded);
    ghost var e := Purge(keepSucceeded, keepDiscarded, chosen);
    es' := es + [e];
    FleetMoves(pools, store, es, e);
  }
}
