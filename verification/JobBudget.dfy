/** The retry budget, and the two columns the reaper decides with two different ceilings. */
module JobBudget {
  import opened Options
  import opened JobTable
  import opened JobProtocol
  import opened JobAccounting

  /** The pool and the reaper agree on when a job is out of attempts exactly when the fleet ceiling is
    a real one, which configuration validation demands. */
  lemma CeilingsAgree(fleet: int, maxAttempts: int)
    requires maxAttempts >= 1
    ensures PoolBudget(fleet, maxAttempts) == Min(maxAttempts, fleet) <==> fleet >= 1
  {
  }

  /** Every process of the run was configured with the same ceiling. */
  ghost predicate SameFleet(es: seq<Event>, fleet: int) {
    forall e | e in es :: (e.Finish? ==> e.fleet == fleet) && (e.Reap? ==> e.fleet == fleet)
  }

  ghost predicate WithinBudget(r: Row, fleet: int) {
    var budget := Min(r.maxAttempts, fleet);
    && (r.Waiting() ==> 0 <= r.attempt < budget)
    && (r.state == Running ==> 1 <= r.attempt <= budget)
    && (r.Terminal() ==> 1 <= r.attempt <= budget)
  }

  /** A claim in memory carries the ceiling of the row it was taken from. */
  ghost predicate ClaimsCarry(s: System) {
    forall c | c in s.claims || c in s.dispatched ::
      c.job < s.nextId && (c.job in s.rows ==> c.maxAttempts == s.rows[c.job].maxAttempts)
  }

  /** Where a claim in memory comes from. */
  lemma ClaimsFrom(s: System, e: Event, c: Claim)
    requires c in Next(s, e).claims || c in Next(s, e).dispatched
    requires !(c in s.claims || c in s.dispatched)
    ensures e.ClaimBatch? && c.job in s.rows && c.job in s.history && c == ClaimOf(s, e.worker, c.job)
  {
  }

  lemma ClaimsCarryStep(s: System, e: Event)
    requires Accounted(s) && ClaimsCarry(s)
    ensures ClaimsCarry(Next(s, e))
  {
    HistoryFollows(s, e);
    forall c | c in Next(s, e).claims || c in Next(s, e).dispatched
      ensures c.job < Next(s, e).nextId
      ensures c.job in Next(s, e).rows ==> c.maxAttempts == Next(s, e).rows[c.job].maxAttempts
    {
      if !(c in s.claims || c in s.dispatched) { ClaimsFrom(s, e, c); }
      if c.job in Next(s, e).rows {
        if c.job in s.rows { RowStep(s, e, c.job); } else { NewRowIsNext(s, e, c.job); }
      }
    }
  }

  lemma CompleteWithinBudget(r: Row, h: History, now: Time, w: WorkerId, cause: Cause, fleet: int, backoff: int)
    requires fleet >= 1 && RowInv(r, h) && r.state == Running && WithinBudget(r, fleet)
    ensures WithinBudget(CompleteRow(r, now, w, Decide(cause, r.attempt, r.maxAttempts, fleet, backoff)), fleet)
  {
    CeilingsAgree(fleet, r.maxAttempts);
  }

  lemma MoveWithinBudget(s: System, e: Event, fleet: int, id: JobId, r: Row, h: History, r': Row, h': History)
    requires fleet >= 1 && (e.Finish? ==> e.fleet == fleet) && (e.Reap? ==> e.fleet == fleet)
    requires RowInv(r, h) && WithinBudget(r, fleet)
    requires e.Finish? && e.claim in s.dispatched && id == e.claim.job ==> e.claim.maxAttempts == r.maxAttempts
    requires RowMoves(s, e, id, r, h, r', h')
    ensures WithinBudget(r', fleet)
  {
    if e.Finish? && r.state == Running { CompleteWithinBudget(r, h, s.now, e.claim.worker, e.cause, fleet, e.backoff); }
  }

  lemma BudgetStep(s: System, e: Event, fleet: int, id: JobId)
    requires fleet >= 1 && SameFleet([e], fleet)
    requires Accounted(s) && ClaimsCarry(s)
    requires id in s.rows ==> WithinBudget(s.rows[id], fleet)
    requires id in Next(s, e).rows
    ensures WithinBudget(Next(s, e).rows[id], fleet)
  {
    assert e in [e];
    if id in s.rows {
      RowMoved(s, e, id);
      MoveWithinBudget(s, e, fleet, id, s.rows[id], s.history[id], Next(s, e).rows[id], Next(s, e).history[id]);
    } else {
      NewRowIsNext(s, e, id);
    }
  }

  /** Every waiting job has an attempt left and every running one is within its budget, whatever
    happened before, as long as the whole fleet runs with one ceiling. */
  lemma {:induction false} RunWithinBudget(es: seq<Event>, fleet: int)
    requires fleet >= 1 && SameFleet(es, fleet)
    ensures ClaimsCarry(Run(es))
    ensures forall id | id in Run(es).rows :: WithinBudget(Run(es).rows[id], fleet)
  {
    if es != [] {
      var init, e := es[..|es| - 1], es[|es| - 1];
      RunWithinBudget(init, fleet);
      RunAccounted(init);
      ClaimsCarryStep(Run(init), e);
      forall id | id in Run(es).rows ensures WithinBudget(Run(es).rows[id], fleet) {
        assert SameFleet([e], fleet);
        BudgetStep(Run(init), e, fleet, id);
      }
    }
  }

  /** A job is claimed at most `budget` times plus once per snooze and once per release. */
  lemma ClaimsBounded(es: seq<Event>, fleet: int, id: JobId)
    requires fleet >= 1 && SameFleet(es, fleet) && id in Run(es).rows
    ensures id in Run(es).history
    ensures |Run(es).rows[id].attemptedBy|
         <= Min(Run(es).rows[id].maxAttempts, fleet) + |Run(es).history[id].snoozed| + |Run(es).history[id].released|
  {
    RunWithinBudget(es, fleet);
    RunAccounted(es);
  }

  // ---------- finalized_at ----------

  /** Over, but without the timestamp the purger looks for. */
  predicate Unfinalized(r: Row) {
    r.Terminal() && r.finalizedAt.None?
  }

  lemma UnfinalizedMove(s: System, e: Event, id: JobId, r: Row, h: History, r': Row, h': History)
    requires RowMoves(s, e, id, r, h, r', h') && Lifecycle(r) && Unfinalized(r')
    ensures Unfinalized(r) || (e.Reap? && e.fleet < r.maxAttempts)
    ensures r'.maxAttempts == r.maxAttempts
  {
  }

  lemma UnfinalizedStep(s: System, e: Event, fleet: int, id: JobId)
    requires SameFleet([e], fleet) && Accounted(s)
    requires id in Next(s, e).rows && Unfinalized(Next(s, e).rows[id])
    ensures id in s.rows
    ensures Unfinalized(s.rows[id]) || (e.Reap? && fleet < s.rows[id].maxAttempts)
    ensures Next(s, e).rows[id].maxAttempts == s.rows[id].maxAttempts
  {
    assert e in [e];
    if id in s.rows {
      RowMoved(s, e, id);
      UnfinalizedMove(s, e, id, s.rows[id], s.history[id], Next(s, e).rows[id], Next(s, e).history[id]);
    } else {
      NewRowIsNext(s, e, id);
    }
  }

  /** With the ceiling at or above a row's own maximum, the row is over only with finalized_at set. */
  lemma {:induction false} FinalizedUnlessCeilingBinds(es: seq<Event>, fleet: int, id: JobId)
    requires SameFleet(es, fleet)
    requires id in Run(es).rows && Unfinalized(Run(es).rows[id])
    ensures fleet < Run(es).rows[id].maxAttempts
  {
    if es != [] {
      var init, e := es[..|es| - 1], es[|es| - 1];
      RunAccounted(init);
      assert SameFleet([e], fleet);
      UnfinalizedStep(Run(init), e, fleet, id);
      if Unfinalized(Run(init).rows[id]) { FinalizedUnlessCeilingBinds(init, fleet, id); }
    }
  }

  lemma UnfinalizedStays(s: System, e: Event, id: JobId)
    requires Accounted(s) && id in s.rows && Unfinalized(s.rows[id])
    ensures id in Next(s, e).rows && Next(s, e).rows[id] == s.rows[id]
  {
    if id !in Next(s, e).rows { OnlyPurgeDeletes(s, e, id); } else { RowStep(s, e, id); }
  }

  lemma {:induction false} UnfinalizedOn(s: System, more: seq<Event>, id: JobId)
    requires Accounted(s) && id in s.rows && Unfinalized(s.rows[id])
    ensures Accounted(RunOn(s, more)) && id in RunOn(s, more).rows && RunOn(s, more).rows[id] == s.rows[id]
  {
    if more != [] {
      var before, e := RunOn(s, more[..|more| - 1]), more[|more| - 1];
      UnfinalizedOn(s, more[..|more| - 1], id);
      UnfinalizedStays(before, e, id);
      AccountedStep(before, e);
    }
  }

  /** An unfinalized row is beyond the purger's reach: it stays as it is, in every continuation. */
  lemma UnfinalizedForever(es: seq<Event>, more: seq<Event>, id: JobId)
    requires id in Run(es).rows && Unfinalized(Run(es).rows[id])
    ensures id in Run(es + more).rows && Run(es + more).rows[id] == Run(es).rows[id]
  {
    RunAccounted(es);
    UnfinalizedOn(Run(es), more, id);
    RunOnIsRun(es, more);
  }

  // ---------- a run that reaches it, for every binding ceiling ----------

  /** A worker claims job 1 and dies; the sweep reclaims it and makes it claimable again. */
  function CrashRound(worker: WorkerId, fleet: int): seq<Event> {
    [StartClaim(worker), ClaimBatch(worker, 0, {1}), Crash(worker), Tick(1), Reap(0, fleet), Schedule]
  }

  /** One process per round: a restarted process has a new id. */
  function NthWorker(n: nat): WorkerId {
    seq(n, i => 'w')
  }

  /** Workers 1 to n have come and gone, and job 1 has failed with each of them. */
  ghost predicate AfterRounds(s: System, n: nat, maxAttempts: int, fleet: int) {
    && s.claims == {}
    && (forall w :: w in s.pools ==> |w| <= n)
    && 1 in s.rows && 1 in s.history
    && s.rows[1].maxAttempts == maxAttempts
    && s.rows[1].attempt == n
    && s.rows[1].scheduledAt <= s.now
    && (if n == 0 || n < Min(maxAttempts, fleet)
        then s.rows[1].state == Available
        else s.rows[1].state == Discarded && s.rows[1].finalizedAt.Some? == (n >= maxAttempts))
  }

  /** The state with job 1 running under a worker that is gone. */
  function Orphaned(s: System, worker: WorkerId): System {
    Next(Next(Next(s, StartClaim(worker)), ClaimBatch(worker, 0, {1})), Crash(worker))
  }

  lemma OrphanedRow(s: System, worker: WorkerId)
    requires 1 in s.rows && 1 in s.history && Claimable(s.rows[1], s.now)
    requires worker !in s.pools && s.claims == {}
    ensures var s' := Orphaned(s, worker);
      && s'.now == s.now && s'.claims == {} && s'.pools.Keys == s.pools.Keys + {worker}
      && 1 in s'.rows && 1 in s'.history && s'.rows[1] == ClaimRow(s.rows[1], s.now, worker, 0)
  {
    var s1 := Next(s, StartClaim(worker));
    assert PoolOf(s1, worker).claiming;
    var s2 := Next(s1, ClaimBatch(worker, 0, {1}));
    assert s2.rows[1] == ClaimRow(s.rows[1], s.now, worker, 0);
    forall c | c in s2.claims ensures c.worker == worker { assert s1.claims == {}; }
  }

  lemma SweptRow(s: System, fleet: int)
    requires 1 in s.rows && 1 in s.history
    requires s.rows[1].state == Running && s.rows[1].leaseExpiresAt == Some(s.now)
    ensures var s' := Next(Next(Next(s, Tick(1)), Reap(0, fleet)), Schedule);
      && s'.claims == s.claims && s'.pools == s.pools && s'.now == s.now + 1
      && 1 in s'.rows && 1 in s'.history
      && var r := ReapRow(s.rows[1], s.now + 1, 0, fleet);
         s'.rows[1] == if r.state == Retryable then r.(state := Available) else r
  {
    var s1 := Next(s, Tick(1));
    assert Lapsed(s1.rows[1], s1.now);
    var s2 := Next(s1, Reap(0, fleet));
    assert s2.rows[1] == ReapRow(s.rows[1], s.now + 1, 0, fleet);
  }

  lemma RoundAdvances(s: System, n: nat, maxAttempts: int, fleet: int)
    requires 1 <= n <= Min(maxAttempts, fleet) && AfterRounds(s, n - 1, maxAttempts, fleet)
    ensures AfterRounds(Next(Next(Next(Orphaned(s, NthWorker(n)), Tick(1)), Reap(0, fleet)), Schedule), n, maxAttempts, fleet)
  {
    assert |NthWorker(n)| == n;
    OrphanedRow(s, NthWorker(n));
    SweptRow(Orphaned(s, NthWorker(n)), fleet);
  }

  lemma RunCrashRound(es: seq<Event>, worker: WorkerId, fleet: int)
    ensures Run(es + CrashRound(worker, fleet))
         == Next(Next(Next(Orphaned(Run(es), worker), Tick(1)), Reap(0, fleet)), Schedule)
  {
    var first := [StartClaim(worker), ClaimBatch(worker, 0, {1}), Crash(worker)];
    var second := [Tick(1), Reap(0, fleet), Schedule];
    RunThree(es, first[0], first[1], first[2]);
    RunThree(es + first, second[0], second[1], second[2]);
    assert es + CrashRound(worker, fleet) == es + first + second;
  }

  lemma EnqueuedOne(maxAttempts: int, fleet: int)
    requires maxAttempts >= 1
    ensures AfterRounds(DoEnqueue(INITIAL, NewJob("task.event", "", "", maxAttempts)), 0, maxAttempts, fleet)
  {
  }

  lemma CrashLoopStarts(maxAttempts: int, fleet: int) returns (es: seq<Event>)
    requires maxAttempts >= 1
    ensures SameFleet(es, fleet) && AfterRounds(Run(es), 0, maxAttempts, fleet)
  {
    var e := Enqueue(NewJob("task.event", "", "", maxAttempts));
    es := [e];
    EnqueuedOne(maxAttempts, fleet);
    RunAppend([], e);
    assert [] + [e] == [e];
  }

  lemma CrashLoopStep(es: seq<Event>, n: nat, maxAttempts: int, fleet: int) returns (es': seq<Event>)
    requires 1 <= n <= Min(maxAttempts, fleet) && SameFleet(es, fleet) && AfterRounds(Run(es), n - 1, maxAttempts, fleet)
    ensures SameFleet(es', fleet) && AfterRounds(Run(es'), n, maxAttempts, fleet)
  {
    es' := es + CrashRound(NthWorker(n), fleet);
    RoundAdvances(Run(es), n, maxAttempts, fleet);
    RunCrashRound(es, NthWorker(n), fleet);
  }

  /** The run of n crashing workers: job 1 fails with each of them, and is discarded at the lower of the two
    ceilings, but finalized only at its own. */
  lemma {:induction false} CrashLoopRuns(n: nat, maxAttempts: int, fleet: int) returns (es: seq<Event>)
    requires fleet >= 1 && maxAttempts >= 1 && n <= Min(maxAttempts, fleet)
    ensures SameFleet(es, fleet) && AfterRounds(Run(es), n, maxAttempts, fleet)
  {
    if n == 0 {
      es := CrashLoopStarts(maxAttempts, fleet);
    } else {
      es := CrashLoopRuns(n - 1, maxAttempts, fleet);
      es := CrashLoopStep(es, n, maxAttempts, fleet);
    }
  }

  /** For a row that asks for m attempts: "over implies finalized_at" holds in all runs of a fleet with
    ceiling f exactly when f is not below m. */
  lemma FinalizedIffCeilingSlack(fleet: int, maxAttempts: int)
    requires fleet >= 1 && maxAttempts >= 1
    ensures fleet >= maxAttempts <==>
      forall es, id | SameFleet(es, fleet) && id in Run(es).rows && Run(es).rows[id].maxAttempts == maxAttempts ::
        !Unfinalized(Run(es).rows[id])
  {
    if fleet < maxAttempts {
      var es := CrashLoopRuns(fleet, maxAttempts, fleet);
      assert Unfinalized(Run(es).rows[1]);
    } else {
      forall es, id | SameFleet(es, fleet) && id in Run(es).rows && Run(es).rows[id].maxAttempts == maxAttempts
        ensures !Unfinalized(Run(es).rows[id])
      {
        if Unfinalized(Run(es).rows[id]) { FinalizedUnlessCeilingBinds(es, fleet, id); }
      }
    }
  }
}
