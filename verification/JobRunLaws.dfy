/** What the statements mean over runs: how a handler's result ends, what an insertion accepts, how long a reclaimed
  job waits, and how long a job that is over is kept. */
module JobRunLaws {
  import opened Options
  import opened JobTable
  import opened JobLaws
  import opened JobProtocol
  import opened JobAccounting
  import opened JobBudget
  import opened RetryTiming

  // ---------- a handler's result ----------

  lemma {:induction false} RunClaimsCarry(es: seq<Event>)
    ensures ClaimsCarry(Run(es))
  {
    if es != [] {
      RunClaimsCarry(es[..|es| - 1]);
      RunAccounted(es[..|es| - 1]);
      ClaimsCarryStep(Run(es[..|es| - 1]), es[|es| - 1]);
    }
  }

  /** In every run, a completion write that matches resolves its job by the result, and by the attempt and the
    maximum of the row itself; no other row changes. */
  lemma FinishResolves(es: seq<Event>, c: Claim, cause: Cause, fleet: int, backoff: int)
    requires c in Run(es).dispatched && Matches(Run(es), c)
    ensures var s, s' := Run(es), Run(es + [Finish(c, cause, fleet, backoff)]);
      && c.job in s.rows && c.job in s'.rows && s'.rows == s.rows[c.job := s'.rows[c.job]]
      && Resolves(s.rows[c.job], s'.rows[c.job], s.now, c.worker, cause, s.rows[c.job].attempt, s.rows[c.job].maxAttempts,
                  fleet, backoff)
  {
    RunAppend(es, Finish(c, cause, fleet, backoff));
    RunClaimsCarry(es);
    CompletionLaw(Run(es).rows[c.job], Run(es).now, c.worker, cause, c.attempt, c.maxAttempts, fleet, backoff);
  }

  // ---------- an insertion ----------

  /** A well-formed job is inserted, as the newest row, exactly unless a live row has its own key. */
  lemma EnqueueInserts(es: seq<Event>, j: NewJob)
    ensures var s, s' := Run(es), Run(es + [Enqueue(j)]);
      if Malformed(j) || KeyTaken(s.rows, j.uniqueKey) then s'.rows == s.rows
      else s.nextId !in s.rows && s.nextId in s'.rows && s'.rows == s.rows[s.nextId := s'.rows[s.nextId]]
           && IsNew(s'.rows[s.nextId], j, s.now)
  {
    RunAppend(es, Enqueue(j));
    RunAccounted(es);
    InsertLaw(Run(es).rows, j, Run(es).now);
  }

  // ---------- a reclaimed job ----------

  lemma ReapedRow(s: System, delay: int, fleet: int, id: JobId)
    requires id in s.rows
    ensures var s' := Next(s, Reap(delay, fleet));
      && id in s'.rows && s'.now == s.now
      && if IsLapsed(s.rows[id], s.now) then IsReaped(s.rows[id], s'.rows[id], s.now, delay, fleet) else s'.rows[id] == s.rows[id]
  {
    ReapLaw(s.rows[id], s.now, delay, fleet);
  }

  /** A job that a sweep reclaims is discarded, or retried no sooner than the delay: until then every continuation
    leaves it as the sweep left it. */
  lemma ReclaimedWaits(es: seq<Event>, delay: int, fleet: int, id: JobId, more: seq<Event>)
    requires id in Run(es).rows && IsLapsed(Run(es).rows[id], Run(es).now)
    requires Run(es + [Reap(delay, fleet)] + more).now < Run(es).now + delay
    ensures var s, r := Run(es), Run(es).rows[id];
            var after, later := Run(es + [Reap(delay, fleet)]), Run(es + [Reap(delay, fleet)] + more);
      && id in after.rows && IsReaped(r, after.rows[id], s.now, delay, fleet)
      && (r.attempt < r.maxAttempts && r.attempt < fleet ==>
            id in later.rows && later.rows[id] == after.rows[id]
            && later.rows[id].state == Retryable && later.rows[id].scheduledAt == s.now + delay)
  {
    RunAppend(es, Reap(delay, fleet));
    ReapedRow(Run(es), delay, fleet, id);
    var after := Run(es + [Reap(delay, fleet)]);
    if after.rows[id].state == Retryable { LeftAloneUntilDue(es + [Reap(delay, fleet)], more, id); }
  }

  // ---------- a job that is over ----------

  /** How long a row in this state is kept. */
  function KeptFor(r: Row, keepSucceeded: int, keepDiscarded: int): int {
    if r.state == Succeeded then keepSucceeded else keepDiscarded
  }

  /** All purges keep jobs for at least this long. */
  ghost predicate KeepsAtLeast(more: seq<Event>, keepSucceeded: int, keepDiscarded: int) {
    forall e | e in more && e.Purge? :: e.keepSucceeded >= keepSucceeded && e.keepDiscarded >= keepDiscarded
  }

  lemma KeptStep(s: System, e: Event, id: JobId, keepSucceeded: int, keepDiscarded: int)
    requires Accounted(s) && id in s.rows && s.rows[id].Terminal() && s.rows[id].finalizedAt.Some?
    requires e.Purge? ==> e.keepSucceeded >= keepSucceeded && e.keepDiscarded >= keepDiscarded
    requires s.now <= s.rows[id].finalizedAt.value + KeptFor(s.rows[id], keepSucceeded, keepDiscarded)
    ensures id in Next(s, e).rows && Next(s, e).rows[id] == s.rows[id]
  {
    if e.Purge? {
      PurgeLaw(s.rows[id], s.now, e.keepSucceeded, e.keepDiscarded);
    } else {
      OthersKeepRows(s, e);
      OverStays(s, e, id);
    }
  }

  lemma {:induction false} KeptOn(s: System, more: seq<Event>, id: JobId, keepSucceeded: int, keepDiscarded: int)
    requires Accounted(s) && id in s.rows && s.rows[id].Terminal() && s.rows[id].finalizedAt.Some?
    requires KeepsAtLeast(more, keepSucceeded, keepDiscarded)
    requires RunOn(s, more).now <= s.rows[id].finalizedAt.value + KeptFor(s.rows[id], keepSucceeded, keepDiscarded)
    ensures id in RunOn(s, more).rows && RunOn(s, more).rows[id] == s.rows[id]
  {
    if more != [] {
      var init, e := more[..|more| - 1], more[|more| - 1];
      assert e in more && forall d | d in init :: d in more;
      ClockGrows(RunOn(s, init), e);
      KeptOn(s, init, id, keepSucceeded, keepDiscarded);
      AccountedOn(s, init);
      KeptStep(RunOn(s, init), e, id, keepSucceeded, keepDiscarded);
    }
  }

  /** No purge before the retention of the row's own state is over. */
  lemma RetentionHonoured(es: seq<Event>, more: seq<Event>, id: JobId, keepSucceeded: int, keepDiscarded: int)
    requires id in Run(es).rows && Run(es).rows[id].finalizedAt.Some?
    requires KeepsAtLeast(more, keepSucceeded, keepDiscarded)
    requires Run(es + more).now <= Run(es).rows[id].finalizedAt.value + KeptFor(Run(es).rows[id], keepSucceeded, keepDiscarded)
    ensures id in Run(es + more).rows && Run(es + more).rows[id] == Run(es).rows[id]
  {
    RunAccounted(es);
    RunOnIsRun(es, more);
    KeptOn(Run(es), more, id, keepSucceeded, keepDiscarded);
  }

  /** And once it is over, a purge that reaches the row takes it. */
  lemma OutlivedIsPurged(s: System, keepSucceeded: int, keepDiscarded: int, chosen: set<JobId>, id: JobId)
    requires id in s.rows && id in chosen
    ensures id !in Next(s, Purge(keepSucceeded, keepDiscarded, chosen)).rows <==> Outlived(s.rows[id], s.now, keepSucceeded, keepDiscarded)
  {
    PurgeLaw(s.rows[id], s.now, keepSucceeded, keepDiscarded);
  }
}
