/** Delays in time: a job that waits is left alone until it is due, and can be claimed from then on. */
module RetryTiming {
  import opened Options
  import opened JobTable
  import opened JobProtocol
  import opened JobAccounting

  /** One event at a time at which the job is not due. */
  lemma NotDueStep(s: System, e: Event, id: JobId)
    requires Accounted(s) && id in s.rows && s.rows[id].Waiting() && s.now < s.rows[id].scheduledAt
    ensures id in Next(s, e).rows && Next(s, e).rows[id] == s.rows[id]
  {
    if id !in Next(s, e).rows {
      OnlyPurgeDeletes(s, e, id);
    } else {
      RowMoved(s, e, id);
      NotDueMove(s, e, id, s.rows[id], s.history[id], Next(s, e).rows[id], Next(s, e).history[id]);
    }
  }

  lemma NotDueMove(s: System, e: Event, id: JobId, r: Row, h: History, r': Row, h': History)
    requires RowMoves(s, e, id, r, h, r', h') && r.Waiting() && s.now < r.scheduledAt
    ensures r' == r
  {
  }

  lemma ClockGrows(s: System, e: Event)
    ensures s.now <= Next(s, e).now
  {
  }

  lemma {:induction false} NotDueOn(s: System, more: seq<Event>, id: JobId)
    requires Accounted(s) && id in s.rows && s.rows[id].Waiting() && RunOn(s, more).now < s.rows[id].scheduledAt
    ensures Accounted(RunOn(s, more)) && id in RunOn(s, more).rows && RunOn(s, more).rows[id] == s.rows[id]
  {
    if more != [] {
      var before, e := RunOn(s, more[..|more| - 1]), more[|more| - 1];
      ClockGrows(before, e);
      NotDueOn(s, more[..|more| - 1], id);
      NotDueStep(before, e, id);
      AccountedStep(before, e);
    }
  }

  /** A waiting job is exactly as it was, whatever the fleet does, for as long as it is not due: nobody claims
    it, and it is not even made available. */
  lemma LeftAloneUntilDue(es: seq<Event>, more: seq<Event>, id: JobId)
    requires id in Run(es).rows && Run(es).rows[id].Waiting()
    requires Run(es + more).now < Run(es).rows[id].scheduledAt
    ensures id in Run(es + more).rows && Run(es + more).rows[id] == Run(es).rows[id]
  {
    RunAccounted(es);
    RunOnIsRun(es, more);
    NotDueOn(Run(es), more, id);
  }

  /** How long the write of a handler's result makes the job wait. */
  function DelayOf(c: Completion): Option<int> {
    match c
    case Retry(delay, _) => Some(delay)
    case Snooze(delay) => Some(delay)
    case _ => None
  }

  lemma CompletedWaits(s: System, c: Claim, cause: Cause, fleet: int, backoff: int)
    requires c in s.dispatched && Matches(s, c)
    requires DelayOf(Decide(cause, c.attempt, c.maxAttempts, fleet, backoff)).Some?
    ensures var r := DoFinish(s, c, cause, fleet, backoff).rows[c.job];
      && r.Waiting() && r.state != Available
      && r.scheduledAt == s.now + DelayOf(Decide(cause, c.attempt, c.maxAttempts, fleet, backoff)).value
  {
  }

  /** A retry waits out its backoff, and a snooze its time: until then every continuation leaves the row as
    the completion write left it. */
  lemma DelayHonoured(es: seq<Event>, c: Claim, cause: Cause, fleet: int, backoff: int, more: seq<Event>)
    requires c in Run(es).dispatched && Matches(Run(es), c)
    requires DelayOf(Decide(cause, c.attempt, c.maxAttempts, fleet, backoff)).Some?
    requires Run(es + [Finish(c, cause, fleet, backoff)] + more).now
      < Run(es).now + DelayOf(Decide(cause, c.attempt, c.maxAttempts, fleet, backoff)).value
    ensures var after, s := Run(es + [Finish(c, cause, fleet, backoff)]), Run(es + [Finish(c, cause, fleet, backoff)] + more);
      && c.job in after.rows && c.job in s.rows && s.rows[c.job] == after.rows[c.job]
      && s.rows[c.job].state in {Retryable, Scheduled}
  {
    RunAppend(es, Finish(c, cause, fleet, backoff));
    CompletedWaits(Run(es), c, cause, fleet, backoff);
    LeftAloneUntilDue(es + [Finish(c, cause, fleet, backoff)], more, c.job);
  }

  /** Right after a scheduling sweep, the claimable jobs are exactly the waiting ones that are due. */
  lemma DueIsClaimable(s: System, id: JobId)
    requires id in s.rows
    ensures id in Next(s, Schedule).rows
    ensures Claimable(Next(s, Schedule).rows[id], s.now) <==> s.rows[id].Waiting() && s.rows[id].scheduledAt <= s.now
  {
  }
}
