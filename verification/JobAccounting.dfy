/** What every reachable table satisfies: the lifecycle of a row, the conservation of attempts, the error
  history, and the uniqueness of live keys. */
module JobAccounting {
  import opened Options
  import opened JobTable
  import opened JobProtocol

  /** Attempts used up. A claim borrows one more; snooze and release return it. */
  function Spent(r: Row): int {
    if r.state in {Running, Succeeded} then r.attempt - 1 else r.attempt
  }

  /** The lock columns are set exactly while the job runs, and finalized_at only once it is over. */
  ghost predicate Lifecycle(r: Row) {
    && (r.state == Running <==> r.lockedBy.Some?)
    && (r.state == Running <==> r.lockedAt.Some?)
    && (r.state == Running <==> r.leaseExpiresAt.Some?)
    && (r.state == Running ==> r.heartbeatAt.Some?)
    && (r.finalizedAt.Some? ==> r.Terminal())
    && r.maxAttempts >= 1
  }

  /** Every claim is recorded, and each either spent an attempt or gave it back. */
  ghost predicate Conserved(r: Row, h: History) {
    && |r.attemptedBy| == h.epoch
    && |r.attemptedBy| == r.attempt + |h.snoozed| + |h.released|
    && h.snoozed !! h.released
    && (forall n :: n in h.GivenBack() ==> 1 <= n <= h.epoch)
    && (r.state == Running ==> h.epoch !in h.GivenBack())
    && (r.state == Running ==> r.attemptedBy != [] && r.lockedBy == Some(r.attemptedBy[|r.attemptedBy| - 1]))
  }

  /** One error per spent attempt, in order, each by a worker that had claimed the job. */
  ghost predicate ErrorHistory(r: Row) {
    && Spent(r) >= 0
    && |r.errors| == Spent(r)
    && forall i :: 0 <= i < |r.errors| ==> r.errors[i].attempt == i + 1 && r.errors[i].worker in r.attemptedBy
  }

  ghost predicate RowInv(r: Row, h: History) {
    Lifecycle(r) && Conserved(r, h) && ErrorHistory(r)
  }

  ghost predicate Accounted(s: System) {
    && s.rows.Keys == s.history.Keys
    && forall id :: id in s.rows ==> id < s.nextId && RowInv(s.rows[id], s.history[id])
  }

  /** What no event ever does to a row that survives it: change what was enqueued, return an attempt that
    was spent, forget a claim, or touch a job that is over. */
  ghost predicate Evolves(r: Row, h: History, r': Row, h': History) {
    && r'.kind == r.kind && r'.payload == r.payload && r'.uniqueKey == r.uniqueKey
    && r'.maxAttempts == r.maxAttempts
    && Spent(r) <= Spent(r')
    && r.errors <= r'.errors
    && r.attemptedBy <= r'.attemptedBy
    && h.epoch <= h'.epoch && h.snoozed <= h'.snoozed && h.released <= h'.released
    && (r.Terminal() ==> r' == r && h' == h)
  }

  // ---------- one row, one statement ----------

  lemma ClaimKeeps(r: Row, h: History, now: Time, w: WorkerId, lease: int)
    requires RowInv(r, h) && Claimable(r, now)
    ensures RowInv(ClaimRow(r, now, w, lease), h.(epoch := h.epoch + 1))
    ensures Spent(ClaimRow(r, now, w, lease)) == Spent(r)
    ensures Evolves(r, h, ClaimRow(r, now, w, lease), h.(epoch := h.epoch + 1))
  {
    assert h.(epoch := h.epoch + 1).GivenBack() == h.GivenBack();
  }

  lemma ReleaseKeeps(r: Row, h: History)
    requires RowInv(r, h) && r.state == Running
    ensures RowInv(ReleaseRow(r), h.(released := h.released + {h.epoch}))
    ensures Spent(ReleaseRow(r)) == Spent(r)
    ensures Evolves(r, h, ReleaseRow(r), h.(released := h.released + {h.epoch}))
  {
  }

  lemma CompleteKeeps(r: Row, h: History, now: Time, w: WorkerId, c: Completion)
    requires RowInv(r, h) && HeldBy(r, w)
    requires c.Finalize? ==> c.to in {Cancelled, Discarded}
    ensures RowInv(CompleteRow(r, now, w, c), AfterCompletion(h, c))
    ensures Evolves(r, h, CompleteRow(r, now, w, c), AfterCompletion(h, c))
  {
    assert w == r.attemptedBy[|r.attemptedBy| - 1];
  }

  lemma ReapKeeps(r: Row, h: History, now: Time, delay: int, fleet: int)
    requires RowInv(r, h) && r.state == Running
    ensures RowInv(ReapRow(r, now, delay, fleet), h)
    ensures Evolves(r, h, ReapRow(r, now, delay, fleet), h)
  {
  }

  // ---------- one event ----------

  ghost predicate RowEvolves(s: System, s': System, id: JobId)
    requires id in s.rows && id in s.history && id in s'.rows
  {
    && id in s'.history
    && RowInv(s'.rows[id], s'.history[id])
    && Evolves(s.rows[id], s.history[id], s'.rows[id], s'.history[id])
  }

  lemma RowStep(s: System, e: Event, id: JobId)
    requires Accounted(s) && id in s.rows && id in Next(s, e).rows
    ensures RowEvolves(s, Next(s, e), id)
  {
    var r, h := s.rows[id], s.history[id];
    RowMoved(s, e, id);
    MoveKeeps(s, e, id, r, h, Next(s, e).rows[id], Next(s, e).history[id]);
  }

  lemma MoveKeeps(s: System, e: Event, id: JobId, r: Row, h: History, r': Row, h': History)
    requires RowInv(r, h) && RowMoves(s, e, id, r, h, r', h')
    ensures RowInv(r', h') && Evolves(r, h, r', h')
  {
    if r' != r || h' != h {
      match e
      case ClaimBatch(w, lease, chosen) => ClaimKeeps(r, h, s.now, w, lease);
      case HandBack(c) => ReleaseKeeps(r, h);
      case ReleaseInflight(w) => ReleaseKeeps(r, h);
      case Finish(c, cause, fleet, backoff) =>
        CompleteKeeps(r, h, s.now, c.worker, Decide(cause, c.attempt, c.maxAttempts, fleet, backoff));
      case Reap(delay, fleet) => ReapKeeps(r, h, s.now, delay, fleet);
      case _ =>
    }
  }

  /** A row disappears only by Purge, and then it was over and carried its finalized_at. */
  lemma OnlyPurgeDeletes(s: System, e: Event, id: JobId)
    requires Accounted(s) && id in s.rows && id !in Next(s, e).rows
    ensures e.Purge? && s.rows[id].Terminal() && s.rows[id].finalizedAt.Some?
  {
    if !e.Purge? { OthersKeepRows(s, e); }
  }

  lemma OthersKeepRows(s: System, e: Event)
    requires !e.Purge?
    ensures s.rows.Keys <= Next(s, e).rows.Keys
  {
  }

  lemma NewRowIsNext(s: System, e: Event, id: JobId)
    requires id !in s.rows && id in Next(s, e).rows
    ensures e.Enqueue? && id == s.nextId && Inserts(s.rows, e.job)
    ensures Next(s, e).rows[id] == FreshRow(e.job, s.now) && Next(s, e).nextId == s.nextId + 1
  {
  }

  lemma HistoryFollows(s: System, e: Event)
    requires s.rows.Keys == s.history.Keys
    ensures Next(s, e).rows.Keys == Next(s, e).history.Keys && s.nextId <= Next(s, e).nextId
  {
  }

  lemma NewRowKeeps(s: System, e: Event, id: JobId)
    requires id !in s.rows && id in Next(s, e).rows
    ensures id in Next(s, e).history && RowInv(Next(s, e).rows[id], Next(s, e).history[id])
  {
    NewRowIsNext(s, e, id);
    var r := FreshRow(e.job, s.now);
    assert Next(s, e).history[id] == History(0, {}, {});
    assert RowInv(r, History(0, {}, {}));
  }

  lemma AccountedStep(s: System, e: Event)
    requires Accounted(s)
    ensures Accounted(Next(s, e))
  {
    HistoryFollows(s, e);
    forall id | id in Next(s, e).rows
      ensures id < Next(s, e).nextId && RowInv(Next(s, e).rows[id], Next(s, e).history[id])
    {
      if id in s.rows {
        RowStep(s, e, id);
      } else {
        NewRowIsNext(s, e, id);
        NewRowKeeps(s, e, id);
      }
    }
  }

  /** Lifecycle, conservation and error history hold of every row in every reachable state. */
  lemma {:induction false} RunAccounted(es: seq<Event>)
    ensures Accounted(Run(es))
  {
    if es != [] {
      RunAccounted(es[..|es| - 1]);
      AccountedStep(Run(es[..|es| - 1]), es[|es| - 1]);
    }
  }

  // ---------- the end of a row ----------

  lemma OverStays(s: System, e: Event, id: JobId)
    requires Accounted(s) && id in s.rows && s.rows[id].Terminal() && id in Next(s, e).rows
    ensures Next(s, e).rows[id] == s.rows[id]
  {
    RowStep(s, e, id);
  }

  lemma StaysGone(s: System, e: Event, id: JobId)
    requires id !in s.rows && id < s.nextId
    ensures id !in Next(s, e).rows && id < Next(s, e).nextId
  {
    if id in Next(s, e).rows { NewRowIsNext(s, e, id); }
  }

  /** After the continuation `more` of s, which ends in s': a job that was over is as it was until it is gone; and a
    job is gone only by a purge that found it over and finalized, after some front part of the continuation. */
  ghost predicate Ended(s: System, more: seq<Event>, s': System, id: JobId, front: seq<Event>, purge: Event)
    requires id in s.rows
  {
    && id < s'.nextId
    && (s.rows[id].Terminal() && id in s'.rows ==> s'.rows[id] == s.rows[id])
    && (id !in s'.rows ==> front + [purge] <= more && PurgesFinalized(RunOn(s, front), purge, id))
  }

  lemma {:induction false} AccountedOn(s: System, more: seq<Event>)
    requires Accounted(s)
    ensures Accounted(RunOn(s, more))
  {
    if more != [] {
      AccountedOn(s, more[..|more| - 1]);
      AccountedStep(RunOn(s, more[..|more| - 1]), more[|more| - 1]);
    }
  }

  lemma EndedStep(s: System, init: seq<Event>, e: Event, id: JobId, front: seq<Event>, purge: Event)
    returns (front': seq<Event>, purge': Event)
    requires Accounted(s) && id in s.rows && Ended(s, init, RunOn(s, init), id, front, purge)
    ensures Ended(s, init + [e], RunOn(s, init + [e]), id, front', purge')
  {
    AccountedOn(s, init);
    EndStep(RunOn(s, init), e, id);
    RunOnAppend(s, init, e);
    front', purge' := front, purge;
    if id in RunOn(s, init).rows { front', purge' := init, e; }
  }

  lemma {:induction false} EndOn(s: System, more: seq<Event>, id: JobId) returns (front: seq<Event>, purge: Event)
    requires Accounted(s) && id in s.rows
    ensures Ended(s, more, RunOn(s, more), id, front, purge)
  {
    front, purge := [], Schedule;
    if more != [] {
      var init, e := more[..|more| - 1], more[|more| - 1];
      front, purge := EndOn(s, init, id);
      front, purge := EndedStep(s, init, e, id, front, purge);
      assert more == init + [e];
    }
  }

  lemma EndStep(s: System, e: Event, id: JobId)
    requires Accounted(s) && id < s.nextId
    ensures Accounted(Next(s, e)) && id < Next(s, e).nextId && (id !in s.rows ==> id !in Next(s, e).rows)
    ensures id in s.rows && id !in Next(s, e).rows ==> PurgesFinalized(s, e, id)
    ensures id in s.rows && id in Next(s, e).rows && s.rows[id].Terminal() ==> Next(s, e).rows[id] == s.rows[id]
  {
    AccountedStep(s, e);
    HistoryFollows(s, e);
    if id !in s.rows { StaysGone(s, e, id); }
    else if id !in Next(s, e).rows { OnlyPurgeDeletes(s, e, id); }
    else if s.rows[id].Terminal() { OverStays(s, e, id); }
  }

  /** The event is a purge that takes this job, which is over and finalized. */
  predicate PurgesFinalized(s: System, e: Event, id: JobId) {
    e.Purge? && id in s.rows && s.rows[id].Terminal() && s.rows[id].finalizedAt.Some? && id !in Next(s, e).rows
  }

  /** In every run: a job that is over is never touched again, and a job disappears only by a purge that found it
    over and finalized; no live job is ever deleted. */
  lemma GoneMeansPurged(es: seq<Event>, more: seq<Event>, id: JobId) returns (front: seq<Event>, purge: Event)
    requires id in Run(es).rows
    ensures Run(es).rows[id].Terminal() && id in Run(es + more).rows ==> Run(es + more).rows[id] == Run(es).rows[id]
    ensures id !in Run(es + more).rows ==> front + [purge] <= more && PurgesFinalized(Run(es + front), purge, id)
  {
    RunAccounted(es);
    front, purge := EndOn(Run(es), more, id);
    RunOnIsRun(es, more);
    RunOnIsRun(es, front);
  }

  // ---------- unique keys ----------

  predicate SameLiveKey(a: Row, b: Row) {
    a.Live() && b.Live() && a.uniqueKey.Some? && a.uniqueKey == b.uniqueKey
  }

  ghost predicate UniqueLive(rows: Rows) {
    forall i, j | i in rows && j in rows && SameLiveKey(rows[i], rows[j]) :: i == j
  }

  /** A live row was live before, under the same key, unless this event inserted it. */
  lemma LiveWasLive(s: System, e: Event, id: JobId)
    requires Accounted(s) && id in Next(s, e).rows && Next(s, e).rows[id].Live()
    ensures id in s.rows ==> s.rows[id].Live() && s.rows[id].uniqueKey == Next(s, e).rows[id].uniqueKey
    ensures id !in s.rows ==> e.Enqueue? && id == s.nextId && Inserts(s.rows, e.job)
                              && Next(s, e).rows[id] == FreshRow(e.job, s.now)
  {
    if id in s.rows { RowStep(s, e, id); } else { NewRowIsNext(s, e, id); }
  }

  lemma UniqueLiveStep(s: System, e: Event)
    requires Accounted(s) && UniqueLive(s.rows)
    ensures UniqueLive(Next(s, e).rows)
  {
    var rows := Next(s, e).rows;
    forall i, j | i in rows && j in rows && SameLiveKey(rows[i], rows[j])
      ensures i == j
    {
      LiveWasLive(s, e, i);
      LiveWasLive(s, e, j);
    }
  }

  /** At most one live job per unique key, in every reachable state. */
  lemma {:induction false} RunUniqueLive(es: seq<Event>)
    ensures UniqueLive(Run(es).rows)
  {
    if es != [] {
      RunUniqueLive(es[..|es| - 1]);
      RunAccounted(es[..|es| - 1]);
      UniqueLiveStep(Run(es[..|es| - 1]), es[|es| - 1]);
    }
  }
}
