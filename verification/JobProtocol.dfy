/** The queue as a whole: the jobs table, the worker pools, and the claims the pools hold in memory.

  `Next` is total: an event whose guard fails changes nothing, exactly as a statement that matches no
  row changes nothing. A run is any sequence of events from the empty table, so every interleaving of
  claims, late completions, heartbeats, releases, crashes and sweeps is a run. */
module JobProtocol {
  import opened Options
  import opened JobTable

  /** A job as `Claim` returned it to one pool. `epoch` numbers the claims of a job; no statement reads
    it, it only says which claim of the job this is. */
  datatype Claim = Claim(job: JobId, worker: WorkerId, attempt: int, maxAttempts: int, epoch: nat)

  /** What happened to a job so far: how often it was claimed, and which of those claims gave their
    attempt back. No statement reads it. */
  datatype History = History(epoch: nat, snoozed: set<nat>, released: set<nat>)
  {
    function GivenBack(): set<nat> { snoozed + released }
  }

  /** One worker pool: a claim statement may be in flight, the pool may be stopping, it tracks jobs, and it
    heartbeats those it found tracked when it last looked. */
  datatype Pool = Pool(claiming: bool, stopping: bool, inflight: set<JobId>, snap: set<JobId>)

  datatype System = System(
    now: Time,
    nextId: JobId,
    rows: Rows,
    history: map<JobId, History>,
    claims: set<Claim>,      // claimed and not yet finished
    dispatched: set<Claim>,  // those whose handler may be running
    pools: map<WorkerId, Pool>)

  datatype Event =
    | Tick(elapsed: nat)
    | Enqueue(job: NewJob)
    | StartClaim(worker: WorkerId)
    | ClaimBatch(worker: WorkerId, lease: int, chosen: set<JobId>)
    | Track(claim: Claim)
    | Dispatch(claim: Claim)
    | HandBack(claim: Claim)
    | Finish(claim: Claim, cause: Cause, fleet: int, backoff: int)
    | Drop(claim: Claim)
    | Snap(worker: WorkerId)
    | Beat(worker: WorkerId, lease: int)
    | MissedBeat(worker: WorkerId)
    | Stop(worker: WorkerId)
    | ReleaseInflight(worker: WorkerId)
    | Crash(worker: WorkerId)
    | Schedule
    | Reap(delay: int, fleet: int)
    | Purge(keepSucceeded: int, keepDiscarded: int, chosen: set<JobId>)

  const INITIAL := System(0, 1, map[], map[], {}, {}, map[])

  function PoolOf(s: System, w: WorkerId): Pool {
    if w in s.pools then s.pools[w] else Pool(false, false, {}, {})
  }

  function SetPool(s: System, w: WorkerId, p: Pool): System {
    s.(pools := s.pools[w := p])
  }

  /** Claimed, but still waiting in claimBatch to be received by a worker goroutine. */
  predicate HasUndispatched(s: System, w: WorkerId) {
    exists c :: c in s.claims && c !in s.dispatched && c.worker == w
  }

  // ---------- one event ----------

  function DoEnqueue(s: System, j: NewJob): System {
    if Inserts(s.rows, j) then
      s.(nextId := s.nextId + 1,
         rows := s.rows[s.nextId := FreshRow(j, s.now)],
         history := s.history[s.nextId := History(0, {}, {})])
    else s
  }

  /** claimBatch's check of the draining channel, made before the claim statement is sent. One goroutine
    claims, and only once the previous batch is dispatched. */
  function DoStartClaim(s: System, w: WorkerId): System {
    var p := PoolOf(s, w);
    if p.stopping || p.claiming || HasUndispatched(s, w) then s
    else SetPool(s, w, p.(claiming := true))
  }

  predicate Takes(s: System, id: JobId, chosen: set<JobId>) {
    id in chosen && id in s.rows && id in s.history && Claimable(s.rows[id], s.now)
  }

  /** The claim a worker is handed for one of the rows it took. */
  function ClaimOf(s: System, w: WorkerId, id: JobId): Claim
    requires id in s.rows && id in s.history
  {
    Claim(id, w, s.rows[id].attempt + 1, s.rows[id].maxAttempts, s.history[id].epoch + 1)
  }

  function DoClaimBatch(s: System, w: WorkerId, lease: int, chosen: set<JobId>): System {
    var p := PoolOf(s, w);
    if !p.claiming then s
    else
      s.(rows := ClaimRows(s.rows, s.now, w, lease, chosen),
         history := map id | id in s.history ::
           if Takes(s, id, chosen) then s.history[id].(epoch := s.history[id].epoch + 1) else s.history[id],
         claims := s.claims + (set id | id in s.rows && Takes(s, id, chosen) :: ClaimOf(s, w, id)),
         pools := s.pools[w := p.(claiming := false)])
  }

  /** claimBatch tracks the job before it waits for a worker goroutine to receive it. */
  function DoTrack(s: System, c: Claim): System {
    var p := PoolOf(s, c.worker);
    if c !in s.claims then s else SetPool(s, c.worker, p.(inflight := p.inflight + {c.job}))
  }

  /** A worker goroutine receives the job, and tracks it again with a way to cancel it. */
  function DoDispatch(s: System, c: Claim): System {
    var p := PoolOf(s, c.worker);
    if c !in s.claims || c in s.dispatched then s
    else SetPool(s.(dispatched := s.dispatched + {c}), c.worker, p.(inflight := p.inflight + {c.job}))
  }

  function ReleaseHistory(s: System, w: WorkerId, ids: set<JobId>): map<JobId, History> {
    map id | id in s.history ::
      if id in ids && id in s.rows && HeldBy(s.rows[id], w)
      then s.history[id].(released := s.history[id].released + {s.history[id].epoch})
      else s.history[id]
  }

  /** The context was cancelled while `c` waited to be received: it alone is handed back, and the rest of
    the batch is forgotten. */
  function DoHandBack(s: System, c: Claim): System {
    var p := PoolOf(s, c.worker);
    if c !in s.claims || c in s.dispatched || !p.stopping then s
    else
      s.(rows := ReleaseRows(s.rows, c.worker, {c.job}),
         history := ReleaseHistory(s, c.worker, {c.job}),
         claims := (set d | d in s.claims && (d.worker != c.worker || d in s.dispatched)),
         pools := s.pools[c.worker := p.(inflight := p.inflight - {c.job})])
  }

  predicate Matches(s: System, c: Claim) {
    ClaimGuard(s.rows, c.job, c.worker, c.attempt)
  }

  /** One handler returns: one completion write, and the job is untracked. */
  function DoFinish(s: System, c: Claim, cause: Cause, fleet: int, backoff: int): System {
    if c !in s.dispatched then s
    else
      var p := PoolOf(s, c.worker);
      var w := Decide(cause, c.attempt, c.maxAttempts, fleet, backoff);
      s.(rows := CompleteRows(s.rows, s.now, c.job, c.worker, c.attempt, w),
         history :=
           if Matches(s, c) && w.Snooze? && c.job in s.history
           then s.history[c.job := s.history[c.job].(snoozed := s.history[c.job].snoozed + {s.history[c.job].epoch})]
           else s.history,
         claims := s.claims - {c},
         dispatched := s.dispatched - {c},
         pools := s.pools[c.worker := p.(inflight := p.inflight - {c.job})])
  }

  /** One handler returns while the database is out of reach: nothing is written, and the job is untracked. */
  function DoDrop(s: System, c: Claim): System {
    if c !in s.dispatched then s
    else
      var p := PoolOf(s, c.worker);
      s.(claims := s.claims - {c}, dispatched := s.dispatched - {c},
         pools := s.pools[c.worker := p.(inflight := p.inflight - {c.job})])
  }

  function DoReleaseInflight(s: System, w: WorkerId): System {
    var p := PoolOf(s, w);
    if !p.stopping then s
    else s.(rows := ReleaseRows(s.rows, w, p.inflight), history := ReleaseHistory(s, w, p.inflight))
  }

  /** The process is gone; a restarted one has another worker id. */
  function DoCrash(s: System, w: WorkerId): System {
    s.(claims := (set c | c in s.claims && c.worker != w),
       dispatched := (set c | c in s.dispatched && c.worker != w),
       pools := s.pools[w := Pool(false, true, {}, {})])
  }

  function Next(s: System, e: Event): System {
    match e
    case Tick(elapsed) => s.(now := s.now + elapsed)
    case Enqueue(j) => DoEnqueue(s, j)
    case StartClaim(w) => DoStartClaim(s, w)
    case ClaimBatch(w, lease, chosen) => DoClaimBatch(s, w, lease, chosen)
    case Track(c) => DoTrack(s, c)
    case Dispatch(c) => DoDispatch(s, c)
    case HandBack(c) => DoHandBack(s, c)
    case Finish(c, cause, fleet, backoff) => DoFinish(s, c, cause, fleet, backoff)
    case Drop(c) => DoDrop(s, c)
    case Snap(w) => SetPool(s, w, PoolOf(s, w).(snap := PoolOf(s, w).inflight))
    case Beat(w, lease) => s.(rows := HeartbeatRows(s.rows, s.now, w, lease, PoolOf(s, w).snap))
    case MissedBeat(w) => s
    case Stop(w) => SetPool(s, w, PoolOf(s, w).(stopping := true))
    case ReleaseInflight(w) => DoReleaseInflight(s, w)
    case Crash(w) => DoCrash(s, w)
    case Schedule => s.(rows := ScheduleRows(s.rows, s.now))
    case Reap(delay, fleet) => s.(rows := ReapRows(s.rows, s.now, delay, fleet))
    case Purge(keepSucceeded, keepDiscarded, chosen) =>
      var rows := PurgeRows(s.rows, s.now, keepSucceeded, keepDiscarded, chosen);
      s.(rows := rows, history := map id | id in s.history && id in rows :: s.history[id])
  }

  // ---------- one event, one row ----------

  /** The history after a completion write that matched. */
  function AfterCompletion(h: History, c: Completion): History {
    if c.Snooze? then h.(snoozed := h.snoozed + {h.epoch}) else h
  }

  /** All that event `e` can do to a row it does not delete, and to the history of that row. */
  predicate RowMoves(s: System, e: Event, id: JobId, r: Row, h: History, r': Row, h': History) {
    || (r' == r && h' == h)
    || match e
       case ClaimBatch(w, lease, chosen) =>
         PoolOf(s, w).claiming && id in chosen && Claimable(r, s.now)
         && r' == ClaimRow(r, s.now, w, lease) && h' == h.(epoch := h.epoch + 1)
       case Beat(w, lease) =>
         id in PoolOf(s, w).snap && HeldBy(r, w) && r' == HeartbeatRow(r, s.now, lease) && h' == h
       case HandBack(c) =>
         c in s.claims && c !in s.dispatched && PoolOf(s, c.worker).stopping && id == c.job && HeldBy(r, c.worker)
         && r' == ReleaseRow(r) && h' == h.(released := h.released + {h.epoch})
       case ReleaseInflight(w) =>
         PoolOf(s, w).stopping && id in PoolOf(s, w).inflight && HeldBy(r, w)
         && r' == ReleaseRow(r) && h' == h.(released := h.released + {h.epoch})
       case Finish(c, cause, fleet, backoff) =>
         var w := Decide(cause, c.attempt, c.maxAttempts, fleet, backoff);
         c in s.dispatched && id == c.job && HeldBy(r, c.worker) && r.attempt == c.attempt
         && r' == CompleteRow(r, s.now, c.worker, w) && h' == AfterCompletion(h, w)
       case Schedule => Due(r, s.now) && r' == r.(state := Available) && h' == h
       case Reap(delay, fleet) => Lapsed(r, s.now) && r' == ReapRow(r, s.now, delay, fleet) && h' == h
       case _ => false
  }

  lemma RowMoved(s: System, e: Event, id: JobId)
    requires id in s.rows && id in s.history && id < s.nextId && id in Next(s, e).rows
    ensures id in Next(s, e).history
    ensures RowMoves(s, e, id, s.rows[id], s.history[id], Next(s, e).rows[id], Next(s, e).history[id])
  {
  }

  // ---------- runs ----------

  function Run(es: seq<Event>): System {
    if es == [] then INITIAL else Next(Run(es[..|es| - 1]), es[|es| - 1])
  }

  /** The state before event i. */
  function Before(es: seq<Event>, i: nat): System
    requires i <= |es|
  {
    Run(es[..i])
  }

  lemma RunAppend(es: seq<Event>, e: Event)
    ensures Run(es + [e]) == Next(Run(es), e)
  {
    assert (es + [e])[..|es + [e]| - 1] == es;
  }

  lemma RunThree(es: seq<Event>, a: Event, b: Event, c: Event)
    ensures Run(es + [a]) == Next(Run(es), a)
    ensures Run(es + [a, b]) == Next(Run(es + [a]), b)
    ensures Run(es + [a, b, c]) == Next(Run(es + [a, b]), c)
  {
    RunAppend(es, a);
    RunAppend(es + [a], b);
    assert es + [a] + [b] == es + [a, b];
    RunAppend(es + [a, b], c);
    assert es + [a, b] + [c] == es + [a, b, c];
  }

  lemma BeforeStep(es: seq<Event>, i: nat)
    requires i < |es|
    ensures Before(es, i + 1) == Next(Before(es, i), es[i])
  {
    assert es[..i + 1][..i] == es[..i];
  }

  // ---------- continuations ----------

  /** The state after more events. */
  function RunOn(s: System, es: seq<Event>): System {
    if es == [] then s else Next(RunOn(s, es[..|es| - 1]), es[|es| - 1])
  }

  lemma RunOnAppend(s: System, es: seq<Event>, e: Event)
    ensures RunOn(s, es + [e]) == Next(RunOn(s, es), e)
  {
    assert (es + [e])[..|es + [e]| - 1] == es;
  }

  lemma RunOnOne(s: System, e: Event)
    ensures RunOn(s, [e]) == Next(s, e)
  {
    RunOnAppend(s, [], e);
    assert [] + [e] == [e];
  }

  lemma RunTwo(s: System, a: Event, b: Event)
    ensures RunOn(s, [a, b]) == Next(Next(s, a), b)
  {
    RunOnOne(s, a);
    RunOnAppend(s, [a], b);
    assert [a] + [b] == [a, b];
  }

  lemma {:induction false} RunOnAfter(s: System, a: seq<Event>, b: seq<Event>)
    ensures RunOn(s, a + b) == RunOn(RunOn(s, a), b)
  {
    if b == [] {
      assert a + b == a;
    } else {
      RunOnAfter(s, a, b[..|b| - 1]);
      assert (a + b)[..|a + b| - 1] == a + b[..|b| - 1];
    }
  }

  lemma OneMoreEvent(s: System, init: seq<Event>, p: seq<Event>, e: Event)
    requires RunOn(s, init) == Run(p)
    ensures RunOn(s, init + [e]) == Run(p + [e])
  {
    RunOnAppend(s, init, e);
    RunAppend(p, e);
  }

  lemma {:induction false} RunOnRuns(es: seq<Event>, more: seq<Event>) returns (all: seq<Event>)
    ensures all == es + more && RunOn(Run(es), more) == Run(all)
  {
    all := es;
    if more != [] {
      var init, e := more[..|more| - 1], more[|more| - 1];
      var front := RunOnRuns(es, init);
      all := front + [e];
      OneMoreEvent(Run(es), init, front, e);
      assert more == init + [e];
    }
  }

  /** Continuing a run of the protocol gives a run of the protocol. */
  lemma RunOnIsRun(es: seq<Event>, more: seq<Event>)
    ensures RunOn(Run(es), more) == Run(es + more)
  {
    var _ := RunOnRuns(es, more);
  }
}
