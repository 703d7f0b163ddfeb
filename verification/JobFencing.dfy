/** The claim guard fences stale workers, although snooze and release return attempts: over whole runs,
  and exactly when. */
module JobFencing {
  import opened Options
  import opened JobTable
  import opened JobProtocol
  import opened JobAccounting

  /** The claim under which the job is running now. */
  predicate Current(c: Claim, r: Row, h: History) {
    r.state == Running && c.epoch == h.epoch
  }

  /** A claim in memory either is the current one and matches its row, or the job is over, or the claim's
    attempt is spent, or it was given back. */
  ghost predicate Tracks(c: Claim, r: Row, h: History) {
    && 1 <= c.epoch <= h.epoch
    && (if Current(c, r, h)
        then HeldBy(r, c.worker) && r.attempt == c.attempt
        else r.Terminal() || c.attempt <= Spent(r) || c.epoch in h.GivenBack())
  }

  ghost predicate ClaimsTracked(s: System) {
    && s.dispatched <= s.claims
    && (forall c | c in s.claims :: c.job < s.nextId)
    && (forall c | c in s.claims && c.job in s.rows && c.job in s.history ::
          Tracks(c, s.rows[c.job], s.history[c.job]))
  }

  /** What a move does to the claim a job is running under: begin the next one, keep it, or end it, by
    spending its attempt or giving it back. */
  lemma MoveEffect(s: System, e: Event, id: JobId, r: Row, h: History, r': Row, h': History)
    requires RowMoves(s, e, id, r, h, r', h')
    ensures h.GivenBack() <= h'.GivenBack()
    ensures h'.epoch == h.epoch || (h'.epoch == h.epoch + 1 && r'.state == Running)
    ensures r'.state == Running && h'.epoch == h.epoch ==>
      r.state == Running && r'.lockedBy == r.lockedBy && r'.attempt == r.attempt
    ensures r.state == Running && r'.state != Running ==>
      r'.Terminal() || r.attempt <= Spent(r') || h.epoch in h'.GivenBack()
    ensures r.state == Running ==> h'.epoch == h.epoch
  {
  }

  /** Attempts spent never shrink, so a claim that lost its row does not become good again. */
  lemma TracksStep(s: System, e: Event, c: Claim, r: Row, h: History, r': Row, h': History)
    requires RowInv(r, h) && Tracks(c, r, h)
    requires RowMoves(s, e, c.job, r, h, r', h')
    ensures Tracks(c, r', h')
  {
    MoveKeeps(s, e, c.job, r, h, r', h');
    MoveEffect(s, e, c.job, r, h, r', h');
  }

  lemma NewClaimTracks(s: System, w: WorkerId, lease: int, chosen: set<JobId>, id: JobId)
    requires Accounted(s) && PoolOf(s, w).claiming && id in s.rows && Takes(s, id, chosen)
    ensures var s' := DoClaimBatch(s, w, lease, chosen);
      Tracks(ClaimOf(s, w, id), s'.rows[id], s'.history[id]) && Current(ClaimOf(s, w, id), s'.rows[id], s'.history[id])
  {
  }

  lemma ClaimsTrackedStep(s: System, e: Event)
    requires Accounted(s) && ClaimsTracked(s)
    ensures ClaimsTracked(Next(s, e))
  {
    var s' := Next(s, e);
    forall c | c in s'.claims && c.job in s'.rows && c.job in s'.history
      ensures Tracks(c, s'.rows[c.job], s'.history[c.job])
    {
      if c in s.claims {
        RowMoved(s, e, c.job);
        TracksStep(s, e, c, s.rows[c.job], s.history[c.job], s'.rows[c.job], s'.history[c.job]);
      } else {
        NewClaimTracks(s, e.worker, e.lease, e.chosen, c.job);
      }
    }
  }

  lemma {:induction false} RunClaimsTracked(es: seq<Event>)
    ensures ClaimsTracked(Run(es))
  {
    if es != [] {
      RunClaimsTracked(es[..|es| - 1]);
      RunAccounted(es[..|es| - 1]);
      ClaimsTrackedStep(Run(es[..|es| - 1]), es[|es| - 1]);
    }
  }

  /** In every run whatsoever: a completion write that matches its row comes from the claim the job is
    running under, unless the attempt of the writer's claim was given back. */
  lemma StaleIffGivenBack(es: seq<Event>, c: Claim)
    requires c in Run(es).dispatched && Matches(Run(es), c)
    ensures c.job in Run(es).history
    ensures Current(c, Run(es).rows[c.job], Run(es).history[c.job])
       <==> c.epoch !in Run(es).history[c.job].GivenBack()
  {
    RunClaimsTracked(es);
    RunAccounted(es);
  }

  // ---------- runs in which no release overtakes a claim statement ----------

  /** At this moment the drain deadline of w is harmless: no claim statement of w is in flight, or nothing that it
    tracks is running under a claim it handed over. */
  ghost predicate DeadlineSafe(s: System, w: WorkerId) {
    !PoolOf(s, w).claiming || !exists c :: TrackedAndRunning(s, w, c)
  }

  predicate TrackedAndRunning(s: System, w: WorkerId, c: Claim) {
    && c in s.dispatched && c.worker == w && c.job in PoolOf(s, w).inflight
    && c.job in s.rows && c.job in s.history && Current(c, s.rows[c.job], s.history[c.job])
  }

  /** The drain deadlines of w all come at such a moment. */
  ghost predicate Orderly(es: seq<Event>, w: WorkerId) {
    forall i | 0 <= i < |es| && es[i] == ReleaseInflight(w) :: DeadlineSafe(Before(es, i), w)
  }

  /** This worker will not claim again. */
  predicate Closed(s: System, w: WorkerId) {
    PoolOf(s, w).stopping && !PoolOf(s, w).claiming
  }

  lemma ClosedStable(s: System, e: Event, w: WorkerId)
    requires Closed(s, w)
    ensures Closed(Next(s, e), w)
  {
  }

  ghost predicate ClaimsDistinct(s: System) {
    forall c, d | c in s.claims && d in s.claims && c.job == d.job && c.epoch == d.epoch :: c == d
  }

  /** A claim statement is sent only once the previous batch is dispatched. */
  ghost predicate OneBatchAtATime(s: System) {
    forall w | PoolOf(s, w).claiming :: !HasUndispatched(s, w)
  }

  /** A claim of w that gave its attempt back is in memory only once w is closed, and w does not hold the job. */
  ghost predicate GivenBackClosed(s: System, w: WorkerId) {
    forall c | c in s.claims && c.worker == w && c.job in s.rows && c.job in s.history && c.epoch in s.history[c.job].GivenBack() ::
      Closed(s, w) && !HeldBy(s.rows[c.job], w)
  }

  ghost predicate Disciplined(s: System, w: WorkerId) {
    ClaimsDistinct(s) && OneBatchAtATime(s) && GivenBackClosed(s, w)
  }

  lemma ClaimsDistinctStep(s: System, e: Event)
    requires Accounted(s) && ClaimsTracked(s) && ClaimsDistinct(s)
    ensures ClaimsDistinct(Next(s, e))
  {
  }

  lemma OneBatchStep(s: System, e: Event)
    requires OneBatchAtATime(s)
    ensures OneBatchAtATime(Next(s, e))
  {
    var s' := Next(s, e);
    forall w | PoolOf(s', w).claiming ensures !HasUndispatched(s', w) {
      assert PoolOf(s, w).claiming || (e.StartClaim? && e.worker == w);
      assert !HasUndispatched(s, w);
      forall c | c in s'.claims && c !in s'.dispatched ensures c.worker != w {
        if c in s.claims && c !in s.dispatched {
        } else {
          assert e.ClaimBatch? && c.worker == e.worker;
        }
      }
    }
  }

  /** How an attempt is given back. */
  lemma GivenBackBy(s: System, e: Event, id: JobId, r: Row, h: History, r': Row, h': History, n: nat)
    requires RowMoves(s, e, id, r, h, r', h') && n in h'.GivenBack() && n !in h.GivenBack()
    ensures n == h.epoch && r.state == Running && r'.state != Running
    ensures || (e.HandBack? && PoolOf(s, e.claim.worker).stopping && HeldBy(r, e.claim.worker)
                && HasUndispatched(s, e.claim.worker))
            || (e.ReleaseInflight? && PoolOf(s, e.worker).stopping && HeldBy(r, e.worker) && id in PoolOf(s, e.worker).inflight)
            || (e.Finish? && e.claim in s.dispatched && id == e.claim.job && HeldBy(r, e.claim.worker) && r.attempt == e.claim.attempt)
  {
  }

  /** How a job gets a new holder. */
  lemma HeldSince(s: System, e: Event, id: JobId, r: Row, h: History, r': Row, h': History, w: WorkerId)
    requires RowMoves(s, e, id, r, h, r', h') && HeldBy(r', w)
    ensures HeldBy(r, w) || (e.ClaimBatch? && e.worker == w && PoolOf(s, w).claiming)
  {
  }

  /** A write that matches is made under the current claim. */
  lemma WriterIsCurrent(s: System, c: Claim)
    requires ClaimsTracked(s) && GivenBackClosed(s, c.worker)
    requires c in s.dispatched && c.job in s.rows && c.job in s.history
    requires HeldBy(s.rows[c.job], c.worker) && s.rows[c.job].attempt == c.attempt
    ensures Current(c, s.rows[c.job], s.history[c.job])
  {
    assert Tracks(c, s.rows[c.job], s.history[c.job]);
  }

  /** One event, for one claim that stays in memory. */
  lemma GivenBackMove(s: System, e: Event, c: Claim, r': Row, h': History)
    requires ClaimsTracked(s) && Disciplined(s, c.worker)
    requires c in s.claims && c.job in s.rows && c.job in s.history
    requires RowMoves(s, e, c.job, s.rows[c.job], s.history[c.job], r', h')
    requires e == ReleaseInflight(c.worker) ==> DeadlineSafe(s, c.worker)
    requires e.Finish? ==> c != e.claim
    requires c.epoch in h'.GivenBack()
    ensures Closed(s, c.worker) && !HeldBy(r', c.worker)
  {
    var r, h := s.rows[c.job], s.history[c.job];
    if c.epoch in h.GivenBack() {
      if HeldBy(r', c.worker) { HeldSince(s, e, c.job, r, h, r', h', c.worker); }
    } else {
      GivenBackBy(s, e, c.job, r, h, r', h', c.epoch);
      assert Tracks(c, r, h) && HeldBy(r, c.worker);
      if e.Finish? {
        WriterIsCurrent(s, e.claim);
      } else if e.ReleaseInflight? && PoolOf(s, c.worker).claiming {
        assert TrackedAndRunning(s, c.worker, c);
      }
    }
  }

  lemma FinishedIsGone(s: System, e: Event)
    requires e.Finish?
    ensures e.claim in Next(s, e).claims ==> e.claim !in s.dispatched
  {
  }

  lemma UndispatchedFinish(s: System, e: Event)
    requires e.Finish? && e.claim !in s.dispatched
    ensures Next(s, e) == s
  {
  }

  lemma GivenBackStep(s: System, e: Event, c: Claim)
    requires Accounted(s) && ClaimsTracked(s) && Disciplined(s, c.worker)
    requires e == ReleaseInflight(c.worker) ==> DeadlineSafe(s, c.worker)
    requires c in s.claims && c in Next(s, e).claims && c.job in s.rows && c.job in Next(s, e).rows
    requires c.job in Next(s, e).history && c.epoch in Next(s, e).history[c.job].GivenBack()
    ensures Closed(Next(s, e), c.worker) && !HeldBy(Next(s, e).rows[c.job], c.worker)
  {
    if e.Finish? && c == e.claim {
      FinishedIsGone(s, e);
      UndispatchedFinish(s, e);
    } else {
      RowMoved(s, e, c.job);
      GivenBackMove(s, e, c, Next(s, e).rows[c.job], Next(s, e).history[c.job]);
      ClosedStable(s, e, c.worker);
    }
  }

  lemma DisciplinedStep(s: System, e: Event, w: WorkerId)
    requires Accounted(s) && ClaimsTracked(s) && Disciplined(s, w)
    requires e == ReleaseInflight(w) ==> DeadlineSafe(s, w)
    ensures Disciplined(Next(s, e), w)
  {
    ClaimsDistinctStep(s, e);
    OneBatchStep(s, e);
    var s' := Next(s, e);
    forall c | c in s'.claims && c.worker == w && c.job in s'.rows && c.job in s'.history && c.epoch in s'.history[c.job].GivenBack()
      ensures Closed(s', w) && !HeldBy(s'.rows[c.job], w)
    {
      if c in s.claims {
        GivenBackStep(s, e, c);
      } else {
        NewClaimTracks(s, e.worker, e.lease, e.chosen, c.job);
        AccountedStep(s, e);
      }
    }
  }

  lemma OrderlyOne(es: seq<Event>, e: Event, w: WorkerId)
    ensures Orderly(es + [e], w) <==> Orderly(es, w) && (e == ReleaseInflight(w) ==> DeadlineSafe(Run(es), w))
  {
    var all := es + [e];
    forall i | 0 <= i < |es| ensures Before(all, i) == Before(es, i) && all[i] == es[i] { assert all[..i] == es[..i]; }
    assert all[..|es|] == es;
    if Orderly(all, w) {
      forall i | 0 <= i < |es| && es[i] == ReleaseInflight(w) ensures DeadlineSafe(Before(es, i), w) {
        assert all[i] == ReleaseInflight(w);
      }
      assert all[|es|] == e && Before(all, |es|) == Run(es);
    }
  }

  lemma {:induction false} RunDisciplined(es: seq<Event>, w: WorkerId)
    requires Orderly(es, w)
    ensures Disciplined(Run(es), w)
  {
    if es != [] {
      var init, e := es[..|es| - 1], es[|es| - 1];
      assert es == init + [e];
      OrderlyOne(init, e, w);
      RunDisciplined(init, w);
      RunAccounted(init);
      RunClaimsTracked(init);
      DisciplinedStep(Run(init), e, w);
    }
  }

  /** A completion write under claim c that would match is made under the current claim. */
  predicate NotStale(s: System, c: Claim) {
    c in s.dispatched && Matches(s, c) ==> c.job in s.history && Current(c, s.rows[c.job], s.history[c.job])
  }

  /** Fencing over whole runs: whatever the interleaving of claims, late completions, heartbeats, snoozes,
    releases, crashes and sweeps, and whatever the other pools do, a completion write only ever matches the row of
    the claim it was made under. */
  lemma Fenced(es: seq<Event>, c: Claim)
    requires Orderly(es, c.worker)
    ensures NotStale(Run(es), c)
  {
    if c in Run(es).dispatched && Matches(Run(es), c) {
      RunDisciplined(es, c.worker);
      RunClaimsTracked(es);
      RunAccounted(es);
      StaleIffGivenBack(es, c);
    }
  }

  // ---------- the drain deadline decides ----------

  /** The deadline of a pool comes once. */
  ghost predicate NoRelease(more: seq<Event>, w: WorkerId) {
    forall e | e in more :: e != ReleaseInflight(w)
  }

  /** Whatever follows the release, no completion write of w is stale. */
  ghost predicate FencedAfterRelease(es: seq<Event>, w: WorkerId) {
    forall more: seq<Event>, c: Claim | NoRelease(more, w) && c.worker == w ::
      NotStale(Run(es + [ReleaseInflight(w)] + more), c)
  }

  lemma {:induction false} OrderlyMore(es: seq<Event>, more: seq<Event>, w: WorkerId)
    requires Orderly(es, w) && NoRelease(more, w)
    ensures Orderly(es + more, w)
  {
    if more == [] {
      assert es + more == es;
    } else {
      var init, e := more[..|more| - 1], more[|more| - 1];
      assert e in more && forall d | d in init :: d in more;
      OrderlyMore(es, init, w);
      OrderlyOne(es + init, e, w);
      assert es + more == es + init + [e];
    }
  }

  /** The release, time enough for the job to be due, and the claim statement that was in flight. */
  function Overtaking(s: System, c: Claim): seq<Event>
    requires c.job in s.rows
  {
    [Tick(if s.now < s.rows[c.job].scheduledAt then s.rows[c.job].scheduledAt - s.now else 0), ClaimBatch(c.worker, 30, {c.job})]
  }

  lemma ReleasedRow(s: System, w: WorkerId, c: Claim)
    requires Accounted(s) && ClaimsTracked(s) && PoolOf(s, w).stopping && TrackedAndRunning(s, w, c)
    ensures var s' := Next(s, ReleaseInflight(w));
      && c.job in s'.rows && c.job in s'.history && s'.rows[c.job] == ReleaseRow(s.rows[c.job])
      && s'.rows[c.job].attempt == c.attempt - 1 && s'.history[c.job].epoch == c.epoch
      && s'.dispatched == s.dispatched && s'.now == s.now && PoolOf(s', w) == PoolOf(s, w)
  {
    assert Tracks(c, s.rows[c.job], s.history[c.job]);
  }

  lemma ReclaimedRow(s: System, w: WorkerId, id: JobId, elapsed: nat)
    requires id in s.rows && id in s.history && PoolOf(s, w).claiming
    requires s.rows[id].state == Available && s.rows[id].scheduledAt <= s.now + elapsed
    ensures var s' := Next(Next(s, Tick(elapsed)), ClaimBatch(w, 30, {id}));
      && id in s'.rows && id in s'.history && HeldBy(s'.rows[id], w)
      && s'.rows[id].attempt == s.rows[id].attempt + 1 && s'.history[id].epoch == s.history[id].epoch + 1
      && s'.dispatched == s.dispatched
  {
  }

  /** If the deadline comes while the pool's claim statement is in flight and something it tracks is running, the
    same worker can take that job again under the same attempt: the old handler's write matches the new claim. */
  lemma OvertakenIsStale(es: seq<Event>, w: WorkerId, c: Claim)
    requires PoolOf(Run(es), w).stopping && PoolOf(Run(es), w).claiming && TrackedAndRunning(Run(es), w, c)
    ensures !NotStale(Run(es + [ReleaseInflight(w)] + Overtaking(Run(es), c)), c)
  {
    var s, more := Run(es), Overtaking(Run(es), c);
    RunAccounted(es);
    RunClaimsTracked(es);
    ReleasedRow(s, w, c);
    RunAppend(es, ReleaseInflight(w));
    ReclaimedRow(Next(s, ReleaseInflight(w)), w, c.job, more[0].elapsed);
    RunTwo(Next(s, ReleaseInflight(w)), more[0], more[1]);
    RunOnIsRun(es + [ReleaseInflight(w)], more);
  }

  /** The release of a stopping pool fences its handlers, in every continuation, exactly when the deadline finds no
    claim statement of the pool in flight, or nothing tracked running. */
  lemma DeadlineFencesIff(es: seq<Event>, w: WorkerId)
    requires Orderly(es, w) && PoolOf(Run(es), w).stopping
    ensures FencedAfterRelease(es, w) <==> DeadlineSafe(Run(es), w)
  {
    var released := es + [ReleaseInflight(w)];
    OrderlyOne(es, ReleaseInflight(w), w);
    if DeadlineSafe(Run(es), w) {
      forall more: seq<Event>, c: Claim | NoRelease(more, w) && c.worker == w ensures NotStale(Run(released + more), c) {
        OrderlyMore(released, more, w);
        Fenced(released + more, c);
      }
    } else {
      var c :| TrackedAndRunning(Run(es), w, c);
      OvertakenIsStale(es, w, c);
      assert NoRelease(Overtaking(Run(es), c), w);
    }
  }

  // ---------- a run that gets there ----------

  const FIRST := Claim(1, "w", 1, 5, 1)

  /** The pool stops between the check of the draining channel and the claim statement it has already sent. */
  const CAUGHT: seq<Event> := [
    Enqueue(NewJob("task.event", "", "", 0)),
    StartClaim("w"), ClaimBatch("w", 30, {1}), Dispatch(FIRST),
    StartClaim("w"), Stop("w")]

  const R0 := FreshRow(NewJob("task.event", "", "", 0), 0)
  const R1 := ClaimRow(R0, 0, "w", 30)

  /** The state before event i of CAUGHT, for i > 0. */
  function CaughtState(i: nat): System
    requires 1 <= i <= 6
  {
    var pool := Pool(i in {2, 5, 6}, i == 6, if i >= 4 then {1} else {}, {});
    System(0, 2, map[1 := if i <= 2 then R0 else R1], map[1 := History(if i <= 2 then 0 else 1, {}, {})],
           if i <= 2 then {} else {FIRST}, if i >= 4 then {FIRST} else {},
           if i == 1 then map[] else map["w" := pool])
  }

  lemma CaughtClaims()
    ensures DoClaimBatch(CaughtState(2), "w", 30, {1}) == CaughtState(3)
  {
    var s, s' := CaughtState(2), CaughtState(3);
    var n := DoClaimBatch(s, "w", 30, {1});
    assert Takes(s, 1, {1});
    var taken := set id | id in s.rows && Takes(s, id, {1}) :: ClaimOf(s, "w", id);
    assert ClaimOf(s, "w", 1) in taken;
    assert taken == {FIRST};
    assert n.rows == s'.rows && n.history == s'.history && n.pools == s'.pools && n.claims == s'.claims;
  }

  lemma CaughtDispatch()
    ensures DoDispatch(CaughtState(3), FIRST) == CaughtState(4)
  {
    var n := DoDispatch(CaughtState(3), FIRST);
    assert PoolOf(CaughtState(3), "w").inflight + {1} == {1};
    assert n.dispatched == {FIRST} && n.pools == CaughtState(4).pools;
  }

  lemma CaughtStarts(i: nat)
    requires i == 1 || i == 4
    ensures DoStartClaim(CaughtState(i), "w") == CaughtState(i + 1)
  {
    assert !HasUndispatched(CaughtState(i), "w");
    assert DoStartClaim(CaughtState(i), "w").pools == CaughtState(i + 1).pools;
  }

  lemma CaughtStops()
    ensures Next(CaughtState(5), Stop("w")) == CaughtState(6)
  {
    assert Next(CaughtState(5), Stop("w")).pools == CaughtState(6).pools;
  }

  lemma CaughtStep(i: nat)
    requires 1 <= i < 6
    ensures Next(CaughtState(i), CAUGHT[i]) == CaughtState(i + 1)
  {
    if i == 1 || i == 4 { CaughtStarts(i); }
    else if i == 2 { CaughtClaims(); }
    else if i == 3 { CaughtDispatch(); }
    else { CaughtStops(); }
  }

  lemma {:induction false} CaughtRun(i: nat)
    requires 1 <= i <= 6
    ensures Before(CAUGHT, i) == CaughtState(i)
  {
    BeforeStep(CAUGHT, i - 1);
    if i > 1 {
      CaughtRun(i - 1);
      CaughtStep(i - 1);
    }
  }

  /** There is such a moment: after this orderly run the drain deadline does not fence the first claim. */
  lemma OvertakenIsNotFenced()
    ensures Orderly(CAUGHT, "w") && !FencedAfterRelease(CAUGHT, "w")
  {
    CaughtRun(6);
    assert CAUGHT[..6] == CAUGHT;
    assert TrackedAndRunning(CaughtState(6), "w", FIRST);
    DeadlineFencesIff(CAUGHT, "w");
  }
}
