/** What a stopped pool can still do. */
module Draining {
  import opened Options
  import opened JobTable
  import opened JobProtocol
  import opened JobAccounting
  import opened JobFencing

  /** Everything handed to this worker's goroutines after es and more was already handed over after es. */
  ghost predicate StartsNothing(es: seq<Event>, more: seq<Event>, w: WorkerId) {
    forall c | c in Run(es + more).dispatched && c.worker == w :: c in Run(es).dispatched
  }

  /** No claim statement of the pool is in flight, and nothing it claimed waits to be handed over. */
  predicate Quiesced(s: System, w: WorkerId) {
    Closed(s, w) && !HasUndispatched(s, w)
  }

  lemma QuiescedStep(s: System, e: Event, w: WorkerId)
    requires Quiesced(s, w)
    ensures Quiesced(Next(s, e), w)
  {
    ClosedStable(s, e, w);
    forall c | c in Next(s, e).claims && c !in Next(s, e).dispatched ensures c.worker != w {
      UndispatchedFrom(s, e, c);
    }
  }

  lemma UndispatchedFrom(s: System, e: Event, c: Claim)
    requires c in Next(s, e).claims && c !in Next(s, e).dispatched
    ensures (c in s.claims && c !in s.dispatched) || PoolOf(s, c.worker).claiming
  {
  }

  lemma HandedOnlyUndispatched(s: System, e: Event, c: Claim)
    requires c in Next(s, e).dispatched && c !in s.dispatched
    ensures c in s.claims
  {
  }

  lemma {:induction false} QuiescedOn(s: System, more: seq<Event>, w: WorkerId)
    requires Quiesced(s, w)
    ensures Quiesced(RunOn(s, more), w)
    ensures forall c | c in RunOn(s, more).dispatched && c.worker == w :: c in s.dispatched
  {
    if more != [] {
      var before, e := RunOn(s, more[..|more| - 1]), more[|more| - 1];
      QuiescedOn(s, more[..|more| - 1], w);
      QuiescedStep(before, e, w);
      forall c | c in Next(before, e).dispatched && c.worker == w ensures c in s.dispatched {
        if c !in before.dispatched { HandedOnlyUndispatched(before, e, c); }
      }
    }
  }

  lemma QuiescedStartsNothing(es: seq<Event>, more: seq<Event>, w: WorkerId)
    requires Quiesced(Run(es), w)
    ensures StartsNothing(es, more, w)
  {
    QuiescedOn(Run(es), more, w);
    RunOnIsRun(es, more);
  }

  // ---------- and otherwise it does ----------

  lemma UndispatchedStarts(es: seq<Event>, w: WorkerId)
    requires HasUndispatched(Run(es), w)
    ensures exists more :: !StartsNothing(es, more, w)
  {
    var c :| c in Run(es).claims && c !in Run(es).dispatched && c.worker == w;
    RunAppend(es, Dispatch(c));
    assert c in Run(es + [Dispatch(c)]).dispatched;
    assert !StartsNothing(es, [Dispatch(c)], w);
  }

  const NEW_JOB := NewJob("task.event", "", "", 0)

  lemma EnqueuedJob(s: System)
    requires Accounted(s)
    ensures var s' := Next(s, Enqueue(NEW_JOB));
      && s'.nextId == s.nextId + 1 && s'.pools == s.pools && s'.claims == s.claims && s'.dispatched == s.dispatched
      && s.nextId in s'.rows && s.nextId in s'.history && s'.now == s.now
      && s'.rows[s.nextId] == FreshRow(NEW_JOB, s.now) && s'.history[s.nextId].epoch == 0
  {
  }

  lemma ClaimedJob(s: System, w: WorkerId, id: JobId)
    requires PoolOf(s, w).claiming && id in s.rows && id in s.history && Claimable(s.rows[id], s.now)
    ensures ClaimOf(s, w, id) in Next(s, ClaimBatch(w, 30, {id})).claims
    ensures Next(s, ClaimBatch(w, 30, {id})).dispatched == s.dispatched
  {
    assert Takes(s, id, {id});
  }

  lemma ClaimedAndHanded(s: System, w: WorkerId) returns (c: Claim)
    requires Accounted(s) && ClaimsTracked(s) && PoolOf(s, w).claiming
    ensures c.worker == w && c !in s.dispatched
    ensures c in Next(Next(Next(s, Enqueue(NEW_JOB)), ClaimBatch(w, 30, {s.nextId})), Dispatch(c)).dispatched
  {
    var s1 := Next(s, Enqueue(NEW_JOB));
    EnqueuedJob(s);
    ClaimedJob(s1, w, s.nextId);
    c := ClaimOf(s1, w, s.nextId);
  }

  /** A claim statement in flight can still find a job, which is then handed over. */
  lemma InFlightStarts(es: seq<Event>, w: WorkerId)
    requires PoolOf(Run(es), w).claiming
    ensures exists more :: !StartsNothing(es, more, w)
  {
    RunAccounted(es);
    RunClaimsTracked(es);
    var c := ClaimedAndHanded(Run(es), w);
    var more := [Enqueue(NEW_JOB), ClaimBatch(w, 30, {Run(es).nextId}), Dispatch(c)];
    RunThree(es, more[0], more[1], more[2]);
    assert more == [more[0], more[1], more[2]];
    assert c in Run(es + more).dispatched;
    assert !StartsNothing(es, more, w);
  }

  /** After a stop no further handler is started exactly when, at that moment, no claim statement of the pool is
    in flight and nothing it claimed waits to be handed over. Stop itself only waits for what is tracked. */
  lemma NoHandlerAfterStopIff(es: seq<Event>, w: WorkerId)
    requires PoolOf(Run(es), w).stopping
    ensures (forall more: seq<Event> :: StartsNothing(es, more, w))
      <==> !PoolOf(Run(es), w).claiming && !HasUndispatched(Run(es), w)
  {
    if PoolOf(Run(es), w).claiming {
      InFlightStarts(es, w);
    } else if HasUndispatched(Run(es), w) {
      UndispatchedStarts(es, w);
    } else {
      forall more: seq<Event> ensures StartsNothing(es, more, w) { QuiescedStartsNothing(es, more, w); }
    }
  }
}
