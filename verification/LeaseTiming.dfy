/** Leases in time: who keeps a job, and for how long. */
module LeaseTiming {
  import opened Options
  import opened JobTable
  import opened JobProtocol
  import opened JobAccounting
  import opened JobFencing

  // ---------- a worker that heartbeats on time ----------

  /** The heartbeat ticker of one pool: when it fires next, how many beats in a row were missed, and whether the
    pool has already looked up what it tracks for the beat of this tick. */
  datatype Ticker = Ticker(due: Time, missed: nat, looked: bool)

  function TickerNext(t: Ticker, e: Event, w: WorkerId, interval: nat): Ticker {
    if e.Snap? && e.worker == w then t.(looked := true)
    else if e.Beat? && e.worker == w then Ticker(t.due + interval, 0, false)
    else if e.MissedBeat? && e.worker == w then Ticker(t.due + interval, t.missed + 1, false)
    else t
  }

  function TickerAfter(es: seq<Event>, w: WorkerId, interval: nat, first: Time): Ticker {
    if es == [] then Ticker(first, 0, false)
    else TickerNext(TickerAfter(es[..|es| - 1], w, interval, first), es[|es| - 1], w, interval)
  }

  /** How a pool is configured, and how long after its tick a beat may land. */
  datatype Timing = Timing(interval: nat, lease: nat, delay: nat)

  /** Event e is on time for worker w in state s with ticker t: after a tick the pool looks up what it tracks, and its
    beat lands, delivered or missed, at most `delay` after the tick; no more than two in a row are missed; the pool
    claims only once its ticker runs, and always for the same lease. */
  predicate EventOnTime(s: System, t: Ticker, e: Event, w: WorkerId, k: Timing, first: Time) {
    && (e.Tick? ==> s.now + e.elapsed <= t.due + k.delay)
    && (e.Snap? && e.worker == w ==> t.due <= s.now && !t.looked)
    && (e.Beat? && e.worker == w ==> t.looked && e.lease == k.lease)
    && (e.MissedBeat? && e.worker == w ==> t.due <= s.now && t.missed < 2)
    && (e.ClaimBatch? && e.worker == w ==> s.now >= first - k.interval && e.lease == k.lease)
  }

  ghost predicate Prompt(es: seq<Event>, w: WorkerId, k: Timing, first: Time) {
    if es == [] then 0 <= first
    else
      var init, e := es[..|es| - 1], es[|es| - 1];
      Prompt(init, w, k, first) && EventOnTime(Run(init), TickerAfter(init, w, k.interval, first), e, w, k, first)
  }

  lemma PromptOne(es: seq<Event>, e: Event, w: WorkerId, k: Timing, first: Time)
    ensures Prompt(es + [e], w, k, first)
      <==> Prompt(es, w, k, first) && EventOnTime(Run(es), TickerAfter(es, w, k.interval, first), e, w, k, first)
    ensures TickerAfter(es + [e], w, k.interval, first) == TickerNext(TickerAfter(es, w, k.interval, first), e, w, k.interval)
  {
    assert (es + [e])[..|es + [e]| - 1] == es;
  }

  ghost predicate OnTime(s: System, t: Ticker, k: Timing, first: Time) {
    && s.now <= t.due + k.delay && t.missed <= 2 && (t.due == first || t.due - k.interval <= s.now)
    && (t.looked ==> t.due <= s.now)
  }

  lemma ClockStep(s: System, e: Event)
    ensures Next(s, e).now == if e.Tick? then s.now + e.elapsed else s.now
  {
  }

  lemma OnTimeStep(s: System, t: Ticker, e: Event, w: WorkerId, k: Timing, first: Time)
    requires OnTime(s, t, k, first) && EventOnTime(s, t, e, w, k, first)
    ensures OnTime(Next(s, e), TickerNext(t, e, w, k.interval), k, first)
  {
    ClockStep(s, e);
  }

  lemma {:induction false} PromptOnTime(es: seq<Event>, w: WorkerId, k: Timing, first: Time)
    requires Prompt(es, w, k, first)
    ensures OnTime(Run(es), TickerAfter(es, w, k.interval, first), k, first)
  {
    if es != [] {
      var init, e := es[..|es| - 1], es[|es| - 1];
      PromptOnTime(init, w, k, first);
      OnTimeStep(Run(init), TickerAfter(init, w, k.interval, first), e, w, k, first);
    }
  }

  // ---------- one claim ----------

  /** The claim is in memory, and the job is running under it. */
  predicate Holds(s: System, c: Claim) {
    c in s.claims && c.job in s.rows && c.job in s.history && Current(c, s.rows[c.job], s.history[c.job])
  }

  /** Room in the lease for three intervals and the delay of a beat. */
  predicate Roomy(k: Timing) {
    3 * k.interval + k.delay <= k.lease
  }

  /** The last moment at which the next beat that covers the job may land: two beats may be missed, but one that was
    already looked up without the job does not count. */
  function Horizon(t: Ticker, k: Timing, found: bool): Time {
    if t.looked && !found then t.due + 3 * k.interval + k.delay
    else t.due + (2 - t.missed) * k.interval + k.delay
  }

  ghost predicate LeaseReaches(r: Row, t: Ticker, k: Timing, found: bool) {
    r.leaseExpiresAt.Some? && r.leaseExpiresAt.value >= Horizon(t, k, found)
  }

  predicate Found(s: System, c: Claim) {
    c.job in PoolOf(s, c.worker).snap
  }

  ghost predicate Secure(s: System, t: Ticker, c: Claim, k: Timing) {
    Holds(s, c) ==> LeaseReaches(s.rows[c.job], t, k, Found(s, c))
  }

  lemma Intervals(missed: nat, interval: nat)
    requires missed <= 2
    ensures 0 <= (2 - missed) * interval <= 2 * interval
    ensures (2 - missed) * interval == interval + (2 - (missed + 1)) * interval
  {
  }

  /** A row whose lease was just stamped: by a claim, or by a beat that moves the ticker on. */
  lemma StampReaches(r: Row, now: Time, t: Ticker, k: Timing, found: bool)
    requires Roomy(k) && t.missed <= 2 && r.leaseExpiresAt == Some(now + k.lease)
    requires t.due <= now + k.interval && (t.looked ==> t.due <= now)
    ensures LeaseReaches(r, t, k, found)
  {
    Intervals(t.missed, k.interval);
  }

  /** A claim that holds its job after an event held it before, with the row as it was or beaten. */
  lemma HeldBefore(s: System, e: Event, c: Claim)
    requires Accounted(s) && ClaimsTracked(s) && Holds(Next(s, e), c) && c in s.claims
    ensures Holds(s, c) && HeldBy(s.rows[c.job], c.worker)
    ensures Next(s, e).rows[c.job] == s.rows[c.job]
         || (e.Beat? && e.worker == c.worker && Next(s, e).rows[c.job] == HeartbeatRow(s.rows[c.job], s.now, e.lease))
  {
    if c.job !in s.rows { NewRowIsNext(s, e, c.job); }
    RowMoved(s, e, c.job);
    HeldMove(s, e, c, s.rows[c.job], s.history[c.job], Next(s, e).rows[c.job], Next(s, e).history[c.job]);
  }

  lemma HeldMove(s: System, e: Event, c: Claim, r: Row, h: History, r': Row, h': History)
    requires RowMoves(s, e, c.job, r, h, r', h') && Tracks(c, r, h) && Current(c, r', h')
    ensures Current(c, r, h)
    ensures r' == r || (e.Beat? && e.worker == c.worker && r' == HeartbeatRow(r, s.now, e.lease))
  {
    MoveEffect(s, e, c.job, r, h, r', h');
  }

  lemma JustClaimed(s: System, e: Event, c: Claim)
    requires c in Next(s, e).claims && c !in s.claims
    ensures e.ClaimBatch? && e.worker == c.worker && c.job in s.rows
    ensures Next(s, e).rows[c.job] == ClaimRow(s.rows[c.job], s.now, e.worker, e.lease)
  {
  }

  /** A delivered beat of its worker that found the job renews the lease. */
  lemma BeatReaches(s: System, c: Claim, lease: int)
    requires Holds(s, c) && HeldBy(s.rows[c.job], c.worker)
    ensures Next(s, Beat(c.worker, lease)).rows[c.job]
      == if Found(s, c) then HeartbeatRow(s.rows[c.job], s.now, lease) else s.rows[c.job]
  {
  }

  /** What the pool has looked up changes only when it looks again, or dies. */
  lemma FoundStep(s: System, e: Event, c: Claim)
    requires c in Next(s, e).claims && c in s.claims
    ensures Found(Next(s, e), c) == if e == Snap(c.worker) then c.job in PoolOf(s, c.worker).inflight else Found(s, c)
  {
  }

  lemma KeptReaches(r: Row, r': Row, now: Time, t: Ticker, e: Event, w: WorkerId, k: Timing, found: bool, found': bool)
    requires Roomy(k) && LeaseReaches(r, t, k, found) && t.missed <= 2
    requires e == Snap(w) ==> found' && !t.looked
    requires !(e == Snap(w)) ==> found' == found
    requires e.Beat? && e.worker == w ==> t.looked && t.due <= now && r' == if found then HeartbeatRow(r, now, k.lease) else r
    requires !(e.Beat? && e.worker == w) ==> r' == r
    requires e.MissedBeat? && e.worker == w ==> t.missed < 2
    ensures LeaseReaches(r', TickerNext(t, e, w, k.interval), k, found')
  {
    Intervals(t.missed, k.interval);
    if e.Beat? && e.worker == w && found { StampReaches(r', now, TickerNext(t, e, w, k.interval), k, found'); }
  }

  lemma SecureKept(s: System, e: Event, t: Ticker, c: Claim, k: Timing, first: Time)
    requires Accounted(s) && ClaimsTracked(s) && Roomy(k) && Secure(s, t, c, k) && c in s.claims && Holds(Next(s, e), c)
    requires EventOnTime(s, t, e, c.worker, k, first) && OnTime(s, t, k, first)
    requires e == Snap(c.worker) && Holds(s, c) ==> c.job in PoolOf(s, c.worker).inflight
    ensures Secure(Next(s, e), TickerNext(t, e, c.worker, k.interval), c, k)
  {
    HeldBefore(s, e, c);
    FoundStep(s, e, c);
    if e.Beat? && e.worker == c.worker { BeatReaches(s, c, e.lease); }
    KeptReaches(s.rows[c.job], Next(s, e).rows[c.job], s.now, t, e, c.worker, k, Found(s, c), Found(Next(s, e), c));
  }

  lemma SecureNew(s: System, e: Event, t: Ticker, c: Claim, k: Timing, first: Time)
    requires Roomy(k) && c in Next(s, e).claims && c !in s.claims
    requires EventOnTime(s, t, e, c.worker, k, first) && OnTime(s, t, k, first)
    ensures Secure(Next(s, e), TickerNext(t, e, c.worker, k.interval), c, k)
  {
    JustClaimed(s, e, c);
    if Holds(Next(s, e), c) { StampReaches(Next(s, e).rows[c.job], s.now, t, k, Found(Next(s, e), c)); }
  }

  /** A secure lease stays secure, as long as the pool finds the job whenever it looks. */
  lemma SecureStep(s: System, e: Event, t: Ticker, c: Claim, k: Timing, first: Time)
    requires Accounted(s) && ClaimsTracked(s) && Roomy(k) && Secure(s, t, c, k)
    requires EventOnTime(s, t, e, c.worker, k, first) && OnTime(s, t, k, first)
    requires e == Snap(c.worker) && Holds(s, c) ==> c.job in PoolOf(s, c.worker).inflight
    ensures Secure(Next(s, e), TickerNext(t, e, c.worker, k.interval), c, k)
  {
    if Holds(Next(s, e), c) {
      if c in s.claims { SecureKept(s, e, t, c, k, first); } else { SecureNew(s, e, t, c, k, first); }
    }
  }

  lemma SecureIsNotLapsed(s: System, t: Ticker, c: Claim, k: Timing, first: Time)
    requires Secure(s, t, c, k) && Holds(s, c) && OnTime(s, t, k, first)
    ensures !Lapsed(s.rows[c.job], s.now)
  {
    Intervals(t.missed, k.interval);
  }

  // ---------- what is tracked ----------

  /** The entry of the job is dropped from the map of tracked jobs on behalf of another claim. */
  predicate DropsEntry(s: System, e: Event, c: Claim) {
    && (e.Finish? || e.Drop? || e.HandBack?) && e.claim != c && e.claim.worker == c.worker && e.claim.job == c.job
    && (if !e.HandBack? then e.claim in s.dispatched
        else e.claim in s.claims && e.claim !in s.dispatched && PoolOf(s, c.worker).stopping)
  }

  ghost predicate TrackedInMemory(s: System, c: Claim) {
    c in s.claims ==> c.job in PoolOf(s, c.worker).inflight
  }

  lemma TrackedStep(s: System, e: Event, c: Claim)
    requires c in s.claims && c in Next(s, e).claims && !DropsEntry(s, e, c)
    requires c.job in PoolOf(s, c.worker).inflight || e == Track(c) || (e == Dispatch(c) && c !in s.dispatched)
    requires c in s.dispatched ==> c.job in PoolOf(s, c.worker).inflight || e == Track(c)
    ensures c.job in PoolOf(Next(s, e), c.worker).inflight
  {
  }

  /** The claim is in memory, and its job has been tracked since it was claimed. */
  ghost predicate Announced(es: seq<Event>, c: Claim) {
    es != [] && (var init, e := es[..|es| - 1], es[|es| - 1];
                 && c in Run(es).claims && c in Run(init).claims
                 && (Announced(init, c) || e == Track(c) || (e == Dispatch(c) && c !in Run(init).dispatched)))
  }

  /** The worker does not finish or hand back another claim of the same job while this one is tracked: the map of
    tracked jobs has one entry per job. */
  ghost predicate Unshared(es: seq<Event>, c: Claim) {
    es == [] || (var init, e := es[..|es| - 1], es[|es| - 1];
                 Unshared(init, c) && (c in Run(init).claims ==> !DropsEntry(Run(init), e, c)))
  }

  /** Whenever the pool looks up what it tracks, the claim has been tracked. */
  ghost predicate TrackedByTick(es: seq<Event>, c: Claim) {
    es == [] || (var init, e := es[..|es| - 1], es[|es| - 1];
                 TrackedByTick(init, c) && (e == Snap(c.worker) && c in Run(init).claims ==> Announced(init, c)))
  }

  /** A handler that runs has been announced by its own hand-over. */
  lemma DispatchStep(s: System, e: Event, c: Claim)
    requires c in Next(s, e).dispatched && c !in s.dispatched
    ensures e == Dispatch(c) && c in s.claims
  {
  }

  lemma {:induction false} RunTracked(es: seq<Event>, c: Claim)
    requires Unshared(es, c)
    ensures Announced(es, c) ==> c.job in PoolOf(Run(es), c.worker).inflight
    ensures c in Run(es).dispatched ==> Announced(es, c)
  {
    if es != [] {
      var init, e := es[..|es| - 1], es[|es| - 1];
      RunTracked(init, c);
      RunClaimsTracked(init);
      RunClaimsTracked(es);
      if Announced(es, c) { TrackedStep(Run(init), e, c); }
      if c in Run(es).dispatched && c !in Run(init).dispatched { DispatchStep(Run(init), e, c); }
    }
  }

  // ---------- lease safety ----------

  lemma {:induction false} RunSecure(es: seq<Event>, c: Claim, k: Timing, first: Time)
    requires Roomy(k) && Prompt(es, c.worker, k, first) && Unshared(es, c) && TrackedByTick(es, c)
    ensures Secure(Run(es), TickerAfter(es, c.worker, k.interval, first), c, k)
  {
    if es != [] {
      var init, e := es[..|es| - 1], es[|es| - 1];
      RunSecure(init, c, k, first);
      PromptOnTime(init, c.worker, k, first);
      RunAccounted(init);
      RunClaimsTracked(init);
      RunTracked(init, c);
      SecureStep(Run(init), e, TickerAfter(init, c.worker, k.interval, first), c, k, first);
    }
  }

  lemma UnlapsedStays(s: System, id: JobId, backoff: int, fleet: int)
    requires id in s.rows && !Lapsed(s.rows[id], s.now)
    ensures id in Next(s, Reap(backoff, fleet)).rows && Next(s, Reap(backoff, fleet)).rows[id] == s.rows[id]
  {
  }

  lemma NotLapsed(es: seq<Event>, c: Claim, k: Timing, first: Time)
    requires Roomy(k) && Prompt(es, c.worker, k, first) && Unshared(es, c) && TrackedByTick(es, c) && Holds(Run(es), c)
    ensures !Lapsed(Run(es).rows[c.job], Run(es).now)
  {
    RunSecure(es, c, k, first);
    PromptOnTime(es, c.worker, k, first);
    SecureIsNotLapsed(Run(es), TickerAfter(es, c.worker, k.interval, first), c, k, first);
  }

  /** Lease safety over whole runs: a pool whose beats land on time and that never misses more than two in a row
    keeps every job that it holds, waiting or running, and had tracked whenever it looked, whenever a sweep comes
    by. */
  lemma LeaseSafe(es: seq<Event>, c: Claim, k: Timing, first: Time, backoff: int, fleet: int)
    requires Roomy(k) && Prompt(es, c.worker, k, first) && Unshared(es, c) && TrackedByTick(es, c) && Holds(Run(es), c)
    ensures c.job in Next(Run(es), Reap(backoff, fleet)).rows
    ensures Next(Run(es), Reap(backoff, fleet)).rows[c.job] == Run(es).rows[c.job]
  {
    NotLapsed(es, c, k, first);
    UnlapsedStays(Run(es), c.job, backoff, fleet);
  }

  /** With this timing no sweep can ever take a tracked job from a prompt pool. */
  ghost predicate KeepsTrackedJobs(k: Timing) {
    forall es: seq<Event>, c: Claim, first: Time
      | Prompt(es, c.worker, k, first) && Unshared(es, c) && TrackedByTick(es, c) && Holds(Run(es), c) ::
      !Lapsed(Run(es).rows[c.job], Run(es).now)
  }

  /** Exactly the timings with room for three intervals and the delay of a beat do. */
  lemma KeepsIffRoom(k: Timing)
    ensures KeepsTrackedJobs(k) <==> Roomy(k)
  {
    if Roomy(k) {
      forall es: seq<Event>, c: Claim, first: Time
        | Prompt(es, c.worker, k, first) && Unshared(es, c) && TrackedByTick(es, c) && Holds(Run(es), c)
        ensures !Lapsed(Run(es).rows[c.job], Run(es).now)
      {
        NotLapsed(es, c, k, first);
      }
    } else {
      var es := TightRun(k);
      assert Lapsed(Run(es).rows[TIGHT.job], Run(es).now);
    }
  }

  const TIGHT := Claim(1, "w", 1, 5, 1)

  /** A job is claimed at time 0, one interval before the first tick, and handed over at once. */
  function TightStart(k: Timing): seq<Event> {
    [Enqueue(NewJob("task.event", "", "", 0)), StartClaim("w"), ClaimBatch("w", k.lease, {1}), Dispatch(TIGHT)]
  }

  /** Nothing but the ticker and the clock. */
  ghost predicate TightSoFar(es: seq<Event>, k: Timing, now: Time, t: Ticker) {
    && Prompt(es, "w", k, k.interval) && TickerAfter(es, "w", k.interval, k.interval) == t
    && Unshared(es, TIGHT) && TrackedByTick(es, TIGHT)
    && Run(es).now == now && Holds(Run(es), TIGHT)
    && Run(es).rows[1].leaseExpiresAt == Some(k.lease) && Run(es).rows[1].state == Running
  }

  lemma TightStep(es: seq<Event>, k: Timing, now: Time, t: Ticker, e: Event) returns (es': seq<Event>)
    requires TightSoFar(es, k, now, t)
    requires (e.Tick? && now + e.elapsed <= t.due + k.delay) || (e == MissedBeat("w") && t.due <= now && t.missed < 2)
    ensures TightSoFar(es', k, if e.Tick? then now + e.elapsed else now, TickerNext(t, e, "w", k.interval))
  {
    es' := es + [e];
    PromptOne(es, e, "w", k, k.interval);
    RunAppend(es, e);
    assert es'[..|es'| - 1] == es;
  }

  function TightState(k: Timing, i: nat): System
    requires 1 <= i <= 4
  {
    var fresh0 := FreshRow(NewJob("task.event", "", "", 0), 0);
    var row := if i <= 2 then fresh0 else ClaimRow(fresh0, 0, "w", k.lease);
    System(0, 2, map[1 := row], map[1 := History(if i <= 2 then 0 else 1, {}, {})],
           if i <= 2 then {} else {TIGHT}, if i == 4 then {TIGHT} else {},
           if i == 1 then map[] else map["w" := Pool(i == 2, false, if i == 4 then {1} else {}, {})])
  }

  lemma TightClaims(k: Timing)
    ensures DoClaimBatch(TightState(k, 2), "w", k.lease, {1}) == TightState(k, 3)
  {
    var s, s' := TightState(k, 2), TightState(k, 3);
    var n := DoClaimBatch(s, "w", k.lease, {1});
    assert Takes(s, 1, {1});
    var taken := set id | id in s.rows && Takes(s, id, {1}) :: ClaimOf(s, "w", id);
    assert ClaimOf(s, "w", 1) in taken;
    assert taken == {TIGHT};
    assert n.rows == s'.rows && n.history == s'.history && n.pools == s'.pools && n.claims == s'.claims;
  }

  lemma TightBegins(k: Timing)
    ensures Next(INITIAL, TightStart(k)[0]) == TightState(k, 1)
    ensures Next(TightState(k, 1), TightStart(k)[1]) == TightState(k, 2)
    ensures Next(TightState(k, 3), TightStart(k)[3]) == TightState(k, 4)
  {
    assert !HasUndispatched(TightState(k, 1), "w");
    assert DoStartClaim(TightState(k, 1), "w").pools == TightState(k, 2).pools;
    var n := DoDispatch(TightState(k, 3), TIGHT);
    assert PoolOf(TightState(k, 3), "w").inflight + {1} == {1};
    assert n.dispatched == {TIGHT} && n.pools == TightState(k, 4).pools;
  }

  ghost predicate TightAt(es: seq<Event>, k: Timing, i: nat)
    requires i <= 4
  {
    && Run(es) == (if i == 0 then INITIAL else TightState(k, i))
    && Prompt(es, "w", k, k.interval) && TickerAfter(es, "w", k.interval, k.interval) == Ticker(k.interval, 0, false)
    && Unshared(es, TIGHT) && TrackedByTick(es, TIGHT)
  }

  lemma TightEvent(k: Timing, i: nat, e: Event, s: System)
    requires i < 4 && e == TightStart(k)[i] && s == if i == 0 then INITIAL else TightState(k, i)
    ensures Next(s, e) == TightState(k, i + 1)
    ensures EventOnTime(s, Ticker(k.interval, 0, false), e, "w", k, k.interval) && !DropsEntry(s, e, TIGHT)
    ensures !e.Snap? && !e.Beat? && !e.MissedBeat?
  {
    TightBegins(k);
    TightClaims(k);
  }

  lemma TightNext(es: seq<Event>, k: Timing, i: nat) returns (es': seq<Event>)
    requires i < 4 && TightAt(es, k, i)
    ensures TightAt(es', k, i + 1)
  {
    var e := TightStart(k)[i];
    es' := es + [e];
    TightEvent(k, i, e, Run(es));
    PromptOne(es, e, "w", k, k.interval);
    RunAppend(es, e);
    assert es'[..|es'| - 1] == es;
  }

  lemma TightBegun(k: Timing) returns (es: seq<Event>)
    ensures TightSoFar(es, k, 0, Ticker(k.interval, 0, false))
  {
    es := [];
    es := TightNext(es, k, 0);
    es := TightNext(es, k, 1);
    es := TightNext(es, k, 2);
    es := TightNext(es, k, 3);
  }

  /** One more tick is met, and its beat missed. */
  lemma TightMiss(es: seq<Event>, k: Timing, t: Ticker) returns (es': seq<Event>)
    requires TightSoFar(es, k, t.due - k.interval, t) && t.missed < 2 && !t.looked
    ensures TightSoFar(es', k, t.due, Ticker(t.due + k.interval, t.missed + 1, false))
  {
    es' := TightStep(es, k, t.due - k.interval, t, Tick(k.interval));
    es' := TightStep(es', k, t.due, t, MissedBeat("w"));
  }

  /** Two beats are missed, and the third one is about to land as late as it may. */
  lemma TightRun(k: Timing) returns (es: seq<Event>)
    ensures TightSoFar(es, k, 3 * k.interval + k.delay, Ticker(3 * k.interval, 2, false))
  {
    es := TightBegun(k);
    es := TightMiss(es, k, Ticker(k.interval, 0, false));
    es := TightMiss(es, k, Ticker(2 * k.interval, 1, false));
    es := TightStep(es, k, 2 * k.interval, Ticker(3 * k.interval, 2, false), Tick(k.interval + k.delay));
  }

  // ---------- a worker that is gone ----------

  predicate By(e: Event, w: WorkerId) {
    match e
    case StartClaim(v) => v == w
    case ClaimBatch(v, _, _) => v == w
    case Track(c) => c.worker == w
    case Dispatch(c) => c.worker == w
    case HandBack(c) => c.worker == w
    case Finish(c, _, _, _) => c.worker == w
    case Drop(c) => c.worker == w
    case Snap(v) => v == w
    case Beat(v, _) => v == w
    case MissedBeat(v) => v == w
    case Stop(v) => v == w
    case ReleaseInflight(v) => v == w
    case Crash(v) => v == w
    case _ => false
  }

  ghost predicate Silent(more: seq<Event>, w: WorkerId) {
    forall e | e in more :: !By(e, w)
  }

  /** Nobody else renews the lease of a silent worker, and it does not claim again. */
  lemma SilentMove(s: System, e: Event, id: JobId, r: Row, h: History, r': Row, h': History, w: WorkerId)
    requires !By(e, w) && RowMoves(s, e, id, r, h, r', h') && HeldBy(r', w)
    ensures r' == r
  {
  }

  lemma SilentStep(s: System, e: Event, w: WorkerId, id: JobId)
    requires Accounted(s) && !By(e, w) && id in s.rows && id in Next(s, e).rows && HeldBy(Next(s, e).rows[id], w)
    ensures Next(s, e).rows[id] == s.rows[id]
  {
    RowMoved(s, e, id);
    SilentMove(s, e, id, s.rows[id], s.history[id], Next(s, e).rows[id], Next(s, e).history[id], w);
  }

  lemma IdsGrow(s: System, e: Event)
    ensures s.nextId <= Next(s, e).nextId
  {
  }

  /** Ids are never used twice, so a row that is there was there. */
  lemma {:induction false} SilentOn(s: System, more: seq<Event>, w: WorkerId, id: JobId)
    requires Accounted(s) && Silent(more, w) && id in s.rows
    ensures Accounted(RunOn(s, more)) && s.nextId <= RunOn(s, more).nextId
    ensures id in RunOn(s, more).rows && HeldBy(RunOn(s, more).rows[id], w) ==> RunOn(s, more).rows[id] == s.rows[id]
  {
    if more != [] {
      var init, e := more[..|more| - 1], more[|more| - 1];
      var before := RunOn(s, init);
      assert e in more && forall d | d in init :: d in more;
      SilentOn(s, init, w, id);
      AccountedStep(before, e);
      IdsGrow(before, e);
      if id in Next(before, e).rows && HeldBy(Next(before, e).rows[id], w) {
        if id in before.rows { SilentStep(before, e, w, id); } else { NewRowIsNext(before, e, id); }
      }
    }
  }

  lemma SilentRow(es: seq<Event>, more: seq<Event>, w: WorkerId, id: JobId)
    requires Silent(more, w) && id in Run(es).rows
    requires id in Run(es + more).rows && HeldBy(Run(es + more).rows[id], w)
    ensures Run(es + more).rows[id] == Run(es).rows[id]
  {
    RunAccounted(es);
    SilentOn(Run(es), more, w, id);
    RunOnIsRun(es, more);
  }

  /** A job whose worker has gone silent is taken from it by the first sweep after its lease, whatever the
    rest of the fleet does meanwhile. */
  lemma SilentIsReclaimed(es: seq<Event>, more: seq<Event>, w: WorkerId, id: JobId, delay: int, fleet: int)
    requires id in Run(es).rows && HeldBy(Run(es).rows[id], w) && Silent(more, w)
    requires Run(es).rows[id].leaseExpiresAt.Some? && Run(es).rows[id].leaseExpiresAt.value < Run(es + more).now
    ensures var s := Next(Run(es + more), Reap(delay, fleet)); !(id in s.rows && HeldBy(s.rows[id], w))
  {
    var s := Run(es + more);
    if id in s.rows && HeldBy(s.rows[id], w) { SilentRow(es, more, w, id); }
  }

  // ---------- from any moment on ----------

  function TickerOn(t: Ticker, more: seq<Event>, w: WorkerId, interval: nat): Ticker {
    if more == [] then t else TickerNext(TickerOn(t, more[..|more| - 1], w, interval), more[|more| - 1], w, interval)
  }

  /** The pool stays on time in this continuation. */
  ghost predicate PromptOn(s: System, t: Ticker, more: seq<Event>, w: WorkerId, k: Timing, first: Time) {
    more == [] || (var init, e := more[..|more| - 1], more[|more| - 1];
                   && PromptOn(s, t, init, w, k, first)
                   && EventOnTime(RunOn(s, init), TickerOn(t, init, w, k.interval), e, w, k, first))
  }

  /** It does not drop the entry of c's job for another claim. */
  ghost predicate UnsharedOn(s: System, more: seq<Event>, c: Claim) {
    more == [] || (var init, e := more[..|more| - 1], more[|more| - 1];
                   UnsharedOn(s, init, c) && (c in RunOn(s, init).claims ==> !DropsEntry(RunOn(s, init), e, c)))
  }

  ghost predicate GoesOn(s: System, t: Ticker, more: seq<Event>, c: Claim, k: Timing, first: Time) {
    PromptOn(s, t, more, c.worker, k, first) && UnsharedOn(s, more, c)
  }

  /** No sweep can take the job from c in such a continuation. */
  ghost predicate Survives(s: System, t: Ticker, c: Claim, k: Timing, first: Time) {
    forall more: seq<Event> | GoesOn(s, t, more, c, k, first) && Holds(RunOn(s, more), c) ::
      !Lapsed(RunOn(s, more).rows[c.job], RunOn(s, more).now)
  }

  /** The claim is not new, and while it is in memory its job is tracked. */
  ghost predicate Kept(s: System, c: Claim) {
    c.job < s.nextId && (c.job in s.history ==> c.epoch <= s.history[c.job].epoch) && TrackedInMemory(s, c)
  }

  lemma OldStaysOld(s: System, e: Event, c: Claim)
    requires Accounted(s) && c.job < s.nextId && (c.job in s.history ==> c.epoch <= s.history[c.job].epoch)
    ensures c.job < Next(s, e).nextId && (c.job in Next(s, e).history ==> c.epoch <= Next(s, e).history[c.job].epoch)
    ensures c in Next(s, e).claims ==> c in s.claims
  {
    HistoryFollows(s, e);
    if c.job in Next(s, e).rows {
      if c.job in s.rows { RowStep(s, e, c.job); } else { NewRowIsNext(s, e, c.job); }
    }
  }

  lemma {:induction false} SurvivesOn(s: System, t: Ticker, more: seq<Event>, c: Claim, k: Timing, first: Time)
    requires Roomy(k) && Accounted(s) && ClaimsTracked(s) && OnTime(s, t, k, first) && Kept(s, c) && Secure(s, t, c, k)
    requires GoesOn(s, t, more, c, k, first)
    ensures var s', t' := RunOn(s, more), TickerOn(t, more, c.worker, k.interval);
      Accounted(s') && ClaimsTracked(s') && OnTime(s', t', k, first) && Kept(s', c) && Secure(s', t', c, k)
  {
    if more != [] {
      var init, e := more[..|more| - 1], more[|more| - 1];
      SurvivesOn(s, t, init, c, k, first);
      SurvivesStep(RunOn(s, init), TickerOn(t, init, c.worker, k.interval), e, c, k, first);
    }
  }

  lemma SurvivesStep(s: System, t: Ticker, e: Event, c: Claim, k: Timing, first: Time)
    requires Roomy(k) && Accounted(s) && ClaimsTracked(s) && OnTime(s, t, k, first) && Kept(s, c) && Secure(s, t, c, k)
    requires EventOnTime(s, t, e, c.worker, k, first) && (c in s.claims ==> !DropsEntry(s, e, c))
    ensures var s', t' := Next(s, e), TickerNext(t, e, c.worker, k.interval);
      Accounted(s') && ClaimsTracked(s') && OnTime(s', t', k, first) && Kept(s', c) && Secure(s', t', c, k)
  {
    AccountedStep(s, e);
    ClaimsTrackedStep(s, e);
    OnTimeStep(s, t, e, c.worker, k, first);
    SecureStep(s, e, t, c, k, first);
    OldStaysOld(s, e, c);
    if c in Next(s, e).claims { TrackedStep(s, e, c); }
  }

  // ---------- and when it does not ----------

  predicate HeldByIn(s: System, w: WorkerId, id: JobId) {
    id in s.rows && HeldBy(s.rows[id], w)
  }

  predicate FoundJob(s: System, w: WorkerId, id: JobId) {
    id in PoolOf(s, w).snap
  }

  /** Nothing happens but the ticker and the heartbeat of w. */
  ghost predicate OnlyTicker(more: seq<Event>, w: WorkerId) {
    forall e | e in more :: e.Tick? || e == Snap(w) || e == MissedBeat(w) || (e.Beat? && e.worker == w)
  }

  ghost predicate MissesNone(more: seq<Event>) {
    forall e | e in more :: !e.MissedBeat?
  }

  /** Such a continuation from s and t to s' and t', in which the job's row ends as r. */
  ghost predicate Goes(s: System, t: Ticker, more: seq<Event>, w: WorkerId, id: JobId, k: Timing, first: Time,
                       s': System, t': Ticker, r: Row) {
    && s' == RunOn(s, more) && t' == TickerOn(t, more, w, k.interval)
    && PromptOn(s, t, more, w, k, first) && OnlyTicker(more, w) && OnTime(s', t', k, first)
    && s'.claims == s.claims && s'.history == s.history && PoolOf(s', w).inflight == PoolOf(s, w).inflight
    && id in s'.rows && s'.rows[id] == r
  }

  lemma QuietEvent(s: System, e: Event, w: WorkerId, id: JobId)
    requires id in s.rows
    requires e.Tick? || e == MissedBeat(w) || e == Snap(w) || (e.Beat? && e.worker == w && !FoundJob(s, w, id))
    ensures var s' := Next(s, e);
      && s'.claims == s.claims && s'.history == s.history && PoolOf(s', w).inflight == PoolOf(s, w).inflight
      && id in s'.rows && s'.rows[id] == s.rows[id]
      && s'.now == s.now + (if e.Tick? then e.elapsed else 0)
      && FoundJob(s', w, id) == if e.Snap? then id in PoolOf(s, w).inflight else FoundJob(s, w, id)
  {
  }

  lemma GoesNowhere(s: System, t: Ticker, w: WorkerId, id: JobId, k: Timing, first: Time)
    requires id in s.rows && OnTime(s, t, k, first)
    ensures Goes(s, t, [], w, id, k, first, s, t, s.rows[id])
  {
  }

  /** One more event, that leaves the row as it is. */
  lemma GoOne(s: System, t: Ticker, more: seq<Event>, w: WorkerId, id: JobId, k: Timing, first: Time,
              s': System, t': Ticker, r: Row, e: Event)
    returns (more2: seq<Event>, s2: System, t2: Ticker)
    requires Goes(s, t, more, w, id, k, first, s', t', r) && EventOnTime(s', t', e, w, k, first)
    requires e.Tick? || e == MissedBeat(w) || e == Snap(w) || (e.Beat? && e.worker == w && !FoundJob(s', w, id))
    ensures Goes(s, t, more2, w, id, k, first, s2, t2, r)
    ensures t2 == TickerNext(t', e, w, k.interval) && s2.now == s'.now + (if e.Tick? then e.elapsed else 0)
    ensures FoundJob(s2, w, id) == if e.Snap? then id in PoolOf(s, w).inflight else FoundJob(s', w, id)
    ensures MissesNone(more) && !e.MissedBeat? ==> MissesNone(more2)
  {
    more2, s2, t2 := more + [e], Next(s', e), TickerNext(t', e, w, k.interval);
    RunOnAppend(s, more, e);
    assert more2[..|more2| - 1] == more;
    QuietEvent(s', e, w, id);
    OnTimeStep(s', t', e, w, k, first);
  }

  /** The beat of the next tick is missed. */
  lemma MissOne(s: System, t: Ticker, more: seq<Event>, w: WorkerId, id: JobId, k: Timing, first: Time,
                s': System, t': Ticker, r: Row)
    returns (more2: seq<Event>, s2: System, t2: Ticker)
    requires Goes(s, t, more, w, id, k, first, s', t', r) && t'.missed < 2
    ensures Goes(s, t, more2, w, id, k, first, s2, t2, r)
    ensures t2 == Ticker(t'.due + k.interval, t'.missed + 1, false) && FoundJob(s2, w, id) == FoundJob(s', w, id)
  {
    more2, s2, t2 := GoOne(s, t, more, w, id, k, first, s', t', r, Tick(if s'.now < t'.due then t'.due - s'.now else 0));
    more2, s2, t2 := GoOne(s, t, more2, w, id, k, first, s2, t2, r, MissedBeat(w));
  }

  lemma HorizonStays(t: Ticker, k: Timing, found: bool)
    requires t.missed < 2 && !(t.looked && !found)
    ensures Horizon(Ticker(t.due + k.interval, t.missed + 1, false), k, found) == Horizon(t, k, found)
  {
    Intervals(t.missed, k.interval);
  }

  /** Both beats that may be missed are missed, and the next one is as late as it may be. */
  lemma {:induction false} ToHorizon(s: System, t: Ticker, more: seq<Event>, w: WorkerId, id: JobId, k: Timing, first: Time,
                                     s': System, t': Ticker, r: Row)
    returns (more2: seq<Event>, s2: System, t2: Ticker)
    requires Goes(s, t, more, w, id, k, first, s', t', r) && !(t'.looked && !FoundJob(s', w, id))
    ensures Goes(s, t, more2, w, id, k, first, s2, t2, r)
    ensures s2.now == Horizon(t', k, FoundJob(s', w, id))
    decreases 2 - t'.missed
  {
    if t'.missed == 2 {
      more2, s2, t2 := GoOne(s, t, more, w, id, k, first, s', t', r, Tick(t'.due + k.delay - s'.now));
    } else {
      HorizonStays(t', k, FoundJob(s', w, id));
      more2, s2, t2 := MissOne(s, t, more, w, id, k, first, s', t', r);
      more2, s2, t2 := ToHorizon(s, t, more2, w, id, k, first, s2, t2, r);
    }
  }

  /** A lease that does not reach the horizon lapses in some continuation. */
  lemma ShortLeaseLapses(s: System, t: Ticker, w: WorkerId, id: JobId, k: Timing, first: Time)
    returns (more: seq<Event>, s': System, t': Ticker)
    requires OnTime(s, t, k, first) && HeldByIn(s, w, id) && s.rows[id].leaseExpiresAt.Some?
    requires !LeaseReaches(s.rows[id], t, k, FoundJob(s, w, id))
    ensures Goes(s, t, more, w, id, k, first, s', t', s.rows[id]) && Lapsed(s'.rows[id], s'.now)
  {
    var r := s.rows[id];
    more, s', t' := [], s, t;
    GoesNowhere(s, t, w, id, k, first);
    if t.looked && !FoundJob(s, w, id) {
      more, s', t' := GoOne(s, t, more, w, id, k, first, s', t', r, Beat(w, k.lease));
    }
    more, s', t' := ToHorizon(s, t, more, w, id, k, first, s', t', r);
  }

  /** n rounds in which the pool does everything right, and does not find the job. */
  lemma {:induction false} UnfoundRounds(s: System, t: Ticker, more: seq<Event>, w: WorkerId, id: JobId, k: Timing, first: Time,
                                         s': System, t': Ticker, r: Row, n: nat)
    returns (more2: seq<Event>, s2: System, t2: Ticker)
    requires Goes(s, t, more, w, id, k, first, s', t', r) && id !in PoolOf(s, w).inflight && k.interval >= 1 && !t'.looked
    ensures Goes(s, t, more2, w, id, k, first, s2, t2, r) && !t2.looked
    ensures t2.due >= t'.due + n && (n > 0 ==> s2.now >= t'.due + n - 1)
    ensures MissesNone(more) ==> MissesNone(more2)
  {
    more2, s2, t2 := more, s', t';
    if n > 0 {
      more2, s2, t2 := UnfoundRounds(s, t, more, w, id, k, first, s', t', r, n - 1);
      more2, s2, t2 := GoOne(s, t, more2, w, id, k, first, s2, t2, r, Tick(if s2.now < t2.due then t2.due - s2.now else 0));
      more2, s2, t2 := GoOne(s, t, more2, w, id, k, first, s2, t2, r, Snap(w));
      more2, s2, t2 := GoOne(s, t, more2, w, id, k, first, s2, t2, r, Beat(w, k.lease));
    }
  }

  lemma BeatEvent(s: System, w: WorkerId, id: JobId, lease: int)
    requires HeldByIn(s, w, id)
    ensures var s' := Next(s, Beat(w, lease));
      && s'.claims == s.claims && s'.history == s.history && s'.pools == s.pools && s'.now == s.now
      && id in s'.rows && s'.rows[id] == if FoundJob(s, w, id) then HeartbeatRow(s.rows[id], s.now, lease) else s.rows[id]
  {
  }

  /** A beat that was looked up before is delivered; it renews the lease at most once more. */
  lemma PendingBeat(s: System, t: Ticker, w: WorkerId, id: JobId, k: Timing, first: Time)
    returns (more: seq<Event>, s': System, t': Ticker, r: Row)
    requires OnTime(s, t, k, first) && HeldByIn(s, w, id) && s.rows[id].leaseExpiresAt.Some?
    ensures Goes(s, t, more, w, id, k, first, s', t', r) && !t'.looked
    ensures HeldBy(r, w) && r.leaseExpiresAt.Some? && MissesNone(more)
  {
    more, s', t', r := [], s, t, s.rows[id];
    GoesNowhere(s, t, w, id, k, first);
    if t.looked {
      var e := Beat(w, k.lease);
      more, s', t', r := [e], Next(s, e), TickerNext(t, e, w, k.interval), Next(s, e).rows[id];
      BeatEvent(s, w, id, k.lease);
      RunOnOne(s, e);
      assert more[..0] == [];
      OnTimeStep(s, t, e, w, k, first);
    }
  }

  /** A job that is held but not tracked lapses in some continuation, although the pool meets every tick and misses
    nothing. */
  lemma UntrackedLapses(s: System, t: Ticker, w: WorkerId, id: JobId, k: Timing, first: Time)
    returns (more: seq<Event>, s': System, t': Ticker, r: Row)
    requires OnTime(s, t, k, first) && HeldByIn(s, w, id) && s.rows[id].leaseExpiresAt.Some?
    requires k.interval >= 1 && id !in PoolOf(s, w).inflight
    ensures Goes(s, t, more, w, id, k, first, s', t', r) && HeldBy(r, w) && Lapsed(r, s'.now) && MissesNone(more)
  {
    more, s', t', r := PendingBeat(s, t, w, id, k, first);
    var n: nat := if r.leaseExpiresAt.value < t'.due then 2 else r.leaseExpiresAt.value - t'.due + 2;
    more, s', t' := UnfoundRounds(s, t, more, w, id, k, first, s', t', r, n);
  }

  /** Tracking is what the lease depends on: a worker that meets every tick loses a job it holds but does not track,
    if nobody else touches it. The tail of a batch waits like this while every worker goroutine is busy, for it is
    tracked only when its turn comes; and when the context is cancelled, nobody remembers it. */
  lemma UntrackedIsReclaimed(es: seq<Event>, w: WorkerId, id: JobId, k: Timing, first: Time, backoff: int, fleet: int)
    returns (more: seq<Event>)
    requires Prompt(es, w, k, first) && k.interval >= 1
    requires HeldByIn(Run(es), w, id) && id !in PoolOf(Run(es), w).inflight
    ensures PromptOn(Run(es), TickerAfter(es, w, k.interval, first), more, w, k, first)
    ensures OnlyTicker(more, w) && MissesNone(more)
    ensures HeldByIn(Run(es + more), w, id) && !HeldByIn(Next(Run(es + more), Reap(backoff, fleet)), w, id)
  {
    RunAccounted(es);
    PromptOnTime(es, w, k, first);
    var s': System, t': Ticker, r: Row;
    more, s', t', r := UntrackedLapses(Run(es), TickerAfter(es, w, k.interval, first), w, id, k, first);
    RunOnIsRun(es, more);
    LapsedIsReclaimed(s', w, id, backoff, fleet);
  }

  lemma LapsedIsReclaimed(s: System, w: WorkerId, id: JobId, backoff: int, fleet: int)
    requires HeldByIn(s, w, id) && Lapsed(s.rows[id], s.now)
    ensures !HeldByIn(Next(s, Reap(backoff, fleet)), w, id)
  {
  }

  lemma {:induction false} TickerDropsNothing(s: System, more: seq<Event>, c: Claim)
    requires OnlyTicker(more, c.worker)
    ensures UnsharedOn(s, more, c)
  {
    if more != [] {
      assert more[|more| - 1] in more && forall e | e in more[..|more| - 1] :: e in more;
      TickerDropsNothing(s, more[..|more| - 1], c);
    }
  }

  lemma GoesAgainst(s: System, t: Ticker, more: seq<Event>, c: Claim, k: Timing, first: Time, s': System, t': Ticker, r: Row)
    requires Goes(s, t, more, c.worker, c.job, k, first, s', t', r)
    requires Holds(s, c) && r.state == Running && Lapsed(r, s'.now)
    ensures !Survives(s, t, c, k, first)
  {
    TickerDropsNothing(s, more, c);
    assert GoesOn(s, t, more, c, k, first) && Holds(RunOn(s, more), c);
  }

  lemma SecureSurvives(s: System, t: Ticker, c: Claim, k: Timing, first: Time)
    requires Roomy(k) && Accounted(s) && ClaimsTracked(s) && OnTime(s, t, k, first) && Kept(s, c) && Secure(s, t, c, k)
    ensures Survives(s, t, c, k, first)
  {
    forall more: seq<Event> | GoesOn(s, t, more, c, k, first) && Holds(RunOn(s, more), c)
      ensures !Lapsed(RunOn(s, more).rows[c.job], RunOn(s, more).now)
    {
      SurvivesOn(s, t, more, c, k, first);
      SecureIsNotLapsed(RunOn(s, more), TickerOn(t, more, c.worker, k.interval), c, k, first);
    }
  }

  /** Tracked, and with a lease that reaches the last moment at which the next beat that covers it may land. */
  ghost predicate Safe(s: System, t: Ticker, c: Claim, k: Timing)
    requires c.job in s.rows
  {
    c.job in PoolOf(s, c.worker).inflight && LeaseReaches(s.rows[c.job], t, k, Found(s, c))
  }

  lemma HolderIsLeased(s: System, c: Claim)
    requires Accounted(s) && ClaimsTracked(s) && Holds(s, c)
    ensures HeldByIn(s, c.worker, c.job) && s.rows[c.job].leaseExpiresAt.Some?
    ensures c.job < s.nextId && c.epoch <= s.history[c.job].epoch
  {
    assert Tracks(c, s.rows[c.job], s.history[c.job]);
  }

  /** A claim that holds its job, waiting or running, keeps it in every prompt continuation exactly when it is safe. */
  lemma SurvivesIff(es: seq<Event>, c: Claim, k: Timing, first: Time)
    requires Roomy(k) && k.interval >= 1 && Prompt(es, c.worker, k, first) && Holds(Run(es), c)
    ensures Survives(Run(es), TickerAfter(es, c.worker, k.interval, first), c, k, first)
      <==> Safe(Run(es), TickerAfter(es, c.worker, k.interval, first), c, k)
  {
    var s, t := Run(es), TickerAfter(es, c.worker, k.interval, first);
    RunAccounted(es);
    RunClaimsTracked(es);
    PromptOnTime(es, c.worker, k, first);
    HolderIsLeased(s, c);
    if Safe(s, t, c, k) {
      SecureSurvives(s, t, c, k, first);
    } else if c.job !in PoolOf(s, c.worker).inflight {
      var more, s', t', r := UntrackedLapses(s, t, c.worker, c.job, k, first);
      GoesAgainst(s, t, more, c, k, first, s', t', r);
    } else {
      var more, s', t' := ShortLeaseLapses(s, t, c.worker, c.job, k, first);
      GoesAgainst(s, t, more, c, k, first, s', t', s.rows[c.job]);
    }
  }
}
