/** What each statement means for a row, field by field and in plain values. The statements themselves are in
  `JobTable`; nothing here names how they are computed. */
module JobLaws {
  import opened Options
  import opened JobTable

  /** The columns no statement after the insert ever sets. */
  predicate SameJob(r: Row, r': Row) {
    && r'.kind == r.kind && r'.payload == r.payload && r'.priority == r.priority
    && r'.maxAttempts == r.maxAttempts && r'.uniqueKey == r.uniqueKey
  }

  predicate Unheld(r: Row) {
    r.lockedBy == None && r.lockedAt == None && r.leaseExpiresAt == None
  }

  // ---------- insert ----------

  /** No kind, or a negative number of attempts. */
  predicate Malformed(j: NewJob) {
    j.kind == "" || j.maxAttempts < 0
  }

  /** A live row already has this job's own, non-empty key. */
  ghost predicate KeyTaken(rows: Rows, key: string) {
    key != "" && exists id | id in rows ::
      rows[id].state in {Available, Scheduled, Running, Retryable} && rows[id].uniqueKey == Some(key)
  }

  /** The row as it is born: claimable at once, with five attempts unless it asks for another number. */
  predicate IsNew(r: Row, j: NewJob, now: Time) {
    && r.kind == j.kind && r.payload == j.payload && r.priority == 0
    && r.uniqueKey == (if j.uniqueKey == "" then None else Some(j.uniqueKey))
    && r.maxAttempts == (if j.maxAttempts == 0 then 5 else j.maxAttempts)
    && r.state == Available && r.scheduledAt == now && r.attempt == 0 && r.errors == [] && r.attemptedBy == []
    && Unheld(r) && r.heartbeatAt == None && r.finalizedAt == None
  }

  lemma InsertLaw(rows: Rows, j: NewJob, now: Time)
    ensures Rejected(j) <==> Malformed(j)
    ensures Inserts(rows, j) <==> !Malformed(j) && !KeyTaken(rows, j.uniqueKey)
    ensures IsNew(FreshRow(j, now), j, now)
  {
    if KeyTaken(rows, j.uniqueKey) {
      var id :| id in rows && rows[id].Live() && rows[id].uniqueKey == Some(j.uniqueKey);
    }
    if KeyIsLive(rows, UniqueKeyOf(j.uniqueKey)) {
      var id :| id in rows && rows[id].Live() && rows[id].uniqueKey == UniqueKeyOf(j.uniqueKey);
    }
  }

  // ---------- claim, heartbeat, release ----------

  predicate IsClaimed(r: Row, r': Row, now: Time, w: WorkerId, lease: int) {
    && SameJob(r, r') && r.state == Available && r.scheduledAt <= now
    && r'.state == Running && r'.attempt == r.attempt + 1 && r'.attemptedBy == r.attemptedBy + [w]
    && r'.lockedBy == Some(w) && r'.lockedAt == Some(now) && r'.heartbeatAt == Some(now)
    && r'.leaseExpiresAt == Some(now + lease)
    && r'.scheduledAt == r.scheduledAt && r'.errors == r.errors && r'.finalizedAt == r.finalizedAt
  }

  lemma ClaimLaw(r: Row, now: Time, w: WorkerId, lease: int)
    requires Claimable(r, now)
    ensures IsClaimed(r, ClaimRow(r, now, w, lease), now, w, lease)
  {
  }

  /** Lower priorities first, then earlier due times, then lower ids. */
  predicate ComesFirst(a: Row, idA: JobId, b: Row, idB: JobId) {
    if a.priority != b.priority then a.priority < b.priority
    else if a.scheduledAt != b.scheduledAt then a.scheduledAt < b.scheduledAt
    else idA < idB
  }

  predicate IsBeaten(r: Row, r': Row, now: Time, lease: int) {
    && SameJob(r, r') && r'.heartbeatAt == Some(now) && r'.leaseExpiresAt == Some(now + lease)
    && r'.state == r.state && r'.attempt == r.attempt && r'.attemptedBy == r.attemptedBy && r'.errors == r.errors
    && r'.lockedBy == r.lockedBy && r'.lockedAt == r.lockedAt
    && r'.scheduledAt == r.scheduledAt && r'.finalizedAt == r.finalizedAt
  }

  predicate IsReleased(r: Row, r': Row) {
    && SameJob(r, r') && r'.state == Available && r'.attempt == r.attempt - 1 && Unheld(r')
    && r'.attemptedBy == r.attemptedBy && r'.errors == r.errors && r'.heartbeatAt == r.heartbeatAt
    && r'.scheduledAt == r.scheduledAt && r'.finalizedAt == r.finalizedAt
  }

  lemma HolderLaws(r: Row, now: Time, lease: int)
    ensures IsBeaten(r, HeartbeatRow(r, now, lease), now, lease)
    ensures IsReleased(r, ReleaseRow(r))
  {
  }

  // ---------- completion ----------

  /** This attempt is the job's last one: the row's own maximum is reached, or a positive ceiling of the fleet. */
  predicate LastAttempt(attempt: int, maxAttempts: int, fleet: int) {
    attempt >= maxAttempts || (fleet > 0 && attempt >= fleet)
  }

  /** What a handler's result makes of the row. */
  predicate Resolves(r: Row, r': Row, now: Time, w: WorkerId, cause: Cause, attempt: int, maxAttempts: int, fleet: int, backoff: int) {
    && SameJob(r, r') && Unheld(r') && r'.attemptedBy == r.attemptedBy && r'.heartbeatAt == r.heartbeatAt
    && match cause
       case NoError =>
         && r'.state == Succeeded && r'.finalizedAt == Some(now)
         && r'.attempt == r.attempt && r'.errors == r.errors && r'.scheduledAt == r.scheduledAt
       case SnoozeFor(delay) =>
         && r'.state == Scheduled && r'.finalizedAt == r.finalizedAt
         && r'.attempt == r.attempt - 1 && r'.errors == r.errors && r'.scheduledAt == now + delay
       case Failure(terminal, transient, text) =>
         && r'.attempt == r.attempt && r'.errors == r.errors + [ErrorEntry(now, r.attempt, w, text)]
         && (r'.state == Cancelled <==> terminal || !transient)
         && (r'.state == Discarded <==> !(terminal || !transient) && LastAttempt(attempt, maxAttempts, fleet))
         && (r'.state == Retryable <==> !(terminal || !transient) && !LastAttempt(attempt, maxAttempts, fleet))
         && (if r'.state == Retryable then r'.scheduledAt == now + backoff && r'.finalizedAt == r.finalizedAt
             else r'.scheduledAt == r.scheduledAt && r'.finalizedAt == Some(now))
  }

  lemma CompletionLaw(r: Row, now: Time, w: WorkerId, cause: Cause, attempt: int, maxAttempts: int, fleet: int, backoff: int)
    ensures Resolves(r, CompleteRow(r, now, w, Decide(cause, attempt, maxAttempts, fleet, backoff)), now, w, cause, attempt,
                     maxAttempts, fleet, backoff)
  {
  }

  // ---------- the leader ----------

  predicate IsDue(r: Row, now: Time) {
    (r.state == Retryable || r.state == Scheduled) && r.scheduledAt <= now
  }

  predicate IsScheduled(r: Row, r': Row) {
    && SameJob(r, r') && r'.state == Available && r'.scheduledAt == r.scheduledAt && r'.attempt == r.attempt
    && r'.attemptedBy == r.attemptedBy && r'.errors == r.errors && r'.finalizedAt == r.finalizedAt
    && r'.lockedBy == r.lockedBy && r'.lockedAt == r.lockedAt && r'.leaseExpiresAt == r.leaseExpiresAt
    && r'.heartbeatAt == r.heartbeatAt
  }

  predicate IsLapsed(r: Row, now: Time) {
    r.state == Running && r.leaseExpiresAt.Some? && now > r.leaseExpiresAt.value
  }

  /** Discarded at the lower of the two ceilings, finalized at the row's own only. */
  predicate IsReaped(r: Row, r': Row, now: Time, delay: int, fleet: int) {
    && SameJob(r, r') && Unheld(r') && r'.attempt == r.attempt && r'.attemptedBy == r.attemptedBy
    && r'.heartbeatAt == r.heartbeatAt && r'.scheduledAt == now + delay
    && r'.state == (if r.attempt >= r.maxAttempts || r.attempt >= fleet then Discarded else Retryable)
    && r'.finalizedAt == (if r.attempt >= r.maxAttempts then Some(now) else None)
    && |r'.errors| == |r.errors| + 1 && r.errors <= r'.errors
    && r'.errors[|r.errors|].at == now && r'.errors[|r.errors|].attempt == r.attempt
    && (r.lockedBy.Some? ==> r'.errors[|r.errors|].worker == r.lockedBy.value)
    && r'.errors[|r.errors|].text == "lease expired: the worker holding this job stopped heartbeating"
  }

  /** Over, finalized, and for longer than jobs in its state are kept. */
  predicate Outlived(r: Row, now: Time, keepSucceeded: int, keepDiscarded: int) {
    && r.finalizedAt.Some?
    && ((r.state == Succeeded && now > r.finalizedAt.value + keepSucceeded)
        || ((r.state == Cancelled || r.state == Discarded) && now > r.finalizedAt.value + keepDiscarded))
  }

  lemma ScheduleLaw(r: Row, now: Time)
    ensures Due(r, now) <==> IsDue(r, now)
    ensures IsScheduled(r, r.(state := Available))
  {
  }

  lemma ReapLaw(r: Row, now: Time, delay: int, fleet: int)
    ensures Lapsed(r, now) <==> IsLapsed(r, now)
    ensures IsReaped(r, ReapRow(r, now, delay, fleet), now, delay, fleet)
  {
    assert ReapRow(r, now, delay, fleet).errors[..|r.errors|] == r.errors;
  }

  lemma PurgeLaw(r: Row, now: Time, keepSucceeded: int, keepDiscarded: int)
    ensures Purgeable(r, now, keepSucceeded, keepDiscarded) <==> Outlived(r, now, keepSucceeded, keepDiscarded)
  {
  }

  // ---------- the same for the whole table ----------

  predicate MayClaim(rows: Rows, now: Time, locked: set<JobId>, id: JobId) {
    id in rows && id !in locked && rows[id].state == Available && rows[id].scheduledAt <= now
  }

  /** Exactly these rows are claimed, and they come before any other that could have been. */
  ghost predicate ClaimedTable(rows: Rows, rows': Rows, now: Time, w: WorkerId, batch: nat, lease: int, locked: set<JobId>, ids: set<JobId>) {
    && rows'.Keys == rows.Keys && |ids| <= batch
    && (forall id | id in ids :: MayClaim(rows, now, locked, id))
    && (forall id | id in rows && id in ids :: IsClaimed(rows[id], rows'[id], now, w, lease))
    && (forall id | id in rows && id !in ids :: rows'[id] == rows[id])
    && (forall a, b | a in ids && a in rows && MayClaim(rows, now, locked, b) && b !in ids :: ComesFirst(rows[a], a, rows[b], b))
    && (|ids| < batch ==> forall b | MayClaim(rows, now, locked, b) :: b in ids)
  }

  lemma ClaimedTableLaw(rows: Rows, now: Time, w: WorkerId, batch: nat, lease: int, locked: set<JobId>, ids: set<JobId>)
    requires |ids| <= batch && (forall id | id in ids :: MayClaim(rows, now, locked, id))
    requires forall a, b | a in ids && a in rows && MayClaim(rows, now, locked, b) && b !in ids :: ComesFirst(rows[a], a, rows[b], b)
    requires |ids| < batch ==> forall b | MayClaim(rows, now, locked, b) :: b in ids
    ensures ClaimedTable(rows, ClaimRows(rows, now, w, lease, ids), now, w, batch, lease, locked, ids)
  {
    forall id | id in rows && id in ids ensures IsClaimed(rows[id], ClaimRows(rows, now, w, lease, ids)[id], now, w, lease) {
      ClaimLaw(rows[id], now, w, lease);
    }
  }

  predicate RunsUnder(r: Row, w: WorkerId) {
    r.state == Running && r.lockedBy == Some(w)
  }

  ghost predicate BeatenTable(rows: Rows, rows': Rows, now: Time, w: WorkerId, lease: int, ids: set<JobId>) {
    && rows'.Keys == rows.Keys
    && forall id | id in rows ::
         if id in ids && RunsUnder(rows[id], w) then IsBeaten(rows[id], rows'[id], now, lease) else rows'[id] == rows[id]
  }

  ghost predicate ReleasedTable(rows: Rows, rows': Rows, w: WorkerId, ids: set<JobId>) {
    && rows'.Keys == rows.Keys
    && forall id | id in rows ::
         if id in ids && RunsUnder(rows[id], w) then IsReleased(rows[id], rows'[id]) else rows'[id] == rows[id]
  }

  lemma HolderTableLaws(rows: Rows, now: Time, w: WorkerId, lease: int, ids: set<JobId>)
    ensures BeatenTable(rows, HeartbeatRows(rows, now, w, lease, ids), now, w, lease, ids)
    ensures ReleasedTable(rows, ReleaseRows(rows, w, ids), w, ids)
  {
    forall id | id in rows { HolderLaws(rows[id], now, lease); }
  }

  ghost predicate ScheduledTable(rows: Rows, rows': Rows, now: Time) {
    && rows'.Keys == rows.Keys
    && forall id | id in rows :: if IsDue(rows[id], now) then IsScheduled(rows[id], rows'[id]) else rows'[id] == rows[id]
  }

  ghost predicate ReapedTable(rows: Rows, rows': Rows, now: Time, delay: int, fleet: int) {
    && rows'.Keys == rows.Keys
    && forall id | id in rows ::
         if IsLapsed(rows[id], now) then IsReaped(rows[id], rows'[id], now, delay, fleet) else rows'[id] == rows[id]
  }

  /** Only outlived rows are gone, ten thousand at most, and none is left if it was fewer. */
  ghost predicate PurgedTable(rows: Rows, rows': Rows, now: Time, keepSucceeded: int, keepDiscarded: int, n: nat) {
    && rows'.Keys <= rows.Keys && n == |rows.Keys - rows'.Keys| <= 10000
    && (forall id | id in rows' :: rows'[id] == rows[id])
    && (forall id | id in rows && id !in rows' :: Outlived(rows[id], now, keepSucceeded, keepDiscarded))
    && (n < 10000 ==> forall id | id in rows' :: !Outlived(rows[id], now, keepSucceeded, keepDiscarded))
  }

  lemma ScheduledTableLaw(rows: Rows, now: Time)
    ensures ScheduledTable(rows, ScheduleRows(rows, now), now)
  {
    forall id | id in rows { ScheduleLaw(rows[id], now); }
  }

  lemma ReapedTableLaw(rows: Rows, now: Time, delay: int, fleet: int)
    ensures ReapedTable(rows, ReapRows(rows, now, delay, fleet), now, delay, fleet)
  {
    forall id | id in rows { ReapLaw(rows[id], now, delay, fleet); }
  }

  lemma PurgedTableLaw(rows: Rows, now: Time, keepSucceeded: int, keepDiscarded: int, chosen: set<JobId>, all: set<JobId>)
    requires forall id :: id in all <==> id in rows && Purgeable(rows[id], now, keepSucceeded, keepDiscarded)
    requires chosen <= all && |chosen| <= 10000 && (|chosen| < 10000 ==> chosen == all)
    ensures PurgedTable(rows, PurgeRows(rows, now, keepSucceeded, keepDiscarded, chosen), now, keepSucceeded, keepDiscarded, |chosen|)
  {
    var rows' := PurgeRows(rows, now, keepSucceeded, keepDiscarded, chosen);
    forall id | id in rows { PurgeLaw(rows[id], now, keepSucceeded, keepDiscarded); }
    assert rows.Keys - rows'.Keys == chosen;
  }
}
