/** The `jobs` table: one row per job, and one function per SQL statement of the queue.

  Every statement of the queue is a guarded update of the rows that match its WHERE clause. Each is
  given here twice: what it does to one matching row, and what it does to the whole table. */
module JobTable {

  import opened Options

  type JobId = nat
  type WorkerId = string
  type Time = int

  datatype JobState =
    | Available
    | Scheduled
    | Running
    | Retryable
    | Succeeded
    | Cancelled
    | Discarded

  /** One element of the `errors` column. */
  datatype ErrorEntry = ErrorEntry(at: Time, attempt: int, worker: WorkerId, text: string)

  datatype Row = Row(
    kind: string,
    payload: string,
    state: JobState,
    priority: int,
    attempt: int,
    maxAttempts: int,
    scheduledAt: Time,
    lockedBy: Option<WorkerId>,
    lockedAt: Option<Time>,
    leaseExpiresAt: Option<Time>,
    heartbeatAt: Option<Time>,
    attemptedBy: seq<WorkerId>,
    errors: seq<ErrorEntry>,
    uniqueKey: Option<string>,
    finalizedAt: Option<Time>)
  {
    /** In one of the states covered by the partial unique index. */
    predicate Live() {
      state in {Available, Scheduled, Running, Retryable}
    }

    /** Live, but not being run. */
    predicate Waiting() {
      state in {Available, Scheduled, Retryable}
    }

    predicate Terminal() {
      state in {Succeeded, Cancelled, Discarded}
    }
  }

  type Rows = map<JobId, Row>

  function Min(a: int, b: int): int {
    if a < b then a else b
  }

  /** A row without its lease columns, as every statement that ends a claim leaves it. */
  function Unlocked(r: Row): Row {
    r.(lockedBy := None, lockedAt := None, leaseExpiresAt := None)
  }

  // ---------- insert ----------

  datatype NewJob = NewJob(kind: string, payload: string, uniqueKey: string, maxAttempts: int)

  const DEFAULT_MAX_ATTEMPTS := 5

  /** COALESCE(NULLIF(max_attempts, 0), 5). */
  function EffectiveMaxAttempts(n: int): int {
    if n == 0 then DEFAULT_MAX_ATTEMPTS else n
  }

  /** NULLIF(unique_key, ''). */
  function UniqueKeyOf(key: string): Option<string> {
    if key == "" then None else Some(key)
  }

  predicate KeyIsLive(rows: Rows, key: Option<string>) {
    key.Some? && exists id :: id in rows && rows[id].Live() && rows[id].uniqueKey == key
  }

  /** Refused outright: no kind, or the CHECK on max_attempts fails. */
  predicate Rejected(j: NewJob) {
    j.kind == "" || EffectiveMaxAttempts(j.maxAttempts) < 1
  }

  predicate Inserts(rows: Rows, j: NewJob) {
    !Rejected(j) && !KeyIsLive(rows, UniqueKeyOf(j.uniqueKey))
  }

  function FreshRow(j: NewJob, now: Time): Row {
    Row(j.kind, j.payload, Available, 0, 0, EffectiveMaxAttempts(j.maxAttempts), now,
        None, None, None, None, [], [], UniqueKeyOf(j.uniqueKey), None)
  }

  // ---------- claim ----------

  predicate Claimable(r: Row, now: Time) {
    r.state == Available && r.scheduledAt <= now
  }

  function ClaimRow(r: Row, now: Time, w: WorkerId, lease: int): Row {
    r.(state := Running, attempt := r.attempt + 1, lockedBy := Some(w), lockedAt := Some(now),
       leaseExpiresAt := Some(now + lease), heartbeatAt := Some(now), attemptedBy := r.attemptedBy + [w])
  }

  /** The claim restricted to the rows its inner SELECT locked. */
  function ClaimRows(rows: Rows, now: Time, w: WorkerId, lease: int, chosen: set<JobId>): Rows {
    map id | id in rows ::
      if id in chosen && Claimable(rows[id], now) then ClaimRow(rows[id], now, w, lease) else rows[id]
  }

  // ---------- heartbeat and release: guarded by the worker alone ----------

  predicate HeldBy(r: Row, w: WorkerId) {
    r.state == Running && r.lockedBy == Some(w)
  }

  function HeartbeatRow(r: Row, now: Time, lease: int): Row {
    r.(heartbeatAt := Some(now), leaseExpiresAt := Some(now + lease))
  }

  function HeartbeatRows(rows: Rows, now: Time, w: WorkerId, lease: int, ids: set<JobId>): Rows {
    map id | id in rows ::
      if id in ids && HeldBy(rows[id], w) then HeartbeatRow(rows[id], now, lease) else rows[id]
  }

  function ReleaseRow(r: Row): Row {
    Unlocked(r).(state := Available, attempt := r.attempt - 1)
  }

  function ReleaseRows(rows: Rows, w: WorkerId, ids: set<JobId>): Rows {
    map id | id in rows ::
      if id in ids && HeldBy(rows[id], w) then ReleaseRow(rows[id]) else rows[id]
  }

  // ---------- completion: guarded by worker and attempt ----------

  /** The claim guard appended to every completion write. */
  predicate ClaimGuard(rows: Rows, id: JobId, w: WorkerId, attempt: int) {
    id in rows && HeldBy(rows[id], w) && rows[id].attempt == attempt
  }

  function Noted(r: Row, now: Time, worker: WorkerId, text: string): Row {
    r.(errors := r.errors + [ErrorEntry(now, r.attempt, worker, text)])
  }

  /** What a completion write sets. */
  datatype Completion =
    | Succeed
    | Retry(delay: int, text: string)
    | Finalize(to: JobState, text: string)
    | Snooze(delay: int)

  function CompleteRow(r: Row, now: Time, w: WorkerId, c: Completion): Row {
    match c
    case Succeed => Unlocked(r).(state := Succeeded, finalizedAt := Some(now))
    case Retry(delay, text) => Noted(Unlocked(r), now, w, text).(state := Retryable, scheduledAt := now + delay)
    case Finalize(to, text) => Noted(Unlocked(r), now, w, text).(state := to, finalizedAt := Some(now))
    case Snooze(delay) => Unlocked(r).(state := Scheduled, attempt := r.attempt - 1, scheduledAt := now + delay)
  }

  function CompleteRows(rows: Rows, now: Time, id: JobId, w: WorkerId, attempt: int, c: Completion): Rows {
    if ClaimGuard(rows, id, w, attempt) then rows[id := CompleteRow(rows[id], now, w, c)] else rows
  }

  // ---------- the leader's sweeps ----------

  predicate Due(r: Row, now: Time) {
    r.state in {Retryable, Scheduled} && r.scheduledAt <= now
  }

  function ScheduleRows(rows: Rows, now: Time): Rows {
    map id | id in rows :: if Due(rows[id], now) then rows[id].(state := Available) else rows[id]
  }

  predicate Lapsed(r: Row, now: Time) {
    r.state == Running && r.leaseExpiresAt.Some? && r.leaseExpiresAt.value < now
  }

  const LEASE_EXPIRED := "lease expired: the worker holding this job stopped heartbeating"

  function HolderOf(r: Row): WorkerId {
    if r.lockedBy.Some? then r.lockedBy.value else ""
  }

  /** `state` compares the attempt with the lower of the two ceilings; `finalized_at` only with the row's. */
  function ReapRow(r: Row, now: Time, delay: int, fleet: int): Row {
    Noted(Unlocked(r), now, HolderOf(r), LEASE_EXPIRED).(
      state := if r.attempt >= Min(r.maxAttempts, fleet) then Discarded else Retryable,
      scheduledAt := now + delay,
      finalizedAt := if r.attempt >= r.maxAttempts then Some(now) else None)
  }

  function ReapRows(rows: Rows, now: Time, delay: int, fleet: int): Rows {
    map id | id in rows :: if Lapsed(rows[id], now) then ReapRow(rows[id], now, delay, fleet) else rows[id]
  }

  predicate Purgeable(r: Row, now: Time, keepSucceeded: int, keepDiscarded: int) {
    && r.finalizedAt.Some?
    && (|| (r.state == Succeeded && r.finalizedAt.value < now - keepSucceeded)
        || (r.state in {Cancelled, Discarded} && r.finalizedAt.value < now - keepDiscarded))
  }

  /** `chosen` is the batch the inner SELECT with LIMIT returned. */
  function PurgeRows(rows: Rows, now: Time, keepSucceeded: int, keepDiscarded: int, chosen: set<JobId>): Rows {
    map id | id in rows && !(id in chosen && Purgeable(rows[id], now, keepSucceeded, keepDiscarded)) :: rows[id]
  }

  // ---------- the pool's decision ----------

  /** What a handler returned: nil, a SnoozeError, or a failure with its classification. */
  datatype Cause =
    | NoError
    | SnoozeFor(delay: int)
    | Failure(terminal: bool, transient: bool, text: string)

  /** Not marked terminal, and of a kind that retrying could fix. */
  predicate RetryCouldHelp(terminal: bool, transient: bool) {
    !terminal && transient
  }

  /** The pool's ceiling: the lower of the job's own budget and the fleet's, if the fleet has one. */
  function PoolBudget(fleet: int, maxAttempts: int): int {
    if fleet > 0 && fleet < maxAttempts then fleet else maxAttempts
  }

  /** Which completion write a handler's result leads to. `backoff` is the delay drawn for a retry. */
  function Decide(cause: Cause, attempt: int, maxAttempts: int, fleet: int, backoff: int): Completion {
    match cause
    case NoError => Succeed
    case SnoozeFor(delay) => Snooze(delay)
    case Failure(terminal, transient, text) =>
      if !RetryCouldHelp(terminal, transient) then Finalize(Cancelled, text)
      else if attempt >= PoolBudget(fleet, maxAttempts) then Finalize(Discarded, text)
      else Retry(backoff, text)
  }
}
