/** The idempotent write: the middleware's transaction with the key row, joined by the repository, over any
  number of interleaved requests.

  A transaction stages its writes; they become visible when it commits, all at once. The rows it has written
  are locked until then, and so is the key it has reserved: a statement that needs a locked row waits, which
  here is an event without effect. It follows sections 2.6 and 2.7 of
  draft-ietf-httpapi-idempotency-key-header. */
module IdempotentWrites {
  import opened Options
  import opened Uuids
  import opened Tasks
  import opened TaskEvents

  type Key = string
  type Fingerprint = seq<int>
  type RequestId = nat

  datatype Response = Response(status: int, contentType: string, body: seq<int>)

  /** A committed or staged row of idempotency_keys; in progress while there is no response. */
  datatype KeyRow = KeyRow(fingerprint: Fingerprint, response: Option<Response>, expiresAt: int)

  datatype JobRow = JobRow(event: Event, live: bool)

  datatype Database = Database(tasks: TaskMap, jobs: seq<JobRow>, keys: map<Key, KeyRow>)

  /** An open transaction: of a keyed request, or of a write that owns its transaction. */
  datatype Txn = Txn(
    key: Option<Key>,
    row: KeyRow,                        // the staged key row, if there is a key
    ops: seq<Op>,                       // the writes accepted so far
    writes: map<Uuid, Option<Task>>,    // the staged tasks; None is a deletion
    jobs: seq<Event>,                   // the staged outbox rows
    deferred: seq<Event>)               // the wake-ups registered for after the commit

  /** A committed transaction. */
  datatype Commit = Commit(key: Option<Key>, fingerprint: Fingerprint, response: Option<Response>, ops: seq<Op>)

  datatype LogEntry = Committed(commit: Commit) | PurgedKeys(keys: set<Key>)

  /** A deferred wake-up that has had its turn: it was sent, or it was lost. */
  datatype Notice = Notice(event: Event, sent: bool)

  /** The deferred wake-ups of one commit: those that had their turn, and those whose turn is still to come. */
  datatype Effects = Effects(past: seq<Notice>, owed: seq<Event>)

  /** A wake-up as the workers receive it. */
  datatype Sent = Sent(commit: nat, event: Event)

  datatype State = State(
    now: int,
    db: Database,
    open: map<RequestId, Txn>,
    log: seq<LogEntry>,       // what was committed, in order
    effects: seq<Effects>,    // the deferred wake-ups, commit by commit
    woken: seq<Sent>,         // the wake-ups sent, in order
    created: set<Uuid>)       // the ids handed out by the service

  datatype Action =
    | Advance(elapsed: nat)
    | Reserve(request: RequestId, key: Key, fingerprint: Fingerprint, ttl: int)
    | Begin(request: RequestId)
    | Write(request: RequestId, op: Op)
    | Finish(request: RequestId, response: Response, commits: bool)
    | CommitOwn(request: RequestId, commits: bool)
    | Abort(request: RequestId)
    | Wake(commit: nat)    // the owner of a commit runs its next deferred effect
    | Lose(commit: nat)    // that effect fails, or its owner has died
    | FinalizeJob(index: nat)
    | Purge

  const EMPTY := State(0, Database(map[], [], map[]), map[], [], [], [], {})

  // ---------- what a transaction sees and holds ----------

  function Overlay(tasks: TaskMap, writes: map<Uuid, Option<Task>>): TaskMap {
    map id | id in tasks.Keys + writes.Keys && (id in writes ==> writes[id].Some?) ::
      if id in writes then writes[id].value else tasks[id]
  }

  predicate KeyLocked(s: State, key: Key) {
    exists r | r in s.open :: s.open[r].key == Some(key)
  }

  predicate TaskLocked(s: State, request: RequestId, id: Uuid) {
    exists r | r in s.open :: r != request && id in s.open[r].writes
  }

  /** ON CONFLICT DO NOTHING: a live job, or one staged by this transaction, already has the key. */
  predicate Duplicate(db: Database, staged: seq<Event>, e: Event) {
    || (exists i | 0 <= i < |db.jobs| :: db.jobs[i].live && EventId(db.jobs[i].event) == EventId(e))
    || (exists i | 0 <= i < |staged| :: EventId(staged[i]) == EventId(e))
  }

  // ---------- the events ----------

  function DoReserve(s: State, request: RequestId, key: Key, fingerprint: Fingerprint, ttl: int): State {
    if request in s.open || KeyLocked(s, key) || key in s.db.keys then s
    else s.(open := s.open[request := Txn(Some(key), KeyRow(fingerprint, None, s.now + ttl), [], map[], [], [])])
  }

  /** write: the change, its outbox row, and the wake-up; nothing at all if the change is not accepted. */
  function Staged(db: Database, t: Txn, op: Op): Txn {
    var result := OutcomeOf(Overlay(db.tasks, t.writes), op);
    if !result.Written? then t
    else
      var e := EventFor(op, result.task);
      t.(ops := t.ops + [op],
         writes := t.writes[op.id := Lookup(Apply(Overlay(db.tasks, t.writes), op), op.id)],
         jobs := if Duplicate(db, t.jobs, e) then t.jobs else t.jobs + [e],
         deferred := t.deferred + [e])
  }

  function DoWrite(s: State, request: RequestId, op: Op): State {
    if request !in s.open || TaskLocked(s, request, op.id) then s
    else s.(open := s.open[request := Staged(s.db, s.open[request], op)],
            created := if op.Create? then s.created + {op.id} else s.created)
  }

  function Live(events: seq<Event>): seq<JobRow> {
    seq(|events|, i requires 0 <= i < |events| => JobRow(events[i], true))
  }

  /** One commit: tasks, outbox rows, key row. The deferred wake-ups are owed from now on; other requests can
    act before they are sent. */
  function DoCommit(s: State, request: RequestId, response: Option<Response>): State
    requires request in s.open
  {
    var t := s.open[request];
    s.(db := Database(
         Overlay(s.db.tasks, t.writes),
         s.db.jobs + Live(t.jobs),
         if t.key.Some? then s.db.keys[t.key.value := t.row.(response := response)] else s.db.keys),
       open := s.open - {request},
       log := s.log + [Committed(Commit(t.key, t.row.fingerprint, response, t.ops))],
       effects := s.effects + [Effects([], t.deferred)])
  }

  /** The next effect of a commit has its turn. */
  function Turn(fx: Effects, sent: bool): Effects
    requires fx.owed != []
  {
    Effects(fx.past + [Notice(fx.owed[0], sent)], fx.owed[1..])
  }

  predicate Owes(s: State, commit: nat) {
    commit < |s.effects| && s.effects[commit].owed != []
  }

  function DoWake(s: State, commit: nat): State {
    if !Owes(s, commit) then s
    else s.(effects := s.effects[commit := Turn(s.effects[commit], true)],
            woken := s.woken + [Sent(commit, s.effects[commit].owed[0])])
  }

  function DoLose(s: State, commit: nat): State {
    if !Owes(s, commit) then s else s.(effects := s.effects[commit := Turn(s.effects[commit], false)])
  }

  function Rollback(s: State, request: RequestId): State {
    s.(open := s.open - {request})
  }

  /** Only a success is worth remembering. */
  predicate Stored(status: int) {
    200 <= status < 300
  }

  /** The handler of a keyed request returned: complete, or abandon; `commits` is false if the commit fails. */
  function DoFinish(s: State, request: RequestId, response: Response, commits: bool): State {
    if request !in s.open || s.open[request].key.None? then s
    else if Stored(response.status) && commits then DoCommit(s, request, Some(response))
    else Rollback(s, request)
  }

  function DoCommitOwn(s: State, request: RequestId, commits: bool): State {
    if request !in s.open || s.open[request].key.Some? then s
    else if commits then DoCommit(s, request, None)
    else Rollback(s, request)
  }

  function Expired(s: State): set<Key> {
    set k | k in s.db.keys && s.db.keys[k].expiresAt < s.now
  }

  function Next(s: State, a: Action): State {
    match a
    case Advance(elapsed) => s.(now := s.now + elapsed)
    case Reserve(request, key, fingerprint, ttl) => DoReserve(s, request, key, fingerprint, ttl)
    case Begin(request) =>
      if request in s.open then s
      else s.(open := s.open[request := Txn(None, KeyRow([], None, 0), [], map[], [], [])])
    case Write(request, op) => DoWrite(s, request, op)
    case Finish(request, response, commits) => DoFinish(s, request, response, commits)
    case CommitOwn(request, commits) => DoCommitOwn(s, request, commits)
    case Abort(request) => Rollback(s, request)
    case Wake(commit) => DoWake(s, commit)
    case Lose(commit) => DoLose(s, commit)
    case FinalizeJob(i) =>
      if i < |s.db.jobs| then s.(db := s.db.(jobs := s.db.jobs[i := s.db.jobs[i].(live := false)])) else s
    case Purge =>
      s.(db := s.db.(keys := s.db.keys - Expired(s)), log := s.log + [PurgedKeys(Expired(s))])
  }

  function Run(actions: seq<Action>): State {
    if actions == [] then EMPTY else Next(Run(actions[..|actions| - 1]), actions[|actions| - 1])
  }

  /** What happens to a state when these actions follow. */
  function After(s: State, others: seq<Action>): State {
    if others == [] then s else Next(After(s, others[..|others| - 1]), others[|others| - 1])
  }

  // ---------- the answer to a request whose key is taken ----------

  datatype Answer =
    | Execute                        // the key is free
    | Wait                           // another request holds the row
    | Replay(response: Response)
    | KeyReused                      // 422
    | StillRunning                   // 409

  function AnswerTo(s: State, key: Key, fingerprint: Fingerprint): Answer {
    if KeyLocked(s, key) then Wait
    else if key !in s.db.keys then Execute
    else if s.db.keys[key].fingerprint != fingerprint then KeyReused
    else match s.db.keys[key].response
         case Some(response) => Replay(response)
         case None => StillRunning
  }
}
