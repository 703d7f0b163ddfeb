/** What every interleaving of requests keeps: commits are whole, serial, and at most one per key. */
module IdempotencyProofs {
  import opened Options
  import opened Uuids
  import opened Tasks
  import opened TaskEvents
  import opened IdempotentWrites

  // ---------- at most one execution per key lifetime ----------

  predicate CommitsKey(e: LogEntry, key: Key) {
    e.Committed? && e.commit.key == Some(key)
  }

  predicate PurgesKey(e: LogEntry, key: Key) {
    e.PurgedKeys? && key in e.keys
  }

  /** The commits carrying a key since the key was last purged. */
  function Executions(log: seq<LogEntry>, key: Key): nat {
    if log == [] then 0
    else
      var before := Executions(log[..|log| - 1], key);
      if CommitsKey(log[|log| - 1], key) then before + 1
      else if PurgesKey(log[|log| - 1], key) then 0
      else before
  }

  /** The last commit carrying a key, if it has not been purged since. */
  function LastExecution(log: seq<LogEntry>, key: Key): Option<Commit> {
    if log == [] then None
    else if CommitsKey(log[|log| - 1], key) then Some(log[|log| - 1].commit)
    else if PurgesKey(log[|log| - 1], key) then None
    else LastExecution(log[..|log| - 1], key)
  }

  /** Every committed key row is completed, and holds the successful response of the one execution that wrote it. */
  ghost predicate KeysTellTheLog(s: State) {
    forall k: Key ::
      && Executions(s.log, k) == (if k in s.db.keys then 1 else 0)
      && (k in s.db.keys <==> LastExecution(s.log, k).Some?)
      && (k in s.db.keys ==>
            && s.db.keys[k].response.Some?
            && 200 <= s.db.keys[k].response.value.status <= 299
            && LastExecution(s.log, k).value.response == s.db.keys[k].response
            && LastExecution(s.log, k).value.fingerprint == s.db.keys[k].fingerprint)
  }

  /** A key is held by one open transaction at most, and only while it is not committed. */
  ghost predicate KeysExclusive(s: State) {
    && (forall r | r in s.open && s.open[r].key.Some? :: s.open[r].key.value !in s.db.keys)
    && (forall r, q | r in s.open && q in s.open && s.open[r].key.Some? && s.open[r].key == s.open[q].key :: r == q)
  }

  lemma LogGrows(log: seq<LogEntry>, e: LogEntry, key: Key)
    ensures Executions(log + [e], key)
      == if CommitsKey(e, key) then Executions(log, key) + 1 else if PurgesKey(e, key) then 0 else Executions(log, key)
    ensures LastExecution(log + [e], key)
      == if CommitsKey(e, key) then Some(e.commit) else if PurgesKey(e, key) then None else LastExecution(log, key)
  {
    assert (log + [e])[..|log + [e]| - 1] == log;
  }

  lemma CommitKeepsKeys(s: State, request: RequestId, response: Option<Response>)
    requires KeysTellTheLog(s) && KeysExclusive(s) && request in s.open
    requires s.open[request].key.Some? <==> response.Some?
    requires response.Some? ==> 200 <= response.value.status <= 299
    ensures KeysTellTheLog(DoCommit(s, request, response)) && KeysExclusive(DoCommit(s, request, response))
  {
    var t := s.open[request];
    var e := Committed(Commit(t.key, t.row.fingerprint, response, t.ops));
    forall k: Key { LogGrows(s.log, e, k); }
  }

  lemma PurgeKeepsKeys(s: State)
    requires KeysTellTheLog(s) && KeysExclusive(s)
    ensures KeysTellTheLog(Next(s, Purge)) && KeysExclusive(Next(s, Purge))
  {
    forall k: Key { LogGrows(s.log, PurgedKeys(Expired(s)), k); }
  }

  /** Nothing here depends on the tasks, the outbox or the wake-ups. */
  lemma SameKeysKeep(s: State, s': State)
    requires KeysTellTheLog(s) && KeysExclusive(s) && s'.db.keys == s.db.keys && s'.log == s.log
    requires forall r | r in s'.open && s'.open[r].key.Some? :: r in s.open && s.open[r].key == s'.open[r].key
    ensures KeysTellTheLog(s') && KeysExclusive(s')
  {
    forall k: Key ensures Executions(s'.log, k) == Executions(s.log, k) && LastExecution(s'.log, k) == LastExecution(s.log, k) {}
  }

  lemma OpensAlike(s: State, a: Action)
    requires a.Advance? || a.Begin? || a.Write? || a.Abort? || a.Wake? || a.Lose? || a.FinalizeJob?
    ensures Next(s, a).db.keys == s.db.keys && Next(s, a).log == s.log
    ensures forall r | r in Next(s, a).open && Next(s, a).open[r].key.Some? ::
      r in s.open && s.open[r].key == Next(s, a).open[r].key
  {
  }

  lemma ReserveKeepsKeys(s: State, request: RequestId, key: Key, fingerprint: Fingerprint, ttl: int)
    requires KeysTellTheLog(s) && KeysExclusive(s)
    ensures KeysTellTheLog(DoReserve(s, request, key, fingerprint, ttl)) && KeysExclusive(DoReserve(s, request, key, fingerprint, ttl))
  {
  }

  lemma RollbackKeepsKeys(s: State, request: RequestId)
    requires KeysTellTheLog(s) && KeysExclusive(s)
    ensures KeysTellTheLog(Rollback(s, request)) && KeysExclusive(Rollback(s, request))
  {
    SameKeysKeep(s, Rollback(s, request));
  }

  lemma FinishKeepsKeys(s: State, request: RequestId, response: Response, commits: bool)
    requires KeysTellTheLog(s) && KeysExclusive(s)
    ensures KeysTellTheLog(DoFinish(s, request, response, commits)) && KeysExclusive(DoFinish(s, request, response, commits))
    ensures KeysTellTheLog(DoCommitOwn(s, request, commits)) && KeysExclusive(DoCommitOwn(s, request, commits))
  {
    RollbackKeepsKeys(s, request);
    if request in s.open && s.open[request].key.Some? && 200 <= response.status <= 299 {
      CommitKeepsKeys(s, request, Some(response));
    }
    if request in s.open && s.open[request].key.None? { CommitKeepsKeys(s, request, None); }
  }

  lemma KeysStep(s: State, a: Action)
    requires KeysTellTheLog(s) && KeysExclusive(s)
    ensures KeysTellTheLog(Next(s, a)) && KeysExclusive(Next(s, a))
  {
    match a
    case Finish(request, response, commits) => FinishKeepsKeys(s, request, response, commits);
    case CommitOwn(request, commits) => FinishKeepsKeys(s, request, Response(0, "", []), commits);
    case Purge => PurgeKeepsKeys(s);
    case Reserve(request, key, fingerprint, ttl) => ReserveKeepsKeys(s, request, key, fingerprint, ttl);
    case _ =>
      OpensAlike(s, a);
      SameKeysKeep(s, Next(s, a));
  }

  lemma {:induction false} RunKeys(actions: seq<Action>)
    ensures KeysTellTheLog(Run(actions)) && KeysExclusive(Run(actions))
  {
    if actions != [] {
      RunKeys(actions[..|actions| - 1]);
      KeysStep(Run(actions[..|actions| - 1]), actions[|actions| - 1]);
    }
  }

  /** Between two purges of a key its handler's effects commit at most once, however many concurrent requests
    carry it. */
  lemma AtMostOnce(actions: seq<Action>, key: Key)
    ensures Executions(Run(actions).log, key) <= 1
    ensures Executions(Run(actions).log, key) == 1 <==> key in Run(actions).db.keys
  {
    RunKeys(actions);
  }

  /** A request whose key was used gets the response of the one execution that used it, if it is the same
    request, and 422 if it is not. With this store nobody is ever told 409: a row that is still in progress is
    only ever seen by waiting for it. */
  lemma RetriesAreAnswered(actions: seq<Action>, key: Key, fingerprint: Fingerprint)
    ensures var s := Run(actions);
      match AnswerTo(s, key, fingerprint)
      case Execute => key !in s.db.keys && Executions(s.log, key) == 0 && forall r | r in s.open :: s.open[r].key != Some(key)
      case Wait => key !in s.db.keys && exists r | r in s.open :: s.open[r].key == Some(key)
      case Replay(response) =>
        && Executions(s.log, key) == 1 && LastExecution(s.log, key).Some?
        && LastExecution(s.log, key).value.fingerprint == fingerprint
        && LastExecution(s.log, key).value.response == Some(response) && 200 <= response.status <= 299
      case KeyReused =>
        && Executions(s.log, key) == 1 && LastExecution(s.log, key).Some?
        && LastExecution(s.log, key).value.fingerprint != fingerprint
      case StillRunning => false
  {
    RunKeys(actions);
  }

  /** The end of a request that did not succeed: its handler failed or panicked, or its commit did. */
  predicate Fails(a: Action, request: RequestId) {
    || a == Abort(request)
    || (a.Finish? && a.request == request && (a.response.status < 200 || a.response.status > 299 || !a.commits))
  }

  /** Failure leaves nothing: an abandoned, refused or uncommitted request changes no committed row, wakes
    nobody, and its key is free again. */
  lemma FailureLeavesNothing(actions: seq<Action>, request: RequestId, a: Action)
    requires request in Run(actions).open && Run(actions).open[request].key.Some? && Fails(a, request)
    ensures var s, s' := Run(actions), Next(Run(actions), a);
      && s'.db == s.db && s'.log == s.log && s'.woken == s.woken && s'.effects == s.effects
      && request !in s'.open
      && (forall fingerprint :: AnswerTo(s', s.open[request].key.value, fingerprint) == Execute)
  {
    RunKeys(actions);
  }
}
