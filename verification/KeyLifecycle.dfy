/** The life of an idempotency key, as both stores keep it. */
module KeyLifecycle {
  import opened Options
  import opened IdempotentWrites
  import opened IdempotencyProofs

  /** `owner` is the request that reserved the key. */
  datatype KeyStatus = Free | InProgress(owner: nat) | Completed(response: Response)

  /** A key is reserved only while it is free, and completed or given up only by the request that reserved it;
    a completed key keeps its response until it is free again. */
  predicate Follows(a: KeyStatus, b: KeyStatus) {
    || a == b
    || (a.Free? && b.InProgress?)
    || (a.InProgress? && !b.InProgress?)
    || (a.Completed? && b.Free?)
  }

  /** The durable store: a key is in progress while a transaction holds it. */
  ghost predicate StatusIs(s: State, key: Key, status: KeyStatus) {
    match status
    case Free => !KeyLocked(s, key) && key !in s.db.keys
    case InProgress(r) => r in s.open && s.open[r].key == Some(key)
    case Completed(response) => !KeyLocked(s, key) && key in s.db.keys && s.db.keys[key].response == Some(response)
  }

  /** In every reachable state every key has exactly one status. */
  lemma StatusExists(actions: seq<Action>, key: Key) returns (status: KeyStatus)
    ensures StatusIs(Run(actions), key, status)
    ensures forall other: KeyStatus :: StatusIs(Run(actions), key, other) ==> other == status
  {
    RunKeys(actions);
    var s := Run(actions);
    if KeyLocked(s, key) {
      var r :| r in s.open && s.open[r].key == Some(key);
      status := InProgress(r);
    } else if key in s.db.keys {
      status := Completed(s.db.keys[key].response.value);
    } else {
      status := Free;
    }
  }

  lemma FromFree(s: State, a: Action, key: Key, after: KeyStatus)
    requires KeysTellTheLog(s) && KeysExclusive(s) && !KeyLocked(s, key) && key !in s.db.keys
    requires StatusIs(Next(s, a), key, after)
    ensures !after.Completed?
  {
    if a.Finish? && a.request in s.open { assert s.open[a.request].key != Some(key); }
    if a.CommitOwn? && a.request in s.open { assert s.open[a.request].key != Some(key); }
  }

  lemma FromProgress(s: State, a: Action, key: Key, owner: nat, after: KeyStatus)
    requires KeysExclusive(s) && KeysExclusive(Next(s, a)) && owner in s.open && s.open[owner].key == Some(key)
    requires StatusIs(Next(s, a), key, after)
    ensures after == InProgress(owner) || (!after.InProgress? && (a.Finish? || a.Abort?) && a.request == owner)
  {
    var s' := Next(s, a);
    if owner in s'.open { HeldIsProgress(s', key, owner, after); }
  }

  lemma HeldIsProgress(s: State, key: Key, owner: nat, status: KeyStatus)
    requires KeysExclusive(s) && owner in s.open && s.open[owner].key == Some(key) && StatusIs(s, key, status)
    ensures status == InProgress(owner)
  {
    assert KeyLocked(s, key);
  }

  lemma FromCompleted(s: State, a: Action, key: Key, response: Response, after: KeyStatus)
    requires KeysExclusive(s) && !KeyLocked(s, key) && key in s.db.keys && s.db.keys[key].response == Some(response)
    requires StatusIs(Next(s, a), key, after)
    ensures after.Free? || after == Completed(response)
  {
    if (a.Finish? || a.CommitOwn?) && a.request in s.open { assert s.open[a.request].key != Some(key); }
  }

  /** Every action moves every key along its life. */
  lemma PostgresFollows(actions: seq<Action>, a: Action, key: Key, before: KeyStatus, after: KeyStatus)
    requires StatusIs(Run(actions), key, before) && StatusIs(Next(Run(actions), a), key, after)
    ensures Follows(before, after)
    ensures before.InProgress? && before != after ==>
      (a.Finish? || a.Abort?) && a.request == before.owner
  {
    RunKeys(actions);
    KeysStep(Run(actions), a);
    match before
    case Free => FromFree(Run(actions), a, key, after);
    case InProgress(owner) => FromProgress(Run(actions), a, key, owner, after);
    case Completed(response) => FromCompleted(Run(actions), a, key, response, after);
  }
}
