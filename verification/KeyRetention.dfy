/** How long the durable store holds an idempotency key: for one request until it ends, and with its response until
  the time the reservation set. */
module KeyRetention {
  import opened Options
  import opened Uuids
  import opened Tasks
  import opened IdempotentWrites

  // ---------- while the request runs ----------

  /** The key is held by this request only, which has staged this row for it. */
  ghost predicate Holds(s: State, request: RequestId, key: Key, row: KeyRow) {
    && request in s.open && s.open[request].key == Some(key) && s.open[request].row == row
    && key !in s.db.keys
    && forall r | r in s.open && s.open[r].key == Some(key) :: r == request
  }

  predicate Ends(a: Action, request: RequestId) {
    (a.Finish? || a.CommitOwn? || a.Abort?) && a.request == request
  }

  /** A free key is reserved for the length of its ttl, with no response yet. */
  lemma ReserveHolds(s: State, request: RequestId, key: Key, fingerprint: Fingerprint, ttl: int)
    requires request !in s.open && key !in s.db.keys && forall r | r in s.open :: s.open[r].key != Some(key)
    ensures Holds(Next(s, Reserve(request, key, fingerprint, ttl)), request, key, KeyRow(fingerprint, None, s.now + ttl))
    ensures Next(s, Reserve(request, key, fingerprint, ttl)).db == s.db
  {
  }

  lemma HoldsStep(s: State, a: Action, request: RequestId, key: Key, row: KeyRow)
    requires Holds(s, request, key, row) && !Ends(a, request)
    ensures Holds(Next(s, a), request, key, row)
  {
    if a.Finish? && a.request in s.open { assert s.open[a.request].key != Some(key); }
    if a.CommitOwn? && a.request in s.open { assert s.open[a.request].key != Some(key); }
    assert KeyLocked(s, key);
  }

  lemma {:induction false} HoldsOn(s: State, more: seq<Action>, request: RequestId, key: Key, row: KeyRow)
    requires Holds(s, request, key, row) && forall a | a in more :: !Ends(a, request)
    ensures Holds(After(s, more), request, key, row)
  {
    if more != [] {
      var init, a := more[..|more| - 1], more[|more| - 1];
      assert a in more && forall b | b in init :: b in more;
      HoldsOn(s, init, request, key, row);
      HoldsStep(After(s, init), a, request, key, row);
    }
  }

  // ---------- the end of the request ----------

  /** The committed row of a key, which nobody holds. */
  ghost predicate Remembers(s: State, key: Key, row: KeyRow) {
    key in s.db.keys && s.db.keys[key] == row && forall r | r in s.open :: s.open[r].key != Some(key)
  }

  /** The next request with the key executes. */
  ghost predicate IsFree(s: State, key: Key) {
    && key !in s.db.keys && (forall r | r in s.open :: s.open[r].key != Some(key))
    && forall fingerprint :: AnswerTo(s, key, fingerprint) == Execute
  }

  /** A status from 200 to 299 whose commit succeeds is remembered, together with everything the request wrote;
    any other end changes nothing that is committed and frees the key. */
  lemma EndOfRequest(s: State, request: RequestId, key: Key, row: KeyRow, response: Response, commits: bool)
    requires Holds(s, request, key, row)
    ensures var s' := Next(s, Finish(request, response, commits));
      && request !in s'.open && s'.now == s.now
      && if 200 <= response.status <= 299 && commits then
           && Remembers(s', key, row.(response := Some(response)))
           && s'.db.keys == s.db.keys[key := row.(response := Some(response))]
           && s'.db.tasks == Overlay(s.db.tasks, s.open[request].writes)
           && s'.db.jobs == s.db.jobs + Live(s.open[request].jobs)
         else
           s'.db == s.db && s'.log == s.log && IsFree(s', key)
    ensures IsFree(Next(s, Abort(request)), key) && Next(s, Abort(request)).db == s.db
  {
  }

  // ---------- while the key is remembered ----------

  lemma RemembersStep(s: State, a: Action, key: Key, row: KeyRow)
    requires Remembers(s, key, row) && s.now <= row.expiresAt
    ensures Remembers(Next(s, a), key, row)
  {
    if a.Finish? && a.request in s.open { assert s.open[a.request].key != Some(key); }
    if a.CommitOwn? && a.request in s.open { assert s.open[a.request].key != Some(key); }
  }

  lemma ClockGrows(s: State, a: Action)
    ensures s.now <= Next(s, a).now
  {
  }

  lemma {:induction false} RemembersOn(s: State, more: seq<Action>, key: Key, row: KeyRow)
    requires Remembers(s, key, row) && After(s, more).now <= row.expiresAt
    ensures Remembers(After(s, more), key, row)
  {
    if more != [] {
      var init, a := more[..|more| - 1], more[|more| - 1];
      ClockGrows(After(s, init), a);
      RemembersOn(s, init, key, row);
      RemembersStep(After(s, init), a, key, row);
    }
  }

  /** The answers to a remembered key. */
  lemma RememberedIsReplayed(s: State, key: Key, row: KeyRow, fingerprint: Fingerprint)
    requires Remembers(s, key, row) && row.response.Some?
    ensures AnswerTo(s, key, fingerprint) == if fingerprint == row.fingerprint then Replay(row.response.value) else KeyReused
  {
  }

  /** From the reservation of a free key, through whatever happens until its request succeeds, and through whatever
    happens after that: until the ttl is over, every retry is answered with that response, and the key is refused to
    any other request. */
  lemma ReplayedUntilExpiry(s: State, request: RequestId, key: Key, fingerprint: Fingerprint, ttl: int, handling: seq<Action>,
                            response: Response, more: seq<Action>, asked: Fingerprint)
    requires request !in s.open && key !in s.db.keys && forall r | r in s.open :: s.open[r].key != Some(key)
    requires (forall a | a in handling :: !Ends(a, request)) && 200 <= response.status <= 299
    requires var ended := Next(After(Next(s, Reserve(request, key, fingerprint, ttl)), handling), Finish(request, response, true));
      After(ended, more).now <= s.now + ttl
    ensures var ended := Next(After(Next(s, Reserve(request, key, fingerprint, ttl)), handling), Finish(request, response, true));
      && Remembers(After(ended, more), key, KeyRow(fingerprint, Some(response), s.now + ttl))
      && AnswerTo(After(ended, more), key, asked) == if asked == fingerprint then Replay(response) else KeyReused
  {
    var row := KeyRow(fingerprint, None, s.now + ttl);
    ReserveHolds(s, request, key, fingerprint, ttl);
    var reserved := Next(s, Reserve(request, key, fingerprint, ttl));
    HoldsOn(reserved, handling, request, key, row);
    EndOfRequest(After(reserved, handling), request, key, row, response, true);
    var ended := Next(After(reserved, handling), Finish(request, response, true));
    RemembersOn(ended, more, key, KeyRow(fingerprint, Some(response), s.now + ttl));
    RememberedIsReplayed(After(ended, more), key, KeyRow(fingerprint, Some(response), s.now + ttl), asked);
  }

  /** A purge takes exactly the keys whose time has passed, and a key it took is free again. */
  lemma PurgedIffExpired(s: State, key: Key, row: KeyRow)
    requires Remembers(s, key, row)
    ensures if s.now > row.expiresAt then IsFree(Next(s, Purge), key) else Remembers(Next(s, Purge), key, row)
  {
  }
}
