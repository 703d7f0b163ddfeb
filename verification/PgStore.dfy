/** The code of one request: the middleware's unit, the repository that joins it, and the effects deferred to
  the commit. Each method is one action of the write protocol, or a few; between a commit and its deferred
  effects any other requests act. */
module PgStore {
  import opened Options
  import opened Uuids
  import opened Tasks
  import opened TaskEvents
  import opened IdempotentWrites
  import opened KeyRetention
  import IdempotencySerial

  /** The database server: what is committed, and the open transactions. */
  class Server {
    var state: State

    constructor ()
      ensures state == EMPTY
    {
      state := EMPTY;
    }
  }

  /** What the context carries: the effects that must not happen before the commit. */
  class UnitOfWork {
    var after: seq<Event>

    constructor ()
      ensures after == []
    {
      after := [];
    }

    method Defer(e: Event)
      modifies this
      ensures after == old(after) + [e]
    {
      after := after + [e];
    }

    /** Runs everything registered, in order, and forgets it: a second call runs nothing. Each effect is
      best-effort: `reached` says whether the server took the k-th one. */
    method RunAfterCommit(server: Server, commit: nat, reached: nat -> bool)
      requires commit < |server.state.effects| && server.state.effects[commit].owed == after
      modifies this, server
      ensures after == []
      ensures server.state == Turns(old(server.state), commit, reached, |old(after)|)
      ensures commit < |server.state.effects| && server.state.effects[commit].owed == []
    {
      var hooks := after;
      after := [];
      for i := 0 to |hooks|
        invariant after == []
        invariant server.state == Turns(old(server.state), commit, reached, i)
        invariant commit < |server.state.effects| && server.state.effects[commit].owed == hooks[i..]
      {
        var fx := server.state.effects[commit];
        var past := fx.past + [Notice(hooks[i], reached(i))];
        server.state := server.state.(effects := server.state.effects[commit := Effects(past, hooks[i + 1..])],
                                      woken := server.state.woken + if reached(i) then [Sent(commit, hooks[i])] else []);
      }
    }
  }

  /** The actions of an owner that runs its first n deferred effects. */
  function Turns(s: State, commit: nat, reached: nat -> bool, n: nat): State {
    if n == 0 then s
    else Next(Turns(s, commit, reached, n - 1), if reached(n - 1) then Wake(commit) else Lose(commit))
  }

  /** None of them runs the effects of this commit, whose owner is this request. */
  predicate LeaveAlone(others: seq<Action>, commit: nat) {
    forall a | a in others :: (a.Wake? || a.Lose?) ==> a.commit != commit
  }

  lemma EffectsStay(s: State, a: Action, commit: nat)
    requires commit < |s.effects| && ((a.Wake? || a.Lose?) ==> a.commit != commit)
    ensures commit < |Next(s, a).effects| && Next(s, a).effects[commit] == s.effects[commit]
  {
  }

  lemma {:induction false} OthersLeaveAlone(s: State, others: seq<Action>, commit: nat)
    requires commit < |s.effects| && LeaveAlone(others, commit)
    ensures commit < |After(s, others).effects| && After(s, others).effects[commit] == s.effects[commit]
  {
    if others != [] {
      var init, a := others[..|others| - 1], others[|others| - 1];
      assert a in others && forall b | b in init :: b in others;
      OthersLeaveAlone(s, init, commit);
      EffectsStay(After(s, init), a, commit);
    }
  }

  /** Registers an effect with the ambient unit, if there is one. */
  method AfterCommit(work: UnitOfWork?, e: Event) returns (registered: bool)
    modifies work
    ensures registered <==> work != null
    ensures work != null ==> work.after == old(work.after) + [e]
  {
    if work == null { return false; }
    work.Defer(e);
    registered := true;
  }

  /** What happens around one commit: whether the server took the statements, what others do between the commit
    and the deferred effects, and which of these get through. */
  datatype World = World(written: bool, committed: bool, others: seq<Action>, reached: nat -> bool)

  /** A commit, then the others, then the owner's deferred effects. */
  function Settled(s: State, request: RequestId, response: Option<Response>, world: World): State
    requires request in s.open
  {
    Turns(After(DoCommit(s, request, response), world.others), |s.effects|, world.reached, |s.open[request].deferred|)
  }

  /** One reserved key, and the open transaction behind it. */
  class Unit {
    const server: Server
    const request: RequestId
    const work: UnitOfWork
    var done: bool

    /** While the unit is unfinished its transaction is open, and its context carries what it deferred. */
    ghost predicate Valid()
      reads this, server, work
    {
      !done ==> request in server.state.open && server.state.open[request].key.Some?
                && server.state.open[request].deferred == work.after
    }

    constructor (server: Server, request: RequestId)
      requires request in server.state.open && server.state.open[request].key.Some?
      requires server.state.open[request].deferred == []
      ensures Valid() && !done && this.server == server && this.request == request && fresh(work)
    {
      this.server, this.request, done := server, request, false;
      work := new UnitOfWork();
    }

    /** Stores the response and commits. Only after the commit do the deferred effects run, and by then others
      may have committed and woken the workers too. */
    method Complete(response: Response, world: World) returns (ok: bool)
      requires Valid() && LeaveAlone(world.others, |server.state.effects|)
      modifies this`done, server, work
      ensures done
      ensures old(done) ==> !ok && server.state == old(server.state) && work.after == old(work.after)
      ensures !old(done) ==> ok == (world.written && world.committed)
      ensures !old(done) ==>
        server.state == (if ok then Settled(old(server.state), request, Some(response), world)
                         else Rollback(old(server.state), request))
      ensures !old(done) && !ok ==> work.after == old(work.after)
      ensures !old(done) && ok ==> work.after == []
    {
      if done { return false; }
      done := true;
      if !world.written || !world.committed {
        server.state := Rollback(server.state, request);
        return false;
      }
      var commit := |server.state.effects|;
      server.state := DoCommit(server.state, request, Some(response));
      OthersLeaveAlone(server.state, world.others, commit);
      server.state := After(server.state, world.others);
      work.RunAfterCommit(server, commit, world.reached);
      ok := true;
    }

    method Abandon()
      requires Valid()
      modifies this`done, server
      ensures done
      ensures server.state == if old(done) then old(server.state) else Rollback(old(server.state), request)
    {
      if done { return; }
      done := true;
      server.state := Rollback(server.state, request);
    }
  }

  datatype Reservation = Reserved(unit: Unit) | Seen(row: KeyRow) | Unreachable

  /** Claims a key for a request, or reports what it holds. The statement returns once nobody else holds the
    key's row; `reached` is false if the server does not answer. */
  method ReserveKey(server: Server, request: RequestId, key: Key, fingerprint: Fingerprint, ttl: int, reached: bool)
    returns (r: Reservation)
    requires request !in server.state.open && !KeyLocked(server.state, key)
    modifies server
    ensures r.Unreachable? <==> !reached
    ensures server.state == if reached then Next(old(server.state), Reserve(request, key, fingerprint, ttl)) else old(server.state)
    ensures r.Seen? <==> reached && key in old(server.state).db.keys
    ensures r.Seen? ==> r.row == old(server.state).db.keys[key] && server.state == old(server.state)
    ensures r.Reserved? ==> fresh(r.unit) && fresh(r.unit.work) && r.unit.Valid() && !r.unit.done
                            && r.unit.server == server && r.unit.request == request
  {
    if !reached { return Unreachable; }
    if key in server.state.db.keys { return Seen(server.state.db.keys[key]); }
    server.state := Next(server.state, Reserve(request, key, fingerprint, ttl));
    var unit := new Unit(server, request);
    r := Reserved(unit);
  }

  /** What a transaction sees. */
  function View(s: State, request: RequestId): TaskMap {
    if request in s.open then Overlay(s.db.tasks, s.open[request].writes) else s.db.tasks
  }

  lemma WriteStages(s: State, request: RequestId, op: Op)
    requires request in s.open && !TaskLocked(s, request, op.id)
    ensures request in Next(s, Write(request, op)).open
    ensures View(Next(s, Write(request, op)), request) == Apply(View(s, request), op)
  {
    if OutcomeOf(View(s, request), op).Written? {
      IdempotencySerial.StagedView(s.db, s.open[request], op);
    } else {
      RefusedChangesNothing(View(s, request), op);
    }
  }

  lemma RefusedChangesNothing(tasks: TaskMap, op: Op)
    requires !OutcomeOf(tasks, op).Written?
    ensures Apply(tasks, op) == tasks
  {
  }

  /** The wake-ups registered by a write with this outcome: one for its event, or none. */
  ghost predicate Registers(tasks: TaskMap, op: Op, result: Outcome, before: seq<Event>, after: seq<Event>) {
    if result.Written? then |after| == |before| + 1 && before <= after && Describes(after[|before|], op, tasks)
    else after == before
  }

  /** A repository write that joins the unit's transaction: the change, its event and its wake-up are staged,
    and both the commit and the notification are left to the owner. */
  method WriteJoined(unit: Unit, op: Op) returns (result: Outcome)
    requires unit.Valid() && !unit.done && !TaskLocked(unit.server.state, unit.request, op.id)
    modifies unit.server, unit.work
    ensures unit.Valid() && !unit.done
    ensures unit.server.state == Next(old(unit.server.state), Write(unit.request, op))
    ensures result == OutcomeOf(View(old(unit.server.state), unit.request), op)
    ensures WriteDoes(View(old(unit.server.state), unit.request), op, View(unit.server.state, unit.request), result)
    ensures Registers(View(old(unit.server.state), unit.request), op, result, old(unit.work.after), unit.work.after)
    ensures unit.server.state.db == old(unit.server.state).db && unit.server.state.woken == old(unit.server.state).woken
  {
    var s := unit.server.state;
    WriteStages(s, unit.request, op);
    WriteLaw(View(s, unit.request), op);
    result := OutcomeOf(Overlay(s.db.tasks, s.open[unit.request].writes), op);
    unit.server.state := Next(s, Write(unit.request, op));
    if result.Written? {
      EventDescribes(View(s, unit.request), op);
      var _ := AfterCommit(unit.work, EventFor(op, result.task));
    }
  }

  /** A repository write that owns its transaction commits it and notifies, in that order. */
  method WriteOwn(server: Server, request: RequestId, op: Op, world: World) returns (result: Outcome, ok: bool)
    requires request !in server.state.open && !TaskLocked(server.state, request, op.id)
    requires LeaveAlone(world.others, |server.state.effects|)
    modifies server
    ensures result == OutcomeOf(old(server.state).db.tasks, op)
    ensures ok == (result.Written? && world.committed)
    ensures var s := Next(Next(old(server.state), Begin(request)), Write(request, op));
      && request in s.open
      && server.state == (if ok then Settled(s, request, None, world) else Rollback(s, request))
      && WriteDoes(old(server.state).db.tasks, op, DoCommit(s, request, None).db.tasks, result)
      && Registers(old(server.state).db.tasks, op, result, [], s.open[request].deferred)
    ensures !ok ==> server.state.db == old(server.state).db && server.state.woken == old(server.state).woken
  {
    server.state := Next(server.state, Begin(request));
    assert Overlay(server.state.db.tasks, server.state.open[request].writes) == server.state.db.tasks;
    result := OutcomeOf(server.state.db.tasks, op);
    WriteStages(server.state, request, op);
    WriteLaw(server.state.db.tasks, op);
    if result.Written? { EventDescribes(server.state.db.tasks, op); }
    server.state := Next(server.state, Write(request, op));
    ok := result.Written? && world.committed;
    if !ok {
      server.state := Rollback(server.state, request);
      return;
    }
    var commit := |server.state.effects|;
    server.state := DoCommit(server.state, request, None);
    OthersLeaveAlone(server.state, world.others, commit);
    server.state := After(server.state, world.others);
    ghost var settled := server.state;
    Notify(server, commit, EventFor(op, result.task), world.reached(0));
    assert Turns(settled, commit, world.reached, 0) == settled;
  }

  /** One notification, best-effort. */
  method Notify(server: Server, commit: nat, e: Event, reached: bool)
    requires commit < |server.state.effects| && server.state.effects[commit].owed == [e]
    modifies server
    ensures server.state == Next(old(server.state), if reached then Wake(commit) else Lose(commit))
  {
    var fx := server.state.effects[commit];
    assert fx.owed[1..] == [];
    server.state := server.state.(effects := server.state.effects[commit := Effects(fx.past + [Notice(e, reached)], [])],
                                  woken := server.state.woken + if reached then [Sent(commit, e)] else []);
  }

  // ---------- the handler ----------

  /** What others do before a write of a request, and the write. */
  datatype Step = Step(others: seq<Action>, op: Op)

  predicate ByRequest(a: Action, request: RequestId) {
    (a.Reserve? || a.Begin? || a.Write? || a.Finish? || a.CommitOwn? || a.Abort?) && a.request == request
  }

  /** None of them acts for this request. */
  predicate StayOut(others: seq<Action>, request: RequestId) {
    forall a | a in others :: !ByRequest(a, request)
  }

  lemma TxnStays(s: State, a: Action, request: RequestId)
    requires request in s.open && !ByRequest(a, request)
    ensures request in Next(s, a).open && Next(s, a).open[request] == s.open[request]
  {
  }

  lemma {:induction false} OthersStayOut(s: State, others: seq<Action>, request: RequestId)
    requires request in s.open && StayOut(others, request)
    ensures request in After(s, others).open && After(s, others).open[request] == s.open[request]
  {
    if others != [] {
      var init, a := others[..|others| - 1], others[|others| - 1];
      assert a in others && forall b | b in init :: b in others;
      OthersStayOut(s, init, request);
      TxnStays(After(s, init), a, request);
    }
  }

  function Taken(s: State, request: RequestId, step: Step): State {
    Next(After(s, step.others), Write(request, step.op))
  }

  /** The state after all steps. */
  function Played(s: State, request: RequestId, steps: seq<Step>): State
    decreases |steps|
  {
    if steps == [] then s else Played(Taken(s, request, steps[0]), request, steps[1..])
  }

  /** The outcomes of the writes, each as the transaction saw the tasks at that moment. */
  function Outcomes(s: State, request: RequestId, steps: seq<Step>): seq<Outcome>
    decreases |steps|
  {
    if steps == [] then []
    else [OutcomeOf(View(After(s, steps[0].others), request), steps[0].op)]
         + Outcomes(Taken(s, request, steps[0]), request, steps[1..])
  }

  /** Others act for themselves, and each write is made once nobody else holds its task. */
  ghost predicate Admissible(s: State, request: RequestId, steps: seq<Step>)
    decreases |steps|
  {
    steps == [] || (&& StayOut(steps[0].others, request)
                    && !TaskLocked(After(s, steps[0].others), request, steps[0].op.id)
                    && Admissible(Taken(s, request, steps[0]), request, steps[1..]))
  }

  /** The handler: its writes, one after the other, each joining the unit, with others in between. */
  method RunHandler(unit: Unit, steps: seq<Step>) returns (results: seq<Outcome>)
    requires unit.Valid() && !unit.done && Admissible(unit.server.state, unit.request, steps)
    modifies unit.server, unit.work
    ensures unit.Valid() && !unit.done
    ensures unit.server.state == Played(old(unit.server.state), unit.request, steps)
    ensures results == Outcomes(old(unit.server.state), unit.request, steps)
  {
    results := [];
    for i := 0 to |steps|
      invariant unit.Valid() && !unit.done
      invariant Admissible(unit.server.state, unit.request, steps[i..])
      invariant Played(unit.server.state, unit.request, steps[i..]) == Played(old(unit.server.state), unit.request, steps)
      invariant results + Outcomes(unit.server.state, unit.request, steps[i..])
        == Outcomes(old(unit.server.state), unit.request, steps)
    {
      var result := TakeStep(unit, steps[i], steps[i..]);
      results := results + [result];
      assert steps[i..][1..] == steps[i + 1..];
    }
  }

  /** The others, and then one write. */
  method TakeStep(unit: Unit, step: Step, ghost steps: seq<Step>) returns (result: Outcome)
    requires steps != [] && step == steps[0]
    requires unit.Valid() && !unit.done && Admissible(unit.server.state, unit.request, steps)
    modifies unit.server, unit.work
    ensures unit.Valid() && !unit.done && unit.server.state == Taken(old(unit.server.state), unit.request, step)
    ensures result == OutcomeOf(View(After(old(unit.server.state), step.others), unit.request), step.op)
  {
    LetOthersAct(unit, step.others);
    result := WriteJoined(unit, step.op);
  }

  method LetOthersAct(unit: Unit, others: seq<Action>)
    requires unit.Valid() && !unit.done && StayOut(others, unit.request)
    modifies unit.server
    ensures unit.Valid() && !unit.done && unit.server.state == After(old(unit.server.state), others)
    ensures unit.request in unit.server.state.open
  {
    OthersStayOut(unit.server.state, others, unit.request);
    unit.server.state := After(unit.server.state, others);
  }

  /** The outcomes of writes made one after the other. */
  function InTurn(tasks: TaskMap, steps: seq<Step>): seq<Outcome>
    decreases |steps|
  {
    if steps == [] then [] else [OutcomeOf(tasks, steps[0].op)] + InTurn(Apply(tasks, steps[0].op), steps[1..])
  }

  /** A request that is alone sees its writes made one after the other. */
  lemma {:induction false} AloneInTurn(s: State, request: RequestId, steps: seq<Step>)
    requires request in s.open && Admissible(s, request, steps) && forall i | 0 <= i < |steps| :: steps[i].others == []
    ensures Outcomes(s, request, steps) == InTurn(View(s, request), steps)
    decreases |steps|
  {
    if steps != [] {
      assert After(s, steps[0].others) == s;
      WriteStages(s, request, steps[0].op);
      AloneInTurn(Taken(s, request, steps[0]), request, steps[1..]);
    }
  }

  // ---------- the request ----------

  datatype Reply =
    | Flushed(response: Response)
    | Replayed(response: Response)
    | Unprocessable            // 422
    | InProgress               // 409
    | Unavailable              // 503
    | Panicked                 // the handler's panic goes on

  /** What the handler of a request does: its writes, and the response it makes of their outcomes; or it panics
    after them. */
  datatype Handler = Handler(steps: seq<Step>, respond: seq<Outcome> -> Response, panics: bool)

  /** The state after the handler. */
  function Executed(s: State, request: RequestId, key: Key, fingerprint: Fingerprint, ttl: int, h: Handler): State {
    Played(Next(s, Reserve(request, key, fingerprint, ttl)), request, h.steps)
  }

  lemma {:induction false} HandlerHolds(s: State, request: RequestId, steps: seq<Step>, key: Key, row: KeyRow)
    requires Holds(s, request, key, row) && Admissible(s, request, steps)
    ensures Holds(Played(s, request, steps), request, key, row)
    decreases |steps|
  {
    if steps != [] {
      HoldsOn(s, steps[0].others, request, key, row);
      HoldsStep(After(s, steps[0].others), Write(request, steps[0].op), request, key, row);
      HandlerHolds(Taken(s, request, steps[0]), request, steps[1..], key, row);
    }
  }

  lemma {:induction false} TurnsRemember(s: State, commit: nat, reached: nat -> bool, n: nat, key: Key, row: KeyRow)
    requires Remembers(s, key, row)
    ensures Remembers(Turns(s, commit, reached, n), key, row) && Turns(s, commit, reached, n).now == s.now
  {
    if n > 0 { TurnsRemember(s, commit, reached, n - 1, key, row); }
  }

  lemma {:induction false} TurnsTakeNoTime(s: State, commit: nat, reached: nat -> bool, n: nat)
    ensures Turns(s, commit, reached, n).now == s.now
  {
    if n > 0 { TurnsTakeNoTime(s, commit, reached, n - 1); }
  }

  /** What a keyed request leaves behind. If it succeeded and its commit did, its response, until the reservation
    expires; otherwise nothing that is committed, and the key is free. */
  ghost predicate LeavesBehind(before: State, executed: State, after: State, key: Key, fingerprint: Fingerprint, ttl: int,
                               response: Response, committed: bool)
  {
    if committed then
      after.now <= before.now + ttl ==>
        && Remembers(after, key, KeyRow(fingerprint, Some(response), before.now + ttl))
        && AnswerTo(after, key, fingerprint) == Replay(response)
    else after.db == executed.db && IsFree(after, key)
  }

  lemma SuccessLeaves(s: State, executed: State, request: RequestId, key: Key, fingerprint: Fingerprint, ttl: int,
                      response: Response, world: World)
    requires Holds(executed, request, key, KeyRow(fingerprint, None, s.now + ttl)) && 200 <= response.status <= 299
    ensures LeavesBehind(s, executed, Settled(executed, request, Some(response), world), key, fingerprint, ttl, response, true)
  {
    EndOfRequest(executed, request, key, KeyRow(fingerprint, None, s.now + ttl), response, true);
    var kept := KeyRow(fingerprint, Some(response), s.now + ttl);
    var committed := DoCommit(executed, request, Some(response));
    assert Remembers(committed, key, kept);
    var others, n := After(committed, world.others), |executed.open[request].deferred|;
    TurnsTakeNoTime(others, |executed.effects|, world.reached, n);
    if others.now <= s.now + ttl {
      RemembersOn(committed, world.others, key, kept);
      TurnsRemember(others, |executed.effects|, world.reached, n, key, kept);
      RememberedIsReplayed(Turns(others, |executed.effects|, world.reached, n), key, kept, fingerprint);
    }
  }

  lemma RequestLeaves(s: State, request: RequestId, key: Key, fingerprint: Fingerprint, ttl: int, h: Handler,
                      response: Response, world: World)
    requires request !in s.open && key !in s.db.keys && !KeyLocked(s, key)
    requires Admissible(Next(s, Reserve(request, key, fingerprint, ttl)), request, h.steps)
    ensures var executed := Executed(s, request, key, fingerprint, ttl, h);
      && request in executed.open
      && LeavesBehind(s, executed, Rollback(executed, request), key, fingerprint, ttl, response, false)
      && (200 <= response.status <= 299 ==>
            LeavesBehind(s, executed, Settled(executed, request, Some(response), world), key, fingerprint, ttl, response, true))
  {
    var row, executed := KeyRow(fingerprint, None, s.now + ttl), Executed(s, request, key, fingerprint, ttl, h);
    ReserveHolds(s, request, key, fingerprint, ttl);
    HandlerHolds(Next(s, Reserve(request, key, fingerprint, ttl)), request, h.steps, key, row);
    EndOfRequest(executed, request, key, row, response, false);
    if 200 <= response.status <= 299 { SuccessLeaves(s, executed, request, key, fingerprint, ttl, response, world); }
  }

  /** The middleware for one keyed request, with others acting before each of its writes, and between its commit and
    its wake-ups. The client is told of success only after the commit; whatever else happens, nothing of the request
    is left and its key is free. */
  method Handle(server: Server, request: RequestId, key: Key, fingerprint: Fingerprint, ttl: int, h: Handler,
                reached: bool, world: World)
    returns (reply: Reply)
    requires request !in server.state.open && !KeyLocked(server.state, key)
    requires reached && key !in server.state.db.keys ==>
      && Admissible(Next(server.state, Reserve(request, key, fingerprint, ttl)), request, h.steps)
      && LeaveAlone(world.others, |Executed(server.state, request, key, fingerprint, ttl, h).effects|)
    modifies server
    ensures !reached ==> reply == Unavailable && server.state == old(server.state)
    ensures reached && key in old(server.state).db.keys ==>
      && server.state == old(server.state)
      && var row := old(server.state).db.keys[key];
         reply == (if row.fingerprint != fingerprint then Unprocessable
                   else if row.response.Some? then Replayed(row.response.value)
                   else InProgress)
    ensures reached && key !in old(server.state).db.keys ==>
      var s := Executed(old(server.state), request, key, fingerprint, ttl, h);
      var response := h.respond(Outcomes(Next(old(server.state), Reserve(request, key, fingerprint, ttl)), request, h.steps));
      var commits := !h.panics && 200 <= response.status <= 299 && world.written && world.committed;
      && request in s.open
      && server.state == (if commits then Settled(s, request, Some(response), world) else Rollback(s, request))
      && LeavesBehind(old(server.state), s, server.state, key, fingerprint, ttl, response, commits)
      && reply == (if h.panics then Panicked
                   else if 200 <= response.status <= 299 && !commits then Unavailable
                   else Flushed(response))
  {
    var r := ReserveKey(server, request, key, fingerprint, ttl, reached);
    match r
    case Unreachable => reply := Unavailable;
    case Seen(row) =>
      if row.fingerprint != fingerprint { return Unprocessable; }
      if row.response.None? { return InProgress; }
      reply := Replayed(row.response.value);
    case Reserved(unit) =>
      ghost var outcomes := Outcomes(server.state, request, h.steps);
      RequestLeaves(old(server.state), request, key, fingerprint, ttl, h, h.respond(outcomes), world);
      var results := RunHandler(unit, h.steps);
      if h.panics {
        unit.Abandon();
        return Panicked;
      }
      var response := h.respond(results);
      if !(200 <= response.status < 300) {
        unit.Abandon();
        return Flushed(response);
      }
      var ok := unit.Complete(response, world);
      if !ok { return Unavailable; }
      unit.Abandon();
      reply := Flushed(response);
  }
}
