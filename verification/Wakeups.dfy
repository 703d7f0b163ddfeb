/** The deferred wake-ups, over every run: sent after the commit, in order, at most once, and all accounted for.

  Between a commit and its wake-ups other requests act, and the process may die. */
module Wakeups {
  import opened Options
  import opened Uuids
  import opened Tasks
  import opened TaskEvents
  import opened IdempotentWrites
  import opened IdempotencySerial
  import opened Counting
  import OutboxEvents

  // ---------- what each commit registered ----------

  function EventsIn(past: seq<Notice>): (es: seq<Event>)
    ensures |es| == |past|
  {
    seq(|past|, i requires 0 <= i < |past| => past[i].event)
  }

  /** Everything a commit registered, in registration order. */
  function Registered(fx: Effects): seq<Event> {
    EventsIn(fx.past) + fx.owed
  }

  function CommitsIn(log: seq<LogEntry>): seq<Commit> {
    if log == [] then []
    else CommitsIn(log[..|log| - 1]) + if log[|log| - 1].Committed? then [log[|log| - 1].commit] else []
  }

  /** The writes of the first n commits. */
  function OpsBefore(commits: seq<Commit>, n: nat): seq<Op>
    requires n <= |commits|
  {
    if n == 0 then [] else OpsBefore(commits, n - 1) + commits[n - 1].ops
  }

  /** The events of the n-th commit, each with the task as it was at its turn. */
  function EventsOfCommit(commits: seq<Commit>, n: nat): seq<Event>
    requires n < |commits|
  {
    EventsOf(ApplyAll(map[], OpsBefore(commits, n)), commits[n].ops)
  }

  ghost predicate Registers(s: State) {
    var commits := CommitsIn(s.log);
    && |s.effects| == |commits|
    && forall n | 0 <= n < |commits| :: Registered(s.effects[n]) == EventsOfCommit(commits, n)
  }

  lemma {:induction false} OpsBeforePrefix(commits: seq<Commit>, more: seq<Commit>, n: nat)
    requires n <= |commits|
    ensures OpsBefore(commits + more, n) == OpsBefore(commits, n)
  {
    if n > 0 { OpsBeforePrefix(commits, more, n - 1); }
  }

  lemma CommitsGrow(log: seq<LogEntry>, e: LogEntry)
    ensures CommitsIn(log + [e]) == CommitsIn(log) + if e.Committed? then [e.commit] else []
  {
    assert (log + [e])[..|log + [e]| - 1] == log;
  }

  lemma {:induction false} CommittedIsAll(log: seq<LogEntry>)
    ensures CommittedOps(log) == OpsBefore(CommitsIn(log), |CommitsIn(log)|)
  {
    if log != [] {
      var init, e := log[..|log| - 1], log[|log| - 1];
      CommittedIsAll(init);
      if e.Committed? {
        var commits := CommitsIn(init) + [e.commit];
        OpsBeforePrefix(CommitsIn(init), [e.commit], |commits| - 1);
        assert OpsBefore(commits, |commits|) == OpsBefore(commits, |commits| - 1) + e.commit.ops;
      } else {
        assert CommitsIn(log) == CommitsIn(init);
      }
    }
  }

  lemma CommitRegisters(s: State, request: RequestId, response: Option<Response>)
    requires Inv(s) && Registers(s) && request in s.open
    ensures Registers(DoCommit(s, request, response))
  {
    var t, s' := s.open[request], DoCommit(s, request, response);
    var c := Commit(t.key, t.row.fingerprint, response, t.ops);
    var commits := CommitsIn(s.log);
    CommitsGrow(s.log, Committed(c));
    CommittedIsAll(s.log);
    assert StagedFaithfully(s.db, t);
    forall n | 0 <= n < |commits| + 1 ensures Registered(s'.effects[n]) == EventsOfCommit(commits + [c], n) {
      OpsBeforePrefix(commits, [c], n);
      if n < |commits| { assert Registered(s.effects[n]) == EventsOfCommit(commits, n); }
    }
  }

  /** A turn changes nothing about what was registered. */
  lemma TurnRegisters(fx: Effects, sent: bool)
    requires fx.owed != []
    ensures Registered(Turn(fx, sent)) == Registered(fx)
  {
  }

  // ---------- what was sent ----------

  /** The wake-ups of commit n among those sent. */
  function SentOf(woken: seq<Sent>, n: nat): seq<Event> {
    if woken == [] then []
    else SentOf(woken[..|woken| - 1], n) + if woken[|woken| - 1].commit == n then [woken[|woken| - 1].event] else []
  }

  /** Those of its notices that were sent, or lost. */
  function Chosen(past: seq<Notice>, sent: bool): seq<Event> {
    if past == [] then []
    else Chosen(past[..|past| - 1], sent) + if past[|past| - 1].sent == sent then [past[|past| - 1].event] else []
  }

  ghost predicate SendsTold(s: State) {
    && (forall w | w in s.woken :: w.commit < |s.effects|)
    && (forall n | 0 <= n < |s.effects| :: SentOf(s.woken, n) == Chosen(s.effects[n].past, true))
  }

  lemma SentOne(woken: seq<Sent>, w: Sent, n: nat)
    ensures SentOf(woken + [w], n) == SentOf(woken, n) + if w.commit == n then [w.event] else []
  {
    assert (woken + [w])[..|woken + [w]| - 1] == woken;
  }

  lemma ChosenOne(past: seq<Notice>, notice: Notice, sent: bool)
    ensures Chosen(past + [notice], sent) == Chosen(past, sent) + if notice.sent == sent then [notice.event] else []
  {
    assert (past + [notice])[..|past + [notice]| - 1] == past;
  }

  lemma {:induction false} NothingSentYet(woken: seq<Sent>, n: nat)
    requires forall w | w in woken :: w.commit < n
    ensures SentOf(woken, n) == []
  {
    if woken != [] {
      assert woken[|woken| - 1] in woken;
      NothingSentYet(woken[..|woken| - 1], n);
    }
  }

  lemma TurnTold(s: State, commit: nat, sent: bool)
    requires SendsTold(s)
    ensures SendsTold(if sent then DoWake(s, commit) else DoLose(s, commit))
  {
    if Owes(s, commit) {
      var fx, s' := s.effects[commit], if sent then DoWake(s, commit) else DoLose(s, commit);
      ChosenOne(fx.past, Notice(fx.owed[0], sent), true);
      forall n | 0 <= n < |s'.effects| ensures SentOf(s'.woken, n) == Chosen(s'.effects[n].past, true) {
        if sent { SentOne(s.woken, Sent(commit, fx.owed[0]), n); }
      }
    }
  }

  lemma CommitTold(s: State, request: RequestId, response: Option<Response>)
    requires SendsTold(s) && request in s.open
    ensures SendsTold(DoCommit(s, request, response))
  {
    NothingSentYet(s.woken, |s.effects|);
  }

  // ---------- every run ----------

  ghost predicate WakeInv(s: State) {
    Registers(s) && SendsTold(s)
  }

  lemma CommitWakes(s: State, request: RequestId, response: Option<Response>)
    requires Inv(s) && WakeInv(s) && request in s.open
    ensures WakeInv(DoCommit(s, request, response))
  {
    CommitRegisters(s, request, response);
    CommitTold(s, request, response);
  }

  lemma TurnWakes(s: State, commit: nat, sent: bool)
    requires WakeInv(s)
    ensures WakeInv(if sent then DoWake(s, commit) else DoLose(s, commit))
  {
    TurnTold(s, commit, sent);
    if Owes(s, commit) { TurnRegisters(s.effects[commit], sent); }
  }

  lemma FinishWakes(s: State, request: RequestId, response: Response, commits: bool)
    requires Inv(s) && WakeInv(s)
    ensures WakeInv(DoFinish(s, request, response, commits)) && WakeInv(DoCommitOwn(s, request, commits))
  {
    if request in s.open {
      CommitWakes(s, request, Some(response));
      CommitWakes(s, request, None);
    }
  }

  lemma SameWakes(s: State, s': State)
    requires WakeInv(s) && s'.effects == s.effects && s'.woken == s.woken && CommitsIn(s'.log) == CommitsIn(s.log)
    ensures WakeInv(s')
  {
  }

  lemma WakesAlike(s: State, a: Action)
    requires a.Advance? || a.Reserve? || a.Begin? || a.Write? || a.Abort? || a.FinalizeJob? || a.Purge?
    ensures Next(s, a).effects == s.effects && Next(s, a).woken == s.woken && CommitsIn(Next(s, a).log) == CommitsIn(s.log)
  {
    CommitsGrow(s.log, PurgedKeys(Expired(s)));
  }

  lemma OtherWakes(s: State, a: Action)
    requires WakeInv(s)
    requires a.Advance? || a.Reserve? || a.Begin? || a.Write? || a.Abort? || a.FinalizeJob? || a.Purge?
    ensures WakeInv(Next(s, a))
  {
    WakesAlike(s, a);
    SameWakes(s, Next(s, a));
  }

  lemma WakeStep(s: State, a: Action)
    requires Inv(s) && WakeInv(s)
    ensures WakeInv(Next(s, a))
  {
    match a
    case Finish(request, response, commits) => FinishWakes(s, request, response, commits);
    case CommitOwn(request, commits) => FinishWakes(s, request, Response(200, "", []), commits);
    case Wake(commit) => TurnWakes(s, commit, true);
    case Lose(commit) => TurnWakes(s, commit, false);
    case _ => OtherWakes(s, a);
  }

  lemma {:induction false} RunWakes(actions: seq<Action>)
    ensures WakeInv(Run(actions))
  {
    if actions != [] {
      var init := actions[..|actions| - 1];
      RunWakes(init);
      RunInv(init);
      WakeStep(Run(init), actions[|actions| - 1]);
    }
  }

  /** Commit by commit: the effects that had their turn, followed by those still owed, are exactly the events of
    the commit's writes; and those sent went out in that order, each once, after the commit. */
  lemma InOrderAfterCommit(actions: seq<Action>, n: nat)
    requires n < |CommitsIn(Run(actions).log)|
    ensures var s := Run(actions);
      && n < |s.effects|
      && EventsIn(s.effects[n].past) + s.effects[n].owed == EventsOfCommit(CommitsIn(s.log), n)
      && SentOf(s.woken, n) == Chosen(s.effects[n].past, true)
  {
    RunWakes(actions);
  }

  // ---------- all commits together ----------

  /** How often an event is lost, or still owed. */
  function UnsentOf(fx: Effects, e: Event): nat {
    Count(Chosen(fx.past, false), e) + Count(fx.owed, e)
  }

  /** How often all commits together have it unsent. */
  function Unsent(effects: seq<Effects>, e: Event): nat {
    Sum(effects, fx => UnsentOf(fx, e))
  }

  function WokenEvents(woken: seq<Sent>): (es: seq<Event>)
    ensures |es| == |woken|
  {
    seq(|woken|, i requires 0 <= i < |woken| => woken[i].event)
  }

  ghost predicate BalancedFor(s: State, e: Event) {
    Count(WokenEvents(s.woken), e) + Unsent(s.effects, e) == Count(EventsOf(map[], CommittedOps(s.log)), e)
  }

  ghost predicate Balanced(s: State) {
    forall e: Event :: BalancedFor(s, e)
  }

  lemma TurnUnsent(fx: Effects, sent: bool, e: Event)
    requires fx.owed != []
    ensures UnsentOf(Turn(fx, sent), e) == UnsentOf(fx, e) - if sent && fx.owed[0] == e then 1 else 0
  {
    ChosenOne(fx.past, Notice(fx.owed[0], sent), false);
    var lost := Chosen(fx.past, false);
    assert Chosen(Turn(fx, sent).past, false) == if sent then lost else lost + [fx.owed[0]];
    CountOne(lost, fx.owed[0], e);
    CountFirst(fx.owed, e);
  }

  lemma WokenOne(woken: seq<Sent>, w: Sent, e: Event)
    ensures Count(WokenEvents(woken + [w]), e) == Count(WokenEvents(woken), e) + if w.event == e then 1 else 0
  {
    assert WokenEvents(woken + [w]) == WokenEvents(woken) + [w.event];
    CountOne(WokenEvents(woken), w.event, e);
  }

  lemma TurnBalances(s: State, commit: nat, sent: bool)
    requires Balanced(s)
    ensures Balanced(if sent then DoWake(s, commit) else DoLose(s, commit))
  {
    if Owes(s, commit) {
      var s' := if sent then DoWake(s, commit) else DoLose(s, commit);
      var fx := s.effects[commit];
      forall e: Event ensures BalancedFor(s', e) {
        assert BalancedFor(s, e);
        TurnUnsent(fx, sent, e);
        SumReplaced(s.effects, commit, Turn(fx, sent), x => UnsentOf(x, e));
        WokenOne(s.woken, Sent(commit, fx.owed[0]), e);
      }
    }
  }

  lemma CommitBalances(s: State, request: RequestId, response: Option<Response>)
    requires Inv(s) && Balanced(s) && request in s.open
    ensures Balanced(DoCommit(s, request, response))
  {
    var deferred, s' := s.open[request].deferred, DoCommit(s, request, response);
    OutboxEvents.CommittedEvents(s, request, response);
    forall e: Event ensures BalancedFor(s', e) {
      assert BalancedFor(s, e);
      SumOne(s.effects, Effects([], deferred), x => UnsentOf(x, e));
      CountAppend(EventsOf(map[], CommittedOps(s.log)), deferred, e);
    }
  }

  lemma SameBalance(s: State, s': State)
    requires Balanced(s) && s'.effects == s.effects && s'.woken == s.woken && CommittedOps(s'.log) == CommittedOps(s.log)
    ensures Balanced(s')
  {
    forall e: Event ensures BalancedFor(s', e) { assert BalancedFor(s, e); }
  }

  lemma FinishBalances(s: State, request: RequestId, response: Response, commits: bool)
    requires Inv(s) && Balanced(s)
    ensures Balanced(DoFinish(s, request, response, commits)) && Balanced(DoCommitOwn(s, request, commits))
  {
    SameBalance(s, Rollback(s, request));
    if request in s.open {
      CommitBalances(s, request, Some(response));
      CommitBalances(s, request, None);
    }
  }

  lemma OtherBalances(s: State, a: Action)
    requires Balanced(s)
    requires a.Advance? || a.Reserve? || a.Begin? || a.Write? || a.Abort? || a.FinalizeJob? || a.Purge?
    ensures Balanced(Next(s, a))
  {
    LogOps(s.log, PurgedKeys(Expired(s)));
    SameBalance(s, Next(s, a));
  }

  lemma BalanceStep(s: State, a: Action)
    requires Inv(s) && Balanced(s)
    ensures Balanced(Next(s, a))
  {
    match a
    case Finish(request, response, commits) => FinishBalances(s, request, response, commits);
    case CommitOwn(request, commits) => FinishBalances(s, request, Response(200, "", []), commits);
    case Wake(commit) => TurnBalances(s, commit, true);
    case Lose(commit) => TurnBalances(s, commit, false);
    case _ => OtherBalances(s, a);
  }

  /** The events of the committed writes are the wake-ups sent, lost and owed, each counted once. */
  lemma {:induction false} WakeupsConserved(actions: seq<Action>)
    ensures Balanced(Run(actions))
  {
    if actions != [] {
      var init := actions[..|actions| - 1];
      WakeupsConserved(init);
      RunInv(init);
      BalanceStep(Run(init), actions[|actions| - 1]);
    }
  }

  // ---------- at most once ----------

  /** A worker is woken only for a write that is committed and whose job is in the outbox, and, with fresh task
    ids, never twice for one event. */
  lemma WokenForCommitted(actions: seq<Action>)
    requires OutboxEvents.FreshIds(actions)
    ensures var s := Run(actions);
      && (forall w | w in s.woken :: w.event in EventsOf(map[], CommittedOps(s.log)) && w.event in OutboxEvents.EventsIn(s.db.jobs))
      && (forall i, j | 0 <= i < j < |s.woken| :: EventId(s.woken[i].event) != EventId(s.woken[j].event))
  {
    var s := Run(actions);
    var committed, sent := EventsOf(map[], CommittedOps(s.log)), WokenEvents(s.woken);
    OutboxEvents.RunEvents(actions);
    WakeupsConserved(actions);
    forall e: Event ensures Count(sent, e) <= Count(committed, e) { assert BalancedFor(s, e); }
    forall w | w in s.woken ensures w.event in committed {
      var i :| 0 <= i < |s.woken| && s.woken[i] == w;
      OccursCounts(sent, i);
      CountsOccurs(committed, w.event);
    }
    forall i, j | 0 <= i < j < |s.woken| ensures EventId(s.woken[i].event) != EventId(s.woken[j].event) {
      NotTwice(committed, sent, i, j);
    }
  }

  lemma NotTwice(committed: seq<Event>, sent: seq<Event>, i: nat, j: nat)
    requires OutboxEvents.Distinct(committed) && (forall e: Event :: Count(sent, e) <= Count(committed, e)) && i < j < |sent|
    ensures EventId(sent[i]) != EventId(sent[j])
  {
    var e, f := sent[i], sent[j];
    OccursCounts(sent, i);
    OccursCounts(sent, j);
    CountsOccurs(committed, e);
    CountsOccurs(committed, f);
    EventIdIdentifies(e, f);
    if SameChange(e, f) {
      var a :| 0 <= a < |committed| && committed[a] == e;
      var b :| 0 <= b < |committed| && committed[b] == f;
      assert a == b;
      TwiceCounts(sent, i, j);
      forall x, y | 0 <= x < y < |committed| ensures committed[x] != committed[y] {
        assert !SameChange(committed[x], committed[y]);
      }
      OnceCounts(committed, e);
    }
  }

  // ---------- across commits ----------

  ghost predicate InCommitOrder(woken: seq<Sent>) {
    forall i, j | 0 <= i < j < |woken| :: woken[i].commit <= woken[j].commit
  }

  /** A wake-up of a later commit has been sent. */
  predicate LaterSent(s: State, commit: nat) {
    exists i | 0 <= i < |s.woken| :: s.woken[i].commit > commit
  }

  /** The owner of a commit sends a wake-up after one of a later commit. */
  predicate Overtaken(s: State, a: Action) {
    a.Wake? && Owes(s, a.commit) && LaterSent(s, a.commit)
  }

  /** No owner is that late. */
  predicate NoOvertaking(actions: seq<Action>) {
    actions == [] || (NoOvertaking(actions[..|actions| - 1]) && !Overtaken(Run(actions[..|actions| - 1]), actions[|actions| - 1]))
  }

  lemma WokenGrows(s: State, a: Action)
    ensures Next(s, a).woken
      == s.woken + if a.Wake? && Owes(s, a.commit) then [Sent(a.commit, s.effects[a.commit].owed[0])] else []
  {
  }

  lemma OrderStep(s: State, a: Action)
    ensures InCommitOrder(Next(s, a).woken) <==> InCommitOrder(s.woken) && !Overtaken(s, a)
  {
    WokenGrows(s, a);
    if a.Wake? && Owes(s, a.commit) { OrderOfOneMore(s.woken, Sent(a.commit, s.effects[a.commit].owed[0])); }
  }

  lemma OrderOfOneMore(woken: seq<Sent>, w: Sent)
    ensures InCommitOrder(woken + [w])
      <==> InCommitOrder(woken) && !exists i | 0 <= i < |woken| :: woken[i].commit > w.commit
  {
    var all := woken + [w];
    if InCommitOrder(all) {
      forall i | 0 <= i < |woken| ensures woken[i].commit <= w.commit { assert all[i].commit <= all[|woken|].commit; }
      forall i, j | 0 <= i < j < |woken| ensures woken[i].commit <= woken[j].commit { assert all[i].commit <= all[j].commit; }
    }
  }

  /** Workers are woken in commit order exactly in the runs in which no owner sends a wake-up after one of a later
    commit. */
  lemma {:induction false} InCommitOrderIff(actions: seq<Action>)
    ensures InCommitOrder(Run(actions).woken) <==> NoOvertaking(actions)
  {
    if actions != [] {
      InCommitOrderIff(actions[..|actions| - 1]);
      OrderStep(Run(actions[..|actions| - 1]), actions[|actions| - 1]);
    }
  }

  lemma RunOne(actions: seq<Action>, a: Action)
    ensures Run(actions + [a]) == Next(Run(actions), a)
  {
    assert (actions + [a])[..|actions + [a]| - 1] == actions;
  }

  /** Nothing keeps two owners apart: whenever two commits owe a wake-up, the later one's can be sent first. */
  lemma LaterFirst(actions: seq<Action>, m: nat, n: nat)
    requires m < n && Owes(Run(actions), m) && Owes(Run(actions), n)
    ensures !InCommitOrder(Run(actions + [Wake(n)] + [Wake(m)]).woken)
  {
    var s := Run(actions);
    RunOne(actions, Wake(n));
    RunOne(actions + [Wake(n)], Wake(m));
    assert Next(s, Wake(n)).woken[|s.woken|].commit == n;
    assert Overtaken(Next(s, Wake(n)), Wake(m));
    OrderStep(Next(s, Wake(n)), Wake(m));
  }

  /** A write in its own transaction. */
  function OwnWrite(request: RequestId, op: Op): seq<Action> {
    [Begin(request), Write(request, op), CommitOwn(request, true)]
  }

  lemma OwnWriteOwes(actions: seq<Action>, request: RequestId, op: Op)
    requires Run(actions).open == map[] && OutcomeOf(Run(actions).db.tasks, op).Written?
    ensures var s, s' := Run(actions), Run(actions + OwnWrite(request, op));
      && s'.open == map[] && |s'.effects| == |s.effects| + 1 && s'.effects[..|s.effects|] == s.effects
      && Owes(s', |s.effects|) && s'.db.tasks == Apply(s.db.tasks, op)
  {
    var w := OwnWrite(request, op);
    var s := Run(actions);
    var s1 := Next(s, w[0]);
    var s2 := Next(s1, w[1]);
    RunOne(actions, w[0]);
    RunOne(actions + [w[0]], w[1]);
    RunOne(actions + [w[0]] + [w[1]], w[2]);
    assert actions + w == actions + [w[0]] + [w[1]] + [w[2]];
    assert Overlay(s1.db.tasks, s1.open[request].writes) == s.db.tasks;
    StagedView(s1.db, s1.open[request], op);
    assert !TaskLocked(s1, request, op.id);
    assert s2.open[request] == Staged(s1.db, s1.open[request], op);
    assert Next(s2, w[2]).open == map[];
  }

  /** Two requests create a task each; the second one wakes the workers first. */
  lemma TwoOutOfOrder(a: Uuid, b: Uuid, name: string)
    requires a != b
    ensures var actions := OwnWrite(0, Create(a, name, Incomplete, 1)) + OwnWrite(1, Create(b, name, Incomplete, 2));
      !InCommitOrder(Run(actions + [Wake(1)] + [Wake(0)]).woken)
  {
    var first, second := OwnWrite(0, Create(a, name, Incomplete, 1)), OwnWrite(1, Create(b, name, Incomplete, 2));
    assert Run([]) == EMPTY;
    assert [] + first == first;
    OwnWriteOwes([], 0, Create(a, name, Incomplete, 1));
    OwnWriteOwes(first, 1, Create(b, name, Incomplete, 2));
    assert Run(first + second).effects[0] == Run(first).effects[0];
    LaterFirst(first + second, 0, 1);
  }
}
