/** Tasks, and the writes both backends accept. */
module Tasks {
  import opened Options
  import opened Uuids

  datatype Status = Incomplete | Completed

  datatype Task = Task(id: Uuid, name: string, status: Status, createdAt: int, updatedAt: int, version: int)

  type TaskMap = map<Uuid, Task>

  /** The three writes of the repository. The service assigns a new task its id, and version 1. */
  datatype Op =
    | Create(id: Uuid, name: string, status: Status, at: int)
    | Update(id: Uuid, name: string, status: Status, at: int, expected: int)
    | Delete(id: Uuid)

  /** The task as written, or for a deletion as it was; or the reason nothing was written. */
  datatype Outcome = Written(task: Task) | NotFound | Conflict

  /** Tasks are stored under their own id. */
  ghost predicate Keyed(tasks: TaskMap) {
    forall id | id in tasks :: tasks[id].id == id
  }

  function Lookup(tasks: TaskMap, id: Uuid): Option<Task> {
    if id in tasks then Some(tasks[id]) else None
  }

  function Put(tasks: TaskMap, id: Uuid, t: Option<Task>): TaskMap {
    match t
    case Some(task) => tasks[id := task]
    case None => tasks - {id}
  }

  /** One write, as a function of the one task it is about. */
  function Effect(current: Option<Task>, op: Op): (Option<Task>, Outcome) {
    match op
    case Create(id, name, status, at) =>
      if current.Some? then (current, Conflict)
      else var t := Task(id, name, status, at, at, 1); (Some(t), Written(t))
    case Update(id, name, status, at, expected) =>
      if current.None? then (current, NotFound)
      else if expected != 0 && current.value.version != expected then (current, Conflict)
      else
        var t := Task(id, name, status, current.value.createdAt, at, current.value.version + 1);
        (Some(t), Written(t))
    case Delete(id) =>
      if current.None? then (current, NotFound) else (None, Written(current.value))
  }

  function Apply(tasks: TaskMap, op: Op): TaskMap {
    Put(tasks, op.id, Effect(Lookup(tasks, op.id), op).0)
  }

  function OutcomeOf(tasks: TaskMap, op: Op): Outcome {
    Effect(Lookup(tasks, op.id), op).1
  }

  // ---------- what a write does, field by field ----------

  /** The task as a create makes it. */
  predicate IsCreated(t: Task, id: Uuid, name: string, status: Status, at: int) {
    && t.id == id && t.name == name && t.status == status
    && t.createdAt == at && t.updatedAt == at && t.version == 1
  }

  /** The task as an update leaves it: renamed and restated, one version on, and still as old. */
  predicate IsUpdated(before: Task, t: Task, id: Uuid, name: string, status: Status, at: int) {
    && t.id == id && t.name == name && t.status == status && t.updatedAt == at
    && t.createdAt == before.createdAt && t.version == before.version + 1
  }

  /** An update is refused if the caller read another version; 0 is no version. */
  predicate Outdated(before: Task, expected: int) {
    expected != 0 && expected != before.version
  }

  /** Only the task of that id differs. */
  ghost predicate OthersStay(tasks: TaskMap, tasks': TaskMap, id: Uuid) {
    forall other: Uuid | other != id :: (other in tasks' <==> other in tasks) && (other in tasks ==> tasks'[other] == tasks[other])
  }

  /** A write, its outcome, and the tasks before and after it. */
  ghost predicate WriteDoes(tasks: TaskMap, op: Op, tasks': TaskMap, result: Outcome) {
    match op
    case Create(id, name, status, at) =>
      if id in tasks then result == Conflict && tasks' == tasks
      else
        && result.Written? && IsCreated(result.task, id, name, status, at)
        && id in tasks' && tasks'[id] == result.task && OthersStay(tasks, tasks', id)
    case Update(id, name, status, at, expected) =>
      if id !in tasks then result == NotFound && tasks' == tasks
      else if Outdated(tasks[id], expected) then result == Conflict && tasks' == tasks
      else
        && result.Written? && IsUpdated(tasks[id], result.task, id, name, status, at)
        && id in tasks' && tasks'[id] == result.task && OthersStay(tasks, tasks', id)
    case Delete(id) =>
      if id !in tasks then result == NotFound && tasks' == tasks
      else result == Written(tasks[id]) && id !in tasks' && OthersStay(tasks, tasks', id)
  }

  lemma WriteLaw(tasks: TaskMap, op: Op)
    ensures WriteDoes(tasks, op, Apply(tasks, op), OutcomeOf(tasks, op))
  {
  }

  /** And this decides both the outcome and the tasks. */
  lemma WriteIsDecided(tasks: TaskMap, op: Op, tasks': TaskMap, result: Outcome)
    requires WriteDoes(tasks, op, tasks', result)
    ensures result == OutcomeOf(tasks, op) && tasks' == Apply(tasks, op)
  {
    var u := Apply(tasks, op);
    WriteLaw(tasks, op);
    forall id: Uuid ensures (id in tasks' <==> id in u) && (id in u ==> tasks'[id] == u[id]) {
      if id == op.id {}
    }
  }

  // ---------- sequences of writes ----------

  function ApplyAll(tasks: TaskMap, ops: seq<Op>): TaskMap {
    if ops == [] then tasks else Apply(ApplyAll(tasks, ops[..|ops| - 1]), ops[|ops| - 1])
  }

  /** Every one of them is accepted. */
  predicate AllWritten(tasks: TaskMap, ops: seq<Op>) {
    ops == [] || (AllWritten(tasks, ops[..|ops| - 1])
                  && OutcomeOf(ApplyAll(tasks, ops[..|ops| - 1]), ops[|ops| - 1]).Written?)
  }

  /** The accepted updates of one task. */
  function UpdatesOf(tasks: TaskMap, ops: seq<Op>, id: Uuid): nat {
    if ops == [] then 0
    else
      var init, op := ops[..|ops| - 1], ops[|ops| - 1];
      UpdatesOf(tasks, init, id)
        + if op.Update? && op.id == id && OutcomeOf(ApplyAll(tasks, init), op).Written? then 1 else 0
  }

  /** No task id is created twice: the service draws a fresh one each time. */
  predicate FreshCreates(ops: seq<Op>) {
    forall i, j | 0 <= i < j < |ops| :: ops[i].Create? && ops[j].Create? ==> ops[i].id != ops[j].id
  }

  predicate Creates(ops: seq<Op>, id: Uuid) {
    exists i | 0 <= i < |ops| :: ops[i].Create? && ops[i].id == id
  }

  lemma {:induction false} ExistsMeansCreated(ops: seq<Op>, id: Uuid)
    requires id in ApplyAll(map[], ops)
    ensures Creates(ops, id)
  {
    if ops != [] {
      var init, op := ops[..|ops| - 1], ops[|ops| - 1];
      if id in ApplyAll(map[], init) {
        ExistsMeansCreated(init, id);
        var i :| 0 <= i < |init| && init[i].Create? && init[i].id == id;
        assert ops[i] == init[i];
      } else {
        assert ops[|ops| - 1].Create?;
      }
    }
  }

  lemma {:induction false} UncreatedHasNoUpdates(ops: seq<Op>, id: Uuid)
    requires !Creates(ops, id)
    ensures UpdatesOf(map[], ops, id) == 0
  {
    if ops != [] {
      var init := ops[..|ops| - 1];
      UncreatedHasNoUpdates(init, id);
      if id in ApplyAll(map[], init) { ExistsMeansCreated(init, id); }
    }
  }

  /** A stored task has version 1 plus the number of its accepted updates, and keeps its creation time. */
  lemma {:induction false} VersionCountsUpdates(ops: seq<Op>, id: Uuid)
    requires FreshCreates(ops) && id in ApplyAll(map[], ops)
    ensures ApplyAll(map[], ops)[id].version == 1 + UpdatesOf(map[], ops, id)
    ensures exists i | 0 <= i < |ops| :: ops[i].Create? && ops[i].id == id && ops[i].at == ApplyAll(map[], ops)[id].createdAt
  {
    var init, op := ops[..|ops| - 1], ops[|ops| - 1];
    if id in ApplyAll(map[], init) {
      VersionCountsUpdates(init, id);
      var i :| 0 <= i < |init| && init[i].Create? && init[i].id == id && init[i].at == ApplyAll(map[], init)[id].createdAt;
      assert ops[i] == init[i];
    } else {
      assert op.Create? && op == ops[|ops| - 1];
      UncreatedHasNoUpdates(init, id);
    }
  }

  /** The version of a task never falls below one it had, for as long as its id is not created again. */
  lemma {:induction false} VersionMonotone(ops: seq<Op>, i: nat, id: Uuid)
    requires FreshCreates(ops) && i <= |ops|
    requires id in ApplyAll(map[], ops[..i]) && id in ApplyAll(map[], ops)
    ensures ApplyAll(map[], ops[..i])[id].version <= ApplyAll(map[], ops)[id].version
    decreases |ops|
  {
    if i == |ops| {
      assert ops[..i] == ops;
    } else {
      var init, op := ops[..|ops| - 1], ops[|ops| - 1];
      assert init[..i] == ops[..i];
      if id in ApplyAll(map[], init) {
        VersionMonotone(init, i, id);
      } else {
        ExistsMeansCreated(ops[..i], id);
        assert false;
      }
    }
  }

  /** No lost updates: of any number of updates that expect the same version of a task, at most one is
    accepted, however they are interleaved with other writes. */
  lemma NoLostUpdate(ops: seq<Op>, i: nat, j: nat)
    requires FreshCreates(ops) && i < j < |ops|
    requires ops[i].Update? && ops[j].Update? && ops[i].id == ops[j].id
    requires ops[i].expected == ops[j].expected != 0
    ensures !(OutcomeOf(ApplyAll(map[], ops[..i]), ops[i]).Written? && OutcomeOf(ApplyAll(map[], ops[..j]), ops[j]).Written?)
  {
    if OutcomeOf(ApplyAll(map[], ops[..i]), ops[i]).Written? && OutcomeOf(ApplyAll(map[], ops[..j]), ops[j]).Written? {
      var id, before := ops[i].id, ops[..j];
      assert ops[..i + 1][..i] == ops[..i];
      assert ApplyAll(map[], ops[..i + 1]) == Apply(ApplyAll(map[], ops[..i]), ops[i]);
      assert before[..i + 1] == ops[..i + 1];
      VersionMonotone(before, i + 1, id);
    }
  }

  // ---------- the last write ----------

  /** The i-th write is accepted, and is the last accepted one of its task. */
  ghost predicate LastAccepted(ops: seq<Op>, i: nat, id: Uuid) {
    && i < |ops| && ops[i].id == id && OutcomeOf(ApplyAll(map[], ops[..i]), ops[i]).Written?
    && forall j | i < j < |ops| && ops[j].id == id :: !OutcomeOf(ApplyAll(map[], ops[..j]), ops[j]).Written?
  }

  /** What is stored under an id is what its last accepted write made of it. */
  ghost predicate StoredIs(tasks: TaskMap, op: Op) {
    match op
    case Create(id, name, status, at) =>
      id in tasks && tasks[id].id == id && tasks[id].name == name && tasks[id].status == status && tasks[id].updatedAt == at
    case Update(id, name, status, at, _) =>
      id in tasks && tasks[id].id == id && tasks[id].name == name && tasks[id].status == status && tasks[id].updatedAt == at
    case Delete(id) => id !in tasks
  }

  /** A task that was written is as its last accepted write left it: with that name, status and time, or gone. */
  lemma {:induction false} LastWrite(ops: seq<Op>, i: nat, id: Uuid)
    requires LastAccepted(ops, i, id)
    ensures StoredIs(ApplyAll(map[], ops), ops[i])
  {
    var init, op := ops[..|ops| - 1], ops[|ops| - 1];
    WriteLaw(ApplyAll(map[], init), op);
    if i < |init| {
      assert ops[..i] == init[..i];
      forall j | i < j < |init| && init[j].id == id
        ensures !OutcomeOf(ApplyAll(map[], init[..j]), init[j]).Written?
      {
        assert ops[..j] == init[..j] && ops[j] == init[j];
      }
      LastWrite(init, i, id);
    }
  }

  /** A task is stored exactly if a write of it was accepted and the last accepted one was no deletion. */
  lemma {:induction false} StoredIff(ops: seq<Op>, id: Uuid)
    ensures id in ApplyAll(map[], ops) <==> exists i: nat :: LastAccepted(ops, i, id) && !ops[i].Delete?
  {
    if i: nat :| LastAccepted(ops, i, id) && !ops[i].Delete? { LastWrite(ops, i, id); }
    if id in ApplyAll(map[], ops) {
      var i := LastOf(ops, id);
      LastWrite(ops, i, id);
    }
  }

  lemma {:induction false} LastOf(ops: seq<Op>, id: Uuid) returns (i: nat)
    requires id in ApplyAll(map[], ops)
    ensures LastAccepted(ops, i, id)
  {
    var init, op := ops[..|ops| - 1], ops[|ops| - 1];
    WriteLaw(ApplyAll(map[], init), op);
    if op.id == id && OutcomeOf(ApplyAll(map[], init), op).Written? {
      i := |init|;
    } else {
      i := LastOf(init, id);
      assert ops[..i] == init[..i] && ops[i] == init[i];
      forall j | i < j < |ops| && ops[j].id == id
        ensures !OutcomeOf(ApplyAll(map[], ops[..j]), ops[j]).Written?
      {
        if j < |init| { assert ops[..j] == init[..j] && ops[j] == init[j]; }
      }
    }
  }
}
