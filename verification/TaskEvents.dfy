/** The event a task write produces, and its identity. */
module TaskEvents {
  import opened Uuids
  import opened Tasks
  import Decimal

  datatype Kind = TaskCreated | TaskUpdated | TaskDeleted

  datatype Event = Event(kind: Kind, task: Uuid, version: int, name: string, status: Status, occurredAt: int)

  function KindName(k: Kind): string {
    match k
    case TaskCreated => "task.created"
    case TaskUpdated => "task.updated"
    case TaskDeleted => "task.deleted"
  }

  function KindOf(op: Op): Kind {
    match op
    case Create(_, _, _, _) => TaskCreated
    case Update(_, _, _, _, _) => TaskUpdated
    case Delete(_) => TaskDeleted
  }

  /** The event of an accepted write, carrying the task as it was written. */
  function EventFor(op: Op, t: Task): Event {
    Event(KindOf(op), t.id, t.version, t.name, t.status, t.updatedAt)
  }

  /** What the event of an accepted write tells: the task after a create or an update, and as it was before a
    deletion. */
  ghost predicate Describes(e: Event, op: Op, tasks: TaskMap) {
    match op
    case Create(id, name, status, at) => e == Event(TaskCreated, id, 1, name, status, at)
    case Update(id, name, status, at, _) =>
      id in tasks && e == Event(TaskUpdated, id, tasks[id].version + 1, name, status, at)
    case Delete(id) =>
      id in tasks && var t := tasks[id]; e == Event(TaskDeleted, t.id, t.version, t.name, t.status, t.updatedAt)
  }

  lemma EventDescribes(tasks: TaskMap, op: Op)
    requires OutcomeOf(tasks, op).Written?
    ensures Describes(EventFor(op, OutcomeOf(tasks, op).task), op, tasks)
  {
  }

  /** What happened, to which task, at which version: the outbox's unique key and the receiver's event id. */
  function EventId(e: Event): string {
    KindName(e.kind) + ":" + Text(e.task) + ":" + Decimal.Itoa(e.version)
  }

  /** The identity of each kind of event, spelled out. */
  lemma EventIdSpelled(id: Uuid, version: int, name: string, status: Status, at: int)
    ensures EventId(Event(TaskCreated, id, version, name, status, at)) == "task.created:" + Text(id) + ":" + Decimal.Itoa(version)
    ensures EventId(Event(TaskUpdated, id, version, name, status, at)) == "task.updated:" + Text(id) + ":" + Decimal.Itoa(version)
    ensures EventId(Event(TaskDeleted, id, version, name, status, at)) == "task.deleted:" + Text(id) + ":" + Decimal.Itoa(version)
  {
    assert "task.created" + ":" == "task.created:";
    assert "task.updated" + ":" == "task.updated:";
    assert "task.deleted" + ":" == "task.deleted:";
  }

  predicate SameChange(e: Event, f: Event) {
    e.kind == f.kind && e.task == f.task && e.version == f.version
  }

  /** The identity string identifies the change: two events share it exactly when they agree on all three. */
  lemma EventIdIdentifies(e: Event, f: Event)
    ensures EventId(e) == EventId(f) <==> SameChange(e, f)
  {
    if EventId(e) == EventId(f) {
      EventIdParts(e);
      EventIdParts(f);
      TextOrder(e.task, f.task);
      Decimal.ItoaInjective(e.version, f.version);
    }
  }

  /** The parts sit at fixed places. */
  lemma EventIdParts(e: Event)
    ensures |EventId(e)| >= 50
    ensures EventId(e)[..12] == KindName(e.kind)
    ensures EventId(e)[13..49] == Text(e.task)
    ensures EventId(e)[50..] == Decimal.Itoa(e.version)
    ensures EventId(e) != ""
  {
    TextLength(e.task);
    assert |KindName(e.kind)| == 12;
  }

  /** The version alone would not do: a deletion carries the version of the update before it. */
  lemma DeletionNeedsItsName(tasks: TaskMap, update: Op, delete: Op)
    requires update.Update? && delete.Delete? && update.id == delete.id && OutcomeOf(tasks, update).Written?
    ensures OutcomeOf(Apply(tasks, update), delete).Written?
    ensures var e, f := EventFor(update, OutcomeOf(tasks, update).task),
                        EventFor(delete, OutcomeOf(Apply(tasks, update), delete).task);
      e.task == f.task && e.version == f.version && EventId(e) != EventId(f)
  {
    EventIdIdentifies(EventFor(update, OutcomeOf(tasks, update).task),
                      EventFor(delete, OutcomeOf(Apply(tasks, update), delete).task));
  }
}
