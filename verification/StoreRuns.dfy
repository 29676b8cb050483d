/** The operations of the two stores on the task table, and runs of them. */
module StoreRuns {
  import opened Dicts
  import opened TaskRules
  import opened Scheduling

  datatype StoreOp =
    | Create(id: Id, title: string, needs: seq<string>, priority: int, now: int)
    | Link(id: Id, deps: seq<Id>)
    | SetTo(id: Id, status: Status, reason: string)
    | Unblock(id: Id)
    | Trigger
    | Schedule(online: seq<Node>)
    | TriggerThenSchedule(online: seq<Node>)
    | DependencyComplete(id: Id)
    | DependencyFailed(id: Id)

  function MemStep(d: Db, op: StoreOp): Db {
    match op
    case Create(id, title, needs, priority, now) => Created(d, id, title, needs, priority, now)
    case Link(id, deps) => Linked(d, id, deps)
    case SetTo(id, status, reason) => SetStatus(d, id, status, reason)
    case Unblock(id) => Unblocked(d, id)
    case Trigger => Triggered(d)
    case Schedule(online) => Scheduled(d, online)
    case TriggerThenSchedule(online) => Scheduled(Triggered(d), online)
    case DependencyComplete(id) => Propagated(d, id, 0)
    case DependencyFailed(id) => FailureSpread(d, id)
  }

  function SqlStep(d: Db, op: StoreOp): Db {
    match op
    case Create(id, title, needs, priority, now) => StoreCreated(d, id, title, needs, priority, now)
    case Link(id, deps) => StoreLinked(d, id, deps)
    case _ => MemStep(d, op)
  }

  function MemRun(ops: seq<StoreOp>): Db {
    if ops == [] then Dict([], map[]) else MemStep(MemRun(ops[..|ops| - 1]), ops[|ops| - 1])
  }

  function SqlRun(ops: seq<StoreOp>): Db {
    if ops == [] then Dict([], map[]) else SqlStep(SqlRun(ops[..|ops| - 1]), ops[|ops| - 1])
  }

  lemma RunStep(ops: seq<StoreOp>, op: StoreOp)
    ensures MemRun(ops + [op]) == MemStep(MemRun(ops), op)
    ensures SqlRun(ops + [op]) == SqlStep(SqlRun(ops), op)
  {
    assert (ops + [op])[..|ops|] == ops;
  }
}
