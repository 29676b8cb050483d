/** When ready and running tasks have their dependencies completed, over runs of either store. */
module SafeStarts {
  import opened Dicts
  import opened TaskRules
  import opened Scheduling
  import opened RecoveryRules
  import opened StoreRuns

  /** A ready or running task has all its dependencies present and completed. */
  ghost predicate StartedSafely(d: Db) {
    forall id :: (HasStatus(d, id, Ready) || HasStatus(d, id, Running)) ==> DepsMet(d, d.tab[id])
  }

  /** Ids are fresh, running tasks are only given dependencies that are met, completed tasks stay
      completed, and no status write starts a task. */
  predicate SafeOp(d: Db, op: StoreOp) {
    match op
    case Create(id, _, _, _, _) => id !in d.tab
    case Link(id, deps) => HasStatus(d, id, Running) ==> AllDone(d, deps)
    case SetTo(id, status, _) =>
      status != Ready && status != Running && (HasStatus(d, id, Completed) ==> status == Completed)
    case _ => true
  }

  predicate SafeOps(ops: seq<StoreOp>) {
    ops == [] || (SafeOps(ops[..|ops| - 1]) && SafeOp(SqlRun(ops[..|ops| - 1]), ops[|ops| - 1]))
  }

  predicate AllDone(d: Db, deps: seq<Id>) {
    forall dep :: dep in deps ==> IsDone(d, dep)
  }

  /** When nothing completed is lost, a started task stays safe if it was safe before with the same
      dependencies. */
  lemma SafeByComparison(d: Db, e: Db)
    requires forall id :: IsDone(d, id) ==> IsDone(e, id)
    requires forall id :: HasStatus(e, id, Ready) || HasStatus(e, id, Running) ==> DepsMet(d, e.tab[id])
    ensures StartedSafely(e)
  {
  }

  lemma LinkingIsSafe(d: Db, e: Db, id: Id, deps: seq<Id>)
    requires StartedSafely(d) && id in d.tab && e.tab.Keys == d.tab.Keys && e.tab[id].dependsOn == deps
    requires forall x :: x in d.tab && x != id ==> e.tab[x] == d.tab[x]
    requires IsDone(e, id) <==> IsDone(d, id)
    ensures StartedSafely(e) <==> (HasStatus(e, id, Ready) || HasStatus(e, id, Running) ==> AllDone(d, deps))
  {
    assert forall x :: IsDone(e, x) <==> IsDone(d, x);
    assert forall x :: x in d.tab && x != id ==> (DepsMet(e, e.tab[x]) <==> DepsMet(d, d.tab[x]));
    assert DepsMet(e, e.tab[id]) <==> AllDone(d, deps);
  }

  /** The SQL store demotes a ready task: an edit of dependencies keeps the property exactly when the
      task is not running or its new dependencies are met. */
  lemma StoreLinkingIsSafe(d: Db, id: Id, deps: seq<Id>)
    requires StartedSafely(d) && id in d.tab
    ensures StartedSafely(StoreLinked(d, id, deps)) <==> (HasStatus(d, id, Running) ==> AllDone(d, deps))
  {
    LinkingIsSafe(d, StoreLinked(d, id, deps), id, deps);
  }

  /** The in-memory store does not: there it must not be ready either. */
  lemma MemoryLinkingIsSafe(d: Db, id: Id, deps: seq<Id>)
    requires StartedSafely(d) && id in d.tab
    ensures StartedSafely(Linked(d, id, deps)) <==>
      (HasStatus(d, id, Ready) || HasStatus(d, id, Running) ==> AllDone(d, deps))
  {
    LinkingIsSafe(d, Linked(d, id, deps), id, deps);
  }

  lemma SafeStep(d: Db, op: StoreOp)
    requires StartedSafely(d) && SafeOp(d, op)
    ensures StartedSafely(SqlStep(d, op))
  {
    match op
    case TriggerThenSchedule(online) =>
      SafeByComparison(d, Triggered(d));
      SafeByComparison(Triggered(d), Scheduled(Triggered(d), online));
    case Link(id, deps) =>
      if id in d.tab {
        StoreLinkingIsSafe(d, id, deps);
      }
    case _ => SafeByComparison(d, SqlStep(d, op));
  }

  /** In every such state of the SQL store, ready and running tasks have their dependencies
      completed. */
  lemma {:induction false} StoreStartsSafely(ops: seq<StoreOp>)
    requires SafeOps(ops)
    ensures StartedSafely(SqlRun(ops))
  {
    if ops == [] {
    } else {
      StoreStartsSafely(ops[..|ops| - 1]);
      SafeStep(SqlRun(ops[..|ops| - 1]), ops[|ops| - 1]);
    }
  }

  // ----- the in-memory store, with recovery -----

  datatype MemOp =
    | Do(op: StoreOp)
    | Recover(orphaned: seq<Id>, online: seq<Node>)

  function MemOpStep(d: Db, op: MemOp): Db {
    match op
    case Do(o) => MemStep(d, o)
    case Recover(orphaned, online) => Rescheduled(d, orphaned, online)
  }

  function MemOpRun(ops: seq<MemOp>): Db {
    if ops == [] then Dict([], map[]) else MemOpStep(MemOpRun(ops[..|ops| - 1]), ops[|ops| - 1])
  }

  /** Ready or running once the orphans have been rescheduled. */
  predicate StartedAfter(d: Db, orphaned: seq<Id>, online: seq<Node>, id: Id) {
    if id in orphaned then CanMove(d, id, online) else HasStatus(d, id, Ready) || HasStatus(d, id, Running)
  }

  /** No task started afterwards depends on an unfinished task or on an orphan. */
  ghost predicate RecoveryIsSafe(d: Db, orphaned: seq<Id>, online: seq<Node>) {
    forall id, dep :: StartedAfter(d, orphaned, online, id) && dep in d.tab[id].dependsOn ==>
      IsDone(d, dep) && dep !in orphaned
  }

  lemma RecoveredTask(d: Db, orphaned: seq<Id>, online: seq<Node>, id: Id)
    ensures var e := Rescheduled(d, orphaned, online);
      && (IsDone(e, id) <==> IsDone(d, id) && id !in orphaned)
      && (HasStatus(e, id, Ready) || HasStatus(e, id, Running) <==> StartedAfter(d, orphaned, online, id))
      && (id in e.tab <==> id in d.tab) && (id in d.tab ==> e.tab[id].dependsOn == d.tab[id].dependsOn)
  {
    RescheduledPointwise(d, orphaned, online);
    assert multiset(orphaned)[id] > 0 <==> id in orphaned;
  }

  /** A recovery may put completed tasks back to running or fail them: it leaves the started tasks
      safe exactly under that condition. */
  lemma RecoveryKeepsSafe(d: Db, orphaned: seq<Id>, online: seq<Node>)
    ensures StartedSafely(Rescheduled(d, orphaned, online)) <==> RecoveryIsSafe(d, orphaned, online)
  {
    var e := Rescheduled(d, orphaned, online);
    forall id
      ensures IsDone(e, id) <==> IsDone(d, id) && id !in orphaned
      ensures HasStatus(e, id, Ready) || HasStatus(e, id, Running) <==> StartedAfter(d, orphaned, online, id)
      ensures (id in e.tab <==> id in d.tab) && (id in d.tab ==> e.tab[id].dependsOn == d.tab[id].dependsOn)
    {
      RecoveredTask(d, orphaned, online, id);
    }
  }

  /** It holds in particular when the orphans are running, as tasks under a lease are. */
  lemma RunningOrphansAreSafe(d: Db, orphaned: seq<Id>, online: seq<Node>)
    requires StartedSafely(d) && forall id :: id in orphaned && id in d.tab ==> d.tab[id].status == Running
    ensures RecoveryIsSafe(d, orphaned, online)
  {
    assert forall id :: StartedAfter(d, orphaned, online, id) ==> HasStatus(d, id, Ready) || HasStatus(d, id, Running);
  }

  /** The same environment, with the exact conditions for what memory does differently. */
  ghost predicate SafeMemOp(d: Db, op: MemOp) {
    match op
    case Recover(orphaned, online) => RecoveryIsSafe(d, orphaned, online)
    case Do(o) =>
      match o
      case Link(id, deps) => HasStatus(d, id, Ready) || HasStatus(d, id, Running) ==> AllDone(d, deps)
      case _ => SafeOp(d, o)
  }

  ghost predicate SafeMemOps(ops: seq<MemOp>) {
    ops == [] || (SafeMemOps(ops[..|ops| - 1]) && SafeMemOp(MemOpRun(ops[..|ops| - 1]), ops[|ops| - 1]))
  }

  lemma SafeMemStep(d: Db, op: MemOp)
    requires StartedSafely(d) && SafeMemOp(d, op)
    ensures StartedSafely(MemOpStep(d, op))
  {
    match op
    case Recover(orphaned, online) => RecoveryKeepsSafe(d, orphaned, online);
    case Do(o) =>
      match o
      case Create(_, _, _, _, _) => SafeByComparison(d, MemStep(d, o));
      case Link(id, deps) =>
        if id in d.tab {
          MemoryLinkingIsSafe(d, id, deps);
        }
      case _ => SafeStep(d, o);
  }

  /** Over every such run of the in-memory store, ready and running tasks have their dependencies
      completed. */
  lemma {:induction false} MemoryStartsSafely(ops: seq<MemOp>)
    requires SafeMemOps(ops)
    ensures StartedSafely(MemOpRun(ops))
  {
    if ops == [] {
    } else {
      MemoryStartsSafely(ops[..|ops| - 1]);
      SafeMemStep(MemOpRun(ops[..|ops| - 1]), ops[|ops| - 1]);
    }
  }
}
