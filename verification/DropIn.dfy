/** The SQL store as a drop-in replacement for the in-memory one: a simulation. */
module DropIn {
  import opened Dicts
  import opened TaskRules
  import opened Scheduling
  import opened StoreRuns
  import opened WorkflowCore
  import opened CoreRuns

  /** A task without dependencies that is pending in memory may already be ready in the store. */
  predicate Drifted(m: Task, s: Task) {
    m.status == Pending && m.dependsOn == [] && s == m.(status := Ready)
  }

  ghost predicate Related(mem: Db, st: Db) {
    && mem.order == st.order && mem.tab.Keys == st.tab.Keys
    && forall id :: id in mem.tab ==> st.tab[id] == mem.tab[id] || Drifted(mem.tab[id], st.tab[id])
  }

  function DriftSet(mem: Db, st: Db): set<Id> {
    set id | id in mem.tab && id in st.tab && Drifted(mem.tab[id], st.tab[id])
  }

  /** Ids are fresh, a task that is ready in memory is not given dependencies, and no scheduling
      call without a scan places a drifted task. */
  predicate DropInOp(mem: Db, st: Db, op: StoreOp) {
    match op
    case Create(id, _, _, _, _) => id !in mem.tab
    case Link(id, deps) => deps != [] ==> !HasStatus(mem, id, Ready)
    case Schedule(online) => DriftSet(mem, st) * PlaceableSet(st, online) == {}
    case _ => true
  }

  predicate DropInOps(ops: seq<StoreOp>) {
    ops == [] ||
    var front := ops[..|ops| - 1];
    DropInOps(front) && DropInOp(MemRun(front), SqlRun(front), ops[|ops| - 1])
  }

  lemma RelatedSeeSame(mem: Db, st: Db, t: Task)
    requires Related(mem, st)
    ensures DepsMet(mem, t) <==> DepsMet(st, t)
    ensures DepFailed(mem, t) <==> DepFailed(st, t)
  {
    assert forall id :: IsDone(mem, id) <==> IsDone(st, id);
    assert forall id :: HasStatus(mem, id, Failed) <==> HasStatus(st, id, Failed);
    if DepFailed(mem, t) {
      var dep :| dep in t.dependsOn && dep in mem.tab && mem.tab[dep].status == Failed;
      assert HasStatus(st, dep, Failed);
    }
    if DepFailed(st, t) {
      var dep :| dep in t.dependsOn && dep in st.tab && st.tab[dep].status == Failed;
      assert HasStatus(mem, dep, Failed);
    }
  }

  /** A full scan removes every difference; it promotes the drifted tasks only in memory. */
  lemma TriggerMakesEqual(mem: Db, st: Db)
    requires Related(mem, st)
    ensures Triggered(mem) == Triggered(st)
    ensures EligibleSet(mem) == EligibleSet(st) + DriftSet(mem, st) && EligibleSet(st) !! DriftSet(mem, st)
  {
    forall id | id in mem.tab
      ensures Triggered(mem).tab[id] == Triggered(st).tab[id]
      ensures Eligible(mem, id) <==> Eligible(st, id) || Drifted(mem.tab[id], st.tab[id])
    {
      RelatedSeeSame(mem, st, mem.tab[id]);
    }
    assert Triggered(mem).tab == Triggered(st).tab;
  }

  /** Dependency resolution never looks at a drifted task: it decides the same in both stores. */
  lemma ResolutionAgrees(mem: Db, st: Db, id: Id)
    requires Related(mem, st)
    ensures Promotable(mem, id) == Promotable(st, id)
    ensures Blockable(mem, CascadeCauses(mem, id, 0)) == Blockable(st, CascadeCauses(st, id, 0))
    ensures PropagatedIds(mem, id, 0) == PropagatedIds(st, id, 0)
    ensures PendingDependents(mem, id) == PendingDependents(st, id)
    ensures DependentsOf(mem, id) == DependentsOf(st, id)
  {
    forall x | x in mem.tab
      ensures x in Promotable(mem, id) <==> x in Promotable(st, id)
      ensures forall causes :: x in Blockable(mem, causes) <==> x in Blockable(st, causes)
    {
      RelatedSeeSame(mem, st, mem.tab[x]);
    }
    assert Promotable(mem, id) == Promotable(st, id);
    assert (set x | x in mem.tab && id in mem.tab[x].dependsOn) == (set x | x in st.tab && id in st.tab[x].dependsOn);
  }

  /** Marking the same tasks, none of them drifted, keeps the stores related. */
  lemma MarkStaysRelated(mem: Db, st: Db, ready: set<Id>, blocked: set<Id>)
    requires Related(mem, st)
    requires forall x :: x in ready || x in blocked ==> x in mem.tab && mem.tab[x].dependsOn != []
    ensures Related(Mark(mem, ready, blocked), Mark(st, ready, blocked))
  {
  }

  lemma BlockableHaveDependencies(d: Db, causes: set<Id>)
    ensures forall x :: x in Blockable(d, causes) ==> x in d.tab && d.tab[x].dependsOn != []
  {
  }

  lemma PropagationStaysRelated(mem: Db, st: Db, id: Id)
    requires Related(mem, st)
    ensures Related(Propagated(mem, id, 0), Propagated(st, id, 0))
  {
    ResolutionAgrees(mem, st, id);
    BlockableHaveDependencies(mem, CascadeCauses(mem, id, 0));
    MarkStaysRelated(mem, st, Promotable(mem, id), Blockable(mem, CascadeCauses(mem, id, 0)));
  }

  lemma FailureStaysRelated(mem: Db, st: Db, id: Id)
    requires Related(mem, st)
    ensures Related(FailureSpread(mem, id), FailureSpread(st, id))
  {
    ResolutionAgrees(mem, st, id);
  }

  lemma RelatedStep(mem: Db, st: Db, op: StoreOp)
    requires Related(mem, st) && DropInOp(mem, st, op)
    ensures Related(MemStep(mem, op), SqlStep(st, op))
  {
    match op
    case Trigger => TriggerMakesEqual(mem, st);
    case Schedule(online) => SchedulingStaysRelated(mem, st, online);
    case TriggerThenSchedule(online) => TriggerMakesEqual(mem, st);
    case DependencyComplete(id) => PropagationStaysRelated(mem, st, id);
    case DependencyFailed(id) => FailureStaysRelated(mem, st, id);
    case Link(id, deps) => LinkingStaysRelated(mem, st, id, deps);
    case _ =>
  }

  /** Over every run the two stores stay related, and each full scan makes them equal. */
  lemma {:induction false} DropInReplacement(ops: seq<StoreOp>)
    requires DropInOps(ops)
    ensures Related(MemRun(ops), SqlRun(ops))
    ensures ops != [] && (ops[|ops| - 1].Trigger? || ops[|ops| - 1].TriggerThenSchedule?) ==>
      MemRun(ops) == SqlRun(ops)
  {
    if ops == [] {
    } else {
      var front := ops[..|ops| - 1];
      DropInReplacement(front);
      RelatedStep(MemRun(front), SqlRun(front), ops[|ops| - 1]);
      TriggerMakesEqual(MemRun(front), SqlRun(front));
    }
  }

  /** Creating a task under an id in use overwrites it in memory and is ignored by the SQL store:
      the stores stay related exactly when the row is that very task, not yet started. */
  lemma CreatingStaysRelated(mem: Db, st: Db, id: Id, title: string, needs: seq<string>, priority: int, now: int)
    requires Related(mem, st)
    ensures Related(Created(mem, id, title, needs, priority, now), StoreCreated(st, id, title, needs, priority, now))
       <==> (id in st.tab ==>
              (st.tab[id].status == Pending || st.tab[id].status == Ready)
              && st.tab[id].(status := Pending) == NewTask(title, needs, priority, now))
  {
    var a, b := Created(mem, id, title, needs, priority, now), StoreCreated(st, id, title, needs, priority, now);
    assert Related(a, b) ==> b.tab[id] == a.tab[id] || Drifted(a.tab[id], b.tab[id]);
  }

  /** Giving dependencies to a task that is ready in memory is exactly what breaks the relation. */
  lemma LinkingStaysRelated(mem: Db, st: Db, id: Id, deps: seq<Id>)
    requires Related(mem, st)
    ensures Related(Linked(mem, id, deps), StoreLinked(st, id, deps)) <==> !(deps != [] && HasStatus(mem, id, Ready))
  {
    var a, b := Linked(mem, id, deps), StoreLinked(st, id, deps);
    if deps != [] && HasStatus(mem, id, Ready) {
      assert a.tab[id].status == Ready && b.tab[id].status == Pending;
    }
  }

  /** Scheduling without a scan keeps the relation exactly when no drifted task can be placed. */
  lemma SchedulingStaysRelated(mem: Db, st: Db, online: seq<Node>)
    requires Related(mem, st)
    ensures Related(Scheduled(mem, online), Scheduled(st, online))
       <==> DriftSet(mem, st) * PlaceableSet(st, online) == {}
  {
    var a, b := Scheduled(mem, online), Scheduled(st, online);
    if id :| id in DriftSet(mem, st) * PlaceableSet(st, online) {
      assert b.tab[id] != a.tab[id] && !Drifted(a.tab[id], b.tab[id]);
    } else {
      forall id | id in a.tab ensures b.tab[id] == a.tab[id] || Drifted(a.tab[id], b.tab[id]) {
        assert id !in DriftSet(mem, st) * PlaceableSet(st, online);
      }
    }
  }

  // ----- the entry points over the two stores -----

  /** The table of the SQL store after each entry point, as the methods of `PersistentCore`,
      `Persistent` and `Handlers` compute it: only submission works differently. */
  function SqlCoreStep(d: Db, op: CoreOp): Db {
    match op
    case Submit(id, title, needs, priority, now) => Triggered(StoreCreated(d, id, title, needs, priority, now))
    case _ => CoreStep(d, op)
  }

  function SqlCoreRun(d: Db, ops: seq<CoreOp>): Db {
    if ops == [] then d else SqlCoreStep(SqlCoreRun(d, ops[..|ops| - 1]), ops[|ops| - 1])
  }

  /** Submitted ids are fresh; recovery, which loses its assignees over the SQL store, is left out. */
  predicate EntryRun(d: Db, ops: seq<CoreOp>) {
    ops == [] ||
    var front, op := ops[..|ops| - 1], ops[|ops| - 1];
    EntryRun(d, front) && !op.Recover? && (op.Submit? ==> op.id !in CoreRun(d, front).tab)
  }

  lemma SubmitMakesEqual(d: Db, id: Id, title: string, needs: seq<string>, priority: int, now: int)
    requires id !in d.tab
    ensures Triggered(StoreCreated(d, id, title, needs, priority, now)) == Submitted(d, id, title, needs, priority, now)
  {
    var mem, st := Created(d, id, title, needs, priority, now), StoreCreated(d, id, title, needs, priority, now);
    assert Related(mem, st);
    TriggerMakesEqual(mem, st);
  }

  /** Behind the entry points the stores cannot be told apart: over every run of submissions with
      fresh ids, scans, schedulings, completions by either path and failures the tables are equal.
      So whatever holds of those runs in memory holds of them over the SQL store. */
  lemma {:induction false} EntryPointsAgree(d: Db, ops: seq<CoreOp>)
    requires EntryRun(d, ops)
    ensures SqlCoreRun(d, ops) == CoreRun(d, ops)
  {
    if ops == [] {
    } else {
      var front, op := ops[..|ops| - 1], ops[|ops| - 1];
      EntryPointsAgree(d, front);
      if op.Submit? {
        SubmitMakesEqual(CoreRun(d, front), op.id, op.title, op.needs, op.priority, op.now);
      }
    }
  }
}
