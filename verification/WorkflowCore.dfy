/** Dependency resolution and the orchestration entry points, over the in-memory store. */
module WorkflowCore {
  import opened Dicts
  import opened TaskRules
  import opened Scheduling
  import opened Propagation
  import opened TaskEffects
  import opened DecisionEffects
  import opened CoreEffects
  import opened InMemory

  class WorkflowResolver {
    const store: ClusterState

    constructor (store: ClusterState)
      ensures this.store == store
    {
      this.store := store;
    }

    method ResolveDependencies(id: Id) returns (promoted: bool)
      requires store.Valid()
      modifies store`tasks
      ensures store.Valid() && store.tasks == Resolved(old(store.tasks), id)
      ensures promoted <==> Eligible(old(store.tasks), id)
      ensures ResolveEffect(old(store.tasks), store.tasks, id, promoted)
    {
      ResolvedMeans(store.tasks, id);
      if id !in store.tasks.tab || store.tasks.tab[id].status != Pending {
        return false;
      }
      var t := store.tasks.tab[id];
      if t.dependsOn == [] {
        var _ := store.SetTaskStatus(id, Ready, "");
        return true;
      }
      var allDone, anyFailed := true, false;
      for i := 0 to |t.dependsOn|
        invariant !anyFailed
        invariant allDone <==> forall j :: 0 <= j < i ==> IsDone(store.tasks, t.dependsOn[j])
        invariant forall j :: 0 <= j < i ==> !HasStatus(store.tasks, t.dependsOn[j], Failed)
      {
        var dep := t.dependsOn[i];
        if dep !in store.tasks.tab {
          allDone := false;
          continue;
        }
        if store.tasks.tab[dep].status == Failed {
          anyFailed := true;
          break;
        }
        if store.tasks.tab[dep].status != Completed {
          allDone := false;
        }
      }
      assert anyFailed <==> DepFailed(store.tasks, t);
      if anyFailed {
        var _ := store.SetTaskStatus(id, Blocked, DEPENDENCY_FAILED);
        return false;
      }
      if allDone {
        var _ := store.SetTaskStatus(id, Ready, "");
        return true;
      }
      return false;
    }

    /** The first loop of a propagation: the pending dependents are resolved in store order. */
    method ResolvePending(done: Id) returns (transitioned: seq<Id>)
      requires store.Valid()
      modifies store`tasks
      ensures store.Valid() && store.tasks == FirstPass(old(store.tasks), done)
      ensures transitioned == Select(old(store.tasks).order, Promotable(old(store.tasks), done))
    {
      transitioned := [];
      ghost var d := store.tasks;
      var allTasks := store.tasks.order;
      UptoEnds(d, FirstPass(d, done));
      for i := 0 to |allTasks|
        invariant store.Valid() && store.tasks == Upto(d, FirstPass(d, done), allTasks[..i])
        invariant transitioned == Select(allTasks[..i], Promotable(d, done))
      {
        FirstPassStep(d, done, i);
        SelectStep(allTasks, i, Promotable(d, done));
        var id := allTasks[i];
        if store.tasks.tab[id].status != Pending {
          continue;
        }
        if done !in store.tasks.tab[id].dependsOn {
          continue;
        }
        var promoted := ResolveDependencies(id);
        if promoted {
          transitioned := transitioned + [id];
        }
      }
    }

    /** The second loop: the blocked dependents are resolved too, which changes nothing. */
    method ResolveBlocked(done: Id) returns (transitioned: seq<Id>)
      requires store.Valid()
      modifies store`tasks
      ensures store.Valid() && store.tasks == old(store.tasks) && transitioned == []
    {
      transitioned := [];
      var allTasks := store.tasks.order;
      for i := 0 to |allTasks|
        invariant store.Valid() && store.tasks == old(store.tasks) && transitioned == []
      {
        var id := allTasks[i];
        assert id in allTasks && id in store.tasks.tab;
        if store.tasks.tab[id].status != Blocked {
          continue;
        }
        if done !in store.tasks.tab[id].dependsOn {
          continue;
        }
        BlockedStaysBlocked(store.tasks, id);
        var promoted := ResolveDependencies(id);
        if promoted {
          transitioned := transitioned + [id];
        }
      }
    }

    /** The recursion that extends the list it is iterating over. */
    method Propagate(done: Id, depth: nat) returns (transitioned: seq<Id>)
      requires store.Valid()
      modifies store`tasks
      ensures store.Valid() && store.tasks == Propagated(old(store.tasks), done, depth)
      ensures transitioned == PropagatedIds(old(store.tasks), done, depth)
      decreases MAX_TRIGGER_CHAIN_DEPTH - depth
    {
      if depth >= MAX_TRIGGER_CHAIN_DEPTH {
        return [];
      }
      ghost var d := store.tasks;
      transitioned := ResolvePending(done);
      var unblocked := ResolveBlocked(done);
      transitioned := transitioned + unblocked;
      CascadeEnds(d, done, depth);
      var i := 0;
      while i < |transitioned|
        invariant i <= |transitioned| && transitioned == Select(d.order, Promotable(d, done))
        invariant store.Valid() && store.tasks == Cascaded(d, done, i, depth)
        decreases |Select(d.order, Promotable(d, done))| - i
      {
        CascadeTurn(d, done, i, depth);
        var inner := Propagate(transitioned[i], depth + 1);
        transitioned := transitioned + inner;
        i := i + 1;
      }
    }

    method OnDependencyComplete(done: Id) returns (promoted: seq<Id>)
      requires store.Valid()
      modifies store`tasks
      ensures store.Valid() && store.tasks == Propagated(old(store.tasks), done, 0)
      ensures promoted == PropagatedIds(old(store.tasks), done, 0)
      ensures PropagateEffect(old(store.tasks), store.tasks, done, promoted, true)
    {
      PropagatedMeans(store.tasks, done, 0);
      promoted := Propagate(done, 0);
    }

    method OnDependencyFailed(failed: Id) returns (blocked: seq<Id>)
      requires store.Valid()
      modifies store`tasks
      ensures store.Valid() && store.tasks == FailureSpread(old(store.tasks), failed)
      ensures blocked == Select(old(store.tasks).order, PendingDependents(old(store.tasks), failed))
      ensures FailureEffect(old(store.tasks), store.tasks, failed, blocked)
    {
      ghost var d, d1 := store.tasks, FailureSpread(store.tasks, failed);
      var allTasks := store.tasks.order;
      UptoEnds(d, d1);
      blocked := [];
      FailureSpreadMeans(d, failed);
      for i := 0 to |allTasks|
        invariant store.Valid() && store.tasks == Upto(d, d1, allTasks[..i])
        invariant blocked == Select(allTasks[..i], PendingDependents(d, failed))
      {
        UptoStep(d, d1, i);
        SelectStep(allTasks, i, PendingDependents(d, failed));
        var id := allTasks[i];
        if store.tasks.tab[id].status != Pending {
          continue;
        }
        if failed in store.tasks.tab[id].dependsOn {
          var _ := store.SetTaskStatus(id, Blocked, DependencyFailedReason(failed));
          blocked := blocked + [id];
        }
      }
    }
  }

  // ----- the table after each entry point -----

  function Submitted(d: Db, id: Id, title: string, needs: seq<string>, priority: int, now: int): Db {
    Triggered(Created(d, id, title, needs, priority, now))
  }

  /** Completion that propagates from the completed task, then schedules. */
  function CompletedByCore(d: Db, id: Id, online: seq<Node>): Db {
    if id in d.tab then Scheduled(Propagated(SetStatus(d, id, Completed, ""), id, 0), online) else d
  }

  /** Completion that rescans every pending task, then schedules. */
  function CompletedByHandler(d: Db, id: Id, online: seq<Node>): Db {
    if id in d.tab then Scheduled(Triggered(SetStatus(d, id, Completed, "")), online) else d
  }

  function FailedByCore(d: Db, id: Id, reason: string): Db {
    if id in d.tab then FailureSpread(SetStatus(d, id, Failed, reason), id) else d
  }

  class ClusterCore {
    const store: ClusterState
    const workflow: WorkflowResolver

    ghost predicate Valid()
      reads this, store
    {
      store.Valid() && workflow.store == store
    }

    constructor (store: ClusterState)
      requires store.Valid()
      ensures Valid() && this.store == store
    {
      this.store := store;
      this.workflow := new WorkflowResolver(store);
    }

    /** The reference returned shows the scan's effect: the new task has no dependencies, so it is
        ready. */
    method SubmitTask(id: Id, title: string, needs: seq<string>, priority: int, now: int) returns (t: Task)
      requires Valid()
      modifies store`tasks
      ensures Valid() && store.tasks == Submitted(old(store.tasks), id, title, needs, priority, now)
      ensures SubmitEffect(old(store.tasks), store.tasks, id, title, needs, priority, now)
      ensures id in store.tasks.tab && t == store.tasks.tab[id]
    {
      ghost var d := store.tasks;
      t := store.CreateTask(id, title, needs, priority, now);
      ghost var d1 := store.tasks;
      var _ := store.TriggerPendingTasks();
      SubmitFollows(d, d1, store.tasks, id, title, needs, priority, now);
      t := store.tasks.tab[id];
    }

    method CompleteTask(id: Id) returns (found: bool)
      requires Valid()
      modifies store`tasks, store`decisions
      ensures Valid() && store.tasks == CompletedByCore(old(store.tasks), id, OnlineNodes(store.nodes))
      ensures CompleteEffect(old(store.tasks), store.nodes, store.tasks, id)
      ensures found <==> id in old(store.tasks).tab
      ensures !found ==> store.decisions == old(store.decisions)
      ensures found ==>
        var d1 := Propagated(SetStatus(old(store.tasks), id, Completed, ""), id, 0);
        store.decisions == RecordAll(old(store.decisions),
          DecisionsFor(d1, ReadyInOrder(d1), OnlineNodes(store.nodes)), MAX_DECISIONS)
    {
      if id !in store.tasks.tab {
        return false;
      }
      ghost var d := store.tasks;
      var _ := store.SetTaskStatus(id, Completed, "");
      ghost var d1 := store.tasks;
      var promoted := workflow.OnDependencyComplete(id);
      ghost var d2 := store.tasks;
      var _ := store.SchedulePending();
      CompleteFollows(d, d1, d2, store.tasks, store.nodes, id, promoted);
      found := true;
    }

    method FailTask(id: Id, reason: string) returns (found: bool)
      requires Valid()
      modifies store`tasks
      ensures Valid() && store.tasks == FailedByCore(old(store.tasks), id, reason)
      ensures FailEffect(old(store.tasks), store.tasks, id, reason)
      ensures found <==> id in old(store.tasks).tab
    {
      if id !in store.tasks.tab {
        return false;
      }
      ghost var d := store.tasks;
      var _ := store.SetTaskStatus(id, Failed, reason);
      ghost var d1 := store.tasks;
      var blocked := workflow.OnDependencyFailed(id);
      FailFollows(d, d1, store.tasks, id, reason, blocked);
      found := true;
    }
  }
}
