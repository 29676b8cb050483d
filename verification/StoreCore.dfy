/** Dependency resolution and the orchestration entry points over the SQL store. Reading all tasks
    gives copies of the rows, so each loop tests the statuses the rows had when it was entered. */
module PersistentCore {
  import opened Dicts
  import opened TaskRules
  import opened Scheduling
  import opened Propagation
  import opened TaskEffects
  import opened DecisionEffects
  import opened CoreEffects
  import opened WorkflowCore
  import opened Persistent

  class StoreResolver {
    const store: ClusterStore

    constructor (store: ClusterStore)
      ensures this.store == store
    {
      this.store := store;
    }

    method ResolveDependencies(id: Id) returns (promoted: bool)
      requires store.Valid()
      modifies store`tasks
      ensures store.Valid() && store.tasks == Resolved(old(store.tasks), id)
      ensures promoted <==> Eligible(old(store.tasks), id)
      ensures ResolveEffect(old(store.tasks), store.tasks, id, promoted)
    {
      ResolvedMeans(store.tasks, id);
      if id !in store.tasks.tab || store.tasks.tab[id].status != Pending {
        return false;
      }
      var t := store.tasks.tab[id];
      if t.dependsOn == [] {
        var _ := store.SetTaskStatus(id, Ready, "");
        return true;
      }
      var allDone, anyFailed := true, false;
      for i := 0 to |t.dependsOn|
        invariant !anyFailed
        invariant allDone <==> forall j :: 0 <= j < i ==> IsDone(store.tasks, t.dependsOn[j])
        invariant forall j :: 0 <= j < i ==> !HasStatus(store.tasks, t.dependsOn[j], Failed)
      {
        var dep := t.dependsOn[i];
        if dep !in store.tasks.tab {
          allDone := false;
          continue;
        }
        if store.tasks.tab[dep].status == Failed {
          anyFailed := true;
          break;
        }
        if store.tasks.tab[dep].status != Completed {
          allDone := false;
        }
      }
      assert anyFailed <==> DepFailed(store.tasks, t);
      if anyFailed {
        var _ := store.SetTaskStatus(id, Blocked, DEPENDENCY_FAILED);
        return false;
      }
      if allDone {
        var _ := store.SetTaskStatus(id, Ready, "");
        return true;
      }
      return false;
    }

    /** The first loop of a propagation, over the copies: a task is resolved in its own turn only, so
        its copy still shows its status. */
    method ResolvePending(done: Id, snapshot: Db) returns (transitioned: seq<Id>)
      requires store.Valid() && snapshot == store.tasks
      modifies store`tasks
      ensures store.Valid() && store.tasks == FirstPass(snapshot, done)
      ensures transitioned == Select(snapshot.order, Promotable(snapshot, done))
    {
      transitioned := [];
      UptoEnds(snapshot, FirstPass(snapshot, done));
      for i := 0 to |snapshot.order|
        invariant store.Valid() && store.tasks == Upto(snapshot, FirstPass(snapshot, done), snapshot.order[..i])
        invariant transitioned == Select(snapshot.order[..i], Promotable(snapshot, done))
      {
        FirstPassStep(snapshot, done, i);
        SelectStep(snapshot.order, i, Promotable(snapshot, done));
        var id := snapshot.order[i];
        if snapshot.tab[id].status != Pending {
          continue;
        }
        if done !in snapshot.tab[id].dependsOn {
          continue;
        }
        var promoted := ResolveDependencies(id);
        if promoted {
          transitioned := transitioned + [id];
        }
      }
    }

    /** The second loop, over the same copies, which are out of date by now: it misses the tasks the
        first loop has just blocked. Resolving a blocked task changes nothing all the same. */
    method ResolveBlocked(done: Id, snapshot: Db) returns (transitioned: seq<Id>)
      requires store.Valid() && snapshot.Valid()
      requires forall id :: HasStatus(snapshot, id, Blocked) ==> !HasStatus(store.tasks, id, Pending)
      modifies store`tasks
      ensures store.Valid() && store.tasks == old(store.tasks) && transitioned == []
    {
      transitioned := [];
      for i := 0 to |snapshot.order|
        invariant store.Valid() && store.tasks == old(store.tasks) && transitioned == []
      {
        var id := snapshot.order[i];
        assert id in snapshot.order && id in snapshot.tab;
        if snapshot.tab[id].status != Blocked {
          continue;
        }
        if done !in snapshot.tab[id].dependsOn {
          continue;
        }
        assert HasStatus(snapshot, id, Blocked);
        BlockedStaysBlocked(store.tasks, id);
        var promoted := ResolveDependencies(id);
        if promoted {
          transitioned := transitioned + [id];
        }
      }
    }

    method Propagate(done: Id, depth: nat) returns (transitioned: seq<Id>)
      requires store.Valid()
      modifies store`tasks
      ensures store.Valid() && store.tasks == Propagated(old(store.tasks), done, depth)
      ensures transitioned == PropagatedIds(old(store.tasks), done, depth)
      decreases MAX_TRIGGER_CHAIN_DEPTH - depth
    {
      if depth >= MAX_TRIGGER_CHAIN_DEPTH {
        return [];
      }
      var d := store.tasks;
      transitioned := ResolvePending(done, d);
      var unblocked := ResolveBlocked(done, d);
      transitioned := transitioned + unblocked;
      CascadeEnds(d, done, depth);
      var i := 0;
      while i < |transitioned|
        invariant i <= |transitioned| && transitioned == Select(d.order, Promotable(d, done))
        invariant store.Valid() && store.tasks == Cascaded(d, done, i, depth)
        decreases |Select(d.order, Promotable(d, done))| - i
      {
        CascadeTurn(d, done, i, depth);
        var inner := Propagate(transitioned[i], depth + 1);
        transitioned := transitioned + inner;
        i := i + 1;
      }
    }

    method OnDependencyComplete(done: Id) returns (promoted: seq<Id>)
      requires store.Valid()
      modifies store`tasks
      ensures store.Valid() && store.tasks == Propagated(old(store.tasks), done, 0)
      ensures promoted == PropagatedIds(old(store.tasks), done, 0)
      ensures PropagateEffect(old(store.tasks), store.tasks, done, promoted, true)
    {
      PropagatedMeans(store.tasks, done, 0);
      promoted := Propagate(done, 0);
    }

    method OnDependencyFailed(failed: Id) returns (blocked: seq<Id>)
      requires store.Valid()
      modifies store`tasks
      ensures store.Valid() && store.tasks == FailureSpread(old(store.tasks), failed)
      ensures blocked == Select(old(store.tasks).order, PendingDependents(old(store.tasks), failed))
      ensures FailureEffect(old(store.tasks), store.tasks, failed, blocked)
    {
      var d := store.tasks;
      ghost var d1 := FailureSpread(d, failed);
      UptoEnds(d, d1);
      blocked := [];
      FailureSpreadMeans(d, failed);
      for i := 0 to |d.order|
        invariant store.Valid() && store.tasks == Upto(d, d1, d.order[..i])
        invariant blocked == Select(d.order[..i], PendingDependents(d, failed))
      {
        UptoStep(d, d1, i);
        SelectStep(d.order, i, PendingDependents(d, failed));
        var id := d.order[i];
        if d.tab[id].status != Pending {
          continue;
        }
        if failed in d.tab[id].dependsOn {
          var _ := store.SetTaskStatus(id, Blocked, DependencyFailedReason(failed));
          blocked := blocked + [id];
        }
      }
    }
  }

  class StoreCore {
    const store: ClusterStore
    const workflow: StoreResolver

    ghost predicate Valid()
      reads this, store
    {
      store.Valid() && workflow.store == store
    }

    constructor (store: ClusterStore)
      requires store.Valid()
      ensures Valid() && this.store == store
    {
      this.store := store;
      this.workflow := new StoreResolver(store);
    }

    /** The task returned is a copy made before the scan; a new one is ready by then. */
    method SubmitTask(id: Id, title: string, needs: seq<string>, priority: int, now: int) returns (t: Task)
      requires Valid()
      modifies store`tasks
      ensures Valid() && store.tasks == Triggered(StoreCreated(old(store.tasks), id, title, needs, priority, now))
      ensures t == StoreCreated(old(store.tasks), id, title, needs, priority, now).tab[id]
      ensures id !in old(store.tasks).tab ==>
        SubmitEffect(old(store.tasks), store.tasks, id, title, needs, priority, now) && t == store.tasks.tab[id]
      ensures id in old(store.tasks).tab ==> ResubmitEffect(old(store.tasks), store.tasks, id)
    {
      ghost var d := store.tasks;
      t := store.CreateTask(id, title, needs, priority, now);
      ghost var d1 := store.tasks;
      var _ := store.TriggerPendingTasks();
      if id in d.tab {
        ResubmitFollows(d, d1, store.tasks, id, title, needs, priority, now);
      } else {
        StoreSubmitFollows(d, d1, store.tasks, id, title, needs, priority, now);
      }
    }

    method CompleteTask(id: Id) returns (found: bool)
      requires Valid()
      modifies store`tasks, store`decisionRows, store`nextDecisionId
      ensures Valid() && store.tasks == CompletedByCore(old(store.tasks), id, OnlineNodes(store.nodes))
      ensures CompleteEffect(old(store.tasks), store.nodes, store.tasks, id)
      ensures found <==> id in old(store.tasks).tab
      ensures !found ==> store.Decisions() == old(store.Decisions())
      ensures found ==>
        var d1 := Propagated(SetStatus(old(store.tasks), id, Completed, ""), id, 0);
        store.Decisions() == RecordAll(old(store.Decisions()),
          DecisionsFor(d1, ReadyInOrder(d1), OnlineNodes(store.nodes)), MAX_DECISIONS)
    {
      if id !in store.tasks.tab {
        return false;
      }
      ghost var d := store.tasks;
      var _ := store.SetTaskStatus(id, Completed, "");
      ghost var d1 := store.tasks;
      var promoted := workflow.OnDependencyComplete(id);
      ghost var d2 := store.tasks;
      var _ := store.SchedulePending();
      CompleteFollows(d, d1, d2, store.tasks, store.nodes, id, promoted);
      found := true;
    }

    method FailTask(id: Id, reason: string) returns (found: bool)
      requires Valid()
      modifies store`tasks
      ensures Valid() && store.tasks == FailedByCore(old(store.tasks), id, reason)
      ensures FailEffect(old(store.tasks), store.tasks, id, reason)
      ensures found <==> id in old(store.tasks).tab
    {
      if id !in store.tasks.tab {
        return false;
      }
      ghost var d := store.tasks;
      var _ := store.SetTaskStatus(id, Failed, reason);
      ghost var d1 := store.tasks;
      var blocked := workflow.OnDependencyFailed(id);
      FailFollows(d, d1, store.tasks, id, reason, blocked);
      found := true;
    }
  }
}
