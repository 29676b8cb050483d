/** The in-memory store. Each method is one locked section of the source. */
module InMemory {
  import opened Dicts
  import opened TaskRules
  import opened Scheduling
  import opened LeaseRules
  import opened RecoveryRules
  import opened SyncRules
  import opened TriggerGraph
  import opened TaskEffects
  import opened LeaseEffects
  import opened SyncEffects
  import opened DecisionEffects

  class ClusterState {
    var tasks: Dict<Task>
    var nodes: Dict<Node>
    var leases: Dict<Lease>
    var taskLeaseIndex: map<Id, Id>
    var syncVersion: int
    var recoveryEvents: seq<Event>
    var decisions: seq<Decision>

    ghost predicate Valid()
      reads this
    {
      && tasks.Valid() && KeyedNodes(nodes) && leases.Valid()
      && (forall id :: id in leases.tab ==> leases.tab[id].id == id)
      && |decisions| <= 200
    }

    constructor ()
      ensures Valid()
      ensures tasks.order == [] && nodes.order == [] && leases == NO_LEASES.leases && taskLeaseIndex == NO_LEASES.index
      ensures syncVersion == 0 && recoveryEvents == [] && decisions == []
    {
      tasks, nodes, leases := Dict([], map[]), Dict([], map[]), Dict([], map[]);
      taskLeaseIndex := map[];
      syncVersion, recoveryEvents, decisions := 0, [], [];
    }

    // ----- node registry -----

    method RegisterNode(node: Node)
      requires Valid()
      modifies this`nodes
      ensures Valid() && nodes == old(nodes).Put(node.id, node)
    {
      nodes := nodes.Put(node.id, node);
    }

    method UpdateHeartbeat(id: Id, now: int)
      requires Valid()
      modifies this`nodes
      ensures Valid() && nodes == Beaten(old(nodes), id, now)
    {
      if id in nodes.tab {
        var node := nodes.tab[id].(lastHeartbeat := now);
        nodes := nodes.Put(id, node.(status := Online));
      }
    }

    method UpdateNodeStatus(id: Id, status: NodeStatus)
      requires Valid()
      modifies this`nodes
      ensures Valid()
      ensures nodes == if id in old(nodes).tab
                       then old(nodes).Put(id, old(nodes).tab[id].(status := status))
                       else old(nodes)
    {
      if id in nodes.tab {
        nodes := nodes.Put(id, nodes.tab[id].(status := status));
      }
    }

    // ----- task store -----

    method CreateTask(id: Id, title: string, needs: seq<string>, priority: int, now: int) returns (t: Task)
      requires Valid()
      modifies this`tasks
      ensures Valid() && tasks == Created(old(tasks), id, title, needs, priority, now)
      ensures CreateEffect(old(tasks), tasks, id, title, needs, priority, now)
      ensures id in tasks.tab && t == tasks.tab[id]
    {
      t := NewTask(title, needs, priority, now);
      tasks := tasks.Put(id, t);
    }

    method SetTaskStatus(id: Id, status: Status, failReason: string) returns (found: bool)
      requires Valid()
      modifies this`tasks
      ensures Valid() && tasks == SetStatus(old(tasks), id, status, failReason)
      ensures StatusEffect(old(tasks), tasks, id, status, failReason)
      ensures found <==> id in old(tasks).tab
    {
      SetStatusMeans(tasks, id, status, failReason);
      if id !in tasks.tab {
        return false;
      }
      var t := tasks.tab[id].(status := status);
      t := t.(version := t.version + 1);
      if failReason != "" {
        t := t.(failReason := Some(failReason));
      }
      tasks := tasks.Put(id, t);
      found := true;
    }

    /** A direct write through a task reference, which touches nothing but the assignee. */
    method AssignTask(id: Id, node: Id)
      requires Valid() && id in tasks.tab
      modifies this`tasks
      ensures Valid() && tasks == old(tasks).Put(id, old(tasks).tab[id].(assignedTo := Some(node)))
    {
      tasks := tasks.Put(id, tasks.tab[id].(assignedTo := Some(node)));
    }

    method UnblockTask(id: Id) returns (done: bool)
      requires Valid()
      modifies this`tasks
      ensures Valid() && tasks == Unblocked(old(tasks), id)
      ensures UnblockEffect(old(tasks), tasks, id)
      ensures done <==> HasStatus(old(tasks), id, Blocked)
    {
      if id !in tasks.tab {
        return false;
      }
      var t := tasks.tab[id];
      if t.status == Blocked {
        tasks := tasks.Put(id, t.(status := Pending, version := t.version + 1));
        return true;
      }
      return false;
    }

    method SetDependencies(id: Id, dependsOn: seq<Id>) returns (found: bool)
      requires Valid()
      modifies this`tasks
      ensures Valid() && tasks == Linked(old(tasks), id, dependsOn)
      ensures LinkEffect(old(tasks), tasks, id, dependsOn, false)
      ensures found <==> id in old(tasks).tab
    {
      LinkedMeans(tasks, id, dependsOn);
      if id !in tasks.tab {
        return false;
      }
      var t := tasks.tab[id].(dependsOn := dependsOn);
      tasks := tasks.Put(id, t.(version := t.version + 1));
      found := true;
    }

    method GetDependents(id: Id) returns (r: seq<Id>)
      requires Valid()
      ensures r == DependentsOf(tasks, id) && InOrder(tasks.order, r)
      ensures forall x :: x in r <==> x in tasks.tab && id in tasks.tab[x].dependsOn
    {
      r := [];
      var keep := set x | x in tasks.tab && id in tasks.tab[x].dependsOn;
      for i := 0 to |tasks.order|
        invariant r == Select(tasks.order[..i], keep)
      {
        SelectStep(tasks.order, i, keep);
        if id in tasks.tab[tasks.order[i]].dependsOn {
          r := r + [tasks.order[i]];
        }
      }
      assert tasks.order[..|tasks.order|] == tasks.order;
      SelectInOrder(tasks.order, keep);
    }

    // ----- trigger chain -----

    /** One call of the nested depth-first traversal. `path` is the branch from the root to `tid`;
        `edges` pairs each entry of the chain with the task it was reached from. */
    method Traverse(tid: Id, depth: int, maxDepth: int, visited0: set<Id>, chain0: seq<Id>,
                    ghost root: Id, ghost path: seq<Id>, ghost edges0: seq<(Id, Id)>)
      returns (visited: set<Id>, chain: seq<Id>, ghost edges: seq<(Id, Id)>)
      requires Valid()
      requires depth == 0 || 0 <= depth <= maxDepth
      requires PathFrom(tasks, root, tid, path) && |path| == depth + 1
      requires tid in Universe(tasks, root) && |visited0| >= depth
      requires GoodTrace(tasks, root, maxDepth, Trace(visited0, chain0, edges0))
      ensures (visited, chain) == Walk(tasks, tid, depth, maxDepth, visited0, chain0)
      ensures Traversed(tasks, root, tid, depth, maxDepth,
                        Trace(visited0, chain0, edges0), Trace(visited, chain, edges))
      decreases maxDepth - depth
    {
      visited, chain, edges := visited0, chain0, edges0;
      ghost var t0 := Trace(visited0, chain0, edges0);
      if depth >= maxDepth || tid in visited {
        TraversalStops(tasks, root, tid, depth, maxDepth, t0);
        return;
      }
      visited := visited + {tid};
      var dependents := GetDependents(tid);
      for i := 0 to |dependents|
        invariant InExpansion(tasks, root, tid, dependents[..i], depth, maxDepth, t0, Trace(visited, chain, edges))
      {
        ghost var t := Trace(visited, chain, edges);
        ExpansionEnters(tasks, root, tid, path, i, depth, maxDepth, t0, t);
        var dep := dependents[i];
        chain := chain + [dep];
        visited, chain, edges :=
          Traverse(dep, depth + 1, maxDepth, visited, chain, root, path + [dep], edges + [(tid, dep)]);
        ExpansionAdvances(tasks, root, tid, path, i, depth, maxDepth, t0, t, Trace(visited, chain, edges));
      }
      assert dependents[..|dependents|] == dependents;
      ExpansionEnds(tasks, root, tid, depth, maxDepth, t0, Trace(visited, chain, edges));
    }

    method GetTriggerChain(root: Id, maxDepth: int) returns (chain: seq<Id>, ghost edges: seq<(Id, Id)>)
      requires Valid()
      // each entry is reachable through dependents in at most maxDepth hops
      ensures forall x :: x in chain ==> Within(tasks, root, x, maxDepth)
      // each (task, dependent) pair contributes at most one entry
      ensures chain == Targets(edges) && NoDup(edges)
      ensures forall e :: e in edges ==> e.1 in DependentsOf(tasks, e.0)
      // with enough depth the entries are everything reachable in one or more hops
      ensures |Universe(tasks, root)| <= maxDepth ==> forall x :: x in chain <==> Reachable(tasks, root, x)
      // if each task is met at one level only, they are everything within maxDepth hops
      ensures Levelled(tasks, root, maxDepth) ==> forall x :: x in chain <==> Within(tasks, root, x, maxDepth)
      ensures chain == TriggerChain(tasks, root, maxDepth)
    {
      var visited;
      visited, chain, edges := Traverse(root, 0, maxDepth, {}, [], root, [root], []);
      ghost var t := Trace(visited, chain, edges);
      ListedIsWithin(tasks, root, maxDepth, t);
      if |Universe(tasks, root)| <= maxDepth {
        DeepIsExact(tasks, root, maxDepth, t);
      }
      if Levelled(tasks, root, maxDepth) {
        LevelledIsExact(tasks, root, maxDepth, t);
      }
    }

    // ----- lease manager -----

    method CreateLease(id: Id, taskId: Id, nodeId: Id, now: int, ttl: int) returns (lease: Lease)
      requires Valid()
      modifies this`leases, this`taskLeaseIndex
      ensures Valid()
      ensures LeaseDb(leases, taskLeaseIndex)
           == LeaseCreated(LeaseDb(old(leases), old(taskLeaseIndex)), id, taskId, nodeId, now, ttl)
      ensures LeaseCreateEffect(LeaseDb(old(leases), old(taskLeaseIndex)), LeaseDb(leases, taskLeaseIndex),
                                id, taskId, nodeId, now, ttl)
      ensures lease == leases.tab[id]
    {
      LeaseCreatedMeans(LeaseDb(leases, taskLeaseIndex), id, taskId, nodeId, now, ttl);
      lease := Lease(id, taskId, nodeId, now, now + ttl, Active);
      leases := leases.Put(id, lease);
      taskLeaseIndex := taskLeaseIndex[taskId := id];
    }

    method RevokeLease(id: Id) returns (found: bool)
      requires Valid()
      modifies this`leases, this`taskLeaseIndex
      ensures Valid()
      ensures LeaseDb(leases, taskLeaseIndex) == LeaseRevoked(LeaseDb(old(leases), old(taskLeaseIndex)), id)
      ensures LeaseRevokeEffect(LeaseDb(old(leases), old(taskLeaseIndex)), LeaseDb(leases, taskLeaseIndex), id)
      ensures found <==> id in old(leases).tab
    {
      LeaseRevokedMeans(LeaseDb(leases, taskLeaseIndex), id);
      if id !in leases.tab {
        return false;
      }
      var lease := leases.tab[id];
      leases := leases.Put(id, lease.(status := Revoked));
      if lease.taskId in taskLeaseIndex {
        taskLeaseIndex := taskLeaseIndex - {lease.taskId};
      }
      assert old(taskLeaseIndex) - {lease.taskId} == taskLeaseIndex;
      found := true;
    }

    /** Scan for expired leases. `fired` lists the leases whose expiry was reported to the callback,
        in order. */
    method GetActiveLeases(now: int) returns (active: seq<Lease>, fired: seq<Id>)
      requires Valid()
      modifies this`leases
      ensures Valid() && leases == Scanned(old(leases), now)
      ensures active == LeaseList(leases, Select(leases.order, LiveSet(leases, now)))
      ensures fired == Select(old(leases).order, DueSet(old(leases), now))
      ensures ScanEffect(old(leases), leases, now, active, fired)
      // the leases with status active are exactly those returned
      ensures forall id :: id in leases.tab ==> (leases.tab[id].status == Active <==> leases.tab[id] in active)
    {
      ghost var l0 := leases;
      var ids := leases.order;
      ScanStarts(l0, now);
      active, fired := [], [];
      for i := 0 to |ids|
        invariant ScanAt(l0, now, ids[..i], leases, active, fired)
      {
        ScanReaches(l0, now, i, leases, active, fired);
        ScanTurn(l0, now, i, leases, active, fired);
        var lease := leases.tab[ids[i]];
        if lease.status == Active && lease.expiresAt > now {
          active := active + [lease];
        } else if lease.status == Active && lease.expiresAt <= now {
          leases := leases.Put(ids[i], lease.(status := Expired));
          fired := fired + [ids[i]];
        }
      }
      UptoEnds(l0, Scanned(l0, now));
      ActiveListed(l0, now);
      ScannedMeans(l0, now);
    }

    // ----- sync -----

    method HandleSyncMessage(m: SyncMessage, now: int) returns (applied: bool)
      requires Valid()
      modifies this`syncVersion, this`tasks
      ensures Valid()
      ensures SyncState(syncVersion, tasks) == MessageApplied(SyncState(old(syncVersion), old(tasks)), m, now)
      ensures MessageEffect(SyncState(old(syncVersion), old(tasks)), SyncState(syncVersion, tasks), m, now)
      ensures applied <==> m.version > old(syncVersion)
    {
      MessageMeans(SyncState(syncVersion, tasks), m, now);
      if m.version <= syncVersion {
        return false;
      }
      syncVersion := m.version;
      if m.taskState.Some? {
        var ts := m.taskState.value;
        if ts.taskId in tasks.tab {
          var t := tasks.tab[ts.taskId];
          if ts.status.Some? {
            t := t.(status := ts.status.value);
          }
          if ts.assignedTo.Some? && ts.assignedTo.value != "" {
            t := t.(assignedTo := ts.assignedTo);
          }
          tasks := tasks.Put(ts.taskId, t.(version := ts.version));
        } else {
          tasks := tasks.Put(ts.taskId, Task(ts.title, [], [], DEFAULT_PRIORITY,
            if ts.status.Some? then ts.status.value else Pending, ts.assignedTo, now, ts.version, None));
        }
      }
      applied := true;
    }

    method HandleBatchSync(ms: seq<SyncMessage>, now: int) returns (count: nat)
      requires Valid()
      modifies this`syncVersion, this`tasks
      ensures Valid()
      ensures (SyncState(syncVersion, tasks), count) == Batch(SyncState(old(syncVersion), old(tasks)), ms, now)
    {
      count := 0;
      for i := 0 to |ms|
        invariant Valid()
        invariant (SyncState(syncVersion, tasks), count) == Batch(SyncState(old(syncVersion), old(tasks)), ms[..i], now)
      {
        assert ms[..i + 1][..i] == ms[..i];
        var applied := HandleSyncMessage(ms[i], now);
        if applied {
          count := count + 1;
        }
      }
      assert ms[..|ms|] == ms;
    }

    // ----- logs -----

    method AppendRecoveryEvent(e: Event)
      modifies this`recoveryEvents
      ensures recoveryEvents == old(recoveryEvents) + [e]
    {
      recoveryEvents := recoveryEvents + [e];
    }

    method RecordDecision(x: Decision)
      modifies this`decisions
      ensures decisions == Suffix(old(decisions) + [x], MAX_DECISIONS) == LastOf(old(decisions) + [x], 200)
    {
      decisions := decisions + [x];
      if |decisions| > MAX_DECISIONS {
        decisions := decisions[|decisions| - MAX_DECISIONS..];
      }
    }

    // ----- promotion and placement -----

    method TriggerPendingTasks() returns (promoted: nat)
      requires Valid()
      modifies this`tasks
      ensures Valid() && tasks == Triggered(old(tasks))
      ensures promoted == |EligibleSet(old(tasks))|
      ensures TriggerEffect(old(tasks), tasks) && promoted == |MovedSet(old(tasks), tasks, Pending, Ready)|
    {
      ghost var d, d1 := tasks, Triggered(tasks);
      var ids := tasks.order;
      UptoEnds(d, d1);
      promoted := 0;
      for i := 0 to |ids|
        invariant tasks == Upto(d, d1, ids[..i])
        invariant promoted == |Select(ids[..i], EligibleSet(d))|
      {
        SelectStep(ids, i, EligibleSet(d));
        UptoStep(d, d1, i);
        var t := tasks.tab[ids[i]];
        ScanSeesSameDependencies(d, ids[..i], t);
        if t.status != Pending {
          continue;
        }
        if t.dependsOn == [] {
          tasks := tasks.Put(ids[i], t.(status := Ready));
          promoted := promoted + 1;
        } else {
          var allDone := forall dep :: dep in t.dependsOn ==> dep in tasks.tab && tasks.tab[dep].status == Completed;
          assert allDone <==> DepsMet(tasks, t);
          if allDone {
            tasks := tasks.Put(ids[i], t.(status := Ready));
            promoted := promoted + 1;
          }
        }
      }
      ScanTotals(d, promoted);
    }

    /** The two nested loops of the scheduler: each of the ready tasks goes to the first node that
        fits it. */
    method PlaceReady(ready: seq<Id>, online: seq<Node>) returns (scheduled: nat)
      requires tasks.Valid() && NoDup(ready) && forall id :: id in ready ==> HasStatus(tasks, id, Ready)
      modifies this`tasks, this`decisions
      ensures tasks.Valid() && tasks == PlaceAll(old(tasks), ready, online)
      ensures scheduled == |DecisionsFor(old(tasks), ready, online)|
      ensures decisions == RecordAll(old(decisions), DecisionsFor(old(tasks), ready, online), MAX_DECISIONS)
    {
      ghost var d, log := tasks, decisions;
      scheduled := 0;
      for i := 0 to |ready|
        invariant tasks.Valid() && tasks == PlaceAll(d, ready[..i], online)
        invariant scheduled == |DecisionsFor(d, ready[..i], online)|
        invariant decisions == RecordAll(log, DecisionsFor(d, ready[..i], online), MAX_DECISIONS)
      {
        PlaceStep(d, ready, i, online, log, MAX_DECISIONS);
        var id := ready[i];
        var t := tasks.tab[id];
        var fit := FindFit(online, t.needs);
        if fit.Some? {
          tasks := tasks.Put(id, t.(status := Running, assignedTo := fit, version := t.version + 1));
          RecordDecision(Decision(id, t.title, t.priority, fit.value, 1.0, "capability_match"));
          scheduled := scheduled + 1;
        }
      }
      assert ready[..|ready|] == ready;
    }

    method SchedulePending() returns (scheduled: nat)
      requires Valid()
      modifies this`tasks, this`decisions
      ensures Valid() && tasks == Scheduled(old(tasks), OnlineNodes(nodes))
      ensures scheduled == |PlaceableSet(old(tasks), OnlineNodes(nodes))|
      ensures decisions == RecordAll(old(decisions),
                DecisionsFor(old(tasks), ReadyInOrder(old(tasks)), OnlineNodes(nodes)), MAX_DECISIONS)
      ensures ScheduleEffect(old(tasks), nodes, tasks) && scheduled == |MovedSet(old(tasks), tasks, Ready, Running)|
      ensures LogEffect(old(tasks), tasks, old(decisions), decisions)
    {
      ghost var d := tasks;
      var online := OnlineNodes(nodes);
      ScheduledMeans(d, nodes);
      LogMeans(d, online, decisions);
      if online == [] {
        NothingOnline(d, ReadyInOrder(d));
        return 0;
      }
      ReadyOnce(d);
      scheduled := PlaceReady(ReadyInOrder(tasks), online);
      DecisionsAreOrdered(d, online);
      PlacementIgnoresOrder(d, ReadyInOrder(d), online);
    }
  }
}
