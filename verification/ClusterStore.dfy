/** The SQL store. Tables are insertion-ordered maps and each transaction is one method. */
module Persistent {
  import opened Dicts
  import opened TaskRules
  import opened Scheduling
  import opened SyncRules
  import opened DecisionTable
  import opened TaskEffects
  import opened DecisionEffects

  class ClusterStore {
    var tasks: Dict<Task>
    var nodes: Dict<Node>
    var decisionRows: map<nat, Decision>
    var nextDecisionId: nat
    var syncLog: seq<int>

    ghost predicate Valid()
      reads this
    {
      && tasks.Valid() && KeyedNodes(nodes)
      && Contiguous(decisionRows, nextDecisionId)
      && Rising(syncLog) && |decisionRows| <= 200
    }

    ghost function Decisions(): seq<Decision>
      requires Valid()
      reads this
    {
      RowList(decisionRows, nextDecisionId)
    }

    constructor ()
      ensures Valid()
      ensures tasks == Dict([], map[]) && nodes == Dict([], map[]) && Decisions() == [] && syncLog == []
    {
      tasks, nodes := Dict([], map[]), Dict([], map[]);
      decisionRows, nextDecisionId := map[], 1;
      syncLog := [];
    }

    // ----- task store -----

    method CreateTask(id: Id, title: string, needs: seq<string>, priority: int, now: int) returns (t: Task)
      requires Valid()
      modifies this`tasks
      ensures Valid() && tasks == StoreCreated(old(tasks), id, title, needs, priority, now)
      ensures StoreCreateEffect(old(tasks), tasks, id, title, needs, priority, now)
      ensures id in tasks.tab && t == tasks.tab[id]
    {
      if id !in tasks.tab {
        tasks := tasks.Put(id, NewTask(title, needs, priority, now));
      }
      if id in tasks.tab && tasks.tab[id].status == Pending {
        tasks := tasks.Put(id, tasks.tab[id].(status := Ready));
      }
      t := tasks.tab[id];
    }

    method SetTaskStatus(id: Id, status: Status, failReason: string) returns (updated: bool)
      requires Valid()
      modifies this`tasks
      ensures Valid() && tasks == SetStatus(old(tasks), id, status, failReason)
      ensures StatusEffect(old(tasks), tasks, id, status, failReason)
      ensures updated <==> id in old(tasks).tab
    {
      updated := id in tasks.tab;
      if updated {
        var t := tasks.tab[id];
        if failReason != "" {
          tasks := tasks.Put(id, t.(status := status, version := t.version + 1, failReason := Some(failReason)));
        } else {
          tasks := tasks.Put(id, t.(status := status, version := t.version + 1));
        }
      }
    }

    method UnblockTask(id: Id) returns (updated: bool)
      requires Valid()
      modifies this`tasks
      ensures Valid() && tasks == Unblocked(old(tasks), id)
      ensures UnblockEffect(old(tasks), tasks, id)
      ensures updated <==> HasStatus(old(tasks), id, Blocked)
    {
      updated := id in tasks.tab && tasks.tab[id].status == Blocked;
      if updated {
        tasks := tasks.Put(id, tasks.tab[id].(status := Pending, version := tasks.tab[id].version + 1));
      }
    }

    method SetDependencies(id: Id, dependsOn: seq<Id>) returns (updated: bool)
      requires Valid()
      modifies this`tasks
      ensures Valid() && tasks == StoreLinked(old(tasks), id, dependsOn)
      ensures LinkEffect(old(tasks), tasks, id, dependsOn, true)
      ensures updated <==> id in old(tasks).tab
    {
      LinkedMeans(tasks, id, dependsOn);
      updated := id in tasks.tab;
      if updated {
        tasks := tasks.Put(id, tasks.tab[id].(dependsOn := dependsOn, version := tasks.tab[id].version + 1));
      }
      if dependsOn != [] && updated {
        if tasks.tab[id].status == Ready {
          tasks := tasks.Put(id, tasks.tab[id].(status := Pending));
        }
      }
    }

    // ----- sync -----

    method SyncVersion() returns (v: int)
      ensures v == MaxVersion(syncLog)
    {
      v := MaxVersion(syncLog);
    }

    /** The version log only; the message's task row is not part of this model. */
    method HandleSyncMessage(m: SyncMessage) returns (applied: bool)
      requires Valid()
      modifies this`syncLog
      ensures Valid() && syncLog == LogStep(old(syncLog), m)
      ensures applied <==> m.version > MaxVersion(old(syncLog))
    {
      MaxOfRising(syncLog);
      var current := SyncVersion();
      if m.version <= current {
        return false;
      }
      syncLog := syncLog + [m.version];
      applied := true;
    }

    method HandleBatchSync(ms: seq<SyncMessage>) returns (count: nat)
      requires Valid()
      modifies this`syncLog
      ensures Valid() && (syncLog, count) == LogBatch(old(syncLog), ms)
    {
      count := 0;
      for i := 0 to |ms|
        invariant Valid() && (syncLog, count) == LogBatch(old(syncLog), ms[..i])
      {
        assert ms[..i + 1][..i] == ms[..i];
        var applied := HandleSyncMessage(ms[i]);
        if applied {
          count := count + 1;
        }
      }
      assert ms[..|ms|] == ms;
    }

    // ----- promotion and placement -----

    method RecordDecision(x: Decision)
      requires Valid()
      modifies this`decisionRows, this`nextDecisionId
      ensures Valid() && Decisions() == Suffix(old(Decisions()) + [x], MAX_DECISIONS)
      ensures Decisions() == LastOf(old(Decisions()) + [x], 200)
    {
      InsertAppends(decisionRows, nextDecisionId, x);
      decisionRows := decisionRows[nextDecisionId := x];
      nextDecisionId := nextDecisionId + 1;
      if |decisionRows| > MAX_DECISIONS {
        TrimIsSuffix(decisionRows, nextDecisionId, MAX_DECISIONS);
        decisionRows := TopRows(decisionRows, MAX_DECISIONS);
      }
    }

    /** The inner loop of the scan, which looks each dependency up until one is not completed. */
    method DependenciesDone(t: Task) returns (allDone: bool)
      ensures allDone <==> DepsMet(tasks, t)
    {
      for i := 0 to |t.dependsOn|
        invariant forall j :: 0 <= j < i ==> IsDone(tasks, t.dependsOn[j])
      {
        var dep := t.dependsOn[i];
        if dep !in tasks.tab || tasks.tab[dep].status != Completed {
          assert dep in t.dependsOn && !IsDone(tasks, dep);
          return false;
        }
      }
      return true;
    }

    method TriggerPendingTasks() returns (promoted: nat)
      requires Valid()
      modifies this`tasks
      ensures Valid() && tasks == Triggered(old(tasks))
      ensures promoted == |EligibleSet(old(tasks))|
      ensures TriggerEffect(old(tasks), tasks) && promoted == |MovedSet(old(tasks), tasks, Pending, Ready)|
    {
      ghost var d, d1 := tasks, Triggered(tasks);
      var ids := tasks.order;
      UptoEnds(d, d1);
      promoted := 0;
      for i := 0 to |ids|
        invariant tasks == Upto(d, d1, ids[..i])
        invariant promoted == |Select(ids[..i], EligibleSet(d))|
      {
        SelectStep(ids, i, EligibleSet(d));
        UptoStep(d, d1, i);
        var t := tasks.tab[ids[i]];
        ScanSeesSameDependencies(d, ids[..i], t);
        if t.status != Pending {
          continue;
        }
        if t.dependsOn == [] {
          tasks := tasks.Put(ids[i], t.(status := Ready));
          promoted := promoted + 1;
        } else {
          var allDone := DependenciesDone(t);
          if allDone {
            tasks := tasks.Put(ids[i], t.(status := Ready));
            promoted := promoted + 1;
          }
        }
      }
      ScanTotals(d, promoted);
    }

    /** The row update and the inlined decision record of one placement. */
    method Place(id: Id, t: Task, node: Id)
      requires Valid() && id in tasks.tab
      modifies this`tasks, this`decisionRows, this`nextDecisionId
      ensures Valid() && tasks == old(tasks).Put(id, Placed(t, node))
      ensures Decisions()
           == Suffix(old(Decisions()) + [Decision(id, t.title, t.priority, node, 1.0, "capability_match")],
                     MAX_DECISIONS)
    {
      tasks := tasks.Put(id, t.(status := Running, assignedTo := Some(node), version := t.version + 1));
      RecordDecision(Decision(id, t.title, t.priority, node, 1.0, "capability_match"));
    }

    /** The two nested loops of the scheduler. */
    method PlaceReady(ready: seq<Id>, online: seq<Node>) returns (scheduled: nat)
      requires Valid() && NoDup(ready) && forall id :: id in ready ==> HasStatus(tasks, id, Ready)
      modifies this`tasks, this`decisionRows, this`nextDecisionId
      ensures Valid() && tasks == PlaceAll(old(tasks), ready, online)
      ensures scheduled == |DecisionsFor(old(tasks), ready, online)|
      ensures Decisions() == RecordAll(old(Decisions()), DecisionsFor(old(tasks), ready, online), MAX_DECISIONS)
    {
      ghost var d, log := tasks, Decisions();
      scheduled := 0;
      for i := 0 to |ready|
        invariant Valid() && tasks == PlaceAll(d, ready[..i], online)
        invariant scheduled == |DecisionsFor(d, ready[..i], online)|
        invariant Decisions() == RecordAll(log, DecisionsFor(d, ready[..i], online), MAX_DECISIONS)
      {
        PlaceStep(d, ready, i, online, log, MAX_DECISIONS);
        var id := ready[i];
        var t := tasks.tab[id];
        var fit := FindFit(online, t.needs);
        if fit.Some? {
          Place(id, t, fit.value);
          scheduled := scheduled + 1;
        }
      }
      assert ready[..|ready|] == ready;
    }

    /** Rows with equal (priority, created_at) are taken in row order. */
    method SchedulePending() returns (scheduled: nat)
      requires Valid()
      modifies this`tasks, this`decisionRows, this`nextDecisionId
      ensures Valid() && tasks == Scheduled(old(tasks), OnlineNodes(nodes))
      ensures scheduled == |PlaceableSet(old(tasks), OnlineNodes(nodes))|
      ensures Decisions() == RecordAll(old(Decisions()),
                DecisionsFor(old(tasks), ReadyInOrder(old(tasks)), OnlineNodes(nodes)), MAX_DECISIONS)
      ensures ScheduleEffect(old(tasks), nodes, tasks) && scheduled == |MovedSet(old(tasks), tasks, Ready, Running)|
      ensures LogEffect(old(tasks), tasks, old(Decisions()), Decisions())
    {
      ghost var d := tasks;
      var online := OnlineNodes(nodes);
      ScheduledMeans(d, nodes);
      LogMeans(d, online, Decisions());
      if online == [] {
        NothingOnline(d, ReadyInOrder(d));
        return 0;
      }
      ReadyOnce(d);
      scheduled := PlaceReady(ReadyInOrder(tasks), online);
      DecisionsAreOrdered(d, online);
      PlacementIgnoresOrder(d, ReadyInOrder(d), online);
    }
  }
}
