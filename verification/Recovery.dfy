/** The recovery pipeline, over the in-memory store. */
module Recovery {
  import opened Dicts
  import opened TaskRules
  import opened Scheduling
  import opened LeaseRules
  import opened RecoveryRules
  import opened LeaseEffects
  import opened RecoveryEffects
  import opened InMemory

  // ----- the revocation loop -----

  /** The leases among `ids` that the node holds. */
  function OfNode(leases: Dict<Lease>, ids: seq<Id>, node: Id): (r: seq<Id>)
    requires forall id :: id in ids ==> id in leases.tab
    ensures forall id :: id in r <==> id in ids && leases.tab[id].nodeId == node
  {
    Select(ids, set id | id in leases.tab && leases.tab[id].nodeId == node)
  }

  function RevokedAmong(leases: Dict<Lease>, ids: seq<Id>, node: Id): Dict<Lease> {
    Dict(leases.order, map id | id in leases.tab ::
      if id in ids && leases.tab[id].nodeId == node then leases.tab[id].(status := Revoked) else leases.tab[id])
  }

  lemma RevokedAmongNone(leases: Dict<Lease>, node: Id)
    ensures RevokedAmong(leases, [], node) == leases
    ensures LeaseTasks(leases, OfNode(leases, [], node)) == []
  {
    assert RevokedAmong(leases, [], node).tab == leases.tab;
  }

  lemma RevokeLogTurn(index: map<Id, Id>, events: seq<Event>, revoked: seq<Id>, taskId: Id, node: Id)
    ensures index - Elements(revoked + [taskId]) == index - Elements(revoked) - {taskId}
    ensures events + RevokeEvents(revoked + [taskId], node)
         == events + RevokeEvents(revoked, node) + [Event(taskId, node, "revoke_lease", "completed")]
  {
    assert Elements(revoked + [taskId]) == Elements(revoked) + {taskId};
    assert RevokeEvents(revoked + [taskId], node)
        == RevokeEvents(revoked, node) + [Event(taskId, node, "revoke_lease", "completed")];
  }

  lemma RevokeTableTurn(leases: Dict<Lease>, ids: seq<Id>, i: nat, node: Id)
    requires leases.Valid() && i < |ids| && NoDup(ids) && ids[i] in leases.tab
    ensures var id, now, next := ids[i], RevokedAmong(leases, ids[..i], node), RevokedAmong(leases, ids[..i + 1], node);
      && now.tab[id] == leases.tab[id]
      && next == if leases.tab[id].nodeId == node then now.Put(id, leases.tab[id].(status := Revoked)) else now
  {
    var id := ids[i];
    PrefixStep(ids, i);
    assert id !in ids[..i];
    var now, next := RevokedAmong(leases, ids[..i], node), RevokedAmong(leases, ids[..i + 1], node);
    if leases.tab[id].nodeId == node {
      assert next.tab == now.Put(id, leases.tab[id].(status := Revoked)).tab;
    } else {
      assert next.tab == now.tab;
    }
  }

  lemma LeaseTasksStep(leases: Dict<Lease>, ids: seq<Id>, x: Id)
    requires x in leases.tab && forall id :: id in ids ==> id in leases.tab
    ensures LeaseTasks(leases, ids + [x]) == LeaseTasks(leases, ids) + [leases.tab[x].taskId]
  {
  }

  lemma OrphanTurn(leases: Dict<Lease>, ids: seq<Id>, i: nat, node: Id)
    requires i < |ids| && forall id :: id in ids ==> id in leases.tab
    ensures ids[i] in leases.tab
    ensures forall id :: id in ids[..i] || id in ids[..i + 1] ==> id in leases.tab
    ensures LeaseTasks(leases, OfNode(leases, ids[..i + 1], node))
         == LeaseTasks(leases, OfNode(leases, ids[..i], node))
            + if leases.tab[ids[i]].nodeId == node then [leases.tab[ids[i]].taskId] else []
  {
    assert ids[i] in ids;
    PrefixStep(ids, i);
    SelectStep(ids, i, set x | x in leases.tab && leases.tab[x].nodeId == node);
    if leases.tab[ids[i]].nodeId == node {
      LeaseTasksStep(leases, OfNode(leases, ids[..i], node), ids[i]);
    }
  }

  lemma {:induction false} SelectTwice(order: seq<Id>, a: set<Id>, b: set<Id>)
    ensures Select(Select(order, a), b) == Select(order, a * b)
  {
    if order == [] {
    } else {
      var n := |order| - 1;
      SelectTwice(order[..n], a, b);
      var s := Select(order[..n], a);
      assert (s + [order[n]])[..|s|] == s;
      assert s + [] == s;
    }
  }

  lemma RevokeTotal(leases: Dict<Lease>, node: Id, now: int)
    requires leases.Valid()
    ensures RevokedAmong(Scanned(leases, now), Select(leases.order, LiveSet(leases, now)), node)
         == RevokedFor(leases, node, now)
  {
    assert RevokedAmong(Scanned(leases, now), Select(leases.order, LiveSet(leases, now)), node).tab
        == RevokedFor(leases, node, now).tab;
  }

  lemma LeaseTasksSame(a: Dict<Lease>, b: Dict<Lease>, ids: seq<Id>)
    requires forall id :: id in ids ==> id in a.tab && id in b.tab && a.tab[id].taskId == b.tab[id].taskId
    ensures LeaseTasks(a, ids) == LeaseTasks(b, ids)
  {
  }

  lemma HeldIsLiveOfNode(leases: Dict<Lease>, node: Id, now: int)
    ensures LiveSet(leases, now) * (set x | x in Scanned(leases, now).tab && Scanned(leases, now).tab[x].nodeId == node)
         == HeldBy(leases, node, now)
  {
  }

  lemma OrphanTotal(leases: Dict<Lease>, node: Id, now: int)
    requires leases.Valid()
    ensures var scanned, live := Scanned(leases, now), Select(leases.order, LiveSet(leases, now));
      && (forall id :: id in live ==> id in scanned.tab)
      && LeaseTasks(scanned, OfNode(scanned, live, node)) == OrphanedTasks(leases, node, now)
  {
    var scanned, live := Scanned(leases, now), Select(leases.order, LiveSet(leases, now));
    assert forall id :: id in live ==> id in scanned.tab;
    var ofNode := set x | x in scanned.tab && scanned.tab[x].nodeId == node;
    SelectTwice(leases.order, LiveSet(leases, now), ofNode);
    HeldIsLiveOfNode(leases, node, now);
    LeaseTasksSame(scanned, leases, Select(leases.order, HeldBy(leases, node, now)));
  }

  class Revoker {
    const store: ClusterState

    constructor (store: ClusterState)
      ensures this.store == store
    {
      this.store := store;
    }

    method RevokeOne(lease: Lease, node: Id)
      requires store.Valid() && lease.id in store.leases.tab && store.leases.tab[lease.id] == lease
      modifies store`leases, store`taskLeaseIndex, store`recoveryEvents
      ensures store.Valid() && store.leases == old(store.leases).Put(lease.id, lease.(status := Revoked))
      ensures store.taskLeaseIndex == old(store.taskLeaseIndex) - {lease.taskId}
      ensures store.recoveryEvents
           == old(store.recoveryEvents) + [Event(lease.taskId, node, "revoke_lease", "completed")]
    {
      var _ := store.RevokeLease(lease.id);
      store.AppendRecoveryEvent(Event(lease.taskId, node, "revoke_lease", "completed"));
    }

    /** The revocation loop over the active leases just listed. */
    method RevokeListed(active: seq<Lease>, ghost live: seq<Id>, node: Id) returns (revoked: seq<Id>)
      requires store.Valid() && NoDup(live) && forall id :: id in live ==> id in store.leases.tab
      requires active == LeaseList(store.leases, live)
      modifies store`leases, store`taskLeaseIndex, store`recoveryEvents
      ensures store.Valid()
      ensures store.leases == RevokedAmong(old(store.leases), live, node)
      ensures revoked == LeaseTasks(old(store.leases), OfNode(old(store.leases), live, node))
      ensures store.taskLeaseIndex == old(store.taskLeaseIndex) - Elements(revoked)
      ensures store.recoveryEvents == old(store.recoveryEvents) + RevokeEvents(revoked, node)
    {
      ghost var l0, index0, events0 := store.leases, store.taskLeaseIndex, store.recoveryEvents;
      revoked := [];
      RevokedAmongNone(l0, node);
      for i := 0 to |active|
        invariant store.Valid() && store.leases == RevokedAmong(l0, live[..i], node)
        invariant revoked == LeaseTasks(l0, OfNode(l0, live[..i], node))
        invariant store.taskLeaseIndex == index0 - Elements(revoked)
        invariant store.recoveryEvents == events0 + RevokeEvents(revoked, node)
      {
        RevokeTableTurn(l0, live, i, node);
        OrphanTurn(l0, live, i, node);
        var lease := active[i];
        if lease.nodeId != node {
          continue;
        }
        RevokeLogTurn(index0, events0, revoked, lease.taskId, node);
        RevokeOne(lease, node);
        revoked := revoked + [lease.taskId];
      }
      assert live[..|active|] == live;
    }

    /** `fired` lists the leases whose expiry the initial scan reported to the callback. */
    method RevokeAllForNode(node: Id, now: int) returns (revoked: seq<Id>, fired: seq<Id>)
      requires store.Valid()
      modifies store`leases, store`taskLeaseIndex, store`recoveryEvents
      ensures store.Valid()
      ensures revoked == OrphanedTasks(old(store.leases), node, now)
      ensures store.leases == RevokedFor(old(store.leases), node, now)
      ensures store.taskLeaseIndex == old(store.taskLeaseIndex) - Elements(revoked)
      ensures store.recoveryEvents == old(store.recoveryEvents) + RevokeEvents(revoked, node)
      ensures fired == Select(old(store.leases).order, DueSet(old(store.leases), now))
    {
      ghost var l0 := store.leases;
      var active;
      active, fired := store.GetActiveLeases(now);
      ScannedLive(l0, now);
      revoked := RevokeListed(active, Select(l0.order, LiveSet(l0, now)), node);
      RevokeTotal(l0, node, now);
      OrphanTotal(l0, node, now);
    }
  }

  // ----- the rescheduling loop -----

  /** Rescheduling one task in the steps the method takes. */
  lemma RelocationSteps(d: Db, id: Id, online: seq<Node>)
    requires id in d.tab
    ensures match FirstFit(online, d.tab[id].needs)
      case None =>
        && RescheduledOne(d, id, online) == SetStatus(d, id, Failed, NO_NODE_REASON)
        && RescheduleEvent(d, id, online) == [Event(id, "", "mark_failed", "completed")]
      case Some(n) =>
        var d1 := SetStatus(d, id, Running, "");
        && RescheduledOne(d, id, online) == d1.Put(id, d1.tab[id].(assignedTo := Some(n)))
        && RescheduleEvent(d, id, online) == [Event(id, n, "reschedule", "completed")]
  {
    PutTwice(d, id, WithStatus(d.tab[id], Running, ""), RescheduledTask(d.tab[id], online));
  }

  lemma RescheduleTurn(d: Db, ids: seq<Id>, i: nat, online: seq<Node>, log: seq<Event>)
    requires i < |ids|
    ensures var id, now, next := ids[i], Rescheduled(d, ids[..i], online), Rescheduled(d, ids[..i + 1], online);
      && now.tab.Keys == d.tab.Keys
      && (id in d.tab ==> now.tab[id].needs == d.tab[id].needs)
      && next == RescheduledOne(now, id, online)
      && MovedCount(d, ids[..i + 1], online)
         == MovedCount(d, ids[..i], online) + (if CanMove(d, id, online) then 1 else 0)
      && log + RescheduleEvents(d, ids[..i + 1], online)
         == log + RescheduleEvents(d, ids[..i], online) + RescheduleEvent(now, id, online)
      && (CanMove(now, id, online) <==> CanMove(d, id, online))
  {
    RescheduledPointwise(d, ids[..i], online);
    assert ids[..i + 1][..i] == ids[..i];
  }

  class Rescheduler {
    const store: ClusterState

    constructor (store: ClusterState)
      ensures this.store == store
    {
      this.store := store;
    }

    /** One orphaned task: it goes to the first online node that covers it, or fails. */
    method RescheduleTask(id: Id) returns (moved: bool)
      requires store.Valid() && id in store.tasks.tab
      modifies store`tasks, store`recoveryEvents
      ensures store.Valid()
      ensures store.tasks == RescheduledOne(old(store.tasks), id, OnlineNodes(store.nodes))
      ensures moved <==> CanMove(old(store.tasks), id, OnlineNodes(store.nodes))
      ensures store.recoveryEvents
           == old(store.recoveryEvents) + RescheduleEvent(old(store.tasks), id, OnlineNodes(store.nodes))
      ensures RelocateEffect(old(store.tasks), store.nodes, store.tasks, id,
                             old(store.recoveryEvents), store.recoveryEvents, moved)
    {
      var t := store.tasks.tab[id];
      var online := OnlineNodes(store.nodes);
      var fit := FindFit(online, t.needs);
      RelocationSteps(store.tasks, id, online);
      if fit.Some? {
        var _ := store.SetTaskStatus(id, Running, "");
        store.AssignTask(id, fit.value);
        store.AppendRecoveryEvent(Event(id, fit.value, "reschedule", "completed"));
      } else {
        var _ := store.SetTaskStatus(id, Failed, NO_NODE_REASON);
        store.AppendRecoveryEvent(Event(id, "", "mark_failed", "completed"));
      }
      moved := fit.Some?;
      RelocateMeans(old(store.tasks), store.nodes, id, old(store.recoveryEvents));
    }

    method RescheduleOrphaned(taskIds: seq<Id>) returns (rescheduled: nat)
      requires store.Valid()
      modifies store`tasks, store`recoveryEvents
      ensures store.Valid()
      ensures store.tasks == Rescheduled(old(store.tasks), taskIds, OnlineNodes(store.nodes))
      ensures rescheduled == MovedCount(old(store.tasks), taskIds, OnlineNodes(store.nodes))
      ensures store.recoveryEvents
           == old(store.recoveryEvents) + RescheduleEvents(old(store.tasks), taskIds, OnlineNodes(store.nodes))
    {
      ghost var d, events0, online := store.tasks, store.recoveryEvents, OnlineNodes(store.nodes);
      rescheduled := 0;
      for i := 0 to |taskIds|
        invariant store.Valid() && store.tasks == Rescheduled(d, taskIds[..i], online)
        invariant rescheduled == MovedCount(d, taskIds[..i], online)
        invariant store.recoveryEvents == events0 + RescheduleEvents(d, taskIds[..i], online)
      {
        RescheduleTurn(d, taskIds, i, online, events0);
        if taskIds[i] !in store.tasks.tab {
          continue;
        }
        var moved := RescheduleTask(taskIds[i]);
        if moved {
          rescheduled := rescheduled + 1;
        }
      }
      assert taskIds[..|taskIds|] == taskIds;
    }
  }

  // ----- whole recoveries -----

  function NodesOf(leases: Dict<Lease>, ids: seq<Id>): seq<Id>
    requires forall id :: id in ids ==> id in leases.tab
  {
    seq(|ids|, i requires 0 <= i < |ids| => leases.tab[ids[i]].nodeId)
  }

  lemma NodesOfStep(leases: Dict<Lease>, ids: seq<Id>, i: nat)
    requires i < |ids| && forall id :: id in ids ==> id in leases.tab
    ensures forall id :: id in ids[..i] || id in ids[..i + 1] || id == ids[i] ==> id in leases.tab
    ensures NodesOf(leases, ids[..i + 1]) == NodesOf(leases, ids[..i]) + [leases.tab[ids[i]].nodeId]
  {
    assert ids[i] in ids;
  }

  lemma NodesOfSame(a: Dict<Lease>, b: Dict<Lease>, ids: seq<Id>)
    requires forall id :: id in ids ==> id in a.tab && id in b.tab && a.tab[id].nodeId == b.tab[id].nodeId
    ensures NodesOf(a, ids) == NodesOf(b, ids)
  {
  }

  lemma QueuedMean(leases: Dict<Lease>, now: int, queue: seq<Id>)
    requires leases.Valid()
    ensures QueueEffect(leases, now, queue, queue + NodesOf(leases, Select(leases.order, DueSet(leases, now))))
  {
    var ids := Select(leases.order, DueSet(leases, now));
    SelectInOrder(leases.order, DueSet(leases, now));
    assert forall i :: 0 <= i < |ids| ==> ids[i] in ids;
    assert DueInOrder(leases, now, ids) && NodesOfLeases(leases, ids, NodesOf(leases, ids));
  }

  lemma EventsAssemble(log: seq<Event>, d: Db, orphaned: seq<Id>, node: Id, online: seq<Node>)
    ensures log + RecoveryEvents(d, orphaned, node, online)
         == log + RevokeEvents(orphaned, node) + RescheduleLog(d, orphaned, node, online)
  {
  }

  class RecoveryDetector {
    const store: ClusterState
    const revoker: Revoker
    const rescheduler: Rescheduler
    var eventQueue: seq<Id>

    ghost predicate Valid()
      reads this, store
    {
      store.Valid() && revoker.store == store && rescheduler.store == store
    }

    ghost function State(): Books
      reads store
    {
      Books(store.tasks, store.leases, store.taskLeaseIndex, store.recoveryEvents)
    }

    constructor (store: ClusterState)
      requires store.Valid()
      ensures Valid() && this.store == store && eventQueue == []
    {
      this.store := store;
      this.revoker := new Revoker(store);
      this.rescheduler := new Rescheduler(store);
      this.eventQueue := [];
    }

    method NotifyOffline(node: Id)
      modifies this`eventQueue
      ensures eventQueue == old(eventQueue) + [node]
    {
      eventQueue := eventQueue + [node];
    }

    /** The expiry callback: the node of each expired lease is put on the queue. */
    method NotifyExpiries(fired: seq<Id>)
      requires forall id :: id in fired ==> id in store.leases.tab
      modifies this`eventQueue
      ensures eventQueue == old(eventQueue) + NodesOf(store.leases, fired)
    {
      for i := 0 to |fired|
        invariant eventQueue == old(eventQueue) + NodesOf(store.leases, fired[..i])
      {
        NodesOfStep(store.leases, fired, i);
        NotifyOffline(store.leases.tab[fired[i]].nodeId);
      }
      assert fired[..|fired|] == fired;
    }

    /** The second half of a recovery: nothing is done or logged when no lease was revoked. */
    method RescheduleAndLog(revoked: seq<Id>, node: Id)
      requires Valid()
      modifies store`tasks, store`recoveryEvents
      ensures Valid()
      ensures store.tasks == Rescheduled(old(store.tasks), revoked, OnlineNodes(store.nodes))
      ensures store.recoveryEvents
           == old(store.recoveryEvents) + RescheduleLog(old(store.tasks), revoked, node, OnlineNodes(store.nodes))
    {
      if revoked != [] {
        var rescheduled := rescheduler.RescheduleOrphaned(revoked);
        var status := if rescheduled == |revoked| then "completed" else "partial";
        store.AppendRecoveryEvent(Event("", node, "full_recovery", status));
      }
    }

    /** One recovery. The leases the scan finds expired put their nodes on the queue. */
    method RecoverNode(node: Id, now: int)
      requires Valid()
      modifies this`eventQueue, store`leases, store`taskLeaseIndex, store`tasks, store`recoveryEvents
      ensures Valid()
      ensures State() == Recovered(old(State()), store.nodes, node, now)
      ensures eventQueue == old(eventQueue)
            + NodesOf(old(store.leases), Select(old(store.leases).order, DueSet(old(store.leases), now)))
      ensures RecoverEffect(old(State()), store.nodes, State(), node, now)
      ensures QueueEffect(old(store.leases), now, old(eventQueue), eventQueue)
    {
      ghost var l0 := store.leases;
      var revoked, fired := revoker.RevokeAllForNode(node, now);
      NodesOfSame(l0, store.leases, fired);
      NotifyExpiries(fired);
      ghost var log, d, online := old(store.recoveryEvents), store.tasks, OnlineNodes(store.nodes);
      EventsAssemble(log, d, revoked, node, online);
      RescheduleAndLog(revoked, node);
      RecoveredMeans(old(State()), store.nodes, node, now);
      QueuedMean(l0, now, old(eventQueue));
    }

    /** One turn of the background loop: the oldest queued node is recovered. */
    method RecoverNext(now: int)
      requires Valid()
      modifies this`eventQueue, store`leases, store`taskLeaseIndex, store`tasks, store`recoveryEvents
      ensures Valid()
      ensures old(eventQueue) == [] || old(eventQueue)[0] == "" ==>
        && State() == old(State())
        && eventQueue == if old(eventQueue) == [] then [] else old(eventQueue)[1..]
      ensures old(eventQueue) != [] && old(eventQueue)[0] != "" ==>
        var node := old(eventQueue)[0];
        && State() == Recovered(old(State()), store.nodes, node, now)
        && eventQueue == old(eventQueue)[1..]
             + NodesOf(old(store.leases), Select(old(store.leases).order, DueSet(old(store.leases), now)))
        && RecoverEffect(old(State()), store.nodes, State(), node, now)
        && QueueEffect(old(store.leases), now, old(eventQueue)[1..], eventQueue)
    {
      if eventQueue == [] {
        return;
      }
      var node := eventQueue[0];
      eventQueue := eventQueue[1..];
      if node != "" {
        RecoverNode(node, now);
      }
    }
  }
}
