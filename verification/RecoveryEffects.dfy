/** What revoking and rescheduling do, field by field. */
module RecoveryEffects {
  import opened Dicts
  import opened TaskRules
  import opened Scheduling
  import opened LeaseRules
  import opened RecoveryRules
  import opened TaskEffects
  import opened LeaseEffects

  // ----- revoking -----

  ghost predicate IsHeld(lease: Lease, node: Id, now: int) {
    IsLive(lease, now) && lease.nodeId == node
  }

  /** The live leases of the node are revoked, due ones expire, and no other lease changes. */
  ghost predicate RevokeEffect(l: Dict<Lease>, e: Dict<Lease>, node: Id, now: int) {
    && SameIds(l, e)
    && forall id :: id in l.tab ==>
      if IsHeld(l.tab[id], node, now) then SameTerms(l.tab[id], e.tab[id]) && e.tab[id].status == Revoked
      else if IsDue(l.tab[id], now) then SameTerms(l.tab[id], e.tab[id]) && e.tab[id].status == Expired
      else e.tab[id] == l.tab[id]
  }

  ghost predicate TasksOfLeases(l: Dict<Lease>, ids: seq<Id>, tasks: seq<Id>) {
    |tasks| == |ids| && forall i :: 0 <= i < |ids| ==> ids[i] in l.tab && tasks[i] == l.tab[ids[i]].taskId
  }

  /** The ids of the leases the node holds, in table order. */
  ghost predicate HeldInOrder(l: Dict<Lease>, node: Id, now: int, ids: seq<Id>) {
    InOrder(l.order, ids) && forall id :: id in ids <==> id in l.tab && IsHeld(l.tab[id], node, now)
  }

  /** One entry for each lease the node holds, in table order: the lease's task. */
  ghost predicate Orphans(l: Dict<Lease>, node: Id, now: int, tasks: seq<Id>) {
    exists ids :: HeldInOrder(l, node, now, ids) && TasksOfLeases(l, ids, tasks)
  }

  /** No revoked task has an index entry any more; the other entries stay. */
  ghost predicate IndexEffect(index: map<Id, Id>, after: map<Id, Id>, revoked: seq<Id>) {
    && (forall t :: t in after <==> t in index && t !in revoked)
    && forall t :: t in after ==> after[t] == index[t]
  }

  ghost predicate RevocationsLogged(revoked: seq<Id>, node: Id, log: seq<Event>) {
    && |log| == |revoked|
    && forall i :: 0 <= i < |log| ==>
      && log[i].taskId == revoked[i] && log[i].nodeId == node
      && log[i].action == "revoke_lease" && log[i].status == "completed"
  }

  lemma RevokedForMeans(l: Dict<Lease>, node: Id, now: int)
    ensures RevokeEffect(l, RevokedFor(l, node, now), node, now)
  {
  }

  lemma OrphanedMeans(l: Dict<Lease>, node: Id, now: int)
    requires l.Valid()
    ensures Orphans(l, node, now, OrphanedTasks(l, node, now))
  {
    var ids := Select(l.order, HeldBy(l, node, now));
    SelectInOrder(l.order, HeldBy(l, node, now));
    assert forall i :: 0 <= i < |ids| ==> ids[i] in ids;
    assert HeldInOrder(l, node, now, ids) && TasksOfLeases(l, ids, OrphanedTasks(l, node, now));
  }

  lemma RevokeEventsMean(revoked: seq<Id>, node: Id)
    ensures RevocationsLogged(revoked, node, RevokeEvents(revoked, node))
  {
  }

  // ----- rescheduling -----

  /** An orphan runs on the first able node of the registry; with none it fails and says so. It is
      counted once for each lease lost. */
  ghost predicate Relocated(nodes: Dict<Node>, t: Task, u: Task, leases: nat) {
    && SameDefinition(t, u) && u.version == t.version + leases
    && if NoneAble(nodes, nodes.order, t.needs)
       then
         && u.status == Failed && u.assignedTo == t.assignedTo
         && u.failReason == Some("no available node for reschedule")
       else
         && u.status == Running && u.failReason == t.failReason
         && u.assignedTo.Some? && FirstAble(nodes, nodes.order, t.needs, u.assignedTo.value)
  }

  ghost predicate RescheduleEffect(d: Db, nodes: Dict<Node>, e: Db, orphaned: seq<Id>) {
    && SameIds(d, e)
    && forall x :: x in d.tab ==>
      if x in orphaned then Relocated(nodes, d.tab[x], e.tab[x], multiset(orphaned)[x]) else e.tab[x] == d.tab[x]
  }

  /** The entry logged for an orphan that is found. */
  ghost predicate RelocationLogged(d: Db, nodes: Dict<Node>, id: Id, x: Event)
    requires id in d.tab
  {
    && x.taskId == id && x.status == "completed"
    && if NoneAble(nodes, nodes.order, d.tab[id].needs) then x.action == "mark_failed" && x.nodeId == ""
       else x.action == "reschedule" && FirstAble(nodes, nodes.order, d.tab[id].needs, x.nodeId)
  }

  /** The orphans that are tasks of the store. */
  function Found(d: Db, orphaned: seq<Id>): seq<Id> {
    if orphaned == [] then []
    else
      var last := orphaned[|orphaned| - 1];
      Found(d, orphaned[..|orphaned| - 1]) + if last in d.tab then [last] else []
  }

  /** One entry for each orphan found, in turn. */
  ghost predicate RelocationsLogged(d: Db, nodes: Dict<Node>, orphaned: seq<Id>, log: seq<Event>) {
    && |log| == |Found(d, orphaned)|
    && forall i :: 0 <= i < |log| ==>
      Found(d, orphaned)[i] in d.tab && RelocationLogged(d, nodes, Found(d, orphaned)[i], log[i])
  }

  ghost predicate AllRelocated(d: Db, nodes: Dict<Node>, orphaned: seq<Id>) {
    forall id :: id in orphaned ==> id in d.tab && !NoneAble(nodes, nodes.order, d.tab[id].needs)
  }

  lemma RelocatedMeans(nodes: Dict<Node>, t: Task, leases: nat)
    requires KeyedNodes(nodes) && leases > 0
    ensures Relocated(nodes, t, AfterRescheduling(t, leases, OnlineNodes(nodes)), leases)
  {
    FitMeans(nodes, t.needs);
  }

  lemma RescheduledMeans(d: Db, nodes: Dict<Node>, orphaned: seq<Id>)
    requires KeyedNodes(nodes)
    ensures RescheduleEffect(d, nodes, Rescheduled(d, orphaned, OnlineNodes(nodes)), orphaned)
  {
    RescheduledPointwise(d, orphaned, OnlineNodes(nodes));
    var e := Rescheduled(d, orphaned, OnlineNodes(nodes));
    forall x | x in d.tab
      ensures if x in orphaned then Relocated(nodes, d.tab[x], e.tab[x], multiset(orphaned)[x])
              else e.tab[x] == d.tab[x]
    {
      if x in orphaned {
        RelocatedMeans(nodes, d.tab[x], multiset(orphaned)[x]);
      }
    }
  }

  lemma RescheduledOneMeans(d: Db, nodes: Dict<Node>, id: Id)
    requires KeyedNodes(nodes) && id in d.tab
    ensures RescheduleEffect(d, nodes, RescheduledOne(d, id, OnlineNodes(nodes)), [id])
  {
    RescheduledMeans(d, nodes, [id]);
    assert [id][..0] == [];
  }

  lemma RescheduleEventMeans(d: Db, nodes: Dict<Node>, id: Id)
    requires KeyedNodes(nodes) && id in d.tab
    ensures |RescheduleEvent(d, id, OnlineNodes(nodes))| == 1
    ensures RelocationLogged(d, nodes, id, RescheduleEvent(d, id, OnlineNodes(nodes))[0])
    ensures CanMove(d, id, OnlineNodes(nodes)) <==> !NoneAble(nodes, nodes.order, d.tab[id].needs)
  {
    FitMeans(nodes, d.tab[id].needs);
  }

  /** One orphan is relocated, with one entry in the log, and told apart by whether a node was able. */
  ghost predicate RelocateEffect(d: Db, nodes: Dict<Node>, e: Db, id: Id, before: seq<Event>, after: seq<Event>,
                                 moved: bool)
    requires id in d.tab
  {
    && RescheduleEffect(d, nodes, e, [id])
    && (moved <==> !NoneAble(nodes, nodes.order, d.tab[id].needs))
    && |after| == |before| + 1 && before <= after
    && RelocationLogged(d, nodes, id, after[|before|])
  }

  lemma RelocateMeans(d: Db, nodes: Dict<Node>, id: Id, before: seq<Event>)
    requires KeyedNodes(nodes) && id in d.tab
    ensures var online := OnlineNodes(nodes);
      RelocateEffect(d, nodes, RescheduledOne(d, id, online), id, before, before + RescheduleEvent(d, id, online),
                     CanMove(d, id, online))
  {
    RescheduledOneMeans(d, nodes, id);
    RescheduleEventMeans(d, nodes, id);
  }

  lemma {:induction false} RescheduleEventsMean(d: Db, nodes: Dict<Node>, orphaned: seq<Id>)
    requires KeyedNodes(nodes)
    ensures RelocationsLogged(d, nodes, orphaned, RescheduleEvents(d, orphaned, OnlineNodes(nodes)))
  {
    if orphaned == [] {
    } else {
      var last := orphaned[|orphaned| - 1];
      RescheduleEventsMean(d, nodes, orphaned[..|orphaned| - 1]);
      if last in d.tab {
        RescheduleEventMeans(d, nodes, last);
      }
    }
  }

  lemma AllMovedMeans(d: Db, nodes: Dict<Node>, orphaned: seq<Id>)
    requires KeyedNodes(nodes)
    ensures MovedCount(d, orphaned, OnlineNodes(nodes)) == |orphaned| <==> AllRelocated(d, nodes, orphaned)
  {
    AllMoved(d, orphaned, OnlineNodes(nodes));
    forall id | id in orphaned
      ensures CanMove(d, id, OnlineNodes(nodes)) <==> id in d.tab && !NoneAble(nodes, nodes.order, d.tab[id].needs)
    {
      if id in d.tab {
        FitMeans(nodes, d.tab[id].needs);
      }
    }
  }

  // ----- a whole recovery -----

  datatype Books = Books(tasks: Db, leases: Dict<Lease>, index: map<Id, Id>, log: seq<Event>)

  ghost predicate SummaryLogged(d: Db, nodes: Dict<Node>, orphaned: seq<Id>, node: Id, log: seq<Event>) {
    if orphaned == [] then log == []
    else
      && |log| == 1
      && log[0].taskId == "" && log[0].nodeId == node && log[0].action == "full_recovery"
      && log[0].status == if AllRelocated(d, nodes, orphaned) then "completed" else "partial"
  }

  /** What is known of the orphans of one recovery and of the three parts of its log. */
  ghost predicate Recovers(b: Books, nodes: Dict<Node>, e: Books, node: Id, now: int,
                           orphaned: seq<Id>, revocations: seq<Event>, relocations: seq<Event>, summary: seq<Event>)
  {
    && Orphans(b.leases, node, now, orphaned)
    && IndexEffect(b.index, e.index, orphaned)
    && RescheduleEffect(b.tasks, nodes, e.tasks, orphaned)
    && RevocationsLogged(orphaned, node, revocations)
    && RelocationsLogged(b.tasks, nodes, orphaned, relocations)
    && SummaryLogged(b.tasks, nodes, orphaned, node, summary)
    && e.log == b.log + revocations + relocations + summary
  }

  /** A recovery revokes what the node holds, relocates those tasks and logs all of it. */
  ghost predicate RecoverEffect(b: Books, nodes: Dict<Node>, e: Books, node: Id, now: int) {
    && RevokeEffect(b.leases, e.leases, node, now)
    && exists orphaned, revocations, relocations, summary ::
      Recovers(b, nodes, e, node, now, orphaned, revocations, relocations, summary)
  }

  ghost predicate DueInOrder(l: Dict<Lease>, now: int, ids: seq<Id>) {
    InOrder(l.order, ids) && forall id :: id in ids <==> id in l.tab && IsDue(l.tab[id], now)
  }

  ghost predicate NodesOfLeases(l: Dict<Lease>, ids: seq<Id>, nodes: seq<Id>) {
    |nodes| == |ids| && forall i :: 0 <= i < |ids| ==> ids[i] in l.tab && nodes[i] == l.tab[ids[i]].nodeId
  }

  /** The nodes of the leases found due are queued, in table order. */
  ghost predicate QueueEffect(l: Dict<Lease>, now: int, before: seq<Id>, after: seq<Id>) {
    exists ids, more :: DueInOrder(l, now, ids) && NodesOfLeases(l, ids, more) && after == before + more
  }

  /** The table, the index and the log a recovery must leave. */
  function Recovered(b: Books, nodes: Dict<Node>, node: Id, now: int): Books
    requires nodes.Valid()
  {
    var orphaned := OrphanedTasks(b.leases, node, now);
    Books(Rescheduled(b.tasks, orphaned, OnlineNodes(nodes)), RevokedFor(b.leases, node, now),
          b.index - Elements(orphaned), b.log + RecoveryEvents(b.tasks, orphaned, node, OnlineNodes(nodes)))
  }

  /** The last entry of a recovery's log, if there was anything to recover. */
  function Summary(d: Db, orphaned: seq<Id>, node: Id, online: seq<Node>): seq<Event> {
    if orphaned == [] then []
    else
      var outcome := if MovedCount(d, orphaned, online) == |orphaned| then "completed" else "partial";
      [Event("", node, "full_recovery", outcome)]
  }

  lemma SummaryMeans(d: Db, nodes: Dict<Node>, orphaned: seq<Id>, node: Id)
    requires KeyedNodes(nodes)
    ensures SummaryLogged(d, nodes, orphaned, node, Summary(d, orphaned, node, OnlineNodes(nodes)))
  {
    AllMovedMeans(d, nodes, orphaned);
  }

  lemma LogInThreeParts(before: seq<Event>, d: Db, orphaned: seq<Id>, node: Id, online: seq<Node>)
    ensures before + RecoveryEvents(d, orphaned, node, online)
         == before + RevokeEvents(orphaned, node) + RescheduleEvents(d, orphaned, online)
            + Summary(d, orphaned, node, online)
  {
    assert RescheduleLog(d, orphaned, node, online)
        == RescheduleEvents(d, orphaned, online) + Summary(d, orphaned, node, online);
  }

  lemma IndexMeans(index: map<Id, Id>, revoked: seq<Id>)
    ensures IndexEffect(index, index - Elements(revoked), revoked)
  {
  }

  lemma RecoveredParts(b: Books, nodes: Dict<Node>, node: Id, now: int)
    requires KeyedNodes(nodes) && b.leases.Valid()
    ensures var (orphaned, online) := (OrphanedTasks(b.leases, node, now), OnlineNodes(nodes));
      Recovers(b, nodes, Recovered(b, nodes, node, now), node, now, orphaned,
        RevokeEvents(orphaned, node), RescheduleEvents(b.tasks, orphaned, online),
        Summary(b.tasks, orphaned, node, online))
  {
    var orphaned := OrphanedTasks(b.leases, node, now);
    OrphanedMeans(b.leases, node, now);
    IndexMeans(b.index, orphaned);
    RescheduledMeans(b.tasks, nodes, orphaned);
    RevokeEventsMean(orphaned, node);
    RescheduleEventsMean(b.tasks, nodes, orphaned);
    SummaryMeans(b.tasks, nodes, orphaned, node);
    LogInThreeParts(b.log, b.tasks, orphaned, node, OnlineNodes(nodes));
  }

  lemma RecoveredMeans(b: Books, nodes: Dict<Node>, node: Id, now: int)
    requires KeyedNodes(nodes) && b.leases.Valid()
    ensures RecoverEffect(b, nodes, Recovered(b, nodes, node, now), node, now)
  {
    RevokedForMeans(b.leases, node, now);
    RecoveredParts(b, nodes, node, now);
  }
}
