/** What the recovery of a failed node does to leases, tasks and the event log. */
module RecoveryRules {
  import opened Dicts
  import opened TaskRules
  import opened Scheduling
  import opened LeaseRules

  datatype Event = Event(taskId: Id, nodeId: Id, action: string, status: string)

  const NO_NODE_REASON := "no available node for reschedule"

  // ----- revoking -----

  /** The active, unexpired leases held by a node. */
  function HeldBy(leases: Dict<Lease>, node: Id, now: int): set<Id> {
    set id | id in LiveSet(leases, now) && leases.tab[id].nodeId == node
  }

  function RevokedFor(leases: Dict<Lease>, node: Id, now: int): Dict<Lease> {
    Dict(leases.order, map id | id in leases.tab ::
      if id in HeldBy(leases, node, now) then leases.tab[id].(status := Revoked)
      else Scanned(leases, now).tab[id])
  }

  function LeaseTasks(leases: Dict<Lease>, ids: seq<Id>): seq<Id>
    requires forall id :: id in ids ==> id in leases.tab
  {
    seq(|ids|, i requires 0 <= i < |ids| => leases.tab[ids[i]].taskId)
  }

  /** The tasks of the leases a node loses, one entry a lease, in lease order. */
  function OrphanedTasks(leases: Dict<Lease>, node: Id, now: int): seq<Id> {
    LeaseTasks(leases, Select(leases.order, HeldBy(leases, node, now)))
  }

  function RevokeEvents(tasks: seq<Id>, node: Id): seq<Event> {
    seq(|tasks|, i requires 0 <= i < |tasks| => Event(tasks[i], node, "revoke_lease", "completed"))
  }

  // ----- rescheduling -----

  function RescheduledTask(t: Task, online: seq<Node>): Task {
    match FirstFit(online, t.needs)
    case Some(n) => WithStatus(t, Running, "").(assignedTo := Some(n))
    case None => WithStatus(t, Failed, NO_NODE_REASON)
  }

  function RescheduledOne(d: Db, id: Id, online: seq<Node>): Db {
    if id in d.tab then d.Put(id, RescheduledTask(d.tab[id], online)) else d
  }

  function Rescheduled(d: Db, ids: seq<Id>, online: seq<Node>): Db {
    if ids == [] then d
    else RescheduledOne(Rescheduled(d, ids[..|ids| - 1], online), ids[|ids| - 1], online)
  }

  predicate CanMove(d: Db, id: Id, online: seq<Node>) {
    id in d.tab && FirstFit(online, d.tab[id].needs).Some?
  }

  predicate CannotMove(d: Db, id: Id, online: seq<Node>) {
    id in d.tab && FirstFit(online, d.tab[id].needs).None?
  }

  function MovedCount(d: Db, ids: seq<Id>, online: seq<Node>): nat {
    if ids == [] then 0
    else MovedCount(d, ids[..|ids| - 1], online) + (if CanMove(d, ids[|ids| - 1], online) then 1 else 0)
  }

  function FailedCount(d: Db, ids: seq<Id>, online: seq<Node>): nat {
    if ids == [] then 0
    else FailedCount(d, ids[..|ids| - 1], online) + (if CannotMove(d, ids[|ids| - 1], online) then 1 else 0)
  }

  function MissingCount(d: Db, ids: seq<Id>): nat {
    if ids == [] then 0
    else MissingCount(d, ids[..|ids| - 1]) + (if ids[|ids| - 1] !in d.tab then 1 else 0)
  }

  function RescheduleEvent(d: Db, id: Id, online: seq<Node>): seq<Event> {
    if id !in d.tab then []
    else match FirstFit(online, d.tab[id].needs)
      case Some(n) => [Event(id, n, "reschedule", "completed")]
      case None => [Event(id, "", "mark_failed", "completed")]
  }

  function RescheduleEvents(d: Db, ids: seq<Id>, online: seq<Node>): seq<Event> {
    if ids == [] then []
    else RescheduleEvents(d, ids[..|ids| - 1], online) + RescheduleEvent(d, ids[|ids| - 1], online)
  }

  /** What a recovery logs once the leases are revoked: nothing when there were none. */
  function RescheduleLog(d: Db, orphaned: seq<Id>, node: Id, online: seq<Node>): seq<Event> {
    if orphaned == [] then []
    else
      var outcome := if MovedCount(d, orphaned, online) == |orphaned| then "completed" else "partial";
      RescheduleEvents(d, orphaned, online) + [Event("", node, "full_recovery", outcome)]
  }

  /** Everything one recovery appends to the event log. */
  function RecoveryEvents(d: Db, orphaned: seq<Id>, node: Id, online: seq<Node>): seq<Event> {
    RevokeEvents(orphaned, node) + RescheduleLog(d, orphaned, node, online)
  }

  // ----- properties -----

  /** What becomes of a task that lost `leases` leases. */
  function AfterRescheduling(t: Task, leases: nat, online: seq<Node>): Task {
    if leases == 0 then t
    else match FirstFit(online, t.needs)
      case Some(n) => t.(status := Running, assignedTo := Some(n), version := t.version + leases)
      case None => t.(status := Failed, failReason := Some(NO_NODE_REASON), version := t.version + leases)
  }

  lemma AfterOneMore(t: Task, leases: nat, online: seq<Node>)
    ensures AfterRescheduling(AfterRescheduling(t, leases, online), 1, online)
         == AfterRescheduling(t, leases + 1, online)
  {
  }

  lemma CountOneMore(ids: seq<Id>, x: Id)
    requires ids != []
    ensures var front, last := ids[..|ids| - 1], ids[|ids| - 1];
      multiset(ids)[x] == multiset(front)[x] + if x == last then 1 else 0
  {
    assert ids == ids[..|ids| - 1] + [ids[|ids| - 1]];
  }

  lemma RescheduledOneAt(d: Db, id: Id, online: seq<Node>, x: Id)
    requires x in d.tab
    ensures x in RescheduledOne(d, id, online).tab
    ensures RescheduledOne(d, id, online).tab[x] == AfterRescheduling(d.tab[x], if x == id then 1 else 0, online)
  {
  }

  /** A task is rescheduled once for each of its revoked leases; the result is running on the first
      online node that covers it, or failed when there is none. Every other task is unchanged. */
  lemma {:induction false} RescheduledPointwise(d: Db, ids: seq<Id>, online: seq<Node>)
    ensures Rescheduled(d, ids, online).order == d.order
    ensures Rescheduled(d, ids, online).tab.Keys == d.tab.Keys
    ensures forall id :: id in d.tab ==>
      Rescheduled(d, ids, online).tab[id] == AfterRescheduling(d.tab[id], multiset(ids)[id], online)
  {
    if ids == [] {
    } else {
      var front, last := ids[..|ids| - 1], ids[|ids| - 1];
      RescheduledPointwise(d, front, online);
      var before := Rescheduled(d, front, online);
      forall id | id in d.tab
        ensures RescheduledOne(before, last, online).tab[id] == AfterRescheduling(d.tab[id], multiset(ids)[id], online)
      {
        CountOneMore(ids, id);
        RescheduledOneAt(before, last, online, id);
        AfterOneMore(d.tab[id], multiset(front)[id], online);
      }
    }
  }

  /** No revoked lease is lost: each is accounted for as moved, failed or of a missing task, and
      each move or failure is logged. */
  lemma {:induction false} RecoveryConserves(d: Db, ids: seq<Id>, online: seq<Node>)
    ensures |ids| == MovedCount(d, ids, online) + FailedCount(d, ids, online) + MissingCount(d, ids)
    ensures |RescheduleEvents(d, ids, online)| == MovedCount(d, ids, online) + FailedCount(d, ids, online)
  {
    if ids == [] {
    } else {
      RecoveryConserves(d, ids[..|ids| - 1], online);
    }
  }

  lemma {:induction false} AllMoved(d: Db, ids: seq<Id>, online: seq<Node>)
    ensures MovedCount(d, ids, online) <= |ids|
    ensures MovedCount(d, ids, online) == |ids| <==> forall id :: id in ids ==> CanMove(d, id, online)
  {
    if ids == [] {
    } else {
      var front, last := ids[..|ids| - 1], ids[|ids| - 1];
      AllMoved(d, front, online);
      assert forall id :: id in ids <==> id in front || id == last;
    }
  }

  /** The log grows by one entry a revocation, one a move or failure, and a summary when there was
      anything to recover; the summary says completed exactly when every orphan was moved. */
  lemma RecoveryLogGrowth(d: Db, orphaned: seq<Id>, node: Id, online: seq<Node>)
    ensures |RecoveryEvents(d, orphaned, node, online)| == |orphaned| + MovedCount(d, orphaned, online)
      + FailedCount(d, orphaned, online) + if orphaned == [] then 0 else 1
    ensures orphaned != [] ==>
      var log := RecoveryEvents(d, orphaned, node, online);
      var summary := log[|log| - 1];
      && summary.action == "full_recovery" && summary.nodeId == node
      && (summary.status == "completed" <==> forall id :: id in orphaned ==> CanMove(d, id, online))
  {
    RecoveryConserves(d, orphaned, online);
    AllMoved(d, orphaned, online);
    assert "completed" != "partial";
  }

  /** After the revocation the node holds no active unexpired lease; other nodes keep theirs. */
  lemma NodeLosesItsLeases(leases: Dict<Lease>, node: Id, now: int)
    ensures HeldBy(RevokedFor(leases, node, now), node, now) == {}
    ensures forall other :: other != node ==>
      HeldBy(RevokedFor(leases, node, now), other, now) == HeldBy(leases, other, now)
  {
  }

  lemma {:induction false} FirstFitIsOnline(online: seq<Node>, needs: seq<string>)
    requires FirstFit(online, needs).Some?
    ensures exists n :: n in online && n.id == FirstFit(online, needs).value && Covers(n, needs)
  {
    if !Covers(online[0], needs) {
      FirstFitIsOnline(online[1..], needs);
    }
  }

  /** A node already marked not online gets none of the orphaned tasks back. */
  lemma NeverBackToOffline(d: Db, ids: seq<Id>, nodes: Dict<Node>, node: Id)
    requires KeyedNodes(nodes)
    requires node in nodes.tab ==> nodes.tab[node].status != Online
    ensures forall id :: id in ids && CanMove(d, id, OnlineNodes(nodes)) ==>
      Rescheduled(d, ids, OnlineNodes(nodes)).tab.Keys == d.tab.Keys
      && Rescheduled(d, ids, OnlineNodes(nodes)).tab[id].assignedTo != Some(node)
  {
    RescheduledPointwise(d, ids, OnlineNodes(nodes));
    assert forall id :: id in ids ==> multiset(ids)[id] > 0;
    forall id | id in ids && CanMove(d, id, OnlineNodes(nodes))
      ensures FirstFit(OnlineNodes(nodes), d.tab[id].needs) != Some(node)
    {
      FirstFitIsOnline(OnlineNodes(nodes), d.tab[id].needs);
    }
  }
}
