/** The two tool handlers that change tasks: a mutation, a full scan and a scheduling call. */
module Handlers {
  import opened Dicts
  import opened TaskRules
  import opened Scheduling
  import opened WorkflowCore
  import opened Persistent
  import opened TaskEffects
  import opened DecisionEffects
  import opened CoreEffects

  datatype SubmitReply = TitleRequired | SubmittedReply(status: Status, assignedTo: Option<Id>, scheduled: bool)

  datatype CompleteReply = IdRequired | NotFound | CompletedReply(promoted: nat, scheduled: nat)

  function SubmittedByHandler(d: Db, id: Id, title: string, needs: seq<string>, priority: int, now: int,
                              online: seq<Node>): Db
  {
    Scheduled(Triggered(StoreCreated(d, id, title, needs, priority, now)), online)
  }

  /** The reply reports the task as it was before scheduling: created, and already ready. */
  method HandleClusterSubmit(store: ClusterStore, id: Id, title: string, needs: seq<string>, priority: int, now: int)
    returns (reply: SubmitReply)
    requires store.Valid()
    modifies store`tasks, store`decisionRows, store`nextDecisionId
    ensures store.Valid()
    ensures reply.TitleRequired? <==> title == ""
    ensures title == "" ==> store.tasks == old(store.tasks) && store.Decisions() == old(store.Decisions())
    ensures title != "" && id !in old(store.tasks).tab ==>
      SubmitAndStartEffect(old(store.tasks), store.nodes, store.tasks, id, title, needs, priority, now)
    ensures title != "" ==>
      var (d0, online) := (StoreCreated(old(store.tasks), id, title, needs, priority, now), OnlineNodes(store.nodes));
      var d1 := Triggered(d0);
      && store.tasks == SubmittedByHandler(old(store.tasks), id, title, needs, priority, now, online)
      && reply.status == d0.tab[id].status && reply.assignedTo == d0.tab[id].assignedTo
      && (id !in old(store.tasks).tab ==> reply.status == Ready && reply.assignedTo == None)
      && (reply.scheduled <==> PlaceableSet(d1, online) != {})
      && LogEffect(d1, store.tasks, old(store.Decisions()), store.Decisions())
      && store.Decisions()
         == RecordAll(old(store.Decisions()), DecisionsFor(d1, ReadyInOrder(d1), online), MAX_DECISIONS)
  {
    if title == "" {
      return TitleRequired;
    }
    ghost var d := store.tasks;
    var t := store.CreateTask(id, title, needs, priority, now);
    ghost var d0 := store.tasks;
    var _ := store.TriggerPendingTasks();
    ghost var d1 := store.tasks;
    var scheduled := store.SchedulePending();
    if id !in d.tab {
      StoreSubmitFollows(d, d0, d1, id, title, needs, priority, now);
      SubmitAndStartFollows(d, d1, store.tasks, store.nodes, id, title, needs, priority, now);
    }
    reply := SubmittedReply(t.status, t.assignedTo, scheduled > 0);
  }

  method HandleClusterComplete(store: ClusterStore, id: Id) returns (reply: CompleteReply)
    requires store.Valid()
    modifies store`tasks, store`decisionRows, store`nextDecisionId
    ensures store.Valid()
    ensures reply.IdRequired? <==> id == ""
    ensures reply.NotFound? <==> id != "" && id !in old(store.tasks).tab
    ensures !reply.CompletedReply? ==>
      store.tasks == old(store.tasks) && store.Decisions() == old(store.Decisions())
    ensures reply.CompletedReply? ==>
      var d1 := SetStatus(old(store.tasks), id, Completed, "");
      && store.tasks == CompletedByHandler(old(store.tasks), id, OnlineNodes(store.nodes))
      && CompleteByScanEffect(old(store.tasks), store.nodes, store.tasks, id)
      && reply.promoted == |EligibleSet(d1)|
      && reply.scheduled == |PlaceableSet(Triggered(d1), OnlineNodes(store.nodes))|
      && store.Decisions() == RecordAll(old(store.Decisions()),
           DecisionsFor(Triggered(d1), ReadyInOrder(Triggered(d1)), OnlineNodes(store.nodes)), MAX_DECISIONS)
      && LogEffect(Triggered(d1), store.tasks, old(store.Decisions()), store.Decisions())
  {
    if id == "" {
      return IdRequired;
    }
    if id !in store.tasks.tab {
      return NotFound;
    }
    ghost var d := store.tasks;
    var _ := store.SetTaskStatus(id, Completed, "");
    ghost var d1 := store.tasks;
    var promoted := store.TriggerPendingTasks();
    ghost var d2 := store.tasks;
    var scheduled := store.SchedulePending();
    CompleteByScanFollows(d, d1, d2, store.tasks, store.nodes, id);
    reply := CompletedReply(promoted, scheduled);
  }
}
