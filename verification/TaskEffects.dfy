/** What each operation on tasks does, field by field. Nothing here is stated through the functions
    that the operations are proved against; the lemmas show that those functions mean this. */
module TaskEffects {
  import opened Dicts
  import opened TaskRules
  import opened Scheduling

  // ----- single tasks -----

  /** Nothing but status, assignee, version and reason differs. */
  ghost predicate SameDefinition(t: Task, u: Task) {
    && u.title == t.title && u.needs == t.needs && u.dependsOn == t.dependsOn
    && u.priority == t.priority && u.createdAt == t.createdAt
  }

  /** Nothing but status and version differs. */
  ghost predicate SameButStatus(t: Task, u: Task) {
    SameDefinition(t, u) && u.assignedTo == t.assignedTo && u.failReason == t.failReason
  }

  ghost predicate FreshTask(t: Task, title: string, needs: seq<string>, priority: int, now: int, status: Status) {
    && t.title == title && t.needs == needs && t.priority == priority && t.createdAt == now
    && t.dependsOn == [] && t.assignedTo == None && t.failReason == None
    && t.version == 1 && t.status == status
  }

  /** In memory the id holds a new pending task, whatever it held before. */
  ghost predicate CreateEffect(d: Db, e: Db, id: Id, title: string, needs: seq<string>, priority: int, now: int) {
    OnlyAt(d, e, id) && FreshTask(e.tab[id], title, needs, priority, now, Pending)
  }

  /** In the SQL store a new id holds a ready task; an old row only goes from pending to ready. */
  ghost predicate StoreCreateEffect(d: Db, e: Db, id: Id, title: string, needs: seq<string>, priority: int, now: int) {
    && OnlyAt(d, e, id)
    && if id !in d.tab then FreshTask(e.tab[id], title, needs, priority, now, Ready)
       else
         && SameButStatus(d.tab[id], e.tab[id]) && e.tab[id].version == d.tab[id].version
         && e.tab[id].status == if d.tab[id].status == Pending then Ready else d.tab[id].status
  }

  /** One status write: the version counts it, and a reason is kept unless a new one is given. */
  ghost predicate StatusEffect(d: Db, e: Db, id: Id, status: Status, reason: string) {
    if id !in d.tab then e == d
    else
      && OnlyAt(d, e, id) && SameDefinition(d.tab[id], e.tab[id])
      && e.tab[id].assignedTo == d.tab[id].assignedTo
      && e.tab[id].status == status && e.tab[id].version == d.tab[id].version + 1
      && e.tab[id].failReason == if reason != "" then Some(reason) else d.tab[id].failReason
  }

  ghost predicate UnblockEffect(d: Db, e: Db, id: Id) {
    if id !in d.tab || d.tab[id].status != Blocked then e == d
    else
      && OnlyAt(d, e, id) && SameButStatus(d.tab[id], e.tab[id])
      && e.tab[id].status == Pending && e.tab[id].version == d.tab[id].version + 1
  }

  /** `demotes` is what only the SQL store does: a ready task given dependencies is pending again. */
  ghost predicate LinkEffect(d: Db, e: Db, id: Id, deps: seq<Id>, demotes: bool) {
    if id !in d.tab then e == d
    else
      && OnlyAt(d, e, id)
      && var (t, u) := (d.tab[id], e.tab[id]);
      && u.title == t.title && u.needs == t.needs && u.priority == t.priority && u.createdAt == t.createdAt
      && u.assignedTo == t.assignedTo && u.failReason == t.failReason
      && u.dependsOn == deps && u.version == t.version + 1
      && u.status == if demotes && deps != [] && t.status == Ready then Pending else t.status
  }

  lemma CreatedMeans(d: Db, id: Id, title: string, needs: seq<string>, priority: int, now: int)
    ensures CreateEffect(d, Created(d, id, title, needs, priority, now), id, title, needs, priority, now)
  {
  }

  lemma StoreCreatedMeans(d: Db, id: Id, title: string, needs: seq<string>, priority: int, now: int)
    ensures StoreCreateEffect(d, StoreCreated(d, id, title, needs, priority, now), id, title, needs, priority, now)
  {
  }

  lemma SetStatusMeans(d: Db, id: Id, status: Status, reason: string)
    ensures StatusEffect(d, SetStatus(d, id, status, reason), id, status, reason)
  {
  }

  lemma UnblockedMeans(d: Db, id: Id)
    ensures UnblockEffect(d, Unblocked(d, id), id)
  {
  }

  lemma LinkedMeans(d: Db, id: Id, deps: seq<Id>)
    ensures LinkEffect(d, Linked(d, id, deps), id, deps, false)
    ensures LinkEffect(d, StoreLinked(d, id, deps), id, deps, true)
  {
  }

  // ----- the full scan -----

  /** Every dependency is there and completed. */
  ghost predicate AllCompleted(d: Db, deps: seq<Id>) {
    forall dep :: dep in deps ==> dep in d.tab && d.tab[dep].status == Completed
  }

  ghost predicate SomeFailed(d: Db, deps: seq<Id>) {
    exists dep :: dep in deps && dep in d.tab && d.tab[dep].status == Failed
  }

  /** The scan makes a pending task ready when its dependencies are completed; it counts no version. */
  ghost predicate TriggerEffect(d: Db, e: Db) {
    && SameIds(d, e)
    && forall x :: x in d.tab ==>
      && SameButStatus(d.tab[x], e.tab[x]) && e.tab[x].version == d.tab[x].version
      && e.tab[x].status
         == if d.tab[x].status == Pending && AllCompleted(d, d.tab[x].dependsOn) then Ready else d.tab[x].status
  }

  ghost predicate Moved(d: Db, e: Db, x: Id, before: Status, after: Status) {
    x in d.tab && x in e.tab && d.tab[x].status == before && e.tab[x].status == after
  }

  /** The tasks that went from one status to another. */
  ghost function MovedSet(d: Db, e: Db, before: Status, after: Status): set<Id> {
    set x | x in d.tab && Moved(d, e, x, before, after)
  }

  lemma TriggeredMeans(d: Db)
    ensures TriggerEffect(d, Triggered(d))
    ensures MovedSet(d, Triggered(d), Pending, Ready) == EligibleSet(d)
  {
    assert forall x :: x in d.tab ==> (AllCompleted(d, d.tab[x].dependsOn) <==> DepsMet(d, d.tab[x]));
  }

  /** The count a scan keeps is that of the tasks it made ready. */
  lemma ScanTotals(d: Db, promoted: nat)
    requires d.Valid() && promoted == |Select(d.order, EligibleSet(d))|
    ensures promoted == |EligibleSet(d)| == |MovedSet(d, Triggered(d), Pending, Ready)|
    ensures TriggerEffect(d, Triggered(d))
  {
    SelectCount(d.order, EligibleSet(d));
    TriggeredMeans(d);
  }

  // ----- scheduling -----

  /** An online node with every needed capability. */
  ghost predicate Able(n: Node, needs: seq<string>) {
    n.status == Online && forall c :: c in needs ==> c in n.capabilities
  }

  ghost predicate AbleAt(nodes: Dict<Node>, order: seq<Id>, k: nat, needs: seq<string>) {
    k < |order| && order[k] in nodes.tab && Able(nodes.tab[order[k]], needs)
  }

  /** `node` is the first able one in the given order of ids. */
  ghost predicate FirstAble(nodes: Dict<Node>, order: seq<Id>, needs: seq<string>, node: Id) {
    exists k :: 0 <= k < |order| && order[k] == node && AbleAt(nodes, order, k, needs)
      && forall j :: 0 <= j < k ==> !AbleAt(nodes, order, j, needs)
  }

  ghost predicate NoneAble(nodes: Dict<Node>, order: seq<Id>, needs: seq<string>) {
    forall k :: 0 <= k < |order| ==> !AbleAt(nodes, order, k, needs)
  }

  /** A task that may start does so on the first able node of the registry, and otherwise is ready.
      `bumps` versions have been counted before. */
  ghost predicate Started(nodes: Dict<Node>, t: Task, u: Task, bumps: nat) {
    && SameDefinition(t, u) && u.failReason == t.failReason
    && if NoneAble(nodes, nodes.order, t.needs)
       then u.status == Ready && u.assignedTo == t.assignedTo && u.version == t.version + bumps
       else
         && u.status == Running && u.version == t.version + bumps + 1
         && u.assignedTo.Some? && FirstAble(nodes, nodes.order, t.needs, u.assignedTo.value)
  }

  /** Every ready task that some online node can run runs on the first such node of the registry. */
  ghost predicate ScheduleEffect(d: Db, nodes: Dict<Node>, e: Db) {
    && SameIds(d, e)
    && forall x :: x in d.tab ==>
      if d.tab[x].status == Ready then Started(nodes, d.tab[x], e.tab[x], 0) else e.tab[x] == d.tab[x]
  }

  lemma {:induction false} FitSnoc(online: seq<Node>, n: Node, needs: seq<string>)
    ensures FirstFit(online + [n], needs)
         == if FirstFit(online, needs).Some? then FirstFit(online, needs)
            else if Covers(n, needs) then Some(n.id) else None
  {
    if online == [] {
    } else {
      assert (online + [n])[1..] == online[1..] + [n];
      FitSnoc(online[1..], n, needs);
    }
  }

  lemma FirstAbleInFront(nodes: Dict<Node>, order: seq<Id>, needs: seq<string>, node: Id, n: nat)
    requires n <= |order| && FirstAble(nodes, order[..n], needs, node)
    ensures FirstAble(nodes, order, needs, node)
  {
    var k :| 0 <= k < n && order[..n][k] == node && AbleAt(nodes, order[..n], k, needs)
      && forall j :: 0 <= j < k ==> !AbleAt(nodes, order[..n], j, needs);
    assert forall j :: 0 <= j < n ==> (AbleAt(nodes, order, j, needs) <==> AbleAt(nodes, order[..n], j, needs));
    assert order[k] == node;
  }

  lemma NoneAbleSnoc(nodes: Dict<Node>, order: seq<Id>, needs: seq<string>)
    requires order != [] && NoneAble(nodes, order[..|order| - 1], needs)
    ensures NoneAble(nodes, order, needs) <==> !AbleAt(nodes, order, |order| - 1, needs)
    ensures AbleAt(nodes, order, |order| - 1, needs) ==> FirstAble(nodes, order, needs, order[|order| - 1])
  {
    var n := |order| - 1;
    assert forall j :: 0 <= j < n ==> (AbleAt(nodes, order, j, needs) <==> AbleAt(nodes, order[..n], j, needs));
  }

  lemma {:induction false} FitIsFirstAble(nodes: Dict<Node>, order: seq<Id>, needs: seq<string>)
    requires KeyedNodes(nodes) && forall id :: id in order ==> id in nodes.tab
    ensures match FirstFit(OnlineAmong(nodes, order), needs)
      case None => NoneAble(nodes, order, needs)
      case Some(node) => FirstAble(nodes, order, needs, node)
  {
    if order == [] {
    } else {
      var n := |order| - 1;
      var online, last := OnlineAmong(nodes, order[..n]), nodes.tab[order[n]];
      FitIsFirstAble(nodes, order[..n], needs);
      FitSnoc(online, last, needs);
      assert online + [] == online;
      if FirstFit(online, needs).Some? {
        FirstAbleInFront(nodes, order, needs, FirstFit(online, needs).value, n);
      } else {
        NoneAbleSnoc(nodes, order, needs);
      }
    }
  }

  lemma FirstAbleIsAble(nodes: Dict<Node>, order: seq<Id>, needs: seq<string>, node: Id)
    requires FirstAble(nodes, order, needs, node)
    ensures !NoneAble(nodes, order, needs)
  {
  }

  lemma FitMeans(nodes: Dict<Node>, needs: seq<string>)
    requires KeyedNodes(nodes)
    ensures FirstFit(OnlineNodes(nodes), needs).None? <==> NoneAble(nodes, nodes.order, needs)
    ensures FirstFit(OnlineNodes(nodes), needs).Some? ==>
      FirstAble(nodes, nodes.order, needs, FirstFit(OnlineNodes(nodes), needs).value)
  {
    FitIsFirstAble(nodes, nodes.order, needs);
    if FirstFit(OnlineNodes(nodes), needs).Some? {
      FirstAbleIsAble(nodes, nodes.order, needs, FirstFit(OnlineNodes(nodes), needs).value);
    }
  }

  lemma ScheduledMeans(d: Db, nodes: Dict<Node>)
    requires KeyedNodes(nodes)
    ensures ScheduleEffect(d, nodes, Scheduled(d, OnlineNodes(nodes)))
    ensures MovedSet(d, Scheduled(d, OnlineNodes(nodes)), Ready, Running) == PlaceableSet(d, OnlineNodes(nodes))
  {
    var e := Scheduled(d, OnlineNodes(nodes));
    forall x | x in d.tab && d.tab[x].status == Ready ensures Started(nodes, d.tab[x], e.tab[x], 0) {
      FitMeans(nodes, d.tab[x].needs);
    }
  }
}
