/** What resolution and the entry points do, field by field, in terms of the table before the call. */
module CoreEffects {
  import opened Dicts
  import opened TaskRules
  import opened Scheduling
  import opened TaskEffects

  // ----- dependency resolution -----

  ghost predicate BlockedFor(t: Task, u: Task, reason: string) {
    && SameDefinition(t, u) && u.assignedTo == t.assignedTo
    && u.status == Blocked && u.version == t.version + 1 && u.failReason == Some(reason)
  }

  ghost predicate Promoted(t: Task, u: Task) {
    SameButStatus(t, u) && u.status == Ready && u.version == t.version + 1
  }

  /** Resolving one task: a failed dependency blocks it, otherwise completed ones promote it. */
  ghost predicate ResolveEffect(d: Db, e: Db, id: Id, promoted: bool) {
    if id !in d.tab || d.tab[id].status != Pending then e == d && !promoted
    else if SomeFailed(d, d.tab[id].dependsOn) then
      OnlyAt(d, e, id) && BlockedFor(d.tab[id], e.tab[id], "dependency failed") && !promoted
    else if AllCompleted(d, d.tab[id].dependsOn) then
      OnlyAt(d, e, id) && Promoted(d.tab[id], e.tab[id]) && promoted
    else e == d && !promoted
  }

  /** `c` is the completed task or, when the propagation `cascades`, one that it promoted. */
  ghost predicate Stirred(d: Db, e: Db, done: Id, c: Id, cascades: bool) {
    c == done || (cascades && Moved(d, e, c, Pending, Ready))
  }

  ghost predicate PropagateAt(d: Db, e: Db, done: Id, x: Id, cascades: bool)
    requires x in d.tab && x in e.tab
  {
    var (t, u) := (d.tab[x], e.tab[x]);
    if t.status == Pending && done in t.dependsOn && AllCompleted(d, t.dependsOn) then Promoted(t, u)
    else if t.status == Pending && SomeFailed(d, t.dependsOn)
            && exists c :: c in t.dependsOn && Stirred(d, e, done, c, cascades)
    then BlockedFor(t, u, "dependency failed")
    else u == t
  }

  /** A propagation promotes the pending dependents of `done` whose dependencies are all completed,
      and blocks the pending tasks with a failed dependency that depend on `done` or on a task it
      promoted. It returns the promoted ones in store order. */
  ghost predicate PropagateEffect(d: Db, e: Db, done: Id, list: seq<Id>, cascades: bool) {
    && SameIds(d, e)
    && (forall x :: x in d.tab ==> PropagateAt(d, e, done, x, cascades))
    && InOrder(d.order, list)
    && forall x :: x in list <==> Moved(d, e, x, Pending, Ready)
  }

  /** Pending dependents of `failed` become blocked with a reason that names it. */
  ghost predicate FailureAt(t: Task, u: Task, failed: Id) {
    if t.status == Pending && failed in t.dependsOn then BlockedFor(t, u, "dependency " + failed + " failed")
    else u == t
  }

  ghost predicate FailureEffect(d: Db, e: Db, failed: Id, list: seq<Id>) {
    && SameIds(d, e)
    && (forall x :: x in d.tab ==> FailureAt(d.tab[x], e.tab[x], failed))
    && InOrder(d.order, list)
    && forall x :: x in list <==> Moved(d, e, x, Pending, Blocked)
  }

  lemma ResolvedMeans(d: Db, id: Id)
    ensures ResolveEffect(d, Resolved(d, id), id, Eligible(d, id))
  {
  }

  lemma PropagatedAt(d: Db, done: Id, depth: nat, x: Id)
    requires depth < 10 && x in d.tab
    ensures PropagateAt(d, Propagated(d, done, depth), done, x, depth < 9)
  {
    var e := Propagated(d, done, depth);
    assert forall c :: Moved(d, e, c, Pending, Ready) <==> c in Promotable(d, done);
    assert forall c :: Stirred(d, e, done, c, depth < 9) <==> c in CascadeCauses(d, done, depth);
  }

  lemma PropagatedMeans(d: Db, done: Id, depth: nat)
    requires d.Valid()
    ensures depth < 10 ==>
      PropagateEffect(d, Propagated(d, done, depth), done, PropagatedIds(d, done, depth), depth < 9)
    ensures depth >= 10 ==> Propagated(d, done, depth) == d && PropagatedIds(d, done, depth) == []
  {
    if depth < 10 {
      forall x | x in d.tab ensures PropagateAt(d, Propagated(d, done, depth), done, x, depth < 9) {
        PropagatedAt(d, done, depth, x);
      }
      SelectInOrder(d.order, Promotable(d, done));
    }
  }

  lemma FailureSpreadAt(d: Db, failed: Id)
    ensures SameIds(d, FailureSpread(d, failed))
    ensures forall x :: x in d.tab ==> FailureAt(d.tab[x], FailureSpread(d, failed).tab[x], failed)
    ensures forall x :: Moved(d, FailureSpread(d, failed), x, Pending, Blocked) <==> x in PendingDependents(d, failed)
  {
  }

  lemma FailureSpreadMeans(d: Db, failed: Id)
    requires d.Valid()
    ensures FailureEffect(d, FailureSpread(d, failed), failed, Select(d.order, PendingDependents(d, failed)))
  {
    FailureSpreadAt(d, failed);
    SelectInOrder(d.order, PendingDependents(d, failed));
  }

  // ----- failing a task -----

  /** The task is failed, its pending dependents are blocked, and nothing else changes. */
  ghost predicate FailEffect(d: Db, e: Db, id: Id, reason: string) {
    if id !in d.tab then e == d
    else
      && SameIds(d, e)
      && SameDefinition(d.tab[id], e.tab[id]) && e.tab[id].assignedTo == d.tab[id].assignedTo
      && e.tab[id].status == Failed && e.tab[id].version == d.tab[id].version + 1
      && e.tab[id].failReason == (if reason != "" then Some(reason) else d.tab[id].failReason)
      && forall x :: x in d.tab && x != id ==> FailureAt(d.tab[x], e.tab[x], id)
  }

  lemma FailFollows(d: Db, d1: Db, e: Db, id: Id, reason: string, list: seq<Id>)
    requires id in d.tab && StatusEffect(d, d1, id, Failed, reason) && FailureEffect(d1, e, id, list)
    ensures FailEffect(d, e, id, reason)
  {
    assert FailureAt(d1.tab[id], e.tab[id], id);
  }

  // ----- completing a task -----

  /** Completed, once `id` is. */
  ghost predicate DoneWith(d: Db, id: Id, deps: seq<Id>) {
    forall dep :: dep in deps ==> dep == id || (dep in d.tab && d.tab[dep].status == Completed)
  }

  ghost predicate CompletedAt(t: Task, u: Task) {
    SameButStatus(t, u) && u.status == Completed && u.version == t.version + 1
  }

  /** The completion of `id` promotes `x`. */
  ghost predicate Freed(d: Db, id: Id, x: Id) {
    && x in d.tab && x != id && d.tab[x].status == Pending
    && id in d.tab[x].dependsOn && DoneWith(d, id, d.tab[x].dependsOn)
  }

  /** `x` has a failed dependency, and one that is `id` or is promoted. */
  ghost predicate Halts(d: Db, id: Id, x: Id) {
    && x in d.tab && x != id && d.tab[x].status == Pending
    && (exists f :: f in d.tab[x].dependsOn && f != id && f in d.tab && d.tab[f].status == Failed)
    && exists c :: c in d.tab[x].dependsOn && (c == id || Freed(d, id, c))
  }

  ghost predicate CompleteAt(d: Db, nodes: Dict<Node>, e: Db, id: Id, x: Id)
    requires x in d.tab && x in e.tab
  {
    var (t, u) := (d.tab[x], e.tab[x]);
    if x == id then CompletedAt(t, u)
    else if Freed(d, id, x) then Started(nodes, t, u, 1)
    else if Halts(d, id, x) then BlockedFor(t, u, "dependency failed")
    else if t.status == Ready then Started(nodes, t, u, 0)
    else u == t
  }

  /** Completion through the core: the task is done; a pending dependent that has nothing left to
      wait for starts on the first able node or is ready; one with a failed dependency is blocked,
      and so is one that waits for a promoted task; waiting ready tasks start too. */
  ghost predicate CompleteEffect(d: Db, nodes: Dict<Node>, e: Db, id: Id) {
    if id !in d.tab then e == d
    else SameIds(d, e) && forall x :: x in d.tab ==> CompleteAt(d, nodes, e, id, x)
  }

  lemma CompletionSeen(d: Db, d1: Db, id: Id, deps: seq<Id>)
    requires id in d.tab && StatusEffect(d, d1, id, Completed, "")
    ensures AllCompleted(d1, deps) <==> DoneWith(d, id, deps)
  {
  }

  lemma BlockedIsHalted(d: Db, d1: Db, d2: Db, id: Id, x: Id)
    requires id in d.tab && StatusEffect(d, d1, id, Completed, "") && x in d.tab && x != id
    requires forall c :: Stirred(d1, d2, id, c, true) <==> c == id || Freed(d, id, c)
    ensures Halts(d, id, x) <==>
      && d.tab[x].status == Pending && SomeFailed(d1, d.tab[x].dependsOn)
      && exists c :: c in d.tab[x].dependsOn && Stirred(d1, d2, id, c, true)
  {
    if SomeFailed(d1, d.tab[x].dependsOn) {
      var f :| f in d.tab[x].dependsOn && f in d1.tab && d1.tab[f].status == Failed;
      assert f != id && d.tab[f].status == Failed;
    }
  }

  /** Where the propagation after the completion leaves `x`. */
  ghost predicate MidwayAt(d: Db, d2: Db, id: Id, x: Id)
    requires x in d.tab && x in d2.tab
  {
    var (t, u) := (d.tab[x], d2.tab[x]);
    if x == id then CompletedAt(t, u)
    else if Freed(d, id, x) then Promoted(t, u)
    else if Halts(d, id, x) then BlockedFor(t, u, "dependency failed")
    else u == t
  }

  lemma MidwayFollows(d: Db, d1: Db, d2: Db, id: Id, list: seq<Id>, x: Id)
    requires id in d.tab && StatusEffect(d, d1, id, Completed, "") && PropagateEffect(d1, d2, id, list, true)
    requires x in d.tab
    requires forall c :: Stirred(d1, d2, id, c, true) <==> c == id || Freed(d, id, c)
    ensures MidwayAt(d, d2, id, x)
  {
    assert PropagateAt(d1, d2, id, x, true);
    if x != id {
      CompletionSeen(d, d1, id, d.tab[x].dependsOn);
      BlockedIsHalted(d, d1, d2, id, x);
    }
  }

  lemma CompleteFollowsAt(d: Db, d2: Db, e: Db, nodes: Dict<Node>, id: Id, x: Id)
    requires x in d.tab && x in d2.tab && MidwayAt(d, d2, id, x) && ScheduleEffect(d2, nodes, e)
    ensures x in e.tab && CompleteAt(d, nodes, e, id, x)
  {
    assert d2.tab[x].status == Ready ==> Started(nodes, d2.tab[x], e.tab[x], 0);
  }

  lemma StirredIsFreed(d: Db, d1: Db, d2: Db, id: Id, list: seq<Id>, c: Id)
    requires id in d.tab && StatusEffect(d, d1, id, Completed, "")
    requires PropagateEffect(d1, d2, id, list, true)
    ensures Stirred(d1, d2, id, c, true) <==> c == id || Freed(d, id, c)
  {
    if c in d.tab {
      assert PropagateAt(d1, d2, id, c, true);
      CompletionSeen(d, d1, id, d1.tab[c].dependsOn);
    }
  }

  lemma CompleteFollows(d: Db, d1: Db, d2: Db, e: Db, nodes: Dict<Node>, id: Id, list: seq<Id>)
    requires id in d.tab && StatusEffect(d, d1, id, Completed, "")
    requires PropagateEffect(d1, d2, id, list, true) && ScheduleEffect(d2, nodes, e)
    ensures CompleteEffect(d, nodes, e, id)
  {
    forall c ensures Stirred(d1, d2, id, c, true) <==> c == id || Freed(d, id, c) {
      StirredIsFreed(d, d1, d2, id, list, c);
    }
    forall x | x in d.tab ensures CompleteAt(d, nodes, e, id, x) {
      MidwayFollows(d, d1, d2, id, list, x);
      CompleteFollowsAt(d, d2, e, nodes, id, x);
    }
  }

  ghost predicate CompleteByScanAt(d: Db, nodes: Dict<Node>, e: Db, id: Id, x: Id)
    requires x in d.tab && x in e.tab
  {
    var (t, u) := (d.tab[x], e.tab[x]);
    if x == id then CompletedAt(t, u)
    else if t.status == Ready || (t.status == Pending && DoneWith(d, id, t.dependsOn)) then Started(nodes, t, u, 0)
    else u == t
  }

  /** Completion through the handler: every pending task with nothing left to wait for starts or is
      ready, and no task is blocked. */
  ghost predicate CompleteByScanEffect(d: Db, nodes: Dict<Node>, e: Db, id: Id) {
    if id !in d.tab then e == d
    else SameIds(d, e) && forall x :: x in d.tab ==> CompleteByScanAt(d, nodes, e, id, x)
  }

  lemma CompleteByScanFollows(d: Db, d1: Db, d2: Db, e: Db, nodes: Dict<Node>, id: Id)
    requires id in d.tab && StatusEffect(d, d1, id, Completed, "")
    requires TriggerEffect(d1, d2) && ScheduleEffect(d2, nodes, e)
    ensures CompleteByScanEffect(d, nodes, e, id)
  {
    forall x | x in d.tab ensures CompleteByScanAt(d, nodes, e, id, x) {
      CompletionSeen(d, d1, id, d.tab[x].dependsOn);
      assert d2.tab[x].status == Ready ==> Started(nodes, d2.tab[x], e.tab[x], 0);
    }
  }

  // ----- submitting a task -----

  /** Made ready by a scan that sees `id` unfinished. */
  ghost predicate Due(d: Db, t: Task, id: Id) {
    t.status == Pending && AllCompleted(d, t.dependsOn) && id !in t.dependsOn
  }

  ghost predicate ScannedAt(t: Task, u: Task, due: bool) {
    SameButStatus(t, u) && u.version == t.version && u.status == if due then Ready else t.status
  }

  /** The new task is ready, and so is every pending task whose dependencies are completed. */
  ghost predicate SubmitEffect(d: Db, e: Db, id: Id, title: string, needs: seq<string>, priority: int, now: int) {
    && e.order == (if id in d.tab then d.order else d.order + [id]) && e.tab.Keys == d.tab.Keys + {id}
    && FreshTask(e.tab[id], title, needs, priority, now, Ready)
    && forall x :: x in d.tab && x != id ==> ScannedAt(d.tab[x], e.tab[x], Due(d, d.tab[x], id))
  }

  lemma SubmitFollows(d: Db, d1: Db, e: Db, id: Id, title: string, needs: seq<string>, priority: int, now: int)
    requires CreateEffect(d, d1, id, title, needs, priority, now) && TriggerEffect(d1, e)
    ensures SubmitEffect(d, e, id, title, needs, priority, now)
  {
    assert forall x :: x in d.tab && x != id ==>
      (AllCompleted(d1, d.tab[x].dependsOn) <==> AllCompleted(d, d.tab[x].dependsOn) && id !in d.tab[x].dependsOn);
  }

  /** The same over the SQL store, when the id is new. */
  lemma StoreSubmitFollows(d: Db, d1: Db, e: Db, id: Id, title: string, needs: seq<string>, priority: int, now: int)
    requires id !in d.tab && StoreCreateEffect(d, d1, id, title, needs, priority, now) && TriggerEffect(d1, e)
    ensures SubmitEffect(d, e, id, title, needs, priority, now)
  {
    assert forall x :: x in d.tab ==>
      (AllCompleted(d1, d.tab[x].dependsOn) <==> AllCompleted(d, d.tab[x].dependsOn) && id !in d.tab[x].dependsOn);
  }

  /** Submitting over the SQL store under an id in use adds nothing; the row, if pending, is ready. */
  ghost predicate ResubmitEffect(d: Db, e: Db, id: Id) {
    && SameIds(d, e)
    && forall x :: x in d.tab ==>
      ScannedAt(d.tab[x], e.tab[x], d.tab[x].status == Pending && (x == id || AllCompleted(d, d.tab[x].dependsOn)))
  }

  lemma ResubmitFollows(d: Db, d1: Db, e: Db, id: Id, title: string, needs: seq<string>, priority: int, now: int)
    requires id in d.tab && StoreCreateEffect(d, d1, id, title, needs, priority, now) && TriggerEffect(d1, e)
    ensures ResubmitEffect(d, e, id)
  {
    assert forall deps :: AllCompleted(d1, deps) <==> AllCompleted(d, deps);
  }

  /** Submission through the handler: the same, and then what is ready starts if some node can run
      it. */
  ghost predicate SubmitAndStartEffect(d: Db, nodes: Dict<Node>, e: Db, id: Id, title: string, needs: seq<string>,
                                       priority: int, now: int)
  {
    && e.order == (if id in d.tab then d.order else d.order + [id]) && e.tab.Keys == d.tab.Keys + {id}
    && Started(nodes, Task(title, needs, [], priority, Ready, None, now, 1, None), e.tab[id], 0)
    && forall x :: x in d.tab && x != id ==>
      if d.tab[x].status == Ready || Due(d, d.tab[x], id) then Started(nodes, d.tab[x], e.tab[x], 0)
      else e.tab[x] == d.tab[x]
  }

  lemma SubmitAndStartFollows(d: Db, d1: Db, e: Db, nodes: Dict<Node>, id: Id, title: string, needs: seq<string>,
                              priority: int, now: int)
    requires SubmitEffect(d, d1, id, title, needs, priority, now) && ScheduleEffect(d1, nodes, e)
    ensures SubmitAndStartEffect(d, nodes, e, id, title, needs, priority, now)
  {
    forall x | x in d.tab && x != id
      ensures if d.tab[x].status == Ready || Due(d, d.tab[x], id) then Started(nodes, d.tab[x], e.tab[x], 0)
              else e.tab[x] == d.tab[x]
    {
      assert ScannedAt(d.tab[x], d1.tab[x], Due(d, d.tab[x], id));
    }
  }
}
