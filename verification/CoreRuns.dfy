/** Runs of the orchestration entry points: closedness, and the agreement of the incremental with
    the full-scan completion path. */
module CoreRuns {
  import opened Dicts
  import opened TaskRules
  import opened Scheduling
  import opened RecoveryRules
  import opened WorkflowCore

  datatype CoreOp =
    | Submit(id: Id, title: string, needs: seq<string>, priority: int, now: int)
    | Trigger
    | Schedule(online: seq<Node>)
    | Complete(id: Id, online: seq<Node>)
    | CompleteByScan(id: Id, online: seq<Node>)
    | Fail(id: Id, reason: string)
    | Recover(orphaned: seq<Id>, online: seq<Node>)

  function CoreStep(d: Db, op: CoreOp): Db {
    match op
    case Submit(id, title, needs, priority, now) => Submitted(d, id, title, needs, priority, now)
    case Trigger => Triggered(d)
    case Schedule(online) => Scheduled(d, online)
    case Complete(id, online) => CompletedByCore(d, id, online)
    case CompleteByScan(id, online) => CompletedByHandler(d, id, online)
    case Fail(id, reason) => FailedByCore(d, id, reason)
    case Recover(orphaned, online) => Rescheduled(d, orphaned, online)
  }

  function CoreRun(d: Db, ops: seq<CoreOp>): Db {
    if ops == [] then d else CoreStep(CoreRun(d, ops[..|ops| - 1]), ops[|ops| - 1])
  }

  // ----- closedness -----

  /** A table in which no task became pending or completed, and no pending task's dependencies
      changed, has no new eligible task. */
  lemma StaysClosed(d: Db, e: Db)
    requires Closed(d)
    requires forall id :: HasStatus(e, id, Pending) ==>
      HasStatus(d, id, Pending) && e.tab[id].dependsOn == d.tab[id].dependsOn
    requires forall id :: IsDone(e, id) ==> IsDone(d, id)
    ensures Closed(e)
  {
    assert forall id :: Eligible(e, id) ==> Eligible(d, id);
  }

  lemma TriggerCloses(d: Db)
    ensures Closed(Triggered(d))
  {
    var e := Triggered(d);
    assert forall x :: IsDone(e, x) <==> IsDone(d, x);
    assert forall id :: Eligible(e, id) ==> Eligible(d, id);
  }

  /** From a closed state, what the completion of a task makes eligible depends on that task: the
      incremental promotion is exactly the full scan's, and it leaves the state closed. */
  lemma IncrementalIsFullScan(d: Db, id: Id)
    requires Closed(d) && id in d.tab
    ensures var d1 := SetStatus(d, id, Completed, "");
      && Promotable(d1, id) == EligibleSet(d1)
      && PropagatedIds(d1, id, 0) == Select(d1.order, EligibleSet(d1))
      && Closed(Propagated(d1, id, 0))
  {
    var d1 := SetStatus(d, id, Completed, "");
    assert forall dep :: dep != id ==> (IsDone(d1, dep) <==> IsDone(d, dep));
    assert forall x :: Eligible(d1, x) && id !in d1.tab[x].dependsOn ==> Eligible(d, x);
    assert Promotable(d1, id) == EligibleSet(d1);
    var e := Propagated(d1, id, 0);
    assert forall y :: IsDone(e, y) <==> IsDone(d1, y);
    assert forall x :: Eligible(e, x) ==> Eligible(d1, x);
  }

  /** A recovery makes no task pending or completed. */
  lemma RecoveryKeepsClosed(d: Db, orphaned: seq<Id>, online: seq<Node>)
    requires Closed(d)
    ensures Closed(Rescheduled(d, orphaned, online))
  {
    RescheduledPointwise(d, orphaned, online);
    StaysClosed(d, Rescheduled(d, orphaned, online));
  }

  /** Closedness is kept by every entry point, whatever its arguments. */
  lemma ClosedStep(d: Db, op: CoreOp)
    requires Closed(d)
    ensures Closed(CoreStep(d, op))
  {
    match op
    case Submit(id, title, needs, priority, now) => TriggerCloses(Created(d, id, title, needs, priority, now));
    case Trigger => TriggerCloses(d);
    case Schedule(online) => StaysClosed(d, Scheduled(d, online));
    case Complete(id, online) =>
      if id in d.tab {
        IncrementalIsFullScan(d, id);
        var e := Propagated(SetStatus(d, id, Completed, ""), id, 0);
        StaysClosed(e, Scheduled(e, online));
      }
    case CompleteByScan(id, online) =>
      if id in d.tab {
        TriggerCloses(SetStatus(d, id, Completed, ""));
        var e := Triggered(SetStatus(d, id, Completed, ""));
        StaysClosed(e, Scheduled(e, online));
      }
    case Fail(id, reason) => StaysClosed(d, FailedByCore(d, id, reason));
    case Recover(orphaned, online) => RecoveryKeepsClosed(d, orphaned, online);
  }

  lemma {:induction false} ClosedOverRuns(d: Db, ops: seq<CoreOp>)
    requires Closed(d)
    ensures Closed(CoreRun(d, ops))
  {
    if ops == [] {
    } else {
      ClosedOverRuns(d, ops[..|ops| - 1]);
      ClosedStep(CoreRun(d, ops[..|ops| - 1]), ops[|ops| - 1]);
    }
  }

  /** Editing dependencies is what can leave an eligible pending task behind: it keeps a closed
      state closed exactly when the edited task is not pending or its new dependencies are unmet. */
  lemma LinkingKeepsClosed(d: Db, id: Id, deps: seq<Id>)
    requires Closed(d) && id in d.tab
    ensures Closed(Linked(d, id, deps)) <==>
      (d.tab[id].status == Pending ==> exists dep :: dep in deps && !IsDone(d, dep))
  {
    var e := Linked(d, id, deps);
    assert forall x :: IsDone(e, x) <==> IsDone(d, x);
    assert forall x :: x != id && Eligible(e, x) ==> Eligible(d, x);
    assert Eligible(e, id) <==> d.tab[id].status == Pending && forall dep :: dep in deps ==> IsDone(d, dep);
  }

  // ----- the two completion paths -----

  ghost predicate SameAt(a: Db, b: Db, x: Id) {
    x in a.tab && x in b.tab && a.tab[x].status == b.tab[x].status && a.tab[x].assignedTo == b.tab[x].assignedTo
  }

  ghost predicate SameOutcome(a: Db, b: Db) {
    a.tab.Keys == b.tab.Keys && forall x :: x in a.tab ==> SameAt(a, b, x)
  }

  /** The tasks that the incremental path blocks and the full scan leaves pending. */
  function OnlyCoreBlocks(d: Db, id: Id): set<Id> {
    Blockable(SetStatus(d, id, Completed, ""), CascadeCauses(SetStatus(d, id, Completed, ""), id, 0))
  }

  lemma BlockableIsUnmet(d: Db, causes: set<Id>)
    ensures forall x :: x in Blockable(d, causes) ==> x in d.tab && !Eligible(d, x)
  {
    forall x | x in Blockable(d, causes) ensures !Eligible(d, x) {
      var dep :| dep in d.tab[x].dependsOn && dep in d.tab && d.tab[dep].status == Failed;
      assert !IsDone(d, dep);
    }
  }

  /** Where the incremental path leaves a task, in terms of where the full scan leaves it. */
  lemma PathsPointwise(d: Db, id: Id, online: seq<Node>, x: Id)
    requires Closed(d) && id in d.tab && x in d.tab
    ensures x in CompletedByCore(d, id, online).tab && x in CompletedByHandler(d, id, online).tab
    ensures SameAt(CompletedByCore(d, id, online), CompletedByHandler(d, id, online), x)
       <==> x !in OnlyCoreBlocks(d, id)
    ensures x !in OnlyCoreBlocks(d, id) ==>
      CompletedByCore(d, id, online).tab[x].version == CompletedByHandler(d, id, online).tab[x].version
        + if Eligible(SetStatus(d, id, Completed, ""), x) then 1 else 0
  {
    IncrementalIsFullScan(d, id);
    BlockableIsUnmet(SetStatus(d, id, Completed, ""), CascadeCauses(SetStatus(d, id, Completed, ""), id, 0));
  }

  lemma OutcomesDifferOn(a: Db, b: Db, differ: set<Id>)
    requires a.tab.Keys == b.tab.Keys && differ <= a.tab.Keys
    requires forall x :: x in a.tab ==> (SameAt(a, b, x) <==> x !in differ)
    ensures SameOutcome(a, b) <==> differ == {}
  {
    if differ != {} {
      var x :| x in differ;
      assert !SameAt(a, b, x);
    }
  }

  /** From a closed state the two completion paths give every task the same status and assignee
      exactly when the incremental one has nothing to block. */
  lemma CompletionPathsAgree(d: Db, id: Id, online: seq<Node>)
    requires Closed(d) && id in d.tab
    ensures SameOutcome(CompletedByCore(d, id, online), CompletedByHandler(d, id, online))
       <==> OnlyCoreBlocks(d, id) == {}
  {
    forall x | x in d.tab
      ensures SameAt(CompletedByCore(d, id, online), CompletedByHandler(d, id, online), x)
         <==> x !in OnlyCoreBlocks(d, id)
    {
      PathsPointwise(d, id, online, x);
    }
    OutcomesDifferOn(CompletedByCore(d, id, online), CompletedByHandler(d, id, online), OnlyCoreBlocks(d, id));
  }

  lemma PathsPart(d: Db, id: Id, online: seq<Node>, x: Id)
    requires Closed(d) && id in d.tab && x in OnlyCoreBlocks(d, id)
    ensures HasStatus(CompletedByCore(d, id, online), x, Blocked)
    ensures HasStatus(CompletedByHandler(d, id, online), x, Pending)
    ensures !SameOutcome(CompletedByCore(d, id, online), CompletedByHandler(d, id, online))
  {
    IncrementalIsFullScan(d, id);
    BlockableIsUnmet(SetStatus(d, id, Completed, ""), CascadeCauses(SetStatus(d, id, Completed, ""), id, 0));
    assert !SameAt(CompletedByCore(d, id, online), CompletedByHandler(d, id, online), x);
  }

  lemma FailedBefore(d: Db, e: Db, t: Task)
    requires forall id :: HasStatus(e, id, Failed) ==> HasStatus(d, id, Failed)
    ensures DepFailed(e, t) ==> DepFailed(d, t)
  {
    if DepFailed(e, t) {
      var dep :| dep in t.dependsOn && dep in e.tab && e.tab[dep].status == Failed;
      assert HasStatus(d, dep, Failed);
    }
  }

  /** In particular they agree when no pending task has a failed dependency. */
  lemma NoFailuresNoDifference(d: Db, id: Id, online: seq<Node>)
    requires Closed(d) && id in d.tab
    requires forall x :: HasStatus(d, x, Pending) ==> !DepFailed(d, d.tab[x])
    ensures SameOutcome(CompletedByCore(d, id, online), CompletedByHandler(d, id, online))
  {
    var d1 := SetStatus(d, id, Completed, "");
    forall x | x in d1.tab && d1.tab[x].status == Pending ensures !DepFailed(d1, d1.tab[x]) {
      FailedBefore(d, d1, d1.tab[x]);
      assert HasStatus(d, x, Pending);
    }
    CompletionPathsAgree(d, id, online);
  }
}
