/** Containment when the online nodes stay the same and no task is submitted: a missing dependency
    and a task that no node covers then stop a chain too. */
module FixedCluster {
  import opened Dicts
  import opened TaskRules
  import opened Scheduling
  import opened RecoveryRules
  import opened WorkflowCore
  import opened CoreRuns
  import opened Containment

  /** Dependencies that name no task. */
  function Missing(d: Db): set<Id> {
    set id, dep | id in d.tab && dep in d.tab[id].dependsOn && dep !in d.tab :: dep
  }

  /** Tasks that wait for a node, or will, and that no online node covers. */
  function Uncovered(d: Db, online: seq<Node>): set<Id> {
    set id | id in d.tab && (d.tab[id].status == Pending || d.tab[id].status == Ready)
          && FirstFit(online, d.tab[id].needs).None?
  }

  function Stops(d: Db, online: seq<Node>): set<Id> {
    Halted(d) + Missing(d) + Uncovered(d, online)
  }

  lemma SameGraphSameMissing(d: Db, e: Db)
    requires e.tab.Keys == d.tab.Keys && forall x :: x in d.tab ==> e.tab[x].dependsOn == d.tab[x].dependsOn
    ensures Missing(e) == Missing(d)
  {
  }

  predicate FixedOp(op: CoreOp, online: seq<Node>) {
    match op
    case Submit(_, _, _, _, _) => false
    case Trigger => true
    case Schedule(nodes) => nodes == online
    case Complete(_, nodes) => nodes == online
    case CompleteByScan(_, nodes) => nodes == online
    case Fail(_, _) => true
    case Recover(_, nodes) => nodes == online
  }

  /** Only running tasks are completed, nothing is submitted, and the online nodes never change. */
  predicate FixedRun(d: Db, ops: seq<CoreOp>, online: seq<Node>) {
    LegalRun(d, ops) && forall op :: op in ops ==> FixedOp(op, online)
  }

  predicate Idle(d: Db, id: Id) {
    !HasStatus(d, id, Running) && !HasStatus(d, id, Completed)
  }

  lemma StuckAreIdle(d: Db, s: set<Id>, online: seq<Node>)
    requires StuckOn(d, Stops(d, online), s)
    ensures forall x :: x in s ==> Idle(d, x)
    ensures forall x :: x in s && HasStatus(d, x, Ready) ==> !Placeable(d, x, online)
    ensures forall x :: x in s && x !in Stops(d, online) ==> !Eligible(d, x)
  {
    forall x | x in s
      ensures Idle(d, x) && (HasStatus(d, x, Ready) ==> !Placeable(d, x, online))
      ensures x !in Stops(d, online) ==> !Eligible(d, x)
    {
      assert Held(d, Stops(d, online), s, x);
      if x !in Stops(d, online) {
        var dep :| dep in d.tab[x].dependsOn && dep in s;
        assert Held(d, Stops(d, online), s, dep);
        assert !IsDone(d, dep);
      }
    }
  }

  /** A step that keeps the graph, halts or keeps the members of `s` that wait, and promotes only
      what is eligible. */
  ghost predicate KeepsIdle(d: Db, e: Db, s: set<Id>) {
    && e.tab.Keys == d.tab.Keys
    && (forall x :: x in d.tab ==> e.tab[x].dependsOn == d.tab[x].dependsOn && e.tab[x].needs == d.tab[x].needs)
    && forall x :: x in s && x in d.tab && Idle(d, x) && !HaltedStatus(e.tab[x].status) ==>
      e.tab[x].status == d.tab[x].status || (Eligible(d, x) && e.tab[x].status == Ready)
  }

  lemma KeptIdleIsStuck(d: Db, e: Db, s: set<Id>, online: seq<Node>)
    requires StuckOn(d, Stops(d, online), s) && KeepsIdle(d, e, s)
    ensures StuckOn(e, Stops(e, online), s)
  {
    StuckAreIdle(d, s, online);
    SameGraphSameMissing(d, e);
    forall x | x in s ensures Held(e, Stops(e, online), s, x) {
      assert Held(d, Stops(d, online), s, x);
    }
  }

  lemma ScanKeepsStuck(d: Db, s: set<Id>, online: seq<Node>)
    requires StuckOn(d, Stops(d, online), s)
    ensures StuckOn(Triggered(d), Stops(Triggered(d), online), s)
    ensures StuckOn(Scheduled(d, online), Stops(Scheduled(d, online), online), s)
  {
    StuckAreIdle(d, s, online);
    KeptIdleIsStuck(d, Triggered(d), s, online);
    KeptIdleIsStuck(d, Scheduled(d, online), s, online);
  }

  lemma CompletionKeepsStuck(d: Db, s: set<Id>, id: Id, online: seq<Node>)
    requires StuckOn(d, Stops(d, online), s) && HasStatus(d, id, Running)
    ensures var d1 := SetStatus(d, id, Completed, ""); StuckOn(d1, Stops(d1, online), s)
  {
    StuckAreIdle(d, s, online);
    KeptIdleIsStuck(d, SetStatus(d, id, Completed, ""), s, online);
  }

  lemma PropagationKeepsStuck(d: Db, s: set<Id>, id: Id, online: seq<Node>)
    requires StuckOn(d, Stops(d, online), s)
    ensures StuckOn(Propagated(d, id, 0), Stops(Propagated(d, id, 0), online), s)
  {
    KeptIdleIsStuck(d, Propagated(d, id, 0), s, online);
  }

  lemma FailureKeepsStuck(d: Db, s: set<Id>, id: Id, reason: string, online: seq<Node>)
    requires StuckOn(d, Stops(d, online), s)
    ensures StuckOn(FailedByCore(d, id, reason), Stops(FailedByCore(d, id, reason), online), s)
  {
    FailureKeepsIdle(d, s, id, reason);
    KeptIdleIsStuck(d, FailedByCore(d, id, reason), s, online);
  }

  lemma FailureKeepsIdle(d: Db, s: set<Id>, id: Id, reason: string)
    ensures KeepsIdle(d, FailedByCore(d, id, reason), s)
  {
  }

  lemma RecoveryKeepsAllStuck(d: Db, s: set<Id>, orphaned: seq<Id>, online: seq<Node>)
    requires StuckOn(d, Stops(d, online), s) && OrphansRunning(d, orphaned)
    ensures StuckOn(Rescheduled(d, orphaned, online), Stops(Rescheduled(d, orphaned, online), online), s)
  {
    StuckAreIdle(d, s, online);
    RescheduledPointwise(d, orphaned, online);
    KeptIdleIsStuck(d, Rescheduled(d, orphaned, online), s, online);
  }

  lemma FixedStep(d: Db, s: set<Id>, op: CoreOp, online: seq<Node>)
    requires StuckOn(d, Stops(d, online), s) && Legal(d, op) && FixedOp(op, online)
    ensures StuckOn(CoreStep(d, op), Stops(CoreStep(d, op), online), s)
  {
    match op
    case Trigger => ScanKeepsStuck(d, s, online);
    case Schedule(_) => ScanKeepsStuck(d, s, online);
    case Complete(id, _) =>
      var d1 := SetStatus(d, id, Completed, "");
      CompletionKeepsStuck(d, s, id, online);
      PropagationKeepsStuck(d1, s, id, online);
      ScanKeepsStuck(Propagated(d1, id, 0), s, online);
    case CompleteByScan(id, _) =>
      var d1 := SetStatus(d, id, Completed, "");
      CompletionKeepsStuck(d, s, id, online);
      ScanKeepsStuck(d1, s, online);
      ScanKeepsStuck(Triggered(d1), s, online);
    case Fail(id, reason) => FailureKeepsStuck(d, s, id, reason, online);
    case Recover(orphaned, _) => RecoveryKeepsAllStuck(d, s, orphaned, online);
  }

  /** No member of a stuck set ever runs or completes. */
  lemma {:induction false} IdleForEver(d: Db, s: set<Id>, ops: seq<CoreOp>, online: seq<Node>)
    requires StuckOn(d, Stops(d, online), s) && FixedRun(d, ops, online)
    ensures StuckOn(CoreRun(d, ops), Stops(CoreRun(d, ops), online), s)
    ensures forall x :: x in s ==> Idle(CoreRun(d, ops), x)
  {
    if ops == [] {
    } else {
      IdleForEver(d, s, ops[..|ops| - 1], online);
      FixedStep(CoreRun(d, ops[..|ops| - 1]), s, ops[|ops| - 1], online);
    }
    StuckAreIdle(CoreRun(d, ops), s, online);
  }

  /** While the nodes stay the same and nothing is submitted, no task on a chain of pending tasks
      to a halted task, a missing id or an uncovered task, or into a cycle, ever runs. */
  lemma StopsAreContained(d: Db, p: seq<Id>, ops: seq<CoreOp>, online: seq<Node>)
    requires ChainTo(d, Stops(d, online), p) && FixedRun(d, ops, online)
    ensures forall i :: 0 <= i < |p| ==> Idle(CoreRun(d, ops), p[i])
  {
    ChainIsStuck(d, Stops(d, online), p);
    IdleForEver(d, Elements(p), ops, online);
    assert forall i :: 0 <= i < |p| ==> p[i] in Elements(p);
  }
}
