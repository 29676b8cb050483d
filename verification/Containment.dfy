/** Failures stay contained and dependency cycles never start, over whole runs. */
module Containment {
  import opened Dicts
  import opened TaskRules
  import opened Scheduling
  import opened RecoveryRules
  import opened WorkflowCore
  import opened CoreRuns

  /** The environment's part: submitted ids are fresh, and only running tasks are completed or lose
      their node. */
  predicate Legal(d: Db, op: CoreOp) {
    match op
    case Submit(id, _, _, _, _) => id !in d.tab
    case Complete(id, _) => HasStatus(d, id, Running)
    case CompleteByScan(id, _) => HasStatus(d, id, Running)
    case Recover(orphaned, _) => OrphansRunning(d, orphaned)
    case _ => true
  }

  /** The orphans that are found are running. */
  predicate OrphansRunning(d: Db, orphaned: seq<Id>) {
    forall id :: id in orphaned && id in d.tab ==> d.tab[id].status == Running
  }

  predicate LegalRun(d: Db, ops: seq<CoreOp>) {
    ops == [] || (LegalRun(d, ops[..|ops| - 1]) && Legal(CoreRun(d, ops[..|ops| - 1]), ops[|ops| - 1]))
  }

  /** A status that no modelled step takes a task out of towards a start. No step sets Assigned. */
  predicate HaltedStatus(s: Status) {
    s == Blocked || s == Failed || s == Assigned
  }

  function Halted(d: Db): set<Id> {
    set id | id in d.tab && HaltedStatus(d.tab[id].status)
  }

  predicate NotStarted(d: Db, id: Id) {
    id in d.tab && (d.tab[id].status == Pending || HaltedStatus(d.tab[id].status))
  }

  /** A stop, or a pending task that depends on a member of `s`. */
  ghost predicate Held(d: Db, stops: set<Id>, s: set<Id>, x: Id) {
    x in stops || (HasStatus(d, x, Pending) && exists dep :: dep in d.tab[x].dependsOn && dep in s)
  }

  /** A set of ids in which only the stops are not held back by another member. */
  ghost predicate StuckOn(d: Db, stops: set<Id>, s: set<Id>) {
    forall x {:trigger Held(d, stops, s, x)} :: x in s ==> Held(d, stops, s, x)
  }

  /** A set of tasks none of which has started, each pending one held back by another member. */
  ghost predicate Stuck(d: Db, s: set<Id>) {
    StuckOn(d, Halted(d), s)
  }

  /** A step from `d` to `e` that starts none of `s`, puts none back to pending and edits no
      dependency of it. */
  ghost predicate HoldsBack(d: Db, e: Db, s: set<Id>) {
    forall x :: x in s && NotStarted(d, x) ==>
      && NotStarted(e, x) && e.tab[x].dependsOn == d.tab[x].dependsOn
      && (e.tab[x].status == Pending ==> d.tab[x].status == Pending)
  }

  lemma HeldBackIsStuck(d: Db, e: Db, s: set<Id>)
    requires Stuck(d, s) && HoldsBack(d, e, s)
    ensures Stuck(e, s)
  {
    forall x | x in s ensures Held(e, Halted(e), s, x) {
      assert Held(d, Halted(d), s, x);
    }
  }

  lemma StuckAreNotEligible(d: Db, s: set<Id>)
    requires Stuck(d, s)
    ensures forall x :: x in s ==> NotStarted(d, x) && !Eligible(d, x)
  {
    forall x | x in s ensures NotStarted(d, x) && !Eligible(d, x) {
      assert Held(d, Halted(d), s, x);
      if d.tab[x].status == Pending {
        var dep :| dep in d.tab[x].dependsOn && dep in s;
        assert Held(d, Halted(d), s, dep);
        assert !IsDone(d, dep);
      }
    }
  }

  lemma StuckThroughScan(d: Db, s: set<Id>, online: seq<Node>)
    requires Stuck(d, s)
    ensures Stuck(Triggered(d), s) && Stuck(Scheduled(d, online), s)
  {
    StuckAreNotEligible(d, s);
    HeldBackIsStuck(d, Triggered(d), s);
    HeldBackIsStuck(d, Scheduled(d, online), s);
  }

  lemma StuckThroughPropagation(d: Db, s: set<Id>, id: Id)
    requires Stuck(d, s)
    ensures Stuck(Propagated(d, id, 0), s)
  {
    StuckAreNotEligible(d, s);
    HeldBackIsStuck(d, Propagated(d, id, 0), s);
  }

  /** A recovery keeps a set stuck exactly when it moves none of its members to a node. */
  lemma RecoveryKeepsStuck(d: Db, s: set<Id>, orphaned: seq<Id>, online: seq<Node>)
    requires Stuck(d, s)
    ensures Stuck(Rescheduled(d, orphaned, online), s)
       <==> forall x :: x in s && x in orphaned ==> !CanMove(d, x, online)
  {
    var e := Rescheduled(d, orphaned, online);
    RescheduledPointwise(d, orphaned, online);
    StuckAreNotEligible(d, s);
    if x :| x in s && x in orphaned && CanMove(d, x, online) {
      assert HasStatus(e, x, Running) && !Held(e, Halted(e), s, x);
    } else {
      HeldBackIsStuck(d, e, s);
    }
  }

  lemma StuckStep(d: Db, s: set<Id>, op: CoreOp)
    requires Stuck(d, s) && Legal(d, op)
    ensures Stuck(CoreStep(d, op), s)
  {
    StuckAreNotEligible(d, s);
    match op
    case Submit(id, title, needs, priority, now) =>
      var d1 := Created(d, id, title, needs, priority, now);
      HeldBackIsStuck(d, d1, s);
      StuckThroughScan(d1, s, []);
    case Trigger => StuckThroughScan(d, s, []);
    case Schedule(online) => StuckThroughScan(d, s, online);
    case Complete(id, online) =>
      var d1 := SetStatus(d, id, Completed, "");
      HeldBackIsStuck(d, d1, s);
      StuckThroughPropagation(d1, s, id);
      StuckThroughScan(Propagated(d1, id, 0), s, online);
    case CompleteByScan(id, online) =>
      var d1 := SetStatus(d, id, Completed, "");
      HeldBackIsStuck(d, d1, s);
      StuckThroughScan(d1, s, []);
      StuckThroughScan(Triggered(d1), s, online);
    case Fail(id, reason) =>
      HeldBackIsStuck(d, FailedByCore(d, id, reason), s);
    case Recover(orphaned, online) =>
      RecoveryKeepsStuck(d, s, orphaned, online);
  }

  /** No member of a stuck set is ever promoted, started or completed. */
  lemma {:induction false} StuckForEver(d: Db, s: set<Id>, ops: seq<CoreOp>)
    requires Stuck(d, s) && LegalRun(d, ops)
    ensures Stuck(CoreRun(d, ops), s)
    ensures forall x :: x in s ==> NotStarted(CoreRun(d, ops), x)
  {
    if ops == [] {
    } else {
      StuckForEver(d, s, ops[..|ops| - 1]);
      StuckStep(CoreRun(d, ops[..|ops| - 1]), s, ops[|ops| - 1]);
    }
    StuckAreNotEligible(CoreRun(d, ops), s);
  }

  // ----- chains -----

  /** Pending tasks, each depending on the next, that end in a stop or come back to one of
      themselves. */
  ghost predicate ChainTo(d: Db, stops: set<Id>, p: seq<Id>) {
    && p != [] && DepChain(d, p)
    && (forall i :: 0 <= i < |p| - 1 ==> HasStatus(d, p[i], Pending))
    && (p[|p| - 1] in stops || p[|p| - 1] in p[..|p| - 1])
  }

  /** A chain to a halted task or into a cycle. */
  ghost predicate DoomChain(d: Db, p: seq<Id>) {
    ChainTo(d, Halted(d), p)
  }

  lemma ChainIsStuck(d: Db, stops: set<Id>, p: seq<Id>)
    requires ChainTo(d, stops, p)
    ensures StuckOn(d, stops, Elements(p))
  {
    forall x | x in Elements(p) ensures Held(d, stops, Elements(p), x) {
      var k :| 0 <= k < |p| && p[k] == x;
      if k == |p| - 1 && x in p[..|p| - 1] {
        k :| 0 <= k < |p| - 1 && p[k] == x;
      }
      if k < |p| - 1 {
        assert p[k + 1] in d.tab[x].dependsOn && p[k + 1] in Elements(p);
      }
    }
  }

  /** A chain inside a stuck set that has not closed yet. */
  ghost predicate OpenChain(d: Db, s: set<Id>, p: seq<Id>) {
    && p != [] && NoDup(p) && DepChain(d, p)
    && (forall y :: y in p ==> y in s)
    && (forall i :: 0 <= i < |p| - 1 ==> HasStatus(d, p[i], Pending))
  }

  lemma OpenChainFits(d: Db, s: set<Id>, p: seq<Id>)
    requires OpenChain(d, s, p)
    ensures |p| <= |s|
  {
    if |p| > |s| {
      var i, j := Pigeonhole(p, s);
    }
  }

  lemma ExtendChain(d: Db, stops: set<Id>, s: set<Id>, p: seq<Id>, dep: Id)
    requires OpenChain(d, s, p) && HasStatus(d, p[|p| - 1], Pending)
    requires dep in d.tab[p[|p| - 1]].dependsOn && dep in s
    ensures if dep in p then ChainTo(d, stops, p + [dep]) else OpenChain(d, s, p + [dep])
  {
    var q := p + [dep];
    assert q[..|q| - 1] == p;
    assert DepChain(d, q);
  }

  /** Every open chain of a stuck set can be prolonged until it closes. */
  lemma {:induction false} CloseChain(d: Db, stops: set<Id>, s: set<Id>, p: seq<Id>) returns (q: seq<Id>)
    requires StuckOn(d, stops, s) && OpenChain(d, s, p)
    ensures ChainTo(d, stops, q) && q[0] == p[0]
    decreases |s| - |p|
  {
    var last := p[|p| - 1];
    assert last in p && Held(d, stops, s, last);
    OpenChainFits(d, s, p);
    if last in stops {
      q := p;
    } else {
      var dep :| dep in d.tab[last].dependsOn && dep in s;
      ExtendChain(d, stops, s, p, dep);
      q := p + [dep];
      if dep !in p {
        OpenChainFits(d, s, q);
        q := CloseChain(d, stops, s, q);
      }
    }
  }

  /** Every member of a stuck set starts such a chain. */
  lemma StuckHasChain(d: Db, stops: set<Id>, s: set<Id>, x: Id) returns (p: seq<Id>)
    requires StuckOn(d, stops, s) && x in s
    ensures ChainTo(d, stops, p) && p[0] == x
  {
    p := CloseChain(d, stops, s, [x]);
  }

  /** A chain leads from `x` to a stop or into a cycle. */
  ghost predicate Doomed(d: Db, stops: set<Id>, x: Id) {
    exists p :: ChainTo(d, stops, p) && p[0] == x
  }

  /** Although a failure blocks only direct dependents, no task that waits for the failed one
      through pending tasks starts in any later run; the same for every task that waits for, or
      lies on, a dependency cycle of pending tasks. */
  lemma FailureAndCyclesAreContained(d: Db, p: seq<Id>, ops: seq<CoreOp>)
    requires DoomChain(d, p) && LegalRun(d, ops)
    ensures forall i :: 0 <= i < |p| ==> NotStarted(CoreRun(d, ops), p[i])
  {
    ChainIsStuck(d, Halted(d), p);
    StuckForEver(d, Elements(p), ops);
    assert forall i :: 0 <= i < |p| ==> p[i] in Elements(p);
  }

  /** In particular after a failure: whatever waits for the failed task through pending tasks, and
      whatever of that the failure itself blocked, stays unstarted. */
  lemma AfterFailure(d: Db, failed: Id, reason: string, p: seq<Id>, ops: seq<CoreOp>)
    requires failed in d.tab && p != [] && DepChain(d, p) && p[|p| - 1] == failed
    requires forall i :: 0 <= i < |p| - 1 ==>
      p[i] != failed && (HasStatus(d, p[i], Pending) || HasStatus(d, p[i], Blocked))
    requires LegalRun(FailedByCore(d, failed, reason), ops)
    ensures forall i :: 0 <= i < |p| ==> NotStarted(CoreRun(FailedByCore(d, failed, reason), ops), p[i])
  {
    var e := FailedByCore(d, failed, reason);
    forall x | x in Elements(p) ensures Held(e, Halted(e), Elements(p), x) {
      var k :| 0 <= k < |p| && p[k] == x;
      if k < |p| - 1 {
        assert p[k + 1] in d.tab[x].dependsOn && p[k + 1] in Elements(p);
      }
    }
    StuckForEver(e, Elements(p), ops);
    assert forall i :: 0 <= i < |p| ==> p[i] in Elements(p);
  }

  // ----- how far a failure blocks -----

  /** Pending tasks other than `failed`, each depending on the next, that lead to `failed`. */
  ghost predicate LeadsTo(d: Db, failed: Id, p: seq<Id>) {
    && |p| >= 2 && DepChain(d, p) && p[|p| - 1] == failed
    && forall i :: 0 <= i < |p| - 1 ==> p[i] != failed && HasStatus(d, p[i], Pending)
  }

  /** What the comment of the source promises: all downstream tasks are blocked. */
  ghost predicate BlocksAllDownstream(d: Db, failed: Id, reason: string) {
    forall p :: LeadsTo(d, failed, p) ==> HasStatus(FailedByCore(d, failed, reason), p[0], Blocked)
  }

  /** Every pending task one step further down depends on `failed` itself as well. */
  ghost predicate DownstreamIsDirect(d: Db, failed: Id) {
    forall x, y ::
      x != failed && y != failed && HasStatus(d, x, Pending) &&
      y in d.tab[x].dependsOn && y in PendingDependents(d, failed) ==>
        failed in d.tab[x].dependsOn
  }

  lemma BlocksTheDirect(d: Db, failed: Id, reason: string, x: Id)
    requires failed in d.tab && x != failed && HasStatus(d, x, Pending)
    ensures HasStatus(FailedByCore(d, failed, reason), x, Blocked) <==> failed in d.tab[x].dependsOn
  {
  }

  lemma {:induction false} ChainIsDirect(d: Db, failed: Id, p: seq<Id>)
    requires DownstreamIsDirect(d, failed) && LeadsTo(d, failed, p)
    ensures failed in d.tab[p[0]].dependsOn
    decreases |p|
  {
    if |p| == 2 {
      assert p[1] == failed;
    } else {
      var rest := p[1..];
      assert forall i :: 0 <= i < |rest| ==> rest[i] == p[i + 1];
      ChainIsDirect(d, failed, rest);
      assert p[1] in PendingDependents(d, failed);
    }
  }

  /** A failure blocks everything downstream exactly when nothing pending is two steps down without
      being one step down too. */
  lemma BlocksDownstreamWhenDirect(d: Db, failed: Id, reason: string)
    requires failed in d.tab
    ensures BlocksAllDownstream(d, failed, reason) <==> DownstreamIsDirect(d, failed)
  {
    if DownstreamIsDirect(d, failed) {
      forall p | LeadsTo(d, failed, p) ensures HasStatus(FailedByCore(d, failed, reason), p[0], Blocked) {
        ChainIsDirect(d, failed, p);
        BlocksTheDirect(d, failed, reason, p[0]);
      }
    }
    if BlocksAllDownstream(d, failed, reason) {
      forall x, y | x != failed && y != failed && HasStatus(d, x, Pending) && y in d.tab[x].dependsOn
                 && y in PendingDependents(d, failed)
        ensures failed in d.tab[x].dependsOn
      {
        assert LeadsTo(d, failed, [x, y, failed]);
        BlocksTheDirect(d, failed, reason, x);
      }
    }
  }
}
