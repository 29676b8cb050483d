/** Containment is exact: a pending task that no chain dooms can be brought to running, both on a
    fixed set of nodes and in an open cluster. */
module Liveness {
  import opened Dicts
  import opened TaskRules
  import opened Scheduling
  import opened WorkflowCore
  import opened CoreRuns
  import opened Containment
  import opened FixedCluster

  // ----- runs built from the front -----

  lemma RunSnoc(d: Db, ops: seq<CoreOp>, op: CoreOp)
    ensures CoreRun(d, ops + [op]) == CoreStep(CoreRun(d, ops), op)
    ensures LegalRun(d, ops + [op]) <==> LegalRun(d, ops) && Legal(CoreRun(d, ops), op)
  {
    assert (ops + [op])[..|ops|] == ops;
  }

  lemma {:induction false} RunFromFront(d: Db, op: CoreOp, ops: seq<CoreOp>)
    requires Legal(d, op) && LegalRun(CoreStep(d, op), ops)
    ensures LegalRun(d, [op] + ops) && CoreRun(d, [op] + ops) == CoreRun(CoreStep(d, op), ops)
  {
    if ops == [] {
      RunSnoc(d, [], op);
      assert [op] + ops == [] + [op];
    } else {
      var front, last := ops[..|ops| - 1], ops[|ops| - 1];
      assert ops == front + [last];
      assert [op] + ops == ([op] + front) + [last];
      RunFromFront(d, op, front);
      RunSnoc(d, [op] + front, last);
      RunSnoc(CoreStep(d, op), front, last);
    }
  }

  /** A step after which no id is newly a stop, and no task newly pending. */
  ghost predicate Unblocking(d: Db, e: Db, before: set<Id>, after: set<Id>) {
    && after <= before
    && forall x :: HasStatus(e, x, Pending) ==>
      HasStatus(d, x, Pending) && e.tab[x].dependsOn == d.tab[x].dependsOn
  }

  lemma StaysUndoomed(d: Db, e: Db, before: set<Id>, after: set<Id>, x: Id)
    requires Unblocking(d, e, before, after) && !Doomed(d, before, x)
    ensures !Doomed(e, after, x)
  {
    if Doomed(e, after, x) {
      var p :| ChainTo(e, after, p) && p[0] == x;
      ChainIsStuck(e, after, p);
      forall y | y in Elements(p) ensures Held(d, before, Elements(p), y) {
        assert Held(e, after, Elements(p), y);
      }
      assert x in Elements(p);
      var q := StuckHasChain(d, before, Elements(p), x);
    }
  }

  // ----- a fixed set of nodes -----

  /** If nothing runs and nothing can be promoted or placed, everything unfinished is stuck. */
  lemma IdleMeansStuck(d: Db, online: seq<Node>)
    requires Closed(d) && PlaceableSet(d, online) == {} && forall id :: !HasStatus(d, id, Running)
    ensures StuckOn(d, Stops(d, online), Uncompleted(d) + Missing(d))
  {
    var s := Uncompleted(d) + Missing(d);
    forall x | x in s ensures Held(d, Stops(d, online), s, x) {
      if x !in Stops(d, online) {
        assert !HasStatus(d, x, Running) && x !in PlaceableSet(d, online) && !Eligible(d, x);
        var dep :| dep in d.tab[x].dependsOn && !IsDone(d, dep);
        assert dep in d.tab || dep in Missing(d);
      }
    }
  }

  lemma SomethingRuns(d: Db, x: Id, online: seq<Node>)
    requires Closed(d) && PlaceableSet(d, online) == {}
    requires HasStatus(d, x, Pending) && !Doomed(d, Stops(d, online), x)
    ensures exists id :: HasStatus(d, id, Running)
  {
    if forall id :: !HasStatus(d, id, Running) {
      IdleMeansStuck(d, online);
      var p := StuckHasChain(d, Stops(d, online), Uncompleted(d) + Missing(d), x);
    }
  }

  /** Same tasks and graph, and a task only moves from pending to ready to running to completed. */
  ghost predicate Forward(d: Db, e: Db) {
    && e.tab.Keys == d.tab.Keys
    && forall y :: y in d.tab ==>
      && e.tab[y].dependsOn == d.tab[y].dependsOn && e.tab[y].needs == d.tab[y].needs
      && (e.tab[y].status == d.tab[y].status || e.tab[y].status == Running || e.tab[y].status == Completed
          || (d.tab[y].status == Pending && e.tab[y].status == Ready))
  }

  lemma ForwardAddsNoStop(d: Db, e: Db, online: seq<Node>)
    requires Forward(d, e)
    ensures Stops(e, online) <= Stops(d, online)
  {
    SameGraphSameMissing(d, e);
    assert Halted(e) <= Halted(d);
    assert Uncovered(e, online) <= Uncovered(d, online);
  }

  lemma ForwardKeepsUndoomed(d: Db, e: Db, x: Id, online: seq<Node>)
    requires Forward(d, e) && !Doomed(d, Stops(d, online), x)
    ensures !Doomed(e, Stops(e, online), x)
  {
    ForwardAddsNoStop(d, e, online);
    StaysUndoomed(d, e, Stops(d, online), Stops(e, online), x);
  }

  lemma CompletionForward(d: Db, id: Id)
    requires HasStatus(d, id, Running)
    ensures Forward(d, SetStatus(d, id, Completed, ""))
    ensures Uncompleted(SetStatus(d, id, Completed, "")) == Uncompleted(d) - {id}
  {
  }

  lemma ScanThenScheduleForward(d: Db, online: seq<Node>)
    ensures Forward(d, Scheduled(Triggered(d), online))
    ensures Uncompleted(Scheduled(Triggered(d), online)) == Uncompleted(d)
  {
  }

  ghost predicate Startable(d: Db, x: Id) {
    HasStatus(d, x, Pending) || HasStatus(d, x, Ready) || HasStatus(d, x, Running)
  }

  lemma StopIsDoomed(d: Db, stops: set<Id>, x: Id)
    requires x in stops
    ensures Doomed(d, stops, x)
  {
    assert ChainTo(d, stops, [x]);
  }

  /** What the strategy keeps between two completions. */
  ghost predicate Promising(d: Db, x: Id, online: seq<Node>) {
    && Closed(d) && PlaceableSet(d, online) == {} && !Doomed(d, Stops(d, online), x)
    && (HasStatus(d, x, Running) || HasStatus(d, x, Pending))
  }

  /** A scan and a scheduling call. */
  lemma ScanTurn(d: Db, x: Id, online: seq<Node>)
    requires Startable(d, x) && !Doomed(d, Stops(d, online), x)
    ensures Promising(Scheduled(Triggered(d), online), x, online)
  {
    var e := Scheduled(Triggered(d), online);
    ScanThenScheduleForward(d, online);
    ForwardKeepsUndoomed(d, e, x, online);
    TriggerCloses(d);
    ClosedStep(Triggered(d), Schedule(online));
    SchedulingIsExhaustive(Triggered(d), online);
    if x in Stops(e, online) {
      StopIsDoomed(e, Stops(e, online), x);
    }
    assert x !in PlaceableSet(e, online);
  }

  lemma FixedFromFront(d: Db, op: CoreOp, ops: seq<CoreOp>, online: seq<Node>)
    requires Legal(d, op) && FixedOp(op, online) && FixedRun(CoreStep(d, op), ops, online)
    ensures FixedRun(d, [op] + ops, online) && CoreRun(d, [op] + ops) == CoreRun(CoreStep(d, op), ops)
  {
    RunFromFront(d, op, ops);
  }

  /** Complete running tasks, whichever they are, until `x` runs. */
  lemma {:induction false} ReachRunning(d: Db, x: Id, online: seq<Node>) returns (ops: seq<CoreOp>)
    requires Promising(d, x, online)
    ensures FixedRun(d, ops, online) && HasStatus(CoreRun(d, ops), x, Running)
    decreases Uncompleted(d)
  {
    ops := [];
    if HasStatus(d, x, Pending) {
      SomethingRuns(d, x, online);
      var id :| HasStatus(d, id, Running);
      assert id in Uncompleted(d);
      var d1 := SetStatus(d, id, Completed, "");
      CompletionForward(d, id);
      ForwardKeepsUndoomed(d, d1, x, online);
      ScanTurn(d1, x, online);
      ScanThenScheduleForward(d1, online);
      var op := CompleteByScan(id, online);
      var rest := ReachRunning(Scheduled(Triggered(d1), online), x, online);
      FixedFromFront(d, op, rest, online);
      ops := [op] + rest;
    }
  }

  /** Scan and schedule, then complete running tasks until `x` runs. */
  lemma BringToRunningOn(d: Db, x: Id, online: seq<Node>) returns (ops: seq<CoreOp>)
    requires Startable(d, x) && !Doomed(d, Stops(d, online), x)
    ensures FixedRun(d, ops, online) && HasStatus(CoreRun(d, ops), x, Running)
  {
    ScanTurn(d, x, online);
    var op := Schedule(online);
    var rest := ReachRunning(Scheduled(Triggered(d), online), x, online);
    FixedFromFront(Triggered(d), op, rest, online);
    FixedFromFront(d, Trigger, [op] + rest, online);
    ops := [Trigger] + ([op] + rest);
  }

  ghost predicate CanRunOn(d: Db, x: Id, online: seq<Node>) {
    exists ops :: FixedRun(d, ops, online) && HasStatus(CoreRun(d, ops), x, Running)
  }

  lemma StoppedNeverRuns(d: Db, x: Id, online: seq<Node>)
    requires Doomed(d, Stops(d, online), x)
    ensures !CanRunOn(d, x, online)
  {
    var p :| ChainTo(d, Stops(d, online), p) && p[0] == x;
    forall ops | FixedRun(d, ops, online) ensures !HasStatus(CoreRun(d, ops), x, Running) {
      StopsAreContained(d, p, ops, online);
      assert Idle(CoreRun(d, ops), p[0]);
    }
  }

  /** With the nodes at hand and the tasks at hand, a pending task runs in some later run exactly
      when no chain of pending tasks leads from it to a halted task, a missing id, a task that no
      node covers, or into a cycle. */
  lemma StartsOnFixedNodes(d: Db, x: Id, online: seq<Node>)
    requires HasStatus(d, x, Pending)
    ensures CanRunOn(d, x, online) <==> !Doomed(d, Stops(d, online), x)
  {
    if Doomed(d, Stops(d, online), x) {
      StoppedNeverRuns(d, x, online);
    } else {
      var ops := BringToRunningOn(d, x, online);
    }
  }

  // ----- an open cluster -----

  function AllNeeds(d: Db, order: seq<Id>): (r: seq<string>)
    ensures forall id, c :: id in order && id in d.tab && c in d.tab[id].needs ==> c in r
  {
    if order == [] then []
    else
      var last := order[|order| - 1];
      AllNeeds(d, order[..|order| - 1]) + (if last in d.tab then d.tab[last].needs else [])
  }

  /** One node that can run anything the table asks for. */
  function Everything(d: Db): seq<Node> {
    [Node("all", "all", AllNeeds(d, d.order), Online, 0)]
  }

  lemma EverythingIsCovered(d: Db)
    requires d.Valid()
    ensures Uncovered(d, Everything(d)) == {}
  {
    forall id | id in d.tab ensures FirstFit(Everything(d), d.tab[id].needs).Some? {
      assert Covers(Everything(d)[0], d.tab[id].needs);
    }
  }

  /** The submission of a missing id, which becomes ready at once. */
  function Supplied(d: Db, m: Id): Db {
    Submitted(d, m, "", [], 0, 0)
  }

  lemma SuppliedMissing(d: Db, m: Id)
    requires m in Missing(d)
    ensures Missing(Supplied(d, m)) == Missing(d) - {m}
  {
    var e := Supplied(d, m);
    assert m !in d.tab && e.tab[m].dependsOn == [];
    assert forall id :: id in e.tab <==> id in d.tab || id == m;
    assert forall id :: id in d.tab ==> e.tab[id].dependsOn == d.tab[id].dependsOn;
    forall y ensures y in Missing(e) <==> y in Missing(d) && y != m {
      if y in Missing(d) && y != m {
        var id :| id in d.tab && y in d.tab[id].dependsOn && y !in d.tab;
        assert id in e.tab && y in e.tab[id].dependsOn;
      }
      if y in Missing(e) {
        var id :| id in e.tab && y in e.tab[id].dependsOn && y !in e.tab;
        assert id in d.tab && y in d.tab[id].dependsOn;
      }
    }
  }

  lemma SupplyTurn(d: Db, m: Id, x: Id)
    requires d.Valid() && m in Missing(d) && Startable(d, x) && !Doomed(d, Halted(d), x)
    ensures Supplied(d, m).Valid() && Startable(Supplied(d, m), x) && !Doomed(Supplied(d, m), Halted(Supplied(d, m)), x)
  {
    assert Eligible(Created(d, m, "", [], 0, 0), m);
    StaysUndoomed(d, Supplied(d, m), Halted(d), Halted(Supplied(d, m)), x);
  }

  /** Submit what is missing, then proceed as on a fixed node that covers everything. */
  lemma {:induction false} BringToRunning(d: Db, x: Id) returns (ops: seq<CoreOp>)
    requires d.Valid() && Startable(d, x) && !Doomed(d, Halted(d), x)
    ensures LegalRun(d, ops) && HasStatus(CoreRun(d, ops), x, Running)
    decreases Missing(d)
  {
    if Missing(d) == {} {
      EverythingIsCovered(d);
      assert Stops(d, Everything(d)) == Halted(d);
      ops := BringToRunningOn(d, x, Everything(d));
    } else {
      var m :| m in Missing(d);
      SupplyTurn(d, m, x);
      SuppliedMissing(d, m);
      var op := Submit(m, "", [], 0, 0);
      var rest := BringToRunning(CoreStep(d, op), x);
      RunFromFront(d, op, rest);
      ops := [op] + rest;
    }
  }

  ghost predicate CanRun(d: Db, x: Id) {
    exists ops :: LegalRun(d, ops) && HasStatus(CoreRun(d, ops), x, Running)
  }

  lemma DoomedNeverRuns(d: Db, x: Id)
    requires Doomed(d, Halted(d), x)
    ensures !CanRun(d, x)
  {
    var p :| DoomChain(d, p) && p[0] == x;
    forall ops | LegalRun(d, ops) ensures !HasStatus(CoreRun(d, ops), x, Running) {
      FailureAndCyclesAreContained(d, p, ops);
      assert NotStarted(CoreRun(d, ops), p[0]);
    }
  }

  /** If tasks may be submitted under the missing ids and nodes may join, a pending task runs in some
      later run exactly when no chain of pending tasks leads from it to a halted task or into a
      cycle. */
  lemma StartsUnlessDoomed(d: Db, x: Id)
    requires d.Valid() && HasStatus(d, x, Pending)
    ensures CanRun(d, x) <==> !Doomed(d, Halted(d), x)
  {
    if Doomed(d, Halted(d), x) {
      DoomedNeverRuns(d, x);
    } else {
      var ops := BringToRunning(d, x);
    }
  }
}
