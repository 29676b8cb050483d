/** Runs at which a property with an exact condition fails. */
module Counterexamples {
  import opened Dicts
  import opened TaskRules
  import opened Scheduling
  import opened StoreRuns
  import opened WorkflowCore
  import opened CoreRuns
  import opened Containment
  import opened DropIn
  import opened SafeStarts
  import opened TriggerGraph

  /** Pending tasks with the given dependencies, in the given order, that need no capability. */
  ghost predicate Shows(d: Db, order: seq<Id>, deps: map<Id, seq<Id>>) {
    && d.Valid() && d.order == order
    && forall id :: id in d.tab ==>
      id in deps && d.tab[id].status == Pending && d.tab[id].needs == [] && d.tab[id].dependsOn == deps[id]
  }

  /** Every dependency graph is reached by creating the tasks and linking them one by one. */
  lemma {:induction false} AnyGraph(order: seq<Id>, deps: map<Id, seq<Id>>) returns (ops: seq<StoreOp>)
    requires NoDup(order) && forall id :: id in order ==> id in deps
    ensures Shows(MemRun(ops), order, deps)
  {
    if order == [] {
      ops := [];
    } else {
      var n := |order| - 1;
      var front := AnyGraph(order[..n], deps);
      assert order == order[..n] + [order[n]] && order[n] !in order[..n];
      var create, link := StoreOp.Create(order[n], "", [], 0, 0), StoreOp.Link(order[n], deps[order[n]]);
      RunStep(front, create);
      RunStep(front + [create], link);
      ops := front + [create] + [link];
    }
  }

  // ----- the two stores -----

  lemma RunsOfTwo(a: StoreOp, b: StoreOp)
    ensures MemRun([a]) == MemStep(Dict([], map[]), a) && MemRun([a, b]) == MemStep(MemRun([a]), b)
    ensures SqlRun([a]) == SqlStep(Dict([], map[]), a) && SqlRun([a, b]) == SqlStep(SqlRun([a]), b)
    ensures DropInOps([a]) <==> DropInOp(Dict([], map[]), Dict([], map[]), a)
    ensures DropInOps([a, b]) <==> DropInOps([a]) && DropInOp(MemRun([a]), SqlRun([a]), b)
  {
    assert [a][..0] == [] && [a, b][..1] == [a];
  }

  /** The run that creates a task and scans: the task is ready in both stores. */
  lemma OneReadyTask() returns (ops: seq<StoreOp>)
    ensures DropInOps(ops) && MemRun(ops) == SqlRun(ops)
    ensures MemRun(ops) == Dict(["a"], map["a" := NewTask("", [], 0, 0).(status := Ready)])
  {
    var create := StoreOp.Create("a", "", [], 0, 0);
    ops := [create, StoreOp.Trigger];
    RunsOfTwo(create, StoreOp.Trigger);
    assert DropInOps([create]) && ops[..1] == [create];
    assert Eligible(MemRun([create]), "a");
    assert MemRun(ops).tab == map["a" := NewTask("", [], 0, 0).(status := Ready)];
    DropInReplacement(ops);
  }

  /** Linking that task to another takes it back only in the SQL store. */
  lemma LinkingCanPart() returns (front: seq<StoreOp>, op: StoreOp)
    ensures DropInOps(front) && op.Link? && !Related(MemRun(front + [op]), SqlRun(front + [op]))
  {
    front := OneReadyTask();
    op := StoreOp.Link("a", ["b"]);
    assert (front + [op])[..|front|] == front;
    LinkingStaysRelated(MemRun(front), SqlRun(front), "a", ["b"]);
  }

  /** A task just created is scheduled without a scan: only the SQL store starts it. */
  lemma SchedulingCanPart(node: Node) returns (front: seq<StoreOp>, op: StoreOp)
    ensures DropInOps(front) && op.Schedule? && !Related(MemRun(front + [op]), SqlRun(front + [op]))
  {
    front, op := [StoreOp.Create("a", "", [], 0, 0)], StoreOp.Schedule([node]);
    RunsOfTwo(front[0], op);
    assert front + [op] == [front[0], op];
    assert "a" in DriftSet(MemRun(front), SqlRun(front)) && Covers(node, []);
    DropInReplacement(front);
    SchedulingStaysRelated(MemRun(front), SqlRun(front), [node]);
  }

  /** Linking a ready task to a missing one: in memory it stays ready, the SQL store takes it back. */
  lemma MemoryLinkingCanBeUnsafe() returns (front: seq<StoreOp>, op: StoreOp)
    ensures StartedSafely(MemRun(front)) && SafeOp(MemRun(front), op)
    ensures !StartedSafely(MemRun(front + [op])) && StartedSafely(SqlRun(front + [op]))
  {
    front := OneReadyTask();
    op := StoreOp.Link("a", ["b"]);
    assert (front + [op])[..|front|] == front;
    assert "b" in ["b"] && !IsDone(MemRun(front), "b");
    MemoryLinkingIsSafe(MemRun(front), "a", ["b"]);
    SafeStep(SqlRun(front), op);
  }

  // ----- the two completion paths -----

  /** Three tasks: `a` and `b` without dependencies and the pending `t`; none needs a capability. */
  datatype Trio = Trio(a: Id, b: Id, t: Id) {
    ghost predicate Valid() {
      a != b && b != t && t != a
    }

    ghost predicate At(d: Db, statusOfA: Status, statusOfB: Status, deps: seq<Id>) {
      && d.Valid() && d.tab.Keys == {a, b, t}
      && (forall id :: id in d.tab ==> d.tab[id].needs == [])
      && d.tab[a].status == statusOfA && d.tab[b].status == statusOfB && d.tab[t].status == Pending
      && d.tab[a].dependsOn == [] && d.tab[b].dependsOn == [] && d.tab[t].dependsOn == deps
    }
  }

  /** The three tasks with `b` and `t` waiting for the given ids. */
  lemma BuildTrio(x: Trio, ofB: seq<Id>, ofT: seq<Id>) returns (ops: seq<StoreOp>)
    requires x.Valid()
    ensures Shows(MemRun(ops), [x.a, x.b, x.t], map[x.a := [], x.b := ofB, x.t := ofT])
    ensures MemRun(ops).tab.Keys == {x.a, x.b, x.t}
  {
    var order := [x.a, x.b, x.t];
    ops := AnyGraph(order, map[x.a := [], x.b := ofB, x.t := ofT]);
    assert forall id :: id in order <==> id in {x.a, x.b, x.t};
  }

  lemma TriggerTrio(x: Trio, d: Db)
    requires x.Valid() && x.At(d, Pending, Pending, [x.a, x.b])
    ensures x.At(Triggered(d), Ready, Ready, [x.a, x.b])
  {
    assert [x.a, x.b][0] == x.a && !IsDone(d, x.a);
  }

  lemma StartTrio(x: Trio, d: Db, node: Node)
    requires x.Valid() && x.At(d, Ready, Ready, [x.a, x.b])
    ensures x.At(Scheduled(d, [node]), Running, Running, [x.a, x.b])
  {
    assert Covers(node, []) && FirstFit([node], []) == Some(node.id);
  }

  lemma FailTrio(x: Trio, d: Db)
    requires x.Valid() && x.At(d, Running, Running, [x.a, x.b])
    ensures x.At(MemStep(d, StoreOp.SetTo(x.a, Failed, "")), Failed, Running, [x.a, x.b])
  {
  }

  lemma TrioParts(x: Trio, d: Db, online: seq<Node>)
    requires x.Valid() && x.At(d, Failed, Running, [x.a, x.b])
    ensures Closed(d) && HasStatus(d, x.b, Running) && HasStatus(d, x.t, Pending)
    ensures HasStatus(CompletedByCore(d, x.b, online), x.t, Blocked)
    ensures HasStatus(CompletedByHandler(d, x.b, online), x.t, Pending)
  {
    assert [x.a, x.b][0] == x.a && [x.a, x.b][1] == x.b;
    assert !IsDone(d, x.a);
    assert HasStatus(SetStatus(d, x.b, Completed, ""), x.a, Failed);
    PathsPart(d, x.b, online, x.t);
  }

  lemma TriggerAndStartTrio(x: Trio, d: Db, node: Node)
    requires x.Valid() && x.At(d, Pending, Pending, [x.a, x.b])
    ensures x.At(MemStep(d, StoreOp.TriggerThenSchedule([node])), Running, Running, [x.a, x.b])
  {
    TriggerTrio(x, d);
    StartTrio(x, Triggered(d), node);
  }

  lemma PendingTrio(x: Trio, d: Db, deps: seq<Id>)
    requires x.Valid() && d.tab.Keys == {x.a, x.b, x.t}
    requires Shows(d, [x.a, x.b, x.t], map[x.a := [], x.b := [], x.t := deps])
    ensures x.At(d, Pending, Pending, deps)
  {
    assert x.a in d.tab && x.b in d.tab && x.t in d.tab;
  }

  lemma RunningTrio(x: Trio, node: Node) returns (ops: seq<StoreOp>)
    requires x.Valid()
    ensures x.At(MemRun(ops), Running, Running, [x.a, x.b])
  {
    var front := BuildTrio(x, [], [x.a, x.b]);
    var op := StoreOp.TriggerThenSchedule([node]);
    PendingTrio(x, MemRun(front), [x.a, x.b]);
    TriggerAndStartTrio(x, MemRun(front), node);
    RunStep(front, op);
    ops := front + [op];
  }

  /** `t` waits for `a` and `b`, both running; a direct status write fails `a` without blocking `t`;
      then `b` completes. Only the incremental path blocks `t`. */
  lemma CompletionPathsCanPart(x: Trio, node: Node, online: seq<Node>) returns (ops: seq<StoreOp>)
    requires x.Valid()
    ensures Closed(MemRun(ops)) && HasStatus(MemRun(ops), x.b, Running) && HasStatus(MemRun(ops), x.t, Pending)
    ensures HasStatus(CompletedByCore(MemRun(ops), x.b, online), x.t, Blocked)
    ensures HasStatus(CompletedByHandler(MemRun(ops), x.b, online), x.t, Pending)
  {
    var front := RunningTrio(x, node);
    FailTrio(x, MemRun(front));
    RunStep(front, StoreOp.SetTo(x.a, Failed, ""));
    ops := front + [StoreOp.SetTo(x.a, Failed, "")];
    TrioParts(x, MemRun(ops), online);
  }

  // ----- how far a failure blocks -----

  lemma TwoHopsAreMissed(x: Trio, d: Db, reason: string)
    requires x.Valid() && d.tab.Keys == {x.a, x.b, x.t}
    requires d.tab[x.b].status == Pending && d.tab[x.b].dependsOn == [x.a]
    requires d.tab[x.t].status == Pending && d.tab[x.t].dependsOn == [x.b]
    ensures LeadsTo(d, x.a, [x.t, x.b, x.a]) && !BlocksAllDownstream(d, x.a, reason)
    ensures HasStatus(FailedByCore(d, x.a, reason), x.t, Pending)
  {
    assert [x.b][0] == x.b && [x.a][0] == x.a;
    var p := [x.t, x.b, x.a];
    assert LeadsTo(d, x.a, p) && p[0] == x.t;
    BlocksTheDirect(d, x.a, reason, x.t);
  }

  /** `t` waits for `b`, which waits for `a`: the failure of `a` leaves `t` pending. */
  lemma FailureCanMissDownstream(x: Trio, reason: string) returns (ops: seq<StoreOp>)
    requires x.Valid()
    ensures LeadsTo(MemRun(ops), x.a, [x.t, x.b, x.a]) && !BlocksAllDownstream(MemRun(ops), x.a, reason)
    ensures HasStatus(FailedByCore(MemRun(ops), x.a, reason), x.t, Pending)
  {
    ops := BuildTrio(x, [x.a], [x.b]);
    TwoHopsAreMissed(x, MemRun(ops), reason);
  }

  // ----- the depth bound of the trigger chain -----

  function AddIf(s: seq<Id>, x: Id, b: bool): seq<Id> {
    if b then s + [x] else s
  }

  lemma SelectSnoc(s: seq<Id>, x: Id, keep: set<Id>, longer: seq<Id>)
    requires longer == s + [x]
    ensures Select(longer, keep) == AddIf(Select(s, keep), x, x in keep)
  {
    assert longer[..|s|] == s;
  }

  /** Five tasks: `a` and `b` depend on `r`, `b` also on `a`, `c` on `b` and `e` on `c`. */
  datatype Shortcut = Shortcut(r: Id, a: Id, b: Id, c: Id, e: Id) {
    ghost predicate Valid() {
      && r != a && r != b && r != c && r != e && a != b && a != c && a != e && b != c && b != e && c != e
    }

    function Three(): seq<Id> {
      [r, a, b]
    }

    function Four(): seq<Id> {
      Three() + [c]
    }

    function Order(): seq<Id> {
      Four() + [e]
    }

    function Deps(): map<Id, seq<Id>> {
      map[r := [], a := [r], b := [r, a], c := [b], e := [c]]
    }
  }

  lemma SelectThree(x: Shortcut, keep: set<Id>)
    ensures Select(x.Three(), keep) == AddIf(AddIf(AddIf([], x.r, x.r in keep), x.a, x.a in keep), x.b, x.b in keep)
  {
    var none, one := [], [x.r];
    var two := one + [x.a];
    SelectSnoc(none, x.r, keep, one);
    SelectSnoc(one, x.a, keep, two);
    SelectSnoc(two, x.b, keep, x.Three());
  }

  lemma DependentsFive(x: Shortcut, d: Db, y: Id)
    requires d.order == x.Order() && d.tab.Keys == {x.r, x.a, x.b, x.c, x.e}
    ensures DependentsOf(d, y)
         == AddIf(AddIf(AddIf(AddIf(AddIf([],
              x.r, y in d.tab[x.r].dependsOn), x.a, y in d.tab[x.a].dependsOn), x.b, y in d.tab[x.b].dependsOn),
              x.c, y in d.tab[x.c].dependsOn), x.e, y in d.tab[x.e].dependsOn)
  {
    var keep := set z | z in d.tab && y in d.tab[z].dependsOn;
    SelectThree(x, keep);
    SelectSnoc(x.Three(), x.c, keep, x.Four());
    SelectSnoc(x.Four(), x.e, keep, x.Order());
  }

  /** Who depends on whom in the table. */
  ghost predicate ShortcutGraph(x: Shortcut, d: Db) {
    && d.order == x.Order() && d.tab.Keys == {x.r, x.a, x.b, x.c, x.e}
    && forall y ::
      && y !in d.tab[x.r].dependsOn && (y in d.tab[x.a].dependsOn <==> y == x.r)
      && (y in d.tab[x.b].dependsOn <==> y == x.r || y == x.a)
      && (y in d.tab[x.c].dependsOn <==> y == x.b) && (y in d.tab[x.e].dependsOn <==> y == x.c)
  }

  lemma ShortcutKeys(x: Shortcut, id: Id)
    ensures id in x.Order() <==> id in {x.r, x.a, x.b, x.c, x.e}
  {
  }

  lemma ShortcutDeps(x: Shortcut)
    requires x.Valid()
    ensures x.Deps()[x.r] == [] && x.Deps()[x.a] == [x.r] && x.Deps()[x.b] == [x.r] + [x.a]
    ensures x.Deps()[x.c] == [x.b] && x.Deps()[x.e] == [x.c]
  {
  }

  lemma ShortcutTableKeys(x: Shortcut, d: Db)
    requires Shows(d, x.Order(), x.Deps())
    ensures d.tab.Keys == {x.r, x.a, x.b, x.c, x.e}
  {
    forall id ensures id in d.tab <==> id in {x.r, x.a, x.b, x.c, x.e} {
      ShortcutKeys(x, id);
    }
  }

  lemma ShortcutTable(x: Shortcut, d: Db)
    requires x.Valid() && Shows(d, x.Order(), x.Deps())
    ensures ShortcutGraph(x, d)
  {
    ShortcutTableKeys(x, d);
    ShortcutDeps(x);
    assert x.r in d.tab && x.a in d.tab && x.b in d.tab && x.c in d.tab && x.e in d.tab;
  }

  lemma ShortcutDependents(x: Shortcut, d: Db)
    requires x.Valid() && ShortcutGraph(x, d)
    ensures DependentsOf(d, x.r) == [x.a, x.b] && DependentsOf(d, x.a) == [x.b]
    ensures DependentsOf(d, x.b) == [x.c] && DependentsOf(d, x.c) == [x.e]
  {
    DependentsFive(x, d, x.r);
    DependentsFive(x, d, x.a);
    DependentsFive(x, d, x.b);
    DependentsFive(x, d, x.c);
  }

  lemma WalkToOnly(d: Db, tid: Id, next: Id, depth: int, maxDepth: int, visited: set<Id>, chain: seq<Id>)
    requires depth < maxDepth && tid !in visited && DependentsOf(d, tid) == [next]
    ensures Walk(d, tid, depth, maxDepth, visited, chain)
         == Walk(d, next, depth + 1, maxDepth, visited + {tid}, chain + [next])
  {
    ExpandSnoc(d, [next], 0, depth, maxDepth, visited + {tid}, chain);
    assert [next][..1] == [next] && [next][..0] == [];
  }

  lemma WalkToBoth(d: Db, tid: Id, a: Id, b: Id, depth: int, maxDepth: int, visited: set<Id>, chain: seq<Id>)
    requires depth < maxDepth && tid !in visited && DependentsOf(d, tid) == [a, b]
    ensures Walk(d, tid, depth, maxDepth, visited, chain)
         == var (v, c) := Walk(d, a, depth + 1, maxDepth, visited + {tid}, chain + [a]);
            Walk(d, b, depth + 1, maxDepth, v, c + [b])
  {
    ExpandSnoc(d, [a, b], 0, depth, maxDepth, visited + {tid}, chain);
    ExpandSnoc(d, [a, b], 1, depth, maxDepth, visited + {tid}, chain);
    assert [a, b][..2] == [a, b] && [a, b][..0] == [];
  }

  lemma ShortcutWalk(x: Shortcut, d: Db)
    requires x.Valid()
    requires DependentsOf(d, x.r) == [x.a, x.b] && DependentsOf(d, x.a) == [x.b] && DependentsOf(d, x.b) == [x.c]
    ensures TriggerChain(d, x.r, 3) == [x.a, x.b, x.c, x.b]
  {
    var v1 := {} + {x.r};
    var v2 := v1 + {x.a};
    WalkToBoth(d, x.r, x.a, x.b, 0, 3, {}, []);
    WalkToOnly(d, x.a, x.b, 1, 3, v1, [] + [x.a]);
    WalkToOnly(d, x.b, x.c, 2, 3, v2, [] + [x.a] + [x.b]);
  }

  lemma ShortcutPaths(x: Shortcut, d: Db)
    requires DependentsOf(d, x.r) == [x.a, x.b] && DependentsOf(d, x.a) == [x.b]
    requires DependentsOf(d, x.b) == [x.c] && DependentsOf(d, x.c) == [x.e]
    ensures Within(d, x.r, x.e, 3) && !Levelled(d, x.r, 3)
  {
    assert [x.a, x.b][0] == x.a && [x.a, x.b][1] == x.b;
    assert PathFrom(d, x.r, x.e, [x.r, x.b, x.c, x.e]);
    assert PathFrom(d, x.r, x.b, [x.r, x.b]) && PathFrom(d, x.r, x.b, [x.r, x.a, x.b]);
  }

  /** `e` is three hops from `r`, but `b` is met first behind `a`, one level deeper, and `c` then lies
      on the bound: with depth 3 the chain stops before `e`. */
  lemma TriggerChainCanMiss(x: Shortcut) returns (ops: seq<StoreOp>)
    requires x.Valid()
    ensures Within(MemRun(ops), x.r, x.e, 3) && x.e !in TriggerChain(MemRun(ops), x.r, 3)
    ensures !Levelled(MemRun(ops), x.r, 3)
  {
    ops := AnyGraph(x.Order(), x.Deps());
    ShortcutTable(x, MemRun(ops));
    ShortcutDependents(x, MemRun(ops));
    ShortcutWalk(x, MemRun(ops));
    ShortcutPaths(x, MemRun(ops));
  }
}
