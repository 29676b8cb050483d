/** Progress: a closed, scheduled, acyclic workflow always has a running task until it is finished,
    and completing running tasks in any order finishes it in as many steps as it has tasks left. */
module Drain {
  import opened Dicts
  import opened TaskRules
  import opened Scheduling
  import opened WorkflowCore
  import opened CoreRuns

  predicate Live(s: Status) {
    s == Pending || s == Ready || s == Running || s == Completed
  }

  ghost predicate Drainable(d: Db, online: seq<Node>) {
    && Closed(d) && PlaceableSet(d, online) == {} && Acyclic(d)
    && (forall id :: id in d.tab ==> Live(d.tab[id].status) && FirstFit(online, d.tab[id].needs).Some?)
    && (forall id, dep :: id in Uncompleted(d) && dep in d.tab[id].dependsOn ==> dep in d.tab)
  }

  // ----- progress -----

  ghost predicate NeedsOneOf(d: Db, x: Id, s: set<Id>) {
    x in d.tab && exists dep :: dep in d.tab[x].dependsOn && dep in s
  }

  lemma {:induction false} WalkInside(d: Db, s: set<Id>, start: Id, n: nat) returns (p: seq<Id>)
    requires start in s
    requires forall x {:trigger NeedsOneOf(d, x, s)} :: x in s ==> NeedsOneOf(d, x, s)
    ensures |p| == n + 1 && DepChain(d, p)
    ensures forall x :: x in p ==> x in s
  {
    if n == 0 {
      p := [start];
    } else {
      var q := WalkInside(d, s, start, n - 1);
      var last := q[n - 1];
      assert last in q;
      assert NeedsOneOf(d, last, s);
      var dep :| dep in d.tab[last].dependsOn && dep in s;
      p := q + [dep];
    }
  }

  lemma SubChain(d: Db, p: seq<Id>, i: nat, j: nat)
    requires DepChain(d, p) && i < j < |p| && p[i] == p[j]
    ensures !Acyclic(d)
  {
    var cycle := p[i..j + 1];
    assert forall k :: 0 <= k < |cycle| ==> cycle[k] == p[i + k];
    assert DepChain(d, cycle) && cycle[0] == cycle[|cycle| - 1];
  }

  /** If every member of a non-empty set of tasks depends on another, there is a cycle. */
  lemma NoSourceMeansCycle(d: Db, s: set<Id>)
    requires s != {}
    requires forall x {:trigger NeedsOneOf(d, x, s)} :: x in s ==> NeedsOneOf(d, x, s)
    ensures !Acyclic(d)
  {
    var start :| start in s;
    var p := WalkInside(d, s, start, |s|);
    var i, j := Pigeonhole(p, s);
    SubChain(d, p, i, j);
  }

  /** Some task is running whenever any is uncompleted. */
  lemma SomeTaskRuns(d: Db, online: seq<Node>)
    requires Drainable(d, online) && Uncompleted(d) != {}
    ensures exists id :: HasStatus(d, id, Running)
  {
    var s := Uncompleted(d);
    if forall x {:trigger NeedsOneOf(d, x, s)} :: x in s ==> NeedsOneOf(d, x, s) {
      NoSourceMeansCycle(d, s);
    } else {
      var id :| id in s && !NeedsOneOf(d, id, s);
      assert d.tab[id].status == Pending ==> Eligible(d, id);
      assert d.tab[id].status == Ready ==> id in PlaceableSet(d, online);
      assert HasStatus(d, id, Running);
    }
  }

  // ----- one completion -----

  /** A completion of a running task by one of the two paths. */
  datatype Completion = ByCore(id: Id) | ByHandler(id: Id)

  function Completes(d: Db, c: Completion, online: seq<Node>): Db {
    match c
    case ByCore(id) => CompletedByCore(d, id, online)
    case ByHandler(id) => CompletedByHandler(d, id, online)
  }

  lemma SameGraphIsAcyclic(d: Db, e: Db)
    requires Acyclic(d) && e.tab.Keys == d.tab.Keys
    requires forall id :: id in d.tab ==> e.tab[id].dependsOn == d.tab[id].dependsOn
    ensures Acyclic(e)
  {
    forall p | DepChain(e, p) && |p| >= 2 ensures p[0] != p[|p| - 1] {
      assert DepChain(d, p);
    }
  }

  lemma OpensTheDrain(d: Db, e: Db, online: seq<Node>)
    requires Acyclic(d)
    requires forall id :: id in d.tab ==> Live(d.tab[id].status) && FirstFit(online, d.tab[id].needs).Some?
    requires forall id, dep :: id in Uncompleted(d) && dep in d.tab[id].dependsOn ==> dep in d.tab
    requires Closed(e) && PlaceableSet(e, online) == {} && e.tab.Keys == d.tab.Keys
    requires forall id :: id in d.tab ==>
      && e.tab[id].dependsOn == d.tab[id].dependsOn && e.tab[id].needs == d.tab[id].needs
      && Live(e.tab[id].status) && (e.tab[id].status == Completed <==> d.tab[id].status == Completed)
    ensures Drainable(e, online)
  {
    SameGraphIsAcyclic(d, e);
    assert Uncompleted(e) == Uncompleted(d);
  }

  lemma ScanAndScheduleEffect(d: Db, online: seq<Node>)
    ensures var e := Scheduled(Triggered(d), online);
      && Closed(e) && PlaceableSet(e, online) == {} && e.tab.Keys == d.tab.Keys
      && forall id :: id in d.tab ==>
        && e.tab[id].dependsOn == d.tab[id].dependsOn && e.tab[id].needs == d.tab[id].needs
        && (Live(d.tab[id].status) ==> Live(e.tab[id].status))
        && (e.tab[id].status == Completed <==> d.tab[id].status == Completed)
  {
    TriggerCloses(d);
    StaysClosed(Triggered(d), Scheduled(Triggered(d), online));
    SchedulingIsExhaustive(Triggered(d), online);
  }

  /** Any acyclic workflow of live tasks that the online nodes cover is ready to drain once it has
      been scanned and scheduled. */
  lemma ScanAndScheduleOpenTheDrain(d: Db, online: seq<Node>)
    requires Acyclic(d)
    requires forall id :: id in d.tab ==> Live(d.tab[id].status) && FirstFit(online, d.tab[id].needs).Some?
    requires forall id, dep :: id in Uncompleted(d) && dep in d.tab[id].dependsOn ==> dep in d.tab
    ensures Drainable(Scheduled(Triggered(d), online), online)
  {
    ScanAndScheduleEffect(d, online);
    OpensTheDrain(d, Scheduled(Triggered(d), online), online);
  }

  /** What one completion does to a task: the completed one is done, the pending ones it frees
      start on the first node that fits, and nothing else changes. */
  ghost predicate EffectOn(d: Db, e: Db, done: Id, freed: set<Id>, online: seq<Node>, x: Id)
    requires x in d.tab
  {
    && x in e.tab
    && e.tab[x].dependsOn == d.tab[x].dependsOn && e.tab[x].needs == d.tab[x].needs
    && e.tab[x].status == (if x == done then Completed else if x in freed then Running else d.tab[x].status)
    && e.tab[x].assignedTo == (if x in freed then FirstFit(online, d.tab[x].needs) else d.tab[x].assignedTo)
  }

  ghost predicate CompletionEffect(d: Db, e: Db, done: Id, freed: set<Id>, online: seq<Node>) {
    && e.tab.Keys == d.tab.Keys
    && (forall x :: x in freed ==> HasStatus(d, x, Pending))
    && forall x :: x in d.tab ==> EffectOn(d, e, done, freed, online, x)
  }

  /** The pending tasks that the completion of `id` makes eligible. */
  function FreedBy(d: Db, id: Id): set<Id> {
    EligibleSet(SetStatus(d, id, Completed, ""))
  }

  /** Without failures, propagation only promotes what was freed. */
  lemma PropagationOnlyFrees(d: Db, id: Id)
    requires Closed(d) && id in d.tab && forall x :: x in d.tab ==> Live(d.tab[x].status)
    ensures Propagated(SetStatus(d, id, Completed, ""), id, 0)
         == Mark(SetStatus(d, id, Completed, ""), FreedBy(d, id), {})
  {
    var d1 := SetStatus(d, id, Completed, "");
    IncrementalIsFullScan(d, id);
    assert Blockable(d1, CascadeCauses(d1, id, 0)) == {};
  }

  lemma EffectAt(d: Db, c: Completion, online: seq<Node>, x: Id)
    requires Drainable(d, online) && HasStatus(d, c.id, Running) && x in d.tab
    ensures EffectOn(d, Completes(d, c, online), c.id, FreedBy(d, c.id), online, x)
  {
    PropagationOnlyFrees(d, c.id);
    assert HasStatus(d, x, Ready) ==> x in PlaceableSet(d, online);
  }

  lemma CompletionHasEffect(d: Db, c: Completion, online: seq<Node>)
    requires Drainable(d, online) && HasStatus(d, c.id, Running)
    ensures CompletionEffect(d, Completes(d, c, online), c.id, FreedBy(d, c.id), online)
  {
    forall x | x in d.tab ensures EffectOn(d, Completes(d, c, online), c.id, FreedBy(d, c.id), online, x) {
      EffectAt(d, c, online, x);
    }
  }

  lemma EffectStaysLive(d: Db, e: Db, done: Id, freed: set<Id>, online: seq<Node>)
    requires forall id :: id in d.tab ==> Live(d.tab[id].status) && FirstFit(online, d.tab[id].needs).Some?
    requires forall id, dep :: id in Uncompleted(d) && dep in d.tab[id].dependsOn ==> dep in d.tab
    requires PlaceableSet(d, online) == {} && HasStatus(d, done, Running)
    requires CompletionEffect(d, e, done, freed, online)
    ensures forall id :: id in e.tab ==> Live(e.tab[id].status) && FirstFit(online, e.tab[id].needs).Some?
    ensures forall id, dep :: id in Uncompleted(e) && dep in e.tab[id].dependsOn ==> dep in e.tab
    ensures PlaceableSet(e, online) == {} && Uncompleted(e) == Uncompleted(d) - {done}
  {
    assert forall x :: HasStatus(e, x, Ready) ==> HasStatus(d, x, Ready);
    assert forall x :: Placeable(e, x, online) ==> x in PlaceableSet(d, online);
  }

  /** Any such effect takes exactly the completed task off the list and keeps the workflow
      drainable. */
  lemma EffectDrains(d: Db, e: Db, done: Id, freed: set<Id>, online: seq<Node>)
    requires Drainable(d, online) && HasStatus(d, done, Running)
    requires CompletionEffect(d, e, done, freed, online) && Closed(e)
    ensures Drainable(e, online)
    ensures Uncompleted(e) == Uncompleted(d) - {done}
  {
    SameGraphIsAcyclic(d, e);
    EffectStaysLive(d, e, done, freed, online);
  }

  // ----- whole runs -----

  function DrainRun(d: Db, cs: seq<Completion>, online: seq<Node>): Db {
    if cs == [] then d else Completes(DrainRun(d, cs[..|cs| - 1], online), cs[|cs| - 1], online)
  }

  /** Each completed task is running when its turn comes. */
  predicate CompletesRunning(d: Db, cs: seq<Completion>, online: seq<Node>) {
    cs == [] ||
    var front := cs[..|cs| - 1];
    CompletesRunning(d, front, online) && HasStatus(DrainRun(d, front, online), cs[|cs| - 1].id, Running)
  }

  /** Tasks that were pending at the start and have left pending sit where first-fit puts them. */
  ghost predicate PlacedByFit(d: Db, e: Db, online: seq<Node>) {
    forall id :: HasStatus(d, id, Pending) && id in e.tab && e.tab[id].status != Pending ==>
      e.tab[id].assignedTo == FirstFit(online, d.tab[id].needs)
  }

  lemma EffectKeepsFit(d: Db, before: Db, e: Db, done: Id, freed: set<Id>, online: seq<Node>)
    requires before.tab.Keys == d.tab.Keys && forall x :: x in d.tab ==> before.tab[x].needs == d.tab[x].needs
    requires PlacedByFit(d, before, online) && HasStatus(before, done, Running)
    requires CompletionEffect(before, e, done, freed, online)
    ensures PlacedByFit(d, e, online)
  {
  }

  /** What every moment of a drain keeps, in terms of its start `d` and the completions made. */
  ghost predicate Draining(d: Db, e: Db, made: nat, online: seq<Node>) {
    && Drainable(e, online)
    && made + |Uncompleted(e)| == |Uncompleted(d)|
    && e.tab.Keys == d.tab.Keys && (forall id :: id in d.tab ==> e.tab[id].needs == d.tab[id].needs)
    && PlacedByFit(d, e, online)
  }

  lemma CompletionKeepsClosed(d: Db, c: Completion, online: seq<Node>)
    requires Closed(d)
    ensures Closed(Completes(d, c, online))
  {
    ClosedStep(d, if c.ByCore? then Complete(c.id, online) else CompleteByScan(c.id, online));
  }

  lemma EffectKeepsDraining(d: Db, e: Db, e': Db, made: nat, done: Id, freed: set<Id>, online: seq<Node>)
    requires Draining(d, e, made, online) && HasStatus(e, done, Running)
    requires CompletionEffect(e, e', done, freed, online) && Closed(e')
    ensures Draining(d, e', made + 1, online)
  {
    EffectDrains(e, e', done, freed, online);
    EffectKeepsFit(d, e, e', done, freed, online);
    assert done in Uncompleted(e);
  }

  lemma DrainTurn(d: Db, e: Db, made: nat, c: Completion, online: seq<Node>)
    requires Draining(d, e, made, online) && HasStatus(e, c.id, Running)
    ensures Draining(d, Completes(e, c, online), made + 1, online)
  {
    CompletionHasEffect(e, c, online);
    CompletionKeepsClosed(e, c, online);
    EffectKeepsDraining(d, e, Completes(e, c, online), made, c.id, FreedBy(e, c.id), online);
  }

  lemma {:induction false} DrainRunKeeps(d: Db, cs: seq<Completion>, online: seq<Node>)
    requires Drainable(d, online) && CompletesRunning(d, cs, online)
    ensures Draining(d, DrainRun(d, cs, online), |cs|, online)
  {
    if cs == [] {
    } else {
      DrainRunKeeps(d, cs[..|cs| - 1], online);
      DrainTurn(d, DrainRun(d, cs[..|cs| - 1], online), |cs| - 1, cs[|cs| - 1], online);
    }
  }

  /** Completing running tasks in any order, by either path, never gets stuck and is finished after
      exactly as many completions as there were uncompleted tasks; where a task ends up does not
      depend on the order. */
  lemma DrainTheorem(d: Db, cs: seq<Completion>, online: seq<Node>)
    requires Drainable(d, online) && CompletesRunning(d, cs, online)
    ensures |cs| <= |Uncompleted(d)|
    ensures |cs| < |Uncompleted(d)| ==> exists id :: HasStatus(DrainRun(d, cs, online), id, Running)
    ensures |cs| == |Uncompleted(d)| ==> forall id :: id in d.tab ==> HasStatus(DrainRun(d, cs, online), id, Completed)
    ensures PlacedByFit(d, DrainRun(d, cs, online), online)
  {
    DrainRunKeeps(d, cs, online);
    var e := DrainRun(d, cs, online);
    if Uncompleted(e) != {} {
      SomeTaskRuns(e, online);
    } else {
      assert forall id :: id in d.tab ==> id !in Uncompleted(e);
    }
  }
}
