/** Nodes, first-fit placement, the visiting order of ready tasks and the bounded decision log. */
module Scheduling {
  import opened Dicts
  import opened TaskRules

  datatype NodeStatus = Online | Degraded | Offline

  datatype Node = Node(id: Id, name: string, capabilities: seq<string>, status: NodeStatus, lastHeartbeat: int)

  datatype Decision = Decision(taskId: Id, taskTitle: string, priority: int, nodeId: Id, score: real, reason: string)

  const MAX_DECISIONS := 200

  /** A registry holds each node under its own id. */
  ghost predicate KeyedNodes(nodes: Dict<Node>) {
    nodes.Valid() && forall id :: id in nodes.tab ==> nodes.tab[id].id == id
  }

  /** The registry after a heartbeat, which is lost on an unknown node. */
  function Beaten(nodes: Dict<Node>, id: Id, at: int): Dict<Node> {
    if id in nodes.tab then nodes.Put(id, nodes.tab[id].(lastHeartbeat := at, status := Online)) else nodes
  }

  predicate Covers(n: Node, needs: seq<string>) {
    forall c :: c in needs ==> c in n.capabilities
  }

  function OnlineNodes(nodes: Dict<Node>): seq<Node>
    requires nodes.Valid()
  {
    OnlineAmong(nodes, nodes.order)
  }

  function OnlineAmong(nodes: Dict<Node>, order: seq<Id>): (r: seq<Node>)
    requires forall id :: id in order ==> id in nodes.tab
    ensures forall n :: n in r <==> exists id :: id in order && nodes.tab[id] == n && n.status == Online
  {
    if order == [] then []
    else
      var last := |order| - 1;
      OnlineAmong(nodes, order[..last])
        + (if nodes.tab[order[last]].status == Online then [nodes.tab[order[last]]] else [])
  }

  function FirstFit(online: seq<Node>, needs: seq<string>): Option<Id> {
    if online == [] then None
    else if Covers(online[0], needs) then Some(online[0].id)
    else FirstFit(online[1..], needs)
  }

  /** None is chosen exactly when no node covers the needs. */
  lemma {:induction false} NoFitMeansNoCover(online: seq<Node>, needs: seq<string>)
    ensures FirstFit(online, needs) == None <==> forall n :: n in online ==> !Covers(n, needs)
  {
    if online != [] && !Covers(online[0], needs) {
      NoFitMeansNoCover(online[1..], needs);
    }
  }

  /** The chosen node is the first in registry order that covers the needs. */
  lemma {:induction false} FirstFitIsFirst(online: seq<Node>, needs: seq<string>, k: nat)
    requires k < |online| && Covers(online[k], needs)
    requires forall j :: 0 <= j < k ==> !Covers(online[j], needs)
    ensures FirstFit(online, needs) == Some(online[k].id)
  {
    if k > 0 {
      assert !Covers(online[0], needs);
      FirstFitIsFirst(online[1..], needs, k - 1);
    }
  }

  /** The loop over online nodes that stops at the first match. */
  method FindFit(online: seq<Node>, needs: seq<string>) returns (fit: Option<Id>)
    ensures fit == FirstFit(online, needs)
  {
    for k := 0 to |online|
      invariant forall j :: 0 <= j < k ==> !Covers(online[j], needs)
    {
      if Covers(online[k], needs) {
        FirstFitIsFirst(online, needs, k);
        return Some(online[k].id);
      }
    }
    NoFitMeansNoCover(online, needs);
    return None;
  }

  // ----- placement -----

  predicate Placeable(d: Db, id: Id, online: seq<Node>) {
    HasStatus(d, id, Ready) && FirstFit(online, d.tab[id].needs).Some?
  }

  function PlaceableSet(d: Db, online: seq<Node>): set<Id> {
    set id | id in d.tab && Placeable(d, id, online)
  }

  function ReadySet(d: Db): set<Id> {
    set id | id in d.tab && d.tab[id].status == Ready
  }

  function Placed(t: Task, node: Id): Task {
    t.(status := Running, assignedTo := Some(node), version := t.version + 1)
  }

  /** The table after one scheduling call. */
  function Scheduled(d: Db, online: seq<Node>): Db {
    Dict(d.order, map id | id in d.tab ::
      if Placeable(d, id, online)
      then Placed(d.tab[id], FirstFit(online, d.tab[id].needs).value)
      else d.tab[id])
  }

  /** Try to place one task. */
  function PlaceOne(d: Db, id: Id, online: seq<Node>): Db {
    if Placeable(d, id, online)
    then d.Put(id, Placed(d.tab[id], FirstFit(online, d.tab[id].needs).value))
    else d
  }

  /** Try to place the given tasks one after another. */
  function PlaceAll(d: Db, ids: seq<Id>, online: seq<Node>): Db {
    if ids == [] then d
    else PlaceOne(PlaceAll(d, ids[..|ids| - 1], online), ids[|ids| - 1], online)
  }

  lemma {:induction false} PlaceAllPointwise(d: Db, ids: seq<Id>, online: seq<Node>)
    ensures PlaceAll(d, ids, online).order == d.order
    ensures PlaceAll(d, ids, online).tab.Keys == d.tab.Keys
    ensures forall id :: id in d.tab ==>
      PlaceAll(d, ids, online).tab[id] == if id in ids then Scheduled(d, online).tab[id] else d.tab[id]
  {
    if ids == [] {
    } else {
      PlaceAllPointwise(d, ids[..|ids| - 1], online);
      assert ids == ids[..|ids| - 1] + [ids[|ids| - 1]];
    }
  }

  /** The assignments do not depend on the order in which the ready tasks are visited. */
  lemma PlacementIgnoresOrder(d: Db, ids: seq<Id>, online: seq<Node>)
    requires forall id :: HasStatus(d, id, Ready) ==> id in ids
    ensures PlaceAll(d, ids, online) == Scheduled(d, online)
  {
    PlaceAllPointwise(d, ids, online);
    assert PlaceAll(d, ids, online).tab == Scheduled(d, online).tab;
  }

  /** Exact, greedy and work-conserving: what is left ready is what no online node covers, so a
      second call finds nothing to do. */
  lemma SchedulingIsExhaustive(d: Db, online: seq<Node>)
    ensures forall id :: HasStatus(Scheduled(d, online), id, Ready) <==>
              HasStatus(d, id, Ready) && forall n :: n in online ==> !Covers(n, d.tab[id].needs)
    ensures PlaceableSet(Scheduled(d, online), online) == {}
    ensures Scheduled(Scheduled(d, online), online) == Scheduled(d, online)
  {
    forall id | id in d.tab
      ensures HasStatus(Scheduled(d, online), id, Ready) <==>
        HasStatus(d, id, Ready) && forall n :: n in online ==> !Covers(n, d.tab[id].needs)
    {
      NoFitMeansNoCover(online, d.tab[id].needs);
    }
    var d1 := Scheduled(d, online);
    assert Scheduled(d1, online).tab == d1.tab;
  }

  // ----- visiting order -----

  predicate KeyLe(a: Task, b: Task) {
    a.priority < b.priority || (a.priority == b.priority && a.createdAt <= b.createdAt)
  }

  predicate SameKey(a: Task, b: Task) {
    a.priority == b.priority && a.createdAt == b.createdAt
  }

  ghost predicate SortedByKey(d: Db, ids: seq<Id>)
    requires forall id :: id in ids ==> id in d.tab
  {
    forall i, j :: 0 <= i < j < |ids| ==> KeyLe(d.tab[ids[i]], d.tab[ids[j]])
  }

  /** Insert after every element whose key is not larger. */
  function InsertByKey(d: Db, ids: seq<Id>, x: Id): (r: seq<Id>)
    requires x in d.tab && forall id :: id in ids ==> id in d.tab
    ensures forall id :: id in r <==> id in ids || id == x
  {
    if ids == [] || KeyLe(d.tab[ids[|ids| - 1]], d.tab[x]) then ids + [x]
    else InsertByKey(d, ids[..|ids| - 1], x) + [ids[|ids| - 1]]
  }

  /** The stable sort by (priority, created_at). */
  function SortByKey(d: Db, ids: seq<Id>): (r: seq<Id>)
    requires forall id :: id in ids ==> id in d.tab
    ensures forall id :: id in r <==> id in ids
  {
    if ids == [] then []
    else InsertByKey(d, SortByKey(d, ids[..|ids| - 1]), ids[|ids| - 1])
  }

  lemma {:induction false} InsertPermutes(d: Db, ids: seq<Id>, x: Id)
    requires x in d.tab && forall id :: id in ids ==> id in d.tab
    ensures multiset(InsertByKey(d, ids, x)) == multiset(ids) + multiset{x}
  {
    if ids != [] && !KeyLe(d.tab[ids[|ids| - 1]], d.tab[x]) {
      InsertPermutes(d, ids[..|ids| - 1], x);
      assert ids == ids[..|ids| - 1] + [ids[|ids| - 1]];
    }
  }

  lemma {:induction false} InsertSorts(d: Db, ids: seq<Id>, x: Id)
    requires x in d.tab && forall id :: id in ids ==> id in d.tab
    requires SortedByKey(d, ids)
    ensures SortedByKey(d, InsertByKey(d, ids, x))
  {
    if ids != [] && !KeyLe(d.tab[ids[|ids| - 1]], d.tab[x]) {
      var front, last := ids[..|ids| - 1], ids[|ids| - 1];
      InsertSorts(d, front, x);
      var r := InsertByKey(d, front, x);
      forall i | 0 <= i < |r| ensures KeyLe(d.tab[r[i]], d.tab[last]) {
        assert r[i] in front || r[i] == x;
      }
    }
  }

  /** The elements with the same key as `t`, in order. */
  function WithKeyOf(d: Db, ids: seq<Id>, t: Task): seq<Id>
    requires forall id :: id in ids ==> id in d.tab
  {
    if ids == [] then []
    else
      var last := ids[|ids| - 1];
      WithKeyOf(d, ids[..|ids| - 1], t) + (if SameKey(d.tab[last], t) then [last] else [])
  }

  lemma WithKeyStep(d: Db, ids: seq<Id>, x: Id, t: Task)
    requires x in d.tab && forall id :: id in ids ==> id in d.tab
    ensures WithKeyOf(d, ids + [x], t) == WithKeyOf(d, ids, t) + if SameKey(d.tab[x], t) then [x] else []
  {
    assert (ids + [x])[..|ids|] == ids;
  }

  lemma {:induction false} InsertIsStable(d: Db, ids: seq<Id>, x: Id, t: Task)
    requires x in d.tab && forall id :: id in ids ==> id in d.tab
    ensures WithKeyOf(d, InsertByKey(d, ids, x), t) == WithKeyOf(d, ids + [x], t)
  {
    WithKeyStep(d, ids, x, t);
    if ids == [] || KeyLe(d.tab[ids[|ids| - 1]], d.tab[x]) {
    } else {
      var front, last := ids[..|ids| - 1], ids[|ids| - 1];
      assert !(SameKey(d.tab[last], t) && SameKey(d.tab[x], t));
      InsertIsStable(d, front, x, t);
      WithKeyStep(d, front, x, t);
      WithKeyStep(d, InsertByKey(d, front, x), last, t);
      SwapEmpty(WithKeyOf(d, front, t),
        if SameKey(d.tab[last], t) then [last] else [], if SameKey(d.tab[x], t) then [x] else []);
    }
  }

  lemma SwapEmpty(w: seq<Id>, a: seq<Id>, b: seq<Id>)
    requires a == [] || b == []
    ensures w + a + b == w + b + a
  {
  }

  /** The sort yields a permutation, in key order, with ties kept in table order. */
  lemma {:induction false} SortIsStable(d: Db, ids: seq<Id>)
    requires forall id :: id in ids ==> id in d.tab
    ensures SortedByKey(d, SortByKey(d, ids))
    ensures multiset(SortByKey(d, ids)) == multiset(ids)
    ensures forall t :: WithKeyOf(d, SortByKey(d, ids), t) == WithKeyOf(d, ids, t)
  {
    if ids == [] {
    } else {
      var front, x := ids[..|ids| - 1], ids[|ids| - 1];
      SortIsStable(d, front);
      InsertSorts(d, SortByKey(d, front), x);
      InsertPermutes(d, SortByKey(d, front), x);
      assert ids == front + [x];
      forall t ensures WithKeyOf(d, SortByKey(d, ids), t) == WithKeyOf(d, ids, t) {
        InsertIsStable(d, SortByKey(d, front), x, t);
        WithKeyStep(d, SortByKey(d, front), x, t);
      }
    }
  }

  lemma {:induction false} PermutationKeepsNoDup(a: seq<Id>, b: seq<Id>)
    requires multiset(a) == multiset(b) && NoDup(a)
    ensures NoDup(b)
  {
    if i, j :| 0 <= i < j < |b| && b[i] == b[j] {
      assert b == b[..i] + [b[i]] + b[i + 1..j] + [b[j]] + b[j + 1..];
      assert multiset(b)[b[i]] >= 2;
      assert multiset(a)[b[i]] >= 2;
      CountAtMostOnce(a, b[i]);
    }
  }

  lemma {:induction false} CountAtMostOnce(a: seq<Id>, x: Id)
    requires NoDup(a)
    ensures multiset(a)[x] <= 1
  {
    if a == [] {
    } else {
      var n := |a| - 1;
      CountAtMostOnce(a[..n], x);
      assert a == a[..n] + [a[n]];
    }
  }

  function ReadyInOrder(d: Db): seq<Id> {
    SortByKey(d, Select(d.order, ReadySet(d)))
  }

  lemma ReadyOnce(d: Db)
    requires d.Valid()
    ensures NoDup(ReadyInOrder(d))
    ensures forall id :: id in ReadyInOrder(d) <==> HasStatus(d, id, Ready)
  {
    var ready := Select(d.order, ReadySet(d));
    SortIsStable(d, ready);
    PermutationKeepsNoDup(ready, ReadyInOrder(d));
  }

  // ----- decision log -----

  function DecisionFor(d: Db, id: Id, online: seq<Node>): Decision
    requires Placeable(d, id, online)
  {
    Decision(id, d.tab[id].title, d.tab[id].priority, FirstFit(online, d.tab[id].needs).value, 1.0, "capability_match")
  }

  /** The decisions recorded when the given tasks are visited in turn. */
  function DecisionsFor(d: Db, ids: seq<Id>, online: seq<Node>): seq<Decision> {
    if ids == [] then []
    else
      var last := ids[|ids| - 1];
      DecisionsFor(d, ids[..|ids| - 1], online)
        + (if Placeable(d, last, online) then [DecisionFor(d, last, online)] else [])
  }

  /** The last `max` entries. */
  function Suffix<T>(log: seq<T>, max: nat): seq<T> {
    if |log| > max then log[|log| - max..] else log
  }

  /** Record the decisions one by one, trimming after each. */
  function RecordAll(log: seq<Decision>, ds: seq<Decision>, max: nat): seq<Decision> {
    if ds == [] then log
    else Suffix(RecordAll(log, ds[..|ds| - 1], max) + [ds[|ds| - 1]], max)
  }

  lemma SuffixStep(history: seq<Decision>, x: Decision, max: nat)
    ensures Suffix(Suffix(history, max) + [x], max) == Suffix(history + [x], max)
  {
  }

  lemma {:induction false} RecordAllIsSuffix(history: seq<Decision>, ds: seq<Decision>, max: nat)
    ensures RecordAll(Suffix(history, max), ds, max) == Suffix(history + ds, max)
  {
    if ds == [] {
      assert history + ds == history;
    } else {
      var n := |ds| - 1;
      RecordAllIsSuffix(history, ds[..n], max);
      SuffixStep(history + ds[..n], ds[n], max);
      assert history + ds == (history + ds[..n]) + [ds[n]];
    }
  }

  /** A run of calls, each of which records some decisions: a single one for a direct call, all its
      placements for a scheduling call. */
  function LogAfter(calls: seq<seq<Decision>>, max: nat): seq<Decision> {
    if calls == [] then []
    else RecordAll(LogAfter(calls[..|calls| - 1], max), calls[|calls| - 1], max)
  }

  function Concat(calls: seq<seq<Decision>>): seq<Decision> {
    if calls == [] then [] else Concat(calls[..|calls| - 1]) + calls[|calls| - 1]
  }

  /** Over any interleaving the stored log is exactly the last min(max, total) entries of the full
      history. */
  lemma {:induction false} LogKeepsNewest(calls: seq<seq<Decision>>, max: nat)
    ensures LogAfter(calls, max) == Suffix(Concat(calls), max)
    ensures |LogAfter(calls, max)| == if |Concat(calls)| < max then |Concat(calls)| else max
  {
    if calls == [] {
    } else {
      LogKeepsNewest(calls[..|calls| - 1], max);
      RecordAllIsSuffix(Concat(calls[..|calls| - 1]), calls[|calls| - 1], max);
    }
  }

  /** Each decision names a task that is placed, and the node it goes to. */
  ghost predicate DecisionsMatch(d: Db, online: seq<Node>, ds: seq<Decision>) {
    forall i :: 0 <= i < |ds| ==>
      Placeable(d, ds[i].taskId, online) && ds[i] == DecisionFor(d, ds[i].taskId, online)
  }

  /** No task is decided twice, and the decisions follow (priority, created_at). */
  ghost predicate DecisionsSorted(d: Db, ds: seq<Decision>) {
    forall i, j :: 0 <= i < j < |ds| ==>
      && ds[i].taskId != ds[j].taskId && ds[i].taskId in d.tab && ds[j].taskId in d.tab
      && KeyLe(d.tab[ds[i].taskId], d.tab[ds[j].taskId])
  }

  lemma {:induction false} DecisionsOf(d: Db, ids: seq<Id>, online: seq<Node>)
    ensures DecisionsMatch(d, online, DecisionsFor(d, ids, online))
    ensures forall x :: x in DecisionsFor(d, ids, online) ==> x.taskId in ids
    ensures |DecisionsFor(d, ids, online)| == |Select(ids, PlaceableSet(d, online))|
  {
    if ids == [] {
    } else {
      var front, last := ids[..|ids| - 1], ids[|ids| - 1];
      DecisionsOf(d, front, online);
      assert ids == front + [last];
    }
  }

  lemma {:induction false} DecisionsOfSorted(d: Db, ids: seq<Id>, online: seq<Node>)
    requires forall id :: id in ids ==> id in d.tab
    requires SortedByKey(d, ids) && NoDup(ids)
    ensures DecisionsSorted(d, DecisionsFor(d, ids, online))
  {
    if ids == [] {
    } else {
      var front, last := ids[..|ids| - 1], ids[|ids| - 1];
      DecisionsOfSorted(d, front, online);
      DecisionsOf(d, front, online);
      assert ids == front + [last];
      var ds := DecisionsFor(d, front, online);
      forall i | 0 <= i < |ds|
        ensures ds[i].taskId in d.tab && KeyLe(d.tab[ds[i].taskId], d.tab[last]) && ds[i].taskId != last
      {
        assert ds[i].taskId in front;
        var k :| 0 <= k < |front| && front[k] == ds[i].taskId;
        assert ids[k] == ds[i].taskId;
      }
    }
  }

  /** The decisions of one scheduling call: one per placed task, naming its node, in
      (priority, created_at) order. */
  lemma DecisionsAreOrdered(d: Db, online: seq<Node>)
    requires d.Valid()
    ensures DecisionsMatch(d, online, DecisionsFor(d, ReadyInOrder(d), online))
    ensures DecisionsSorted(d, DecisionsFor(d, ReadyInOrder(d), online))
    ensures |DecisionsFor(d, ReadyInOrder(d), online)| == |PlaceableSet(d, online)|
  {
    var ready := Select(d.order, ReadySet(d));
    SortIsStable(d, ready);
    ReadyOnce(d);
    DecisionsOf(d, ReadyInOrder(d), online);
    DecisionsOfSorted(d, ReadyInOrder(d), online);
    SelectCount(ReadyInOrder(d), PlaceableSet(d, online));
  }

  /** One turn of the scheduling loop: the task is still as it was, and it is placed and recorded
      exactly when some node fits. */
  lemma PlaceStep(d: Db, ready: seq<Id>, i: nat, online: seq<Node>, log: seq<Decision>, max: nat)
    requires i < |ready| && NoDup(ready) && forall id :: id in ready ==> HasStatus(d, id, Ready)
    ensures var id, now, next := ready[i], PlaceAll(d, ready[..i], online), PlaceAll(d, ready[..i + 1], online);
      var ds, ds' := DecisionsFor(d, ready[..i], online), DecisionsFor(d, ready[..i + 1], online);
      && now.order == next.order == d.order && now.tab.Keys == next.tab.Keys == d.tab.Keys
      && id in d.tab && now.tab[id] == d.tab[id]
      && match FirstFit(online, d.tab[id].needs)
         case None => next == now && ds' == ds
         case Some(n) =>
           && next == now.Put(id, Placed(d.tab[id], n))
           && |ds'| == |ds| + 1
           && RecordAll(log, ds', max) == Suffix(RecordAll(log, ds, max) + [DecisionFor(d, id, online)], max)
  {
    PlaceAllPointwise(d, ready[..i], online);
    PlaceAllPointwise(d, ready[..i + 1], online);
    assert ready[i] in ready;
    assert ready[i] !in ready[..i];
    assert ready[..i + 1][..i] == ready[..i];
    var ds := DecisionsFor(d, ready[..i], online);
    if Placeable(d, ready[i], online) {
      assert (ds + [DecisionFor(d, ready[i], online)])[..|ds|] == ds;
    }
  }

  lemma {:induction false} NothingOnline(d: Db, ids: seq<Id>)
    ensures Scheduled(d, []) == d && PlaceableSet(d, []) == {} && DecisionsFor(d, ids, []) == []
  {
    assert Scheduled(d, []).tab == d.tab;
    if ids == [] {
    } else {
      NothingOnline(d, ids[..|ids| - 1]);
    }
  }
}
