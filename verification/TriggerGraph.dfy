/** Reachability through dependents, for the trigger chain. */
module TriggerGraph {
  import opened Dicts
  import opened TaskRules

  /** Each element of the path is a dependent of the one before it. */
  ghost predicate DependentPath(d: Db, p: seq<Id>) {
    |p| > 0 && forall i :: 0 <= i < |p| - 1 ==> p[i + 1] in DependentsOf(d, p[i])
  }

  ghost predicate PathFrom(d: Db, root: Id, x: Id, p: seq<Id>) {
    DependentPath(d, p) && p[0] == root && p[|p| - 1] == x
  }

  /** Reachable from `root` in one to `hops` steps. */
  ghost predicate Within(d: Db, root: Id, x: Id, hops: int) {
    exists p :: PathFrom(d, root, x, p) && 2 <= |p| <= hops + 1
  }

  ghost predicate Reachable(d: Db, root: Id, x: Id) {
    exists p :: PathFrom(d, root, x, p) && 2 <= |p|
  }

  function Universe(d: Db, root: Id): set<Id> {
    Elements(d.order) + {root}
  }

  /** Any two paths from `root` to the same task, of at most `maxDepth` ids, are equally long. */
  ghost predicate Levelled(d: Db, root: Id, maxDepth: int) {
    forall x, p, q :: PathFrom(d, root, x, p) && PathFrom(d, root, x, q) && |p| <= maxDepth && |q| <= maxDepth ==>
      |p| == |q|
  }

  /** Reached by a path of fewer than `maxDepth` ids. */
  ghost predicate Above(d: Db, root: Id, maxDepth: int, v: Id) {
    exists p :: PathFrom(d, root, v, p) && |p| < maxDepth
  }

  /** The tasks whose dependents the traversal is bound to visit when it visits them. */
  ghost function Inner(d: Db, root: Id, maxDepth: int): set<Id> {
    set v | v in Universe(d, root)
         && (|Universe(d, root)| <= maxDepth || (Levelled(d, root, maxDepth) && Above(d, root, maxDepth, v)))
  }

  lemma InnerIsAbove(d: Db, root: Id, maxDepth: int, tid: Id, path: seq<Id>)
    requires PathFrom(d, root, tid, path) && |path| <= maxDepth && tid in Inner(d, root, maxDepth)
    ensures |path| < maxDepth || |Universe(d, root)| <= maxDepth
  {
  }

  // ----- the traversal as a function -----

  /** The ids visited and the chain after a traversal from `tid`. */
  function Walk(d: Db, tid: Id, depth: int, maxDepth: int, visited: set<Id>, chain: seq<Id>): (set<Id>, seq<Id>)
    decreases maxDepth - depth, 1, 0
  {
    if depth >= maxDepth || tid in visited then (visited, chain)
    else Expand(d, DependentsOf(d, tid), depth, maxDepth, visited + {tid}, chain)
  }

  /** The same after the given dependents of a task at `depth` have been listed and traversed. */
  function Expand(d: Db, deps: seq<Id>, depth: int, maxDepth: int, visited: set<Id>, chain: seq<Id>)
    : (set<Id>, seq<Id>)
    requires depth < maxDepth
    decreases maxDepth - depth, 0, |deps|
  {
    if deps == [] then (visited, chain)
    else
      var dep := deps[|deps| - 1];
      var (v, c) := Expand(d, deps[..|deps| - 1], depth, maxDepth, visited, chain);
      Walk(d, dep, depth + 1, maxDepth, v, c + [dep])
  }

  function TriggerChain(d: Db, root: Id, maxDepth: int): seq<Id> {
    Walk(d, root, 0, maxDepth, {}, []).1
  }

  lemma ExpandSnoc(d: Db, deps: seq<Id>, i: nat, depth: int, maxDepth: int, visited: set<Id>, chain: seq<Id>)
    requires depth < maxDepth && i < |deps|
    ensures Expand(d, deps[..i + 1], depth, maxDepth, visited, chain)
         == var (v, c) := Expand(d, deps[..i], depth, maxDepth, visited, chain);
            Walk(d, deps[i], depth + 1, maxDepth, v, c + [deps[i]])
  {
    assert deps[..i + 1][..i] == deps[..i];
  }

  // ----- edges -----

  function Targets(edges: seq<(Id, Id)>): seq<Id> {
    seq(|edges|, i requires 0 <= i < |edges| => edges[i].1)
  }

  /** From position `from` on, the edges are dependent edges leaving `sources`. */
  ghost predicate AreEdges(d: Db, edges: seq<(Id, Id)>, from: nat, sources: set<Id>) {
    forall k :: from <= k < |edges| ==> edges[k].0 in sources && edges[k].1 in DependentsOf(d, edges[k].0)
  }

  /** Every dependent edge leaving `sources` is listed. */
  ghost predicate Covered(d: Db, edges: seq<(Id, Id)>, sources: set<Id>) {
    forall v, x :: v in sources && x in DependentsOf(d, v) ==> (v, x) in edges
  }

  ghost predicate ClosedUnder(d: Db, from: set<Id>, into: set<Id>) {
    forall v, x :: v in from && x in DependentsOf(d, v) ==> x in into
  }

  /** Along a path whose ids before the last two are in `inner`, everything is visited but the last
      id, which is listed. */
  lemma {:induction false} PathIsListed(d: Db, inner: set<Id>, p: seq<Id>, visited: set<Id>, edges: seq<(Id, Id)>)
    requires DependentPath(d, p) && |p| >= 2 && p[0] in visited
    requires forall i :: 0 <= i < |p| - 2 ==> p[i] in inner
    requires Covered(d, edges, visited) && ClosedUnder(d, visited * inner, visited)
    ensures p[|p| - 2] in visited
    ensures p[|p| - 1] in Targets(edges)
  {
    var n := |p| - 1;
    if n >= 2 {
      PathIsListed(d, inner, p[..n], visited, edges);
      assert p[..n][n - 2] == p[n - 2];
      assert p[n - 1] in DependentsOf(d, p[n - 2]);
    }
    assert p[n] in DependentsOf(d, p[n - 1]);
    var k :| 0 <= k < |edges| && edges[k] == (p[n - 1], p[n]);
    assert Targets(edges)[k] == p[n];
  }

  lemma {:induction false} PathStaysInside(d: Db, root: Id, p: seq<Id>)
    requires DependentPath(d, p) && p[0] == root
    ensures p[|p| - 1] in Universe(d, root)
  {
    if |p| >= 2 {
      assert p[|p| - 1] in DependentsOf(d, p[|p| - 2]);
    }
  }

  lemma PathIsInner(d: Db, root: Id, maxDepth: int, p: seq<Id>, i: nat)
    requires DependentPath(d, p) && p[0] == root && i < |p| - 2
    requires |Universe(d, root)| <= maxDepth || (Levelled(d, root, maxDepth) && |p| <= maxDepth + 1)
    ensures p[i] in Inner(d, root, maxDepth)
  {
    var q := p[..i + 1];
    assert DependentPath(d, q) && PathFrom(d, root, p[i], q);
    PathStaysInside(d, root, q);
  }

  /** What the traversal keeps throughout: ids visited, and the edges behind the chain. */
  ghost predicate GoodWalk(d: Db, root: Id, maxDepth: int, visited: set<Id>, edges: seq<(Id, Id)>) {
    && visited <= Universe(d, root)
    && NoDup(edges) && AreEdges(d, edges, 0, visited)
    && forall e :: e in edges ==> Within(d, root, e.1, maxDepth)
  }

  /** What one traversal adds to (v0, e0): edges leave only newly visited ids, all of theirs are
      there, and so are the targets of those in `inner`. */
  ghost predicate Grown(d: Db, inner: set<Id>, v0: set<Id>, e0: seq<(Id, Id)>, v: set<Id>, e: seq<(Id, Id)>) {
    && v0 <= v && e0 <= e
    && AreEdges(d, e, |e0|, v - v0)
    && Covered(d, e, v - v0)
    && ClosedUnder(d, (v - v0) * inner, v)
  }

  /** The same while the dependents of `tid` are being expanded and those in `done` have been. */
  ghost predicate Expanding(d: Db, inner: set<Id>, tid: Id, done: seq<Id>,
                            v0: set<Id>, e0: seq<(Id, Id)>, v: set<Id>, e: seq<(Id, Id)>) {
    && tid !in v0 && tid in v && v0 <= v && e0 <= e
    && AreEdges(d, e, |e0|, v - v0)
    && (forall k :: 0 <= k < |e| && e[k].0 == tid ==> e[k].1 in done)
    && (forall x :: x in done ==> (tid, x) in e)
    && Covered(d, e, v - v0 - {tid})
    && ClosedUnder(d, (v - v0 - {tid}) * inner, v)
    && (tid in inner ==> forall x :: x in done ==> x in v)
  }

  lemma ExpandEdge(d: Db, root: Id, maxDepth: int, tid: Id, done: seq<Id>, dep: Id, v: set<Id>, e: seq<(Id, Id)>)
    requires GoodWalk(d, root, maxDepth, v, e)
    requires forall k :: 0 <= k < |e| && e[k].0 == tid ==> e[k].1 in done
    requires tid in v && dep !in done && dep in DependentsOf(d, tid) && Within(d, root, dep, maxDepth)
    ensures GoodWalk(d, root, maxDepth, v, e + [(tid, dep)])
  {
    forall k | 0 <= k < |e| ensures e[k] != (tid, dep) {
    }
  }

  lemma ExpandStep(d: Db, inner: set<Id>, tid: Id, done: seq<Id>, dep: Id,
                   v0: set<Id>, e0: seq<(Id, Id)>, v1: set<Id>, e1: seq<(Id, Id)>, v2: set<Id>, e2: seq<(Id, Id)>)
    requires Expanding(d, inner, tid, done, v0, e0, v1, e1)
    requires Grown(d, inner, v1, e1 + [(tid, dep)], v2, e2)
    requires dep in DependentsOf(d, tid) && (tid in inner ==> dep in v2)
    ensures Expanding(d, inner, tid, done + [dep], v0, e0, v2, e2)
  {
    assert e2[|e1|] == (tid, dep);
    assert forall k :: 0 <= k < |e1| ==> e2[k] == e1[k];
    forall x | x in done + [dep] ensures (tid, x) in e2 {
      if x in done {
        var k :| 0 <= k < |e1| && e1[k] == (tid, x);
        assert e2[k] == (tid, x);
      }
    }
    forall v, x | v in v2 - v0 - {tid} && x in DependentsOf(d, v) ensures (v, x) in e2 {
      if v in v1 {
        var k :| 0 <= k < |e1| && e1[k] == (v, x);
        assert e2[k] == (v, x);
      }
    }
  }

  lemma ExpandDone(d: Db, inner: set<Id>, tid: Id, v0: set<Id>, e0: seq<(Id, Id)>, v: set<Id>, e: seq<(Id, Id)>)
    requires Expanding(d, inner, tid, DependentsOf(d, tid), v0, e0, v, e)
    ensures Grown(d, inner, v0, e0, v, e)
  {
  }

  lemma SubsetOfSameSize(a: set<Id>, b: set<Id>)
    requires a <= b && |a| >= |b|
    ensures a == b
  {
    assert b == a + (b - a);
    assert |b - a| == 0;
  }

  lemma Larger(a: set<Id>, b: set<Id>)
    requires a <= b
    ensures |a| <= |b|
  {
    assert b == a + (b - a);
  }

  lemma TargetsStep(edges: seq<(Id, Id)>, e: (Id, Id))
    ensures Targets(edges + [e]) == Targets(edges) + [e.1]
  {
  }

  lemma PathStep(d: Db, root: Id, tid: Id, path: seq<Id>, dep: Id, maxDepth: int)
    requires PathFrom(d, root, tid, path) && dep in DependentsOf(d, tid) && |path| <= maxDepth
    ensures PathFrom(d, root, dep, path + [dep]) && Within(d, root, dep, maxDepth)
  {
    var p := path + [dep];
    assert PathFrom(d, root, dep, p);
  }

  // ----- one call and one turn of its loop -----

  /** The ids visited, the chain, and the edges behind it. */
  datatype Trace = Trace(visited: set<Id>, chain: seq<Id>, edges: seq<(Id, Id)>)

  ghost predicate GoodTrace(d: Db, root: Id, maxDepth: int, t: Trace) {
    t.chain == Targets(t.edges) && GoodWalk(d, root, maxDepth, t.visited, t.edges)
  }

  /** What one call from `tid` makes of the trace `t0`. */
  ghost predicate Traversed(d: Db, root: Id, tid: Id, depth: int, maxDepth: int, t0: Trace, t: Trace) {
    && GoodTrace(d, root, maxDepth, t)
    && (t.visited, t.chain) == Walk(d, tid, depth, maxDepth, t0.visited, t0.chain)
    && Grown(d, Inner(d, root, maxDepth), t0.visited, t0.edges, t.visited, t.edges)
    && (depth < maxDepth || |Universe(d, root)| <= maxDepth ==> tid in t.visited)
  }

  /** The same while the dependents of `tid` are being expanded and those in `done` have been. */
  ghost predicate InExpansion(d: Db, root: Id, tid: Id, done: seq<Id>, depth: int, maxDepth: int, t0: Trace, t: Trace)
    requires depth < maxDepth
  {
    && GoodTrace(d, root, maxDepth, t) && |t.visited| >= depth + 1
    && (t.visited, t.chain) == Expand(d, done, depth, maxDepth, t0.visited + {tid}, t0.chain)
    && Expanding(d, Inner(d, root, maxDepth), tid, done, t0.visited, t0.edges, t.visited, t.edges)
  }

  lemma ExpansionEnters(d: Db, root: Id, tid: Id, path: seq<Id>, i: nat, depth: int, maxDepth: int, t0: Trace, t: Trace)
    requires depth < maxDepth && i < |DependentsOf(d, tid)| && d.Valid()
    requires InExpansion(d, root, tid, DependentsOf(d, tid)[..i], depth, maxDepth, t0, t)
    requires PathFrom(d, root, tid, path) && |path| == depth + 1
    ensures var dep := DependentsOf(d, tid)[i];
      && PathFrom(d, root, dep, path + [dep]) && dep in Universe(d, root)
      && GoodTrace(d, root, maxDepth, t.(chain := t.chain + [dep], edges := t.edges + [(tid, dep)]))
  {
    var deps := DependentsOf(d, tid);
    assert deps[i] in deps;
    assert deps[i] !in deps[..i];
    PathStep(d, root, tid, path, deps[i], maxDepth);
    ExpandEdge(d, root, maxDepth, tid, deps[..i], deps[i], t.visited, t.edges);
    TargetsStep(t.edges, (tid, deps[i]));
  }

  lemma ExpansionAdvances(d: Db, root: Id, tid: Id, path: seq<Id>, i: nat, depth: int, maxDepth: int,
                          t0: Trace, t1: Trace, t2: Trace)
    requires depth < maxDepth && i < |DependentsOf(d, tid)|
    requires InExpansion(d, root, tid, DependentsOf(d, tid)[..i], depth, maxDepth, t0, t1)
    requires PathFrom(d, root, tid, path) && |path| == depth + 1
    requires var dep := DependentsOf(d, tid)[i];
      Traversed(d, root, dep, depth + 1, maxDepth,
        t1.(chain := t1.chain + [dep], edges := t1.edges + [(tid, dep)]), t2)
    ensures InExpansion(d, root, tid, DependentsOf(d, tid)[..i + 1], depth, maxDepth, t0, t2)
  {
    var (deps, inner) := (DependentsOf(d, tid), Inner(d, root, maxDepth));
    PrefixStep(deps, i);
    ExpandSnoc(d, deps, i, depth, maxDepth, t0.visited + {tid}, t0.chain);
    if tid in inner {
      InnerIsAbove(d, root, maxDepth, tid, path);
    }
    ExpandStep(d, inner, tid, deps[..i], deps[i], t0.visited, t0.edges, t1.visited, t1.edges, t2.visited, t2.edges);
    Larger(t1.visited, t2.visited);
  }

  lemma ExpansionEnds(d: Db, root: Id, tid: Id, depth: int, maxDepth: int, t0: Trace, t: Trace)
    requires depth < maxDepth && tid !in t0.visited
    requires InExpansion(d, root, tid, DependentsOf(d, tid), depth, maxDepth, t0, t)
    ensures Traversed(d, root, tid, depth, maxDepth, t0, t)
  {
    ExpandDone(d, Inner(d, root, maxDepth), tid, t0.visited, t0.edges, t.visited, t.edges);
  }

  lemma TraversalStops(d: Db, root: Id, tid: Id, depth: int, maxDepth: int, t: Trace)
    requires depth >= maxDepth || tid in t.visited
    requires GoodTrace(d, root, maxDepth, t) && tid in Universe(d, root) && |t.visited| >= depth
    ensures Traversed(d, root, tid, depth, maxDepth, t, t)
  {
    if |Universe(d, root)| <= maxDepth <= depth {
      SubsetOfSameSize(t.visited, Universe(d, root));
    }
  }

  // ----- a whole traversal -----

  /** A trace of a traversal from the root, as the caller sees it. */
  ghost predicate WholeTrace(d: Db, root: Id, maxDepth: int, t: Trace) {
    Traversed(d, root, root, 0, maxDepth, Trace({}, [], []), t)
  }

  lemma ListedIsWithin(d: Db, root: Id, maxDepth: int, t: Trace)
    requires WholeTrace(d, root, maxDepth, t)
    ensures t.chain == TriggerChain(d, root, maxDepth) == Targets(t.edges) && NoDup(t.edges)
    ensures forall x :: x in t.chain ==> Within(d, root, x, maxDepth)
    ensures forall e :: e in t.edges ==> e.1 in DependentsOf(d, e.0)
  {
    forall x | x in t.chain ensures Within(d, root, x, maxDepth) {
      var k :| 0 <= k < |t.chain| && t.chain[k] == x;
      assert t.edges[k] in t.edges;
    }
  }

  lemma PathEndIsListed(d: Db, root: Id, maxDepth: int, t: Trace, p: seq<Id>)
    requires WholeTrace(d, root, maxDepth, t) && DependentPath(d, p) && p[0] == root && |p| >= 2
    requires |Universe(d, root)| <= maxDepth || (Levelled(d, root, maxDepth) && |p| <= maxDepth + 1)
    ensures p[|p| - 1] in t.chain
  {
    forall i | 0 <= i < |p| - 2 ensures p[i] in Inner(d, root, maxDepth) {
      PathIsInner(d, root, maxDepth, p, i);
    }
    PathIsListed(d, Inner(d, root, maxDepth), p, t.visited, t.edges);
  }

  /** With as many levels as ids nothing reachable is missing. */
  lemma DeepIsExact(d: Db, root: Id, maxDepth: int, t: Trace)
    requires WholeTrace(d, root, maxDepth, t) && |Universe(d, root)| <= maxDepth
    ensures forall x :: x in t.chain <==> Reachable(d, root, x)
  {
    ListedIsWithin(d, root, maxDepth, t);
    forall x | Reachable(d, root, x) ensures x in t.chain {
      var p :| PathFrom(d, root, x, p) && 2 <= |p|;
      PathEndIsListed(d, root, maxDepth, t, p);
    }
  }

  /** When each task is met at one level only, nothing within `maxDepth` hops is missing. */
  lemma LevelledIsExact(d: Db, root: Id, maxDepth: int, t: Trace)
    requires WholeTrace(d, root, maxDepth, t) && Levelled(d, root, maxDepth)
    ensures forall x :: x in t.chain <==> Within(d, root, x, maxDepth)
  {
    ListedIsWithin(d, root, maxDepth, t);
    forall x | Within(d, root, x, maxDepth) ensures x in t.chain {
      var p :| PathFrom(d, root, x, p) && 2 <= |p| <= maxDepth + 1;
      PathEndIsListed(d, root, maxDepth, t, p);
    }
  }
}
