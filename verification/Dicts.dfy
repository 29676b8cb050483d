/** Insertion-ordered tables: what a Python dictionary iterates in, and what an SQL table without
    an ORDER BY is read in (row order). */
module Dicts {
  type Id = string

  datatype Option<+T> = None | Some(value: T)

  ghost predicate NoDup<T>(s: seq<T>) {
    forall i, j :: 0 <= i < j < |s| ==> s[i] != s[j]
  }

  datatype Dict<V> = Dict(order: seq<Id>, tab: map<Id, V>) {
    ghost predicate Valid() {
      && NoDup(order)
      && (forall id :: id in order <==> id in tab)
    }

    /** Assigning to a key keeps its position when the key exists, and appends it otherwise. */
    function Put(id: Id, v: V): (r: Dict<V>)
      ensures Valid() ==> r.Valid()
    {
      Dict(if id in tab then order else order + [id], tab[id := v])
    }
  }

  lemma PutTwice<V>(d: Dict<V>, id: Id, a: V, b: V)
    requires id in d.tab
    ensures d.Put(id, a).Put(id, b) == d.Put(id, b)
  {
    assert d.Put(id, a).Put(id, b).tab == d.Put(id, b).tab;
  }

  function Elements(s: seq<Id>): set<Id> {
    set x | x in s
  }

  /** The members of `order` that lie in `keep`, in order. */
  function Select(order: seq<Id>, keep: set<Id>): (r: seq<Id>)
    ensures forall id :: id in r <==> id in order && id in keep
    ensures NoDup(order) ==> NoDup(r)
  {
    if order == [] then []
    else
      var n := |order| - 1;
      Select(order[..n], keep) + (if order[n] in keep then [order[n]] else [])
  }

  lemma SelectStep(order: seq<Id>, i: nat, keep: set<Id>)
    requires i < |order|
    ensures Select(order[..i + 1], keep)
         == Select(order[..i], keep) + (if order[i] in keep then [order[i]] else [])
  {
    assert order[..i + 1][..i] == order[..i];
  }

  ghost predicate Before(order: seq<Id>, a: Id, b: Id) {
    exists i, j :: 0 <= i < j < |order| && order[i] == a && order[j] == b
  }

  /** The elements of `r` come in the order of `order`. */
  ghost predicate InOrder(order: seq<Id>, r: seq<Id>) {
    forall i, j :: 0 <= i < j < |r| ==> Before(order, r[i], r[j])
  }

  lemma BeforeInFront(order: seq<Id>, n: nat, a: Id, b: Id)
    requires n <= |order| && Before(order[..n], a, b)
    ensures Before(order, a, b)
  {
    var i, j :| 0 <= i < j < n && order[..n][i] == a && order[..n][j] == b;
    assert order[i] == a && order[j] == b;
  }

  lemma {:induction false} SelectInOrder(order: seq<Id>, keep: set<Id>)
    ensures InOrder(order, Select(order, keep))
  {
    if order == [] {
    } else {
      var n := |order| - 1;
      SelectInOrder(order[..n], keep);
      var front, r := Select(order[..n], keep), Select(order, keep);
      forall i, j | 0 <= i < j < |r| ensures Before(order, r[i], r[j]) {
        if j < |front| {
          BeforeInFront(order, n, r[i], r[j]);
        } else {
          assert r[i] == front[i] && front[i] in front;
          var k :| 0 <= k < n && order[..n][k] == r[i];
          assert order[k] == r[i] && order[n] == r[j];
        }
      }
    }
  }

  /** Only the entry of `id` is new or has changed. */
  ghost predicate OnlyAt<V>(d: Dict<V>, e: Dict<V>, id: Id) {
    && e.order == (if id in d.tab then d.order else d.order + [id])
    && e.tab.Keys == d.tab.Keys + {id}
    && forall x :: x in d.tab && x != id ==> x in e.tab && e.tab[x] == d.tab[x]
  }

  /** The same ids in the same order. */
  ghost predicate SameIds<V>(d: Dict<V>, e: Dict<V>) {
    e.order == d.order && e.tab.Keys == d.tab.Keys
  }

  lemma {:induction false} SelectNothing(order: seq<Id>)
    ensures Select(order, {}) == []
  {
    if order == [] {
    } else {
      SelectNothing(order[..|order| - 1]);
    }
  }

  lemma PrefixStep<T>(s: seq<T>, i: nat)
    requires i < |s|
    ensures s[..i + 1] == s[..i] + [s[i]]
  {
  }

  lemma {:induction false} SelectCount(order: seq<Id>, keep: set<Id>)
    requires NoDup(order)
    requires forall id :: id in keep ==> id in order
    ensures |Select(order, keep)| == |keep|
  {
    if order == [] {
      assert keep == {};
    } else {
      var n := |order| - 1;
      SelectCount(order[..n], keep - {order[n]});
      SelectAgree(order[..n], keep - {order[n]}, keep);
    }
  }

  lemma {:induction false} SelectAgree(order: seq<Id>, a: set<Id>, b: set<Id>)
    requires forall id :: id in order ==> (id in a <==> id in b)
    ensures Select(order, a) == Select(order, b)
  {
    if order == [] {
    } else {
      SelectAgree(order[..|order| - 1], a, b);
    }
  }

  /** A sequence drawn from `s` with more than |s| elements repeats one. */
  lemma {:induction false} Pigeonhole(p: seq<Id>, s: set<Id>) returns (i: nat, j: nat)
    requires |p| > |s|
    requires forall x :: x in p ==> x in s
    ensures i < j < |p| && p[i] == p[j]
  {
    var n := |p| - 1;
    if k :| 0 <= k < n && p[k] == p[n] {
      i, j := k, n;
    } else {
      i, j := Pigeonhole(p[..n], s - {p[n]});
    }
  }

  // ----- updating a table entry by entry -----

  /** `d` on its way to `e`: the entries of `done` have been updated, the others have not. */
  function Upto<V>(d: Dict<V>, e: Dict<V>, done: seq<Id>): Dict<V> {
    Dict(d.order, map id | id in d.tab :: if id in done && id in e.tab then e.tab[id] else d.tab[id])
  }

  ghost predicate SameShape<V>(d: Dict<V>, e: Dict<V>) {
    d.Valid() && e.order == d.order && e.tab.Keys == d.tab.Keys
  }

  lemma UptoNext<V>(d: Dict<V>, e: Dict<V>, done: seq<Id>, id: Id)
    requires id in d.tab && e.tab.Keys == d.tab.Keys
    ensures Upto(d, e, done + [id]) == Upto(d, e, done).Put(id, e.tab[id])
  {
    assert Upto(d, e, done + [id]).tab == Upto(d, e, done).Put(id, e.tab[id]).tab;
  }

  lemma PutSame<V>(d: Dict<V>, id: Id)
    requires id in d.tab
    ensures d.Put(id, d.tab[id]) == d
  {
    assert d.Put(id, d.tab[id]).tab == d.tab;
  }

  lemma UptoStep<V>(d: Dict<V>, e: Dict<V>, i: nat)
    requires SameShape(d, e) && i < |d.order|
    ensures var id, now, next := d.order[i], Upto(d, e, d.order[..i]), Upto(d, e, d.order[..i + 1]);
      && id in d.tab && now.tab[id] == d.tab[id]
      && next == now.Put(id, e.tab[id])
      && (e.tab[id] == d.tab[id] ==> next == now)
  {
    var id := d.order[i];
    assert id in d.order;
    PrefixStep(d.order, i);
    assert id !in d.order[..i];
    UptoNext(d, e, d.order[..i], id);
    PutSame(Upto(d, e, d.order[..i]), id);
  }

  lemma UptoEnds<V>(d: Dict<V>, e: Dict<V>)
    requires SameShape(d, e)
    ensures Upto(d, e, d.order[..0]) == d
    ensures Upto(d, e, d.order[..|d.order|]) == e && d.order[..|d.order|] == d.order
  {
    assert d.order[..|d.order|] == d.order;
    assert Upto(d, e, []).tab == d.tab;
    assert Upto(d, e, d.order).tab == e.tab;
  }
}
