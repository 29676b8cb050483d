/** Why the recursive, list-extending propagation has a closed form. */
module Propagation {
  import opened Dicts
  import opened TaskRules

  ghost predicate AllPending(d: Db, ids: set<Id>) {
    forall id :: id in ids ==> HasStatus(d, id, Pending)
  }

  /** Promoting or blocking pending tasks completes nothing and fails nothing, so what any task
      sees of its dependencies stays the same. */
  lemma MarkedSeesSame(d: Db, ready: set<Id>, blocked: set<Id>, done: seq<Id>, t: Task)
    requires AllPending(d, ready) && AllPending(d, blocked)
    ensures var now := Upto(d, Mark(d, ready, blocked), done);
      (DepsMet(now, t) <==> DepsMet(d, t)) && (DepFailed(now, t) <==> DepFailed(d, t))
  {
    var now := Upto(d, Mark(d, ready, blocked), done);
    assert forall id :: IsDone(now, id) <==> IsDone(d, id);
    assert forall id :: HasStatus(now, id, Failed) <==> HasStatus(d, id, Failed);
    if DepFailed(d, t) {
      var dep :| dep in t.dependsOn && dep in d.tab && d.tab[dep].status == Failed;
      assert HasStatus(now, dep, Failed);
    }
    if DepFailed(now, t) {
      var dep :| dep in t.dependsOn && dep in now.tab && now.tab[dep].status == Failed;
      assert HasStatus(d, dep, Failed);
    }
  }

  /** The table after the first loop of a propagation from `done`. */
  function FirstPass(d: Db, done: Id): Db {
    Mark(d, Promotable(d, done), Blockable(d, {done}))
  }

  lemma FirstPassStep(d: Db, done: Id, i: nat)
    requires d.Valid() && i < |d.order|
    ensures var (id, target) := (d.order[i], FirstPass(d, done));
      var now, next := Upto(d, target, d.order[..i]), Upto(d, target, d.order[..i + 1]);
      && id in now.tab && now.tab[id] == d.tab[id]
      && (if d.tab[id].status == Pending && done in d.tab[id].dependsOn
          then next == Resolved(now, id) && (Eligible(now, id) <==> id in Promotable(d, done))
          else next == now && id !in Promotable(d, done))
  {
    var id := d.order[i];
    UptoStep(d, FirstPass(d, done), i);
    MarkedSeesSame(d, Promotable(d, done), Blockable(d, {done}), d.order[..i], d.tab[id]);
  }

  lemma BlockableNow(d: Db, P: set<Id>, causes: set<Id>, tid: Id)
    requires forall x :: x in P ==> Eligible(d, x)
    requires var now := Mark(d, P, Blockable(d, causes));
      forall x :: x in d.tab ==> (DepFailed(now, d.tab[x]) <==> DepFailed(d, d.tab[x]))
    ensures Blockable(Mark(d, P, Blockable(d, causes)), {tid})
         == Blockable(d, causes + {tid}) - Blockable(d, causes)
    ensures P !! Blockable(d, causes + {tid})
  {
    var now := Mark(d, P, Blockable(d, causes));
    forall x | x in d.tab
      ensures x in Blockable(now, {tid}) <==> x in Blockable(d, causes + {tid}) && x !in Blockable(d, causes)
    {
      if x in P {
        assert DepsMet(d, d.tab[x]) && !DepFailed(d, d.tab[x]);
      }
    }
  }

  lemma MarkMore(d: Db, ready: set<Id>, blocked: set<Id>, more: set<Id>)
    requires ready !! blocked + more
    ensures Mark(Mark(d, ready, blocked), {}, more - blocked) == Mark(d, ready, blocked + more)
  {
    assert Mark(Mark(d, ready, blocked), {}, more - blocked).tab == Mark(d, ready, blocked + more).tab;
  }

  /** A cascade from a task that was just promoted promotes nothing, because the task is not
      completed; it only blocks dependents that also have a failed dependency. */
  lemma CascadeStep(d: Db, done: Id, causes: set<Id>, tid: Id, depth: nat)
    requires d.Valid() && tid in Promotable(d, done)
    ensures var now := Mark(d, Promotable(d, done), Blockable(d, causes));
      && PropagatedIds(now, tid, depth) == []
      && Propagated(now, tid, depth)
         == if depth < MAX_TRIGGER_CHAIN_DEPTH then Mark(d, Promotable(d, done), Blockable(d, causes + {tid})) else now
  {
    var P, B := Promotable(d, done), Blockable(d, causes);
    var now := Mark(d, P, B);
    assert !IsDone(now, tid);
    assert Promotable(now, tid) == {};
    SelectNothing(now.order);
    if depth < MAX_TRIGGER_CHAIN_DEPTH {
      assert CascadeCauses(now, tid, depth) == {tid};
      MarkSeesFailures(d, P, B);
      BlockableNow(d, P, causes, tid);
      MarkMore(d, P, B, Blockable(d, causes + {tid}));
      assert B + Blockable(d, causes + {tid}) == Blockable(d, causes + {tid});
    }
  }

  lemma MarkSeesFailures(d: Db, ready: set<Id>, blocked: set<Id>)
    requires d.Valid() && AllPending(d, ready) && AllPending(d, blocked)
    ensures forall x :: x in d.tab ==> (DepFailed(Mark(d, ready, blocked), d.tab[x]) <==> DepFailed(d, d.tab[x]))
  {
    assert Upto(d, Mark(d, ready, blocked), d.order).tab == Mark(d, ready, blocked).tab;
    forall x | x in d.tab ensures DepFailed(Mark(d, ready, blocked), d.tab[x]) <==> DepFailed(d, d.tab[x]) {
      MarkedSeesSame(d, ready, blocked, d.order, d.tab[x]);
    }
  }

  /** The table after the first `i` cascades of a propagation from `done`. */
  function Cascaded(d: Db, done: Id, i: nat, depth: nat): Db
    requires i <= |Select(d.order, Promotable(d, done))|
  {
    Mark(d, Promotable(d, done), Blockable(d, {done} +
      if depth + 1 < MAX_TRIGGER_CHAIN_DEPTH then Elements(Select(d.order, Promotable(d, done))[..i]) else {}))
  }

  lemma CascadeTurn(d: Db, done: Id, i: nat, depth: nat)
    requires d.Valid() && i < |Select(d.order, Promotable(d, done))|
    ensures var now, tid := Cascaded(d, done, i, depth), Select(d.order, Promotable(d, done))[i];
      && PropagatedIds(now, tid, depth + 1) == []
      && Propagated(now, tid, depth + 1) == Cascaded(d, done, i + 1, depth)
  {
    var ids := Select(d.order, Promotable(d, done));
    assert ids[i] in ids;
    PrefixStep(ids, i);
    assert {done} + Elements(ids[..i + 1]) == {done} + Elements(ids[..i]) + {ids[i]};
    var causes := {done} + if depth + 1 < MAX_TRIGGER_CHAIN_DEPTH then Elements(ids[..i]) else {};
    CascadeStep(d, done, causes, ids[i], depth + 1);
  }

  lemma CascadeEnds(d: Db, done: Id, depth: nat)
    requires d.Valid() && depth < MAX_TRIGGER_CHAIN_DEPTH
    ensures Cascaded(d, done, 0, depth) == FirstPass(d, done)
    ensures Cascaded(d, done, |Select(d.order, Promotable(d, done))|, depth) == Propagated(d, done, depth)
  {
    var ids := Select(d.order, Promotable(d, done));
    assert ids[..|ids|] == ids;
    assert Elements(ids) == Promotable(d, done);
    assert {done} + Elements(ids[..0]) == {done};
  }

  /** The second loop looks at blocked tasks, which resolution always rejects. */
  lemma BlockedStaysBlocked(d: Db, id: Id)
    requires !HasStatus(d, id, Pending)
    ensures Resolved(d, id) == d && !Eligible(d, id)
  {
  }
}
