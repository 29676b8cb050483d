/** What one scheduling call writes to the decision log, stated on the tables before and after. */
module DecisionEffects {
  import opened Dicts
  import opened TaskRules
  import opened Scheduling
  import opened TaskEffects

  /** By priority, then by creation time, then by place in the table. */
  ghost predicate Earlier(d: Db, a: Id, b: Id) {
    && a in d.tab && b in d.tab
    && var (t, u) := (d.tab[a], d.tab[b]);
      t.priority < u.priority ||
      (t.priority == u.priority &&
        (t.createdAt < u.createdAt || (t.createdAt == u.createdAt && Before(d.order, a, b))))
  }

  ghost predicate AllEarlier(d: Db, ids: seq<Id>) {
    forall i, j :: 0 <= i < j < |ids| ==> Earlier(d, ids[i], ids[j])
  }

  /** `x` records that its task started, and where. */
  ghost predicate Records(d: Db, e: Db, x: Decision) {
    && Moved(d, e, x.taskId, Ready, Running)
    && x.taskTitle == d.tab[x.taskId].title && x.priority == d.tab[x.taskId].priority
    && e.tab[x.taskId].assignedTo == Some(x.nodeId)
    && x.score == 1.0 && x.reason == "capability_match"
  }

  /** One decision for each started task, in the order in which ready tasks are visited. */
  ghost predicate Decides(d: Db, e: Db, ds: seq<Decision>) {
    && (forall i :: 0 <= i < |ds| ==> Records(d, e, ds[i]))
    && (forall x :: Moved(d, e, x, Ready, Running) ==> exists i :: 0 <= i < |ds| && ds[i].taskId == x)
    && forall i, j :: 0 <= i < j < |ds| ==> Earlier(d, ds[i].taskId, ds[j].taskId)
  }

  function LastOf<T>(log: seq<T>, max: nat): seq<T> {
    if |log| > max then log[|log| - max..] else log
  }

  /** The log gains those decisions and keeps its last 200 entries. */
  ghost predicate LogEffect(d: Db, e: Db, before: seq<Decision>, after: seq<Decision>) {
    exists ds :: Decides(d, e, ds) && after == LastOf(before + ds, 200)
  }

  lemma {:induction false} InsertEarlier(d: Db, ids: seq<Id>, x: Id)
    requires x in d.tab && forall id :: id in ids ==> id in d.tab
    requires AllEarlier(d, ids) && forall y :: y in ids ==> Before(d.order, y, x)
    ensures AllEarlier(d, InsertByKey(d, ids, x))
  {
    if ids == [] {
    } else {
      var n := |ids| - 1;
      var front, last := ids[..n], ids[n];
      if KeyLe(d.tab[last], d.tab[x]) {
        forall i | 0 <= i <= n ensures Earlier(d, ids[i], x) {
          assert ids[i] in ids && (i < n ==> Earlier(d, ids[i], last));
        }
      } else {
        InsertEarlier(d, front, x);
        var r := InsertByKey(d, front, x);
        forall i | 0 <= i < |r| ensures Earlier(d, r[i], last) {
          assert r[i] in front || r[i] == x;
          if r[i] in front {
            var k :| 0 <= k < n && front[k] == r[i];
            assert Earlier(d, ids[k], ids[n]);
          }
        }
      }
    }
  }

  lemma {:induction false} SortEarlier(d: Db, ids: seq<Id>)
    requires InOrder(d.order, ids) && forall id :: id in ids ==> id in d.tab
    ensures AllEarlier(d, SortByKey(d, ids))
  {
    if ids == [] {
    } else {
      var n := |ids| - 1;
      SortEarlier(d, ids[..n]);
      forall y | y in ids[..n] ensures Before(d.order, y, ids[n]) {
        var k :| 0 <= k < n && ids[..n][k] == y;
        assert Before(d.order, ids[k], ids[n]);
      }
      InsertEarlier(d, SortByKey(d, ids[..n]), ids[n]);
    }
  }

  function TasksOf(ds: seq<Decision>): seq<Id> {
    seq(|ds|, i requires 0 <= i < |ds| => ds[i].taskId)
  }

  lemma {:induction false} DecidedTasks(d: Db, ids: seq<Id>, online: seq<Node>)
    ensures TasksOf(DecisionsFor(d, ids, online)) == Select(ids, PlaceableSet(d, online))
  {
    if ids == [] {
    } else {
      DecidedTasks(d, ids[..|ids| - 1], online);
    }
  }

  /** The order of the visit is the order of the decisions. */
  lemma DecidedEarlier(d: Db, ids: seq<Id>, online: seq<Node>)
    requires AllEarlier(d, ids)
    ensures AllEarlier(d, TasksOf(DecisionsFor(d, ids, online)))
  {
    DecidedTasks(d, ids, online);
    var tasks := Select(ids, PlaceableSet(d, online));
    SelectInOrder(ids, PlaceableSet(d, online));
    forall i, j | 0 <= i < j < |tasks| ensures Earlier(d, tasks[i], tasks[j]) {
      var k, m :| 0 <= k < m < |ids| && ids[k] == tasks[i] && ids[m] == tasks[j];
    }
  }

  lemma DecidedInOrder(d: Db, online: seq<Node>)
    requires d.Valid()
    ensures AllEarlier(d, TasksOf(DecisionsFor(d, ReadyInOrder(d), online)))
  {
    SelectInOrder(d.order, ReadySet(d));
    SortEarlier(d, Select(d.order, ReadySet(d)));
    DecidedEarlier(d, ReadyInOrder(d), online);
  }

  lemma StartedIsDecided(d: Db, online: seq<Node>, x: Id)
    requires d.Valid() && Moved(d, Scheduled(d, online), x, Ready, Running)
    ensures x in TasksOf(DecisionsFor(d, ReadyInOrder(d), online))
  {
    ReadyOnce(d);
    DecidedTasks(d, ReadyInOrder(d), online);
  }

  lemma DecidedRecords(d: Db, online: seq<Node>, i: nat)
    requires i < |DecisionsFor(d, ReadyInOrder(d), online)|
    ensures Records(d, Scheduled(d, online), DecisionsFor(d, ReadyInOrder(d), online)[i])
  {
    DecisionsOf(d, ReadyInOrder(d), online);
  }

  lemma DecisionsMean(d: Db, online: seq<Node>)
    requires d.Valid()
    ensures Decides(d, Scheduled(d, online), DecisionsFor(d, ReadyInOrder(d), online))
  {
    var ds := DecisionsFor(d, ReadyInOrder(d), online);
    DecidedInOrder(d, online);
    forall i, j | 0 <= i < j < |ds| ensures Earlier(d, ds[i].taskId, ds[j].taskId) {
      assert Earlier(d, TasksOf(ds)[i], TasksOf(ds)[j]);
    }
    forall i | 0 <= i < |ds| ensures Records(d, Scheduled(d, online), ds[i]) {
      DecidedRecords(d, online, i);
    }
    forall x | Moved(d, Scheduled(d, online), x, Ready, Running)
      ensures exists i :: 0 <= i < |ds| && ds[i].taskId == x
    {
      StartedIsDecided(d, online, x);
      var i :| 0 <= i < |ds| && TasksOf(ds)[i] == x;
    }
  }

  /** The log after the call, recorded and trimmed entry by entry. */
  lemma LogMeans(d: Db, online: seq<Node>, before: seq<Decision>)
    requires d.Valid() && |before| <= 200
    ensures LogEffect(d, Scheduled(d, online), before,
                      RecordAll(before, DecisionsFor(d, ReadyInOrder(d), online), MAX_DECISIONS))
  {
    var ds := DecisionsFor(d, ReadyInOrder(d), online);
    DecisionsMean(d, online);
    RecordAllIsSuffix(before, ds, MAX_DECISIONS);
    assert RecordAll(before, ds, MAX_DECISIONS) == LastOf(before + ds, 200);
  }
}
