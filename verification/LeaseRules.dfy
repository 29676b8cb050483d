/** Leases, the index from task to lease, and what holds over every run of lease operations. */
module LeaseRules {
  import opened Dicts

  datatype LeaseStatus = Active | Expired | Revoked

  datatype Lease = Lease(id: Id, taskId: Id, nodeId: Id, createdAt: int, expiresAt: int, status: LeaseStatus)

  /** The lease table and `_task_lease_index`. */
  datatype LeaseDb = LeaseDb(leases: Dict<Lease>, index: map<Id, Id>)

  function LeaseCreated(s: LeaseDb, id: Id, taskId: Id, nodeId: Id, now: int, ttl: int): LeaseDb {
    LeaseDb(s.leases.Put(id, Lease(id, taskId, nodeId, now, now + ttl, Active)), s.index[taskId := id])
  }

  /** Revoking also drops the index entry of the lease's task, whatever lease that entry names. */
  function LeaseRevoked(s: LeaseDb, id: Id): LeaseDb {
    if id in s.leases.tab
    then LeaseDb(s.leases.Put(id, s.leases.tab[id].(status := Revoked)), s.index - {s.leases.tab[id].taskId})
    else s
  }

  predicate Lapsed(lease: Lease, now: int) {
    lease.status == Active && lease.expiresAt <= now
  }

  predicate Current(lease: Lease, now: int) {
    lease.status == Active && lease.expiresAt > now
  }

  function DueSet(leases: Dict<Lease>, now: int): set<Id> {
    set id | id in leases.tab && Lapsed(leases.tab[id], now)
  }

  function LiveSet(leases: Dict<Lease>, now: int): set<Id> {
    set id | id in leases.tab && Current(leases.tab[id], now)
  }

  /** The lease table after a scan for expired leases. */
  function Scanned(leases: Dict<Lease>, now: int): Dict<Lease> {
    Dict(leases.order, map id | id in leases.tab ::
      if id in DueSet(leases, now) then leases.tab[id].(status := Expired) else leases.tab[id])
  }

  function LeaseList(leases: Dict<Lease>, ids: seq<Id>): seq<Lease>
    requires forall id :: id in ids ==> id in leases.tab
  {
    seq(|ids|, i requires 0 <= i < |ids| => leases.tab[ids[i]])
  }

  lemma ScannedLive(leases: Dict<Lease>, now: int)
    ensures LiveSet(Scanned(leases, now), now) == LiveSet(leases, now)
    ensures forall id :: id in leases.tab ==>
      (Scanned(leases, now).tab[id].status == Active <==> id in LiveSet(leases, now))
  {
  }

  lemma LeaseListSame(leases: Dict<Lease>, now: int, ids: seq<Id>)
    requires forall id :: id in ids ==> id in leases.tab && id in LiveSet(leases, now)
    ensures LeaseList(Scanned(leases, now), ids) == LeaseList(leases, ids)
  {
  }

  lemma LeaseListStep(leases: Dict<Lease>, ids: seq<Id>, x: Id)
    requires x in leases.tab && forall id :: id in ids ==> id in leases.tab
    ensures LeaseList(leases, ids + [x]) == LeaseList(leases, ids) + [leases.tab[x]]
  {
  }

  lemma LeaseListMembers(leases: Dict<Lease>, ids: seq<Id>)
    requires forall id :: id in ids ==> id in leases.tab
    requires forall id :: id in leases.tab ==> leases.tab[id].id == id
    ensures forall id :: id in leases.tab ==> (leases.tab[id] in LeaseList(leases, ids) <==> id in ids)
  {
    forall id | id in ids ensures leases.tab[id] in LeaseList(leases, ids) {
      var k :| 0 <= k < |ids| && ids[k] == id;
      assert LeaseList(leases, ids)[k] == leases.tab[id];
    }
  }

  lemma ActiveTurn(leases: Dict<Lease>, now: int, i: nat)
    requires leases.Valid() && i < |leases.order|
    ensures var id, live := leases.order[i], LiveSet(leases, now);
      && id in leases.tab
      && LeaseList(leases, Select(leases.order[..i + 1], live))
         == LeaseList(leases, Select(leases.order[..i], live)) + if id in live then [leases.tab[id]] else []
  {
    var id, live := leases.order[i], LiveSet(leases, now);
    assert id in leases.order;
    SelectStep(leases.order, i, live);
    if id in live {
      LeaseListStep(leases, Select(leases.order[..i], live), id);
    }
  }

  /** The scan of `l0` has passed `done`: these are the table, the live leases and the expiries reported. */
  ghost predicate ScanAt(l0: Dict<Lease>, now: int, done: seq<Id>,
                         leases: Dict<Lease>, active: seq<Lease>, fired: seq<Id>)
    requires forall id :: id in done ==> id in l0.tab
  {
    && leases == Upto(l0, Scanned(l0, now), done)
    && active == LeaseList(l0, Select(done, LiveSet(l0, now)))
    && fired == Select(done, DueSet(l0, now))
  }

  lemma ScanStarts(l0: Dict<Lease>, now: int)
    requires l0.Valid()
    ensures ScanAt(l0, now, l0.order[..0], l0, [], [])
  {
    UptoEnds(l0, Scanned(l0, now));
  }

  lemma ScanReaches(l0: Dict<Lease>, now: int, i: nat, leases: Dict<Lease>, active: seq<Lease>, fired: seq<Id>)
    requires l0.Valid() && i < |l0.order| && ScanAt(l0, now, l0.order[..i], leases, active, fired)
    ensures l0.order[i] in leases.tab && l0.order[i] in l0.tab && leases.tab[l0.order[i]] == l0.tab[l0.order[i]]
  {
    UptoStep(l0, Scanned(l0, now), i);
  }

  /** One turn of the scan: a live lease is listed, a due one expires and is reported. */
  lemma ScanTurn(l0: Dict<Lease>, now: int, i: nat, leases: Dict<Lease>, active: seq<Lease>, fired: seq<Id>)
    requires l0.Valid() && i < |l0.order| && ScanAt(l0, now, l0.order[..i], leases, active, fired)
    ensures l0.order[i] in l0.tab
    ensures var (id, l) := (l0.order[i], l0.tab[l0.order[i]]);
      ScanAt(l0, now, l0.order[..i + 1],
        if Lapsed(l, now) then leases.Put(id, l.(status := Expired)) else leases,
        if Current(l, now) then active + [l] else active,
        if Lapsed(l, now) then fired + [id] else fired)
  {
    ActiveTurn(l0, now, i);
    SelectStep(l0.order, i, DueSet(l0, now));
    UptoStep(l0, Scanned(l0, now), i);
  }

  /** The list a scan returns, read from the table after the scan: exactly its active leases. */
  lemma ActiveListed(leases: Dict<Lease>, now: int)
    requires leases.Valid() && forall id :: id in leases.tab ==> leases.tab[id].id == id
    ensures var after := Scanned(leases, now);
      var ids := Select(after.order, LiveSet(after, now));
      && LeaseList(after, ids) == LeaseList(leases, Select(leases.order, LiveSet(leases, now)))
      && forall id :: id in after.tab ==> (after.tab[id].status == Active <==> after.tab[id] in LeaseList(after, ids))
  {
    ScannedLive(leases, now);
    LeaseListSame(leases, now, Select(leases.order, LiveSet(leases, now)));
    LeaseListMembers(Scanned(leases, now), Select(leases.order, LiveSet(leases, now)));
  }

  // ----- runs -----

  datatype LeaseOp =
    | Create(id: Id, taskId: Id, nodeId: Id, now: int, ttl: int)
    | Revoke(id: Id)
    | Scan(now: int)

  /** One call of the expiry callback. */
  datatype Firing = Firing(leaseId: Id, at: int)

  const NO_LEASES := LeaseDb(Dict([], map[]), map[])

  function LeaseStep(s: LeaseDb, op: LeaseOp): LeaseDb {
    match op
    case Create(id, taskId, nodeId, now, ttl) => LeaseCreated(s, id, taskId, nodeId, now, ttl)
    case Revoke(id) => LeaseRevoked(s, id)
    case Scan(now) => s.(leases := Scanned(s.leases, now))
  }

  function FiredBy(s: LeaseDb, op: LeaseOp): seq<Firing> {
    if op.Scan? then Firings(Select(s.leases.order, DueSet(s.leases, op.now)), op.now) else []
  }

  function Firings(ids: seq<Id>, at: int): seq<Firing> {
    seq(|ids|, i requires 0 <= i < |ids| => Firing(ids[i], at))
  }

  function LeaseRun(ops: seq<LeaseOp>): LeaseDb {
    if ops == [] then NO_LEASES else LeaseStep(LeaseRun(ops[..|ops| - 1]), ops[|ops| - 1])
  }

  /** Every call of the expiry callback made during the run, in order. */
  function Fired(ops: seq<LeaseOp>): seq<Firing> {
    if ops == [] then []
    else
      var front := ops[..|ops| - 1];
      Fired(front) + FiredBy(LeaseRun(front), ops[|ops| - 1])
  }

  /** Lease ids are never reused. */
  predicate FreshIds(ops: seq<LeaseOp>) {
    ops == [] ||
    var front, last := ops[..|ops| - 1], ops[|ops| - 1];
    FreshIds(front) && (last.Create? ==> last.id !in LeaseRun(front).leases.tab)
  }

  lemma {:induction false} RunIsValid(ops: seq<LeaseOp>)
    ensures LeaseRun(ops).leases.Valid()
    ensures forall id :: id in LeaseRun(ops).leases.tab ==> LeaseRun(ops).leases.tab[id].id == id
  {
    if ops == [] {
    } else {
      RunIsValid(ops[..|ops| - 1]);
    }
  }

  /** A lease keeps its task and expiry for ever, and once it has left active it never returns; a
      revoked lease stays revoked. */
  lemma {:induction false} NeverReactivated(ops: seq<LeaseOp>, later: seq<LeaseOp>, id: Id)
    requires FreshIds(later) && ops <= later
    requires id in LeaseRun(ops).leases.tab
    ensures id in LeaseRun(later).leases.tab
    ensures var a, b := LeaseRun(ops).leases.tab[id], LeaseRun(later).leases.tab[id];
      && b.taskId == a.taskId && b.expiresAt == a.expiresAt
      && (a.status != Active ==> b.status != Active)
      && (a.status == Revoked ==> b.status == Revoked)
    decreases |later|
  {
    if |ops| < |later| {
      NeverReactivated(ops, later[..|later| - 1], id);
    } else {
      assert ops == later;
    }
  }

  lemma FiredByIsDue(s: LeaseDb, op: LeaseOp)
    requires s.leases.Valid()
    ensures forall f :: f in FiredBy(s, op) <==> op.Scan? && f.at == op.now && f.leaseId in DueSet(s.leases, op.now)
    ensures forall i, j :: 0 <= i < j < |FiredBy(s, op)| ==> FiredBy(s, op)[i].leaseId != FiredBy(s, op)[j].leaseId
  {
    if op.Scan? {
      var due := Select(s.leases.order, DueSet(s.leases, op.now));
      var fired := FiredBy(s, op);
      forall f: Firing | f.at == op.now && f.leaseId in due ensures f in fired {
        var k :| 0 <= k < |due| && due[k] == f.leaseId;
        assert fired[k] == f;
      }
    }
  }

  /** The callback fires only for a lease that has left active, and not before its expiry. */
  lemma {:induction false} FiresWhenDue(ops: seq<LeaseOp>)
    requires FreshIds(ops)
    ensures forall f :: f in Fired(ops) ==>
      && f.leaseId in LeaseRun(ops).leases.tab
      && LeaseRun(ops).leases.tab[f.leaseId].status != Active
      && LeaseRun(ops).leases.tab[f.leaseId].expiresAt <= f.at
  {
    if ops == [] {
    } else {
      var front := ops[..|ops| - 1];
      FiresWhenDue(front);
      RunIsValid(front);
      FiredByIsDue(LeaseRun(front), ops[|ops| - 1]);
    }
  }

  /** The callback fires at most once for a lease. */
  lemma {:induction false} FiresOnce(ops: seq<LeaseOp>)
    requires FreshIds(ops)
    ensures forall i, j :: 0 <= i < j < |Fired(ops)| ==> Fired(ops)[i].leaseId != Fired(ops)[j].leaseId
  {
    if ops == [] {
    } else {
      var front, op := ops[..|ops| - 1], ops[|ops| - 1];
      FiresOnce(front);
      FiresWhenDue(front);
      RunIsValid(front);
      var s := LeaseRun(front);
      FiredByIsDue(s, op);
      var a, b := Fired(front), FiredBy(s, op);
      forall i, j | 0 <= i < |a| && 0 <= j < |b| ensures a[i].leaseId != b[j].leaseId {
        assert a[i] in a && b[j] in b;
      }
    }
  }

  /** Every lease found expired has had its call. */
  lemma {:induction false} ExpiryIsReported(ops: seq<LeaseOp>, id: Id)
    requires id in LeaseRun(ops).leases.tab && LeaseRun(ops).leases.tab[id].status == Expired
    ensures exists f :: f in Fired(ops) && f.leaseId == id
  {
    var front, op := ops[..|ops| - 1], ops[|ops| - 1];
    var s := LeaseRun(front);
    RunIsValid(front);
    if id in s.leases.tab && s.leases.tab[id].status == Expired {
      ExpiryIsReported(front, id);
      var f :| f in Fired(front) && f.leaseId == id;
      assert f in Fired(ops);
    } else {
      FiredByIsDue(s, op);
      assert Firing(id, op.now) in FiredBy(s, op);
      assert Firing(id, op.now) in Fired(ops);
    }
  }

  /** Once a lease is revoked (or expired) no later step calls the callback for it. */
  lemma {:induction false} SilentOnceInactive(ops: seq<LeaseOp>, later: seq<LeaseOp>, id: Id)
    requires FreshIds(later) && ops <= later
    requires id in LeaseRun(ops).leases.tab && LeaseRun(ops).leases.tab[id].status != Active
    ensures |Fired(ops)| <= |Fired(later)| && Fired(later)[..|Fired(ops)|] == Fired(ops)
    ensures forall k :: |Fired(ops)| <= k < |Fired(later)| ==> Fired(later)[k].leaseId != id
    decreases |later|
  {
    if |ops| < |later| {
      var front := later[..|later| - 1];
      SilentOnceInactive(ops, front, id);
      NeverReactivated(ops, front, id);
      var s, op := LeaseRun(front), later[|later| - 1];
      forall k | 0 <= k < |FiredBy(s, op)| ensures FiredBy(s, op)[k].leaseId != id {
        assert FiredBy(s, op)[k].leaseId in Select(s.leases.order, DueSet(s.leases, op.now));
      }
    } else {
      assert ops == later;
    }
  }

  // ----- the task index -----

  /** What the index must say of a task: the lease created by the last operation that created or
      revoked a lease of that task, if that operation was a creation. */
  function NewestUnrevoked(ops: seq<LeaseOp>, taskId: Id): Option<Id> {
    if ops == [] then None
    else
      var front, op := ops[..|ops| - 1], ops[|ops| - 1];
      if op.Create? && op.taskId == taskId then Some(op.id)
      else if op.Revoke? && op.id in LeaseRun(front).leases.tab
              && LeaseRun(front).leases.tab[op.id].taskId == taskId then None
      else NewestUnrevoked(front, taskId)
  }

  lemma {:induction false} IndexIsNewestUnrevoked(ops: seq<LeaseOp>, taskId: Id)
    ensures taskId in LeaseRun(ops).index <==> NewestUnrevoked(ops, taskId).Some?
    ensures taskId in LeaseRun(ops).index ==>
      NewestUnrevoked(ops, taskId) == Some(LeaseRun(ops).index[taskId])
  {
    if ops == [] {
    } else {
      IndexIsNewestUnrevoked(ops[..|ops| - 1], taskId);
    }
  }

  /** Position `k` of the table holds lease `id`, and no later lease is for the same task. */
  ghost predicate NewestAt(leases: Dict<Lease>, k: nat, id: Id)
    requires leases.Valid() && id in leases.tab
  {
    && k < |leases.order| && leases.order[k] == id
    && forall j :: k < j < |leases.order| ==> leases.tab[leases.order[j]].taskId != leases.tab[id].taskId
  }

  /** Each index entry names an existing, never-revoked lease of that task. */
  lemma {:induction false} IndexEntryIsSound(ops: seq<LeaseOp>, taskId: Id)
    requires FreshIds(ops) && taskId in LeaseRun(ops).index
    ensures var s := LeaseRun(ops);
      var l := s.index[taskId];
      l in s.leases.tab && s.leases.tab[l].taskId == taskId && s.leases.tab[l].status != Revoked
  {
    var front, op := ops[..|ops| - 1], ops[|ops| - 1];
    if !(op.Create? && op.taskId == taskId) {
      IndexEntryIsSound(front, taskId);
    }
  }

  /** It is the lease most recently created for the task. */
  lemma {:induction false} IndexEntryIsNewest(ops: seq<LeaseOp>, taskId: Id) returns (k: nat)
    requires FreshIds(ops) && taskId in LeaseRun(ops).index
    ensures LeaseRun(ops).leases.Valid() && LeaseRun(ops).index[taskId] in LeaseRun(ops).leases.tab
    ensures NewestAt(LeaseRun(ops).leases, k, LeaseRun(ops).index[taskId])
  {
    RunIsValid(ops);
    IndexEntryIsSound(ops, taskId);
    var front, op := ops[..|ops| - 1], ops[|ops| - 1];
    RunIsValid(front);
    if op.Create? && op.taskId == taskId {
      k := |LeaseRun(front).leases.order|;
    } else {
      IndexEntryIsSound(front, taskId);
      k := IndexEntryIsNewest(front, taskId);
    }
  }
}
