/** What the lease and sync operations do, field by field. */
module LeaseEffects {
  import opened Dicts
  import opened LeaseRules

  ghost predicate SameTerms(a: Lease, b: Lease) {
    && b.id == a.id && b.taskId == a.taskId && b.nodeId == a.nodeId
    && b.createdAt == a.createdAt && b.expiresAt == a.expiresAt
  }

  /** The lease is active, runs for `ttl` from now on, and is the one indexed for its task. */
  ghost predicate LeaseCreateEffect(s: LeaseDb, e: LeaseDb, id: Id, taskId: Id, nodeId: Id, now: int, ttl: int) {
    && OnlyAt(s.leases, e.leases, id)
    && var lease := e.leases.tab[id];
    && lease.id == id && lease.taskId == taskId && lease.nodeId == nodeId
    && lease.createdAt == now && lease.expiresAt == now + ttl && lease.status == Active
    && e.index == s.index[taskId := id]
  }

  /** The lease is revoked, and its task has no index entry any more. */
  ghost predicate LeaseRevokeEffect(s: LeaseDb, e: LeaseDb, id: Id) {
    if id !in s.leases.tab then e == s
    else
      && OnlyAt(s.leases, e.leases, id) && SameTerms(s.leases.tab[id], e.leases.tab[id])
      && e.leases.tab[id].status == Revoked
      && e.index.Keys == s.index.Keys - {s.leases.tab[id].taskId}
      && forall t :: t in e.index ==> e.index[t] == s.index[t]
  }

  ghost predicate IsDue(lease: Lease, now: int) {
    lease.status == Active && lease.expiresAt <= now
  }

  ghost predicate IsLive(lease: Lease, now: int) {
    lease.status == Active && now < lease.expiresAt
  }

  function IdsOf(leases: seq<Lease>): seq<Id> {
    seq(|leases|, i requires 0 <= i < |leases| => leases[i].id)
  }

  /** Active leases whose time is up expire and are reported, in table order; the other active ones
      are returned, in table order. */
  ghost predicate ScanEffect(l: Dict<Lease>, e: Dict<Lease>, now: int, active: seq<Lease>, fired: seq<Id>) {
    && SameIds(l, e)
    && (forall id :: id in l.tab ==>
        if IsDue(l.tab[id], now) then SameTerms(l.tab[id], e.tab[id]) && e.tab[id].status == Expired
        else e.tab[id] == l.tab[id])
    && InOrder(l.order, IdsOf(active)) && InOrder(l.order, fired)
    && (forall x :: x in active <==> exists id :: id in l.tab && l.tab[id] == x && IsLive(l.tab[id], now))
    && forall id :: id in fired <==> id in l.tab && IsDue(l.tab[id], now)
  }

  lemma LeaseCreatedMeans(s: LeaseDb, id: Id, taskId: Id, nodeId: Id, now: int, ttl: int)
    ensures LeaseCreateEffect(s, LeaseCreated(s, id, taskId, nodeId, now, ttl), id, taskId, nodeId, now, ttl)
  {
  }

  lemma LeaseRevokedMeans(s: LeaseDb, id: Id)
    ensures LeaseRevokeEffect(s, LeaseRevoked(s, id), id)
  {
  }

  lemma ListedIds(l: Dict<Lease>, ids: seq<Id>)
    requires forall id :: id in ids ==> id in l.tab && l.tab[id].id == id
    ensures IdsOf(LeaseList(l, ids)) == ids
  {
    assert forall i :: 0 <= i < |ids| ==> ids[i] in ids;
  }

  lemma ListedMembers(l: Dict<Lease>, ids: seq<Id>, x: Lease)
    requires forall id :: id in ids ==> id in l.tab
    ensures x in LeaseList(l, ids) <==> exists id :: id in ids && l.tab[id] == x
  {
    if id :| id in ids && l.tab[id] == x {
      var k :| 0 <= k < |ids| && ids[k] == id;
      assert LeaseList(l, ids)[k] == x;
    }
  }

  lemma ScannedMeans(l: Dict<Lease>, now: int)
    requires l.Valid() && forall id :: id in l.tab ==> l.tab[id].id == id
    ensures ScanEffect(l, Scanned(l, now), now,
                       LeaseList(l, Select(l.order, LiveSet(l, now))), Select(l.order, DueSet(l, now)))
  {
    var live := Select(l.order, LiveSet(l, now));
    SelectInOrder(l.order, LiveSet(l, now));
    SelectInOrder(l.order, DueSet(l, now));
    ListedIds(l, live);
    forall x ensures x in LeaseList(l, live) <==> exists id :: id in l.tab && l.tab[id] == x && IsLive(l.tab[id], now) {
      ListedMembers(l, live, x);
    }
  }
}
