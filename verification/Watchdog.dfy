/** The heartbeat watchdog: one check over the registry, and what holds over runs of
    registrations, heartbeats and checks with fixed thresholds. */
module WatchdogRules {
  import opened Dicts
  import opened TaskRules
  import opened Scheduling
  import opened RecoveryRules

  datatype Thresholds = Thresholds(degradedAfter: int, offlineAfter: int)

  datatype WatchdogEvent = WatchdogEvent(nodeId: Id, status: NodeStatus)

  function Level(elapsed: int, th: Thresholds): NodeStatus {
    if elapsed >= th.offlineAfter then Offline
    else if elapsed >= th.degradedAfter then Degraded
    else Online
  }

  function CheckedNode(n: Node, now: int, th: Thresholds): Node {
    n.(status := Level(now - n.lastHeartbeat, th))
  }

  function Checked(nodes: Dict<Node>, now: int, th: Thresholds): Dict<Node> {
    Dict(nodes.order, map id | id in nodes.tab :: CheckedNode(nodes.tab[id], now, th))
  }

  /** The nodes whose status a check changes. */
  function Changed(nodes: Dict<Node>, now: int, th: Thresholds): set<Id> {
    set id | id in nodes.tab && CheckedNode(nodes.tab[id], now, th).status != nodes.tab[id].status
  }

  function BecameOffline(nodes: Dict<Node>, now: int, th: Thresholds): set<Id> {
    set id | id in Changed(nodes, now, th) && Checked(nodes, now, th).tab[id].status == Offline
  }

  function EventsFor(nodes: Dict<Node>, ids: seq<Id>): seq<WatchdogEvent>
    requires forall id :: id in ids ==> id in nodes.tab
  {
    seq(|ids|, i requires 0 <= i < |ids| => WatchdogEvent(ids[i], nodes.tab[ids[i]].status))
  }

  function Events(nodes: Dict<Node>, now: int, th: Thresholds, ids: seq<Id>): seq<WatchdogEvent> {
    EventsFor(Checked(nodes, now, th), Select(ids, Changed(nodes, now, th)))
  }

  lemma EventsForStep(nodes: Dict<Node>, ids: seq<Id>, x: Id)
    requires x in nodes.tab && forall id :: id in ids ==> id in nodes.tab
    ensures EventsFor(nodes, ids + [x]) == EventsFor(nodes, ids) + [WatchdogEvent(x, nodes.tab[x].status)]
  {
  }

  /** What a check finds for the node in one position. */
  function LevelAt(d: Dict<Node>, now: int, th: Thresholds, id: Id): NodeStatus
    requires id in d.tab
  {
    Level(now - d.tab[id].lastHeartbeat, th)
  }

  /** One turn of the check: a node whose level is not its status is updated, reported and, when it
      is lost, queued. */
  lemma NodeTurn(d: Dict<Node>, now: int, th: Thresholds, i: nat)
    requires KeyedNodes(d) && i < |d.order|
    ensures var (id, e) := (d.order[i], Checked(d, now, th));
      var t0, t1 := Upto(d, e, d.order[..i]), Upto(d, e, d.order[..i + 1]);
      && id in d.tab && d.tab[id].id == id && t0.tab[id] == d.tab[id]
      && var level := LevelAt(d, now, th, id);
        t1 == if level != d.tab[id].status then t0.Put(id, d.tab[id].(status := level)) else t0
  {
    UptoStep(d, Checked(d, now, th), i);
  }

  lemma EventsTurn(d: Dict<Node>, now: int, th: Thresholds, i: nat)
    requires KeyedNodes(d) && i < |d.order| && d.order[i] in d.tab
    ensures Events(d, now, th, d.order[..i + 1]) == Events(d, now, th, d.order[..i])
      + var id := d.order[i];
        if LevelAt(d, now, th, id) != d.tab[id].status then [WatchdogEvent(id, LevelAt(d, now, th, id))] else []
  {
    SelectStep(d.order, i, Changed(d, now, th));
    if d.order[i] in Changed(d, now, th) {
      EventsForStep(Checked(d, now, th), Select(d.order[..i], Changed(d, now, th)), d.order[i]);
    }
  }

  lemma QueueTurn(d: Dict<Node>, now: int, th: Thresholds, i: nat, queue: seq<Id>)
    requires KeyedNodes(d) && i < |d.order| && d.order[i] in d.tab
    ensures queue + Select(d.order[..i + 1], BecameOffline(d, now, th))
      == queue + Select(d.order[..i], BecameOffline(d, now, th))
      + var id := d.order[i];
        if LevelAt(d, now, th, id) != d.tab[id].status && LevelAt(d, now, th, id) == Offline then [id] else []
  {
    SelectStep(d.order, i, BecameOffline(d, now, th));
  }

  /** The three effects of one turn put together. */
  lemma CheckTurn(d: Dict<Node>, now: int, th: Thresholds, i: nat, queue: seq<Id>,
                  nodes: Dict<Node>, found: seq<WatchdogEvent>, queued: seq<Id>)
    requires KeyedNodes(d) && i < |d.order| && d.order[i] in d.tab
    requires var (id, t0) := (d.order[i], Upto(d, Checked(d, now, th), d.order[..i]));
      var changes := LevelAt(d, now, th, id) != d.tab[id].status;
      && nodes == (if changes then t0.Put(id, d.tab[id].(status := LevelAt(d, now, th, id))) else t0)
      && found == (if changes then [WatchdogEvent(id, LevelAt(d, now, th, id))] else [])
      && queued == queue + Select(d.order[..i], BecameOffline(d, now, th))
                   + (if changes && LevelAt(d, now, th, id) == Offline then [id] else [])
    ensures nodes == Upto(d, Checked(d, now, th), d.order[..i + 1])
    ensures Events(d, now, th, d.order[..i]) + found == Events(d, now, th, d.order[..i + 1])
    ensures queued == queue + Select(d.order[..i + 1], BecameOffline(d, now, th))
  {
    NodeTurn(d, now, th, i);
    EventsTurn(d, now, th, i);
    QueueTurn(d, now, th, i, queue);
  }

  // ----- one check, field by field -----

  /** The status that the silence of a node calls for. */
  ghost predicate Deserves(silence: int, th: Thresholds, s: NodeStatus) {
    && (s == Offline <==> silence >= th.offlineAfter)
    && (s == Degraded <==> silence < th.offlineAfter && silence >= th.degradedAfter)
    && (s == Online <==> silence < th.offlineAfter && silence < th.degradedAfter)
  }

  /** A node keeps everything but its status. */
  ghost predicate CheckedAt(n: Node, u: Node, now: int, th: Thresholds) {
    && u.id == n.id && u.name == n.name && u.capabilities == n.capabilities && u.lastHeartbeat == n.lastHeartbeat
    && Deserves(now - n.lastHeartbeat, th, u.status)
  }

  function NodesIn(events: seq<WatchdogEvent>): seq<Id> {
    seq(|events|, i requires 0 <= i < |events| => events[i].nodeId)
  }

  ghost predicate Changes(nodes: Dict<Node>, e: Dict<Node>, id: Id) {
    id in nodes.tab && id in e.tab && e.tab[id].status != nodes.tab[id].status
  }

  /** The changed nodes are reported with their new status, in registry order. */
  ghost predicate EventsEffect(nodes: Dict<Node>, e: Dict<Node>, events: seq<WatchdogEvent>) {
    && InOrder(nodes.order, NodesIn(events))
    && (forall id :: id in NodesIn(events) <==> Changes(nodes, e, id))
    && forall i :: 0 <= i < |events| ==>
      events[i].nodeId in e.tab && events[i].status == e.tab[events[i].nodeId].status
  }

  /** The nodes that became offline are queued, in registry order. */
  ghost predicate LostEffect(nodes: Dict<Node>, e: Dict<Node>, lost: seq<Id>) {
    && InOrder(nodes.order, lost)
    && forall id :: id in lost <==> Changes(nodes, e, id) && e.tab[id].status == Offline
  }

  ghost predicate CheckEffect(nodes: Dict<Node>, e: Dict<Node>, now: int, th: Thresholds, events: seq<WatchdogEvent>) {
    && SameIds(nodes, e)
    && (forall id :: id in nodes.tab ==> CheckedAt(nodes.tab[id], e.tab[id], now, th))
    && EventsEffect(nodes, e, events)
  }

  lemma EventNodes(nodes: Dict<Node>, ids: seq<Id>)
    requires forall id :: id in ids ==> id in nodes.tab
    ensures NodesIn(EventsFor(nodes, ids)) == ids
  {
  }

  lemma EventsMean(nodes: Dict<Node>, now: int, th: Thresholds)
    requires nodes.Valid()
    ensures EventsEffect(nodes, Checked(nodes, now, th), Events(nodes, now, th, nodes.order))
  {
    var ids, e := Select(nodes.order, Changed(nodes, now, th)), Checked(nodes, now, th);
    SelectInOrder(nodes.order, Changed(nodes, now, th));
    EventNodes(e, ids);
    assert forall i :: 0 <= i < |ids| ==> ids[i] in ids;
  }

  lemma LostMean(nodes: Dict<Node>, now: int, th: Thresholds)
    requires nodes.Valid()
    ensures LostEffect(nodes, Checked(nodes, now, th), Select(nodes.order, BecameOffline(nodes, now, th)))
  {
    SelectInOrder(nodes.order, BecameOffline(nodes, now, th));
  }

  lemma CheckedMeans(nodes: Dict<Node>, now: int, th: Thresholds)
    requires nodes.Valid()
    ensures CheckEffect(nodes, Checked(nodes, now, th), now, th, Events(nodes, now, th, nodes.order))
  {
    EventsMean(nodes, now, th);
  }

  // ----- runs of the registry -----

  /** A registration, a heartbeat of one node, or a check of all. */
  datatype RegistryOp = Register(node: Node, at: int) | BeatOf(id: Id, at: int) | CheckAll(at: int)

  function RegistryStep(nodes: Dict<Node>, op: RegistryOp, th: Thresholds): Dict<Node> {
    match op
    case Register(node, _) => nodes.Put(node.id, node)
    case BeatOf(id, at) => Beaten(nodes, id, at)
    case CheckAll(at) => Checked(nodes, at, th)
  }

  function RegistryRun(nodes: Dict<Node>, ops: seq<RegistryOp>, th: Thresholds): Dict<Node> {
    if ops == [] then nodes else RegistryStep(RegistryRun(nodes, ops[..|ops| - 1], th), ops[|ops| - 1], th)
  }

  /** A registration or heartbeat of the node. */
  predicate Concerns(op: RegistryOp, id: Id) {
    (op.Register? && op.node.id == id) || (op.BeatOf? && op.id == id)
  }

  /** The registrations and heartbeats of one node, and the checks. */
  function OpsOf(id: Id, ops: seq<RegistryOp>): seq<RegistryOp> {
    if ops == [] then []
    else
      var op := ops[|ops| - 1];
      OpsOf(id, ops[..|ops| - 1]) + if op.CheckAll? || Concerns(op, id) then [op] else []
  }

  ghost predicate SameNode(a: Dict<Node>, b: Dict<Node>, id: Id) {
    (id in a.tab <==> id in b.tab) && (id in a.tab ==> a.tab[id] == b.tab[id])
  }

  lemma SameNodeStep(a: Dict<Node>, b: Dict<Node>, op: RegistryOp, th: Thresholds, id: Id)
    requires SameNode(a, b, id)
    ensures SameNode(RegistryStep(a, op, th), RegistryStep(b, op, th), id)
  {
  }

  lemma OtherNodeStep(a: Dict<Node>, op: RegistryOp, th: Thresholds, id: Id)
    requires !op.CheckAll? && !Concerns(op, id)
    ensures SameNode(RegistryStep(a, op, th), a, id)
  {
  }

  /** Nodes do not influence each other: in a run of the registry every node fares as if there were
      only its own registrations and heartbeats and the checks. */
  lemma {:induction false} NodesAreIndependent(nodes: Dict<Node>, ops: seq<RegistryOp>, th: Thresholds, id: Id)
    ensures SameNode(RegistryRun(nodes, ops, th), RegistryRun(nodes, OpsOf(id, ops), th), id)
  {
    if ops == [] {
    } else {
      var front, op := ops[..|ops| - 1], ops[|ops| - 1];
      NodesAreIndependent(nodes, front, th, id);
      var mine := OpsOf(id, front);
      if op.CheckAll? || Concerns(op, id) {
        assert (mine + [op])[..|mine|] == mine;
        SameNodeStep(RegistryRun(nodes, front, th), RegistryRun(nodes, mine, th), op, th, id);
      } else {
        assert mine + [] == mine;
        OtherNodeStep(RegistryRun(nodes, front, th), op, th, id);
      }
    }
  }

  /** The registry after its first `k` operations. */
  function RegistryAt(nodes: Dict<Node>, ops: seq<RegistryOp>, k: nat, th: Thresholds): Dict<Node>
    requires k <= |ops|
  {
    RegistryRun(nodes, ops[..k], th)
  }

  /** The events that operation `k` returns: those of the check, none for the others. */
  function EventsAt(nodes: Dict<Node>, ops: seq<RegistryOp>, k: nat, th: Thresholds): seq<WatchdogEvent>
    requires k < |ops|
  {
    var before := RegistryAt(nodes, ops, k, th);
    if ops[k].CheckAll? then Events(before, ops[k].at, th, before.order) else []
  }

  lemma RegistryStepAt(nodes: Dict<Node>, ops: seq<RegistryOp>, k: nat, th: Thresholds)
    requires k < |ops|
    ensures RegistryAt(nodes, ops, k + 1, th) == RegistryStep(RegistryAt(nodes, ops, k, th), ops[k], th)
  {
    assert ops[..k + 1][..k] == ops[..k];
  }

  lemma {:induction false} RegistryStaysValid(nodes: Dict<Node>, ops: seq<RegistryOp>, th: Thresholds)
    requires nodes.Valid()
    ensures RegistryRun(nodes, ops, th).Valid()
  {
    if ops == [] {
    } else {
      RegistryStaysValid(nodes, ops[..|ops| - 1], th);
    }
  }

  ghost predicate ClockedRun(ops: seq<RegistryOp>) {
    forall i, j :: 0 <= i < j < |ops| ==> ops[i].at <= ops[j].at
  }

  /** After this operation the node's status is no worse than its silence calls for: it registers as
      online, sends a heartbeat, or is checked. */
  predicate Settles(op: RegistryOp, id: Id) {
    op.CheckAll? || (Concerns(op, id) && (op.Register? ==> op.node.status == Online))
  }

  /** Operation `b` settles a registered node, which is then not heard of before operation `k`. */
  ghost predicate SilentFrom(nodes: Dict<Node>, ops: seq<RegistryOp>, b: nat, k: nat, th: Thresholds, id: Id) {
    && b < k <= |ops| && Settles(ops[b], id) && id in RegistryAt(nodes, ops, b + 1, th).tab
    && forall i :: b < i < k ==> !Concerns(ops[i], id)
  }

  /** When the node was last heard of, as of operation `b`. */
  function Heard(nodes: Dict<Node>, ops: seq<RegistryOp>, b: nat, th: Thresholds, id: Id): int
    requires b < |ops| && id in RegistryAt(nodes, ops, b + 1, th).tab
  {
    RegistryAt(nodes, ops, b + 1, th).tab[id].lastHeartbeat
  }

  /** That is when it sent its heartbeat, or the time it registered with. */
  lemma HeardWhenSent(nodes: Dict<Node>, ops: seq<RegistryOp>, b: nat, th: Thresholds, id: Id)
    requires b < |ops| && Concerns(ops[b], id) && id in RegistryAt(nodes, ops, b + 1, th).tab
    ensures Heard(nodes, ops, b, th, id) == if ops[b].BeatOf? then ops[b].at else ops[b].node.lastHeartbeat
  {
    RegistryStepAt(nodes, ops, b, th);
  }

  function Rank(s: NodeStatus): nat {
    match s
    case Online => 0
    case Degraded => 1
    case Offline => 2
  }

  /** An operation that does not concern a node leaves it alone or checks it. */
  lemma SilentStep(nodes: Dict<Node>, ops: seq<RegistryOp>, k: nat, th: Thresholds, id: Id)
    requires k < |ops| && id in RegistryAt(nodes, ops, k, th).tab && !Concerns(ops[k], id)
    ensures id in RegistryAt(nodes, ops, k + 1, th).tab
    ensures RegistryAt(nodes, ops, k + 1, th).tab[id]
         == if ops[k].CheckAll? then CheckedNode(RegistryAt(nodes, ops, k, th).tab[id], ops[k].at, th)
            else RegistryAt(nodes, ops, k, th).tab[id]
  {
    RegistryStepAt(nodes, ops, k, th);
  }

  /** A silent node keeps the time it was last heard of. */
  lemma {:induction false} SilentNode(nodes: Dict<Node>, ops: seq<RegistryOp>, b: nat, k: nat, th: Thresholds, id: Id)
    requires SilentFrom(nodes, ops, b, k, th, id)
    ensures id in RegistryAt(nodes, ops, k, th).tab
    ensures RegistryAt(nodes, ops, k, th).tab[id].lastHeartbeat == Heard(nodes, ops, b, th, id)
    decreases k
  {
    if k == b + 1 {
    } else {
      SilentNode(nodes, ops, b, k - 1, th, id);
      SilentStep(nodes, ops, k - 1, th, id);
    }
  }

  lemma LevelGrows(shorter: int, longer: int, th: Thresholds)
    requires shorter <= longer
    ensures Rank(Level(shorter, th)) <= Rank(Level(longer, th))
  {
  }

  lemma SettledBound(nodes: Dict<Node>, ops: seq<RegistryOp>, b: nat, th: Thresholds, id: Id, t: int)
    requires b < |ops| && Settles(ops[b], id) && id in RegistryAt(nodes, ops, b + 1, th).tab
    requires ops[b].CheckAll? ==> ops[b].at <= t
    ensures Rank(RegistryAt(nodes, ops, b + 1, th).tab[id].status) <= Rank(Level(t - Heard(nodes, ops, b, th, id), th))
  {
    RegistryStepAt(nodes, ops, b, th);
  }

  /** Its status is no worse than the silence up to the latest check calls for. */
  lemma {:induction false} SilentBound(nodes: Dict<Node>, ops: seq<RegistryOp>, b: nat, k: nat, th: Thresholds, id: Id,
                                       t: int)
    requires SilentFrom(nodes, ops, b, k, th, id)
    requires forall i :: b <= i < k && ops[i].CheckAll? ==> ops[i].at <= t
    ensures id in RegistryAt(nodes, ops, k, th).tab
    ensures Rank(RegistryAt(nodes, ops, k, th).tab[id].status) <= Rank(Level(t - Heard(nodes, ops, b, th, id), th))
    decreases k
  {
    if k == b + 1 {
      SettledBound(nodes, ops, b, th, id, t);
    } else {
      SilentNode(nodes, ops, b, k - 1, th, id);
      SilentBound(nodes, ops, b, k - 1, th, id, t);
      SilentStep(nodes, ops, k - 1, th, id);
      if ops[k - 1].CheckAll? {
        LevelGrows(ops[k - 1].at - Heard(nodes, ops, b, th, id), t - Heard(nodes, ops, b, th, id), th);
      }
    }
  }

  /** Until a node is heard of again its status never improves. */
  lemma {:induction false} StatusOnlyWorsens(nodes: Dict<Node>, ops: seq<RegistryOp>, b: nat, i: nat, j: nat,
                                             th: Thresholds, id: Id)
    requires ClockedRun(ops) && b < i <= j && SilentFrom(nodes, ops, b, j, th, id)
    ensures id in RegistryAt(nodes, ops, i, th).tab && id in RegistryAt(nodes, ops, j, th).tab
    ensures Rank(RegistryAt(nodes, ops, i, th).tab[id].status) <= Rank(RegistryAt(nodes, ops, j, th).tab[id].status)
    decreases j
  {
    SilentNode(nodes, ops, b, i, th, id);
    if i == j {
    } else {
      StatusOnlyWorsens(nodes, ops, b, i, j - 1, th, id);
      SilentStep(nodes, ops, j - 1, th, id);
      SilentNode(nodes, ops, b, j - 1, th, id);
      SilentBound(nodes, ops, b, j - 1, th, id, ops[j - 1].at);
    }
  }

  /** A check reports exactly the nodes whose level is not their status. */
  lemma ReportedWhenChanged(nodes: Dict<Node>, now: int, th: Thresholds, id: Id, s: NodeStatus)
    requires nodes.Valid() && id in nodes.tab
    ensures WatchdogEvent(id, s) in Events(nodes, now, th, nodes.order)
       <==> s == LevelAt(nodes, now, th, id) != nodes.tab[id].status
  {
    var ids := Select(nodes.order, Changed(nodes, now, th));
    var events := Events(nodes, now, th, nodes.order);
    if s == LevelAt(nodes, now, th, id) != nodes.tab[id].status {
      var k :| 0 <= k < |ids| && ids[k] == id;
      assert events[k] == WatchdogEvent(id, s);
    }
    if WatchdogEvent(id, s) in events {
      var k :| 0 <= k < |events| && events[k] == WatchdogEvent(id, s);
      assert ids[k] in ids;
    }
  }

  /** What a check reports of a silent node is its new status, worse than the one before. */
  lemma ReportIsWorse(nodes: Dict<Node>, ops: seq<RegistryOp>, b: nat, k: nat, th: Thresholds, id: Id, s: NodeStatus)
    requires nodes.Valid() && ClockedRun(ops) && k < |ops| && SilentFrom(nodes, ops, b, k, th, id)
    requires WatchdogEvent(id, s) in EventsAt(nodes, ops, k, th)
    ensures id in RegistryAt(nodes, ops, k, th).tab && id in RegistryAt(nodes, ops, k + 1, th).tab
    ensures s == Level(ops[k].at - Heard(nodes, ops, b, th, id), th)
         == RegistryAt(nodes, ops, k + 1, th).tab[id].status
    ensures Rank(RegistryAt(nodes, ops, k, th).tab[id].status) < Rank(s)
  {
    RegistryStaysValid(nodes, ops[..k], th);
    SilentNode(nodes, ops, b, k, th, id);
    SilentBound(nodes, ops, b, k, th, id, ops[k].at);
    ReportedWhenChanged(RegistryAt(nodes, ops, k, th), ops[k].at, th, id, s);
    RegistryStepAt(nodes, ops, k, th);
  }

  /** Until a node is heard of again, each event the checks return for it is strictly worse than the
      one before, so there is at most one degraded and at most one offline event. */
  lemma ReportsOnlyWorsen(nodes: Dict<Node>, ops: seq<RegistryOp>, b: nat, i: nat, j: nat, th: Thresholds,
                          id: Id, s: NodeStatus, t: NodeStatus)
    requires nodes.Valid() && ClockedRun(ops)
    requires b < i < j < |ops| && SilentFrom(nodes, ops, b, j, th, id)
    requires WatchdogEvent(id, s) in EventsAt(nodes, ops, i, th)
    requires WatchdogEvent(id, t) in EventsAt(nodes, ops, j, th)
    ensures 0 < Rank(s) < Rank(t)
  {
    ReportIsWorse(nodes, ops, b, i, th, id, s);
    ReportIsWorse(nodes, ops, b, j, th, id, t);
    StatusOnlyWorsens(nodes, ops, b, i + 1, j, th, id);
  }

  /** A check leaves a node offline exactly when it has been silent for `offlineAfter`. */
  lemma NeverOfflineEarly(nodes: Dict<Node>, ops: seq<RegistryOp>, b: nat, k: nat, th: Thresholds, id: Id)
    requires k < |ops| && SilentFrom(nodes, ops, b, k, th, id) && ops[k].CheckAll?
    ensures id in RegistryAt(nodes, ops, k + 1, th).tab
    ensures RegistryAt(nodes, ops, k + 1, th).tab[id].status == Offline
       <==> ops[k].at >= Heard(nodes, ops, b, th, id) + th.offlineAfter
  {
    SilentNode(nodes, ops, b, k, th, id);
    RegistryStepAt(nodes, ops, k, th);
  }

  /** After a check a silent node has the status that the time since it was last heard of calls for:
      in particular it is online while that is below both thresholds. */
  lemma StatusAfterCheck(nodes: Dict<Node>, ops: seq<RegistryOp>, b: nat, k: nat, th: Thresholds, id: Id)
    requires k < |ops| && SilentFrom(nodes, ops, b, k, th, id) && ops[k].CheckAll?
    ensures id in RegistryAt(nodes, ops, k + 1, th).tab
    ensures Deserves(ops[k].at - Heard(nodes, ops, b, th, id), th, RegistryAt(nodes, ops, k + 1, th).tab[id].status)
  {
    SilentNode(nodes, ops, b, k, th, id);
    SilentStep(nodes, ops, k, th, id);
  }

  /** No check reports a node offline before `offlineAfter` of silence. */
  lemma NeverReportedEarly(nodes: Dict<Node>, ops: seq<RegistryOp>, b: nat, k: nat, th: Thresholds, id: Id)
    requires nodes.Valid() && ClockedRun(ops)
    requires k < |ops| && SilentFrom(nodes, ops, b, k, th, id)
    requires WatchdogEvent(id, Offline) in EventsAt(nodes, ops, k, th)
    ensures ops[k].at >= Heard(nodes, ops, b, th, id) + th.offlineAfter
  {
    ReportIsWorse(nodes, ops, b, k, th, id, Offline);
  }

  /** Operation `i` is followed by a check at most `gap` later. */
  ghost predicate CheckFollows(ops: seq<RegistryOp>, i: nat, gap: int)
    requires i < |ops|
  {
    exists j :: i < j < |ops| && ops[j].CheckAll? && ops[j].at <= ops[i].at + gap
  }

  predicate CheckBefore(op: RegistryOp, deadline: int) {
    op.CheckAll? && op.at < deadline
  }

  /** The sign of life, and each check before the deadline, is followed by a check at most `gap`
      later. */
  ghost predicate CheckedEvery(ops: seq<RegistryOp>, b: nat, deadline: int, gap: int)
    requires b < |ops|
  {
    CheckFollows(ops, b, gap) &&
    forall i :: b < i < |ops| && CheckBefore(ops[i], deadline) ==> CheckFollows(ops, i, gap)
  }

  lemma {:induction false} NextCheck(ops: seq<RegistryOp>, i: nat, j: nat) returns (k: nat)
    requires i < j < |ops| && ops[j].CheckAll?
    ensures i < k <= j && ops[k].CheckAll? && forall m :: i < m < k ==> !ops[m].CheckAll?
    decreases j
  {
    k := j;
    if m :| i < m < j && ops[m].CheckAll? {
      k := NextCheck(ops, i, m);
    }
  }

  /** The first check after `i` that is past the deadline comes within `gap` of it. */
  lemma {:induction false} FirstCheckPast(ops: seq<RegistryOp>, i: nat, deadline: int, gap: int) returns (k: nat)
    requires i < |ops| && ClockedRun(ops) && ops[i].at <= deadline && CheckedEvery(ops, i, deadline, gap)
    ensures i < k < |ops| && ops[k].CheckAll? && deadline <= ops[k].at <= deadline + gap
    ensures forall m :: i < m < k ==> ops[m].CheckAll? ==> ops[m].at < deadline
    decreases |ops| - i
  {
    var j :| i < j < |ops| && ops[j].CheckAll? && ops[j].at <= ops[i].at + gap;
    k := NextCheck(ops, i, j);
    assert ops[k].at <= ops[j].at;
    if ops[k].at < deadline {
      assert CheckBefore(ops[k], deadline);
      var next := k;
      k := FirstCheckPast(ops, next, deadline, gap);
    }
  }

  lemma NotLostBefore(nodes: Dict<Node>, ops: seq<RegistryOp>, b: nat, k: nat, th: Thresholds, id: Id)
    requires SilentFrom(nodes, ops, b, k, th, id)
    requires RegistryAt(nodes, ops, b + 1, th).tab[id].status != Offline
    requires forall i :: b < i < k && ops[i].CheckAll? ==> ops[i].at < Heard(nodes, ops, b, th, id) + th.offlineAfter
    ensures id in RegistryAt(nodes, ops, k, th).tab && RegistryAt(nodes, ops, k, th).tab[id].status != Offline
  {
    SilentNode(nodes, ops, b, k, th, id);
    RegistryStepAt(nodes, ops, b, th);
    SilentBound(nodes, ops, b, k, th, id, Heard(nodes, ops, b, th, id) + th.offlineAfter - 1);
  }

  lemma LostForGood(nodes: Dict<Node>, ops: seq<RegistryOp>, b: nat, k: nat, th: Thresholds, id: Id)
    requires ClockedRun(ops) && SilentFrom(nodes, ops, b, |ops|, th, id)
    requires b < k < |ops| && ops[k].CheckAll? && ops[k].at >= Heard(nodes, ops, b, th, id) + th.offlineAfter
    ensures id in RegistryRun(nodes, ops, th).tab && RegistryRun(nodes, ops, th).tab[id].status == Offline
  {
    assert ops[..|ops|] == ops;
    NeverOfflineEarly(nodes, ops, b, k, th, id);
    StatusOnlyWorsens(nodes, ops, b, k + 1, |ops|, th, id);
  }

  /** A check past the deadline that finds a silent node not offline yet reports it, and the node
      stays offline. */
  lemma LostAt(nodes: Dict<Node>, ops: seq<RegistryOp>, b: nat, k: nat, th: Thresholds, id: Id)
    requires nodes.Valid() && ClockedRun(ops) && SilentFrom(nodes, ops, b, |ops|, th, id)
    requires b < k < |ops| && ops[k].CheckAll? && ops[k].at >= Heard(nodes, ops, b, th, id) + th.offlineAfter
    requires id in RegistryAt(nodes, ops, k, th).tab && RegistryAt(nodes, ops, k, th).tab[id].status != Offline
    ensures WatchdogEvent(id, Offline) in EventsAt(nodes, ops, k, th)
    ensures id in RegistryRun(nodes, ops, th).tab && RegistryRun(nodes, ops, th).tab[id].status == Offline
  {
    SilentNode(nodes, ops, b, k, th, id);
    RegistryStaysValid(nodes, ops[..k], th);
    ReportedWhenChanged(RegistryAt(nodes, ops, k, th), ops[k].at, th, id, Offline);
    LostForGood(nodes, ops, b, k, th, id);
  }

  /** When checks are at most `gap` apart, a silent node is reported offline by the first check past
      the time it was last heard of + `offlineAfter`, at most `gap` after that, and stays offline. */
  lemma OfflineByDeadline(nodes: Dict<Node>, ops: seq<RegistryOp>, b: nat, gap: int, th: Thresholds, id: Id)
    returns (k: nat)
    requires nodes.Valid() && ClockedRun(ops) && SilentFrom(nodes, ops, b, |ops|, th, id)
    requires RegistryAt(nodes, ops, b + 1, th).tab[id].status != Offline
    requires var deadline := Heard(nodes, ops, b, th, id) + th.offlineAfter;
      ops[b].at <= deadline && CheckedEvery(ops, b, deadline, gap)
    ensures var deadline := Heard(nodes, ops, b, th, id) + th.offlineAfter;
      && b < k < |ops| && deadline <= ops[k].at <= deadline + gap
      && WatchdogEvent(id, Offline) in EventsAt(nodes, ops, k, th)
    ensures id in RegistryRun(nodes, ops, th).tab && RegistryRun(nodes, ops, th).tab[id].status == Offline
  {
    k := FirstCheckPast(ops, b, Heard(nodes, ops, b, th, id) + th.offlineAfter, gap);
    NotLostBefore(nodes, ops, b, k, th, id);
    LostAt(nodes, ops, b, k, th, id);
  }

  /** A node that a check has just found offline gets none of the tasks it loses back. */
  lemma LostNodeGetsNothingBack(nodes: Dict<Node>, now: int, th: Thresholds, d: Db, orphaned: seq<Id>, node: Id)
    requires KeyedNodes(nodes) && node in BecameOffline(nodes, now, th)
    ensures var online := OnlineNodes(Checked(nodes, now, th));
      forall id :: id in orphaned && CanMove(d, id, online) ==>
        && id in Rescheduled(d, orphaned, online).tab
        && Rescheduled(d, orphaned, online).tab[id].status == Running
        && Rescheduled(d, orphaned, online).tab[id].assignedTo != Some(node)
  {
    NeverBackToOffline(d, orphaned, Checked(nodes, now, th), node);
    RescheduledPointwise(d, orphaned, OnlineNodes(Checked(nodes, now, th)));
    assert forall id :: id in orphaned ==> multiset(orphaned)[id] > 0;
  }
}

module Watchdogs {
  import opened Dicts
  import opened Scheduling
  import opened WatchdogRules
  import opened InMemory
  import opened Recovery

  class Watchdog {
    const store: ClusterState
    const detector: RecoveryDetector
    var checkInterval: int
    var thresholds: Thresholds

    constructor (detector: RecoveryDetector, checkInterval: int, degradedAfter: int, offlineAfter: int)
      ensures this.detector == detector && store == detector.store
      ensures this.checkInterval == checkInterval && thresholds == Thresholds(degradedAfter, offlineAfter)
    {
      this.store, this.detector := detector.store, detector;
      this.checkInterval, this.thresholds := checkInterval, Thresholds(degradedAfter, offlineAfter);
    }

    /** The runs of the registry above are those between two calls of this. */
    method UpdateIntervals(checkInterval: int, degradedAfter: int, offlineAfter: int)
      modifies this
      ensures this.checkInterval == checkInterval && thresholds == Thresholds(degradedAfter, offlineAfter)
    {
      this.checkInterval := checkInterval;
      thresholds := Thresholds(degradedAfter, offlineAfter);
    }

    /** One check of one node. A status change is an event; the wired callback queues a node for
        recovery when it goes offline. */
    method CheckNode(node: Node, now: int) returns (events: seq<WatchdogEvent>)
      requires store.Valid() && node.id in store.nodes.tab && store.nodes.tab[node.id] == node
      modifies store`nodes, detector`eventQueue
      ensures store.Valid()
      ensures OnlyAt(old(store.nodes), store.nodes, node.id)
      ensures CheckedAt(node, store.nodes.tab[node.id], now, thresholds)
      ensures var level := Level(now - node.lastHeartbeat, thresholds);
        && store.nodes == (if level != node.status
                           then old(store.nodes).Put(node.id, node.(status := level)) else old(store.nodes))
        && events == (if level != node.status then [WatchdogEvent(node.id, level)] else [])
        && detector.eventQueue
           == old(detector.eventQueue) + (if level != node.status && level == Offline then [node.id] else [])
    {
      var elapsed := now - node.lastHeartbeat;
      var newStatus :=
        if elapsed >= thresholds.offlineAfter then Offline
        else if elapsed >= thresholds.degradedAfter then Degraded
        else Online;
      events := [];
      if newStatus != node.status {
        store.UpdateNodeStatus(node.id, newStatus);
        events := [WatchdogEvent(node.id, newStatus)];
        if newStatus == Offline {
          detector.NotifyOffline(node.id);
        }
      }
    }

    /** One check cycle over a snapshot of the registry. */
    method Check(now: int) returns (events: seq<WatchdogEvent>)
      requires store.Valid()
      modifies store`nodes, detector`eventQueue
      ensures store.Valid() && store.nodes == Checked(old(store.nodes), now, thresholds)
      ensures events == Events(old(store.nodes), now, thresholds, store.nodes.order)
      ensures CheckEffect(old(store.nodes), store.nodes, now, thresholds, events)
      ensures old(detector.eventQueue) <= detector.eventQueue
      ensures LostEffect(old(store.nodes), store.nodes, detector.eventQueue[|old(detector.eventQueue)|..])
      ensures detector.eventQueue
           == old(detector.eventQueue) + Select(store.nodes.order, BecameOffline(old(store.nodes), now, thresholds))
    {
      ghost var queue, th := detector.eventQueue, thresholds;
      var snapshot := store.nodes;
      UptoEnds(snapshot, Checked(snapshot, now, th));
      events := [];
      for i := 0 to |snapshot.order|
        invariant store.Valid() && store.nodes == Upto(snapshot, Checked(snapshot, now, th), snapshot.order[..i])
        invariant events == Events(snapshot, now, th, snapshot.order[..i])
        invariant detector.eventQueue == queue + Select(snapshot.order[..i], BecameOffline(snapshot, now, th))
      {
        NodeTurn(snapshot, now, th, i);
        var found := CheckNode(snapshot.tab[snapshot.order[i]], now);
        CheckTurn(snapshot, now, th, i, queue, store.nodes, found, detector.eventQueue);
        events := events + found;
      }
      CheckedMeans(snapshot, now, th);
      LostMean(snapshot, now, th);
    }
  }
}
