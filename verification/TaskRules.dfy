/** Tasks, their statuses and what each store operation does to the task table.

    Every function here gives the table after one operation of the source. The in-memory store and
    the SQL store share most of them; `Created`/`StoreCreated` and `Linked`/`StoreLinked` are where
    the two differ. */
module TaskRules {
  import opened Dicts

  datatype Status = Pending | Ready | Assigned | Running | Completed | Failed | Blocked

  datatype Task = Task(
    title: string,
    needs: seq<string>,
    dependsOn: seq<Id>,
    priority: int,
    status: Status,
    assignedTo: Option<Id>,
    createdAt: int,
    version: int,
    failReason: Option<string>)

  type Db = Dict<Task>

  const MAX_TRIGGER_CHAIN_DEPTH := 10
  const DEPENDENCY_FAILED := "dependency failed"

  predicate IsDone(d: Db, id: Id) {
    id in d.tab && d.tab[id].status == Completed
  }

  /** Every dependency is present and completed; holds when there are none. */
  predicate DepsMet(d: Db, t: Task) {
    forall dep :: dep in t.dependsOn ==> IsDone(d, dep)
  }

  predicate DepFailed(d: Db, t: Task) {
    exists dep :: dep in t.dependsOn && dep in d.tab && d.tab[dep].status == Failed
  }

  predicate HasStatus(d: Db, id: Id, s: Status) {
    id in d.tab && d.tab[id].status == s
  }

  predicate Eligible(d: Db, id: Id) {
    HasStatus(d, id, Pending) && DepsMet(d, d.tab[id])
  }

  /** Nothing is left for a full scan to promote. */
  ghost predicate Closed(d: Db) {
    forall id :: !Eligible(d, id)
  }

  function EligibleSet(d: Db): set<Id> {
    set id | id in d.tab && Eligible(d, id)
  }

  function Uncompleted(d: Db): set<Id> {
    set id | id in d.tab && d.tab[id].status != Completed
  }

  // ----- single task updates -----

  function WithStatus(t: Task, s: Status, reason: string): Task {
    t.(status := s, version := t.version + 1,
       failReason := if reason != "" then Some(reason) else t.failReason)
  }

  function SetStatus(d: Db, id: Id, s: Status, reason: string): Db {
    if id in d.tab then d.Put(id, WithStatus(d.tab[id], s, reason)) else d
  }

  function NewTask(title: string, needs: seq<string>, priority: int, now: int): Task {
    Task(title, needs, [], priority, Pending, None, now, 1, None)
  }

  /** The in-memory store overwrites whatever the id held. */
  function Created(d: Db, id: Id, title: string, needs: seq<string>, priority: int, now: int): Db {
    d.Put(id, NewTask(title, needs, priority, now))
  }

  /** The SQL store ignores the insert when the id exists, and then promotes a pending row. */
  function StoreCreated(d: Db, id: Id, title: string, needs: seq<string>, priority: int, now: int): Db {
    var d1 := if id in d.tab then d else Created(d, id, title, needs, priority, now);
    if d1.tab[id].status == Pending then d1.Put(id, d1.tab[id].(status := Ready)) else d1
  }

  function Unblocked(d: Db, id: Id): Db {
    if HasStatus(d, id, Blocked)
    then d.Put(id, d.tab[id].(status := Pending, version := d.tab[id].version + 1))
    else d
  }

  function Linked(d: Db, id: Id, deps: seq<Id>): Db {
    if id in d.tab
    then d.Put(id, d.tab[id].(dependsOn := deps, version := d.tab[id].version + 1))
    else d
  }

  /** The SQL store also demotes a ready task that is given dependencies. */
  function StoreLinked(d: Db, id: Id, deps: seq<Id>): Db {
    var d1 := Linked(d, id, deps);
    if deps != [] && HasStatus(d1, id, Ready) then d1.Put(id, d1.tab[id].(status := Pending)) else d1
  }

  // ----- full scan -----

  function Triggered(d: Db): Db {
    Dict(d.order, map id | id in d.tab ::
      if Eligible(d, id) then d.tab[id].(status := Ready) else d.tab[id])
  }

  /** A scan that has promoted some of the tasks sees the same dependencies met as at the start. */
  lemma ScanSeesSameDependencies(d: Db, done: seq<Id>, t: Task)
    ensures DepsMet(Upto(d, Triggered(d), done), t) <==> DepsMet(d, t)
  {
    assert forall id :: IsDone(Upto(d, Triggered(d), done), id) <==> IsDone(d, id);
  }

  // ----- incremental resolution -----

  function Resolved(d: Db, id: Id): Db {
    if !HasStatus(d, id, Pending) then d
    else if DepFailed(d, d.tab[id]) then SetStatus(d, id, Blocked, DEPENDENCY_FAILED)
    else if DepsMet(d, d.tab[id]) then SetStatus(d, id, Ready, "")
    else d
  }

  /** Pending dependents of `done` whose dependencies are all completed. */
  function Promotable(d: Db, done: Id): set<Id> {
    set id | id in d.tab && Eligible(d, id) && done in d.tab[id].dependsOn
  }

  /** Pending tasks with a failed dependency that depend on a member of `causes`. */
  function Blockable(d: Db, causes: set<Id>): set<Id> {
    set id | id in d.tab && d.tab[id].status == Pending && DepFailed(d, d.tab[id])
          && exists c :: c in d.tab[id].dependsOn && c in causes
  }

  function Mark(d: Db, ready: set<Id>, blocked: set<Id>): Db {
    Dict(d.order, map id | id in d.tab ::
      if id in ready then WithStatus(d.tab[id], Ready, "")
      else if id in blocked then WithStatus(d.tab[id], Blocked, DEPENDENCY_FAILED)
      else d.tab[id])
  }

  /** The tasks whose dependents a cascade from `done`, started at `depth`, looks at. */
  function CascadeCauses(d: Db, done: Id, depth: nat): set<Id> {
    {done} + if depth + 1 < MAX_TRIGGER_CHAIN_DEPTH then Promotable(d, done) else {}
  }

  /** Closed form of the recursive propagation. */
  function Propagated(d: Db, done: Id, depth: nat): Db {
    if depth >= MAX_TRIGGER_CHAIN_DEPTH then d
    else Mark(d, Promotable(d, done), Blockable(d, CascadeCauses(d, done, depth)))
  }

  function PropagatedIds(d: Db, done: Id, depth: nat): seq<Id> {
    if depth >= MAX_TRIGGER_CHAIN_DEPTH then [] else Select(d.order, Promotable(d, done))
  }

  function DependencyFailedReason(id: Id): string {
    "dependency " + id + " failed"
  }

  function PendingDependents(d: Db, id: Id): set<Id> {
    set x | x in d.tab && d.tab[x].status == Pending && id in d.tab[x].dependsOn
  }

  /** The direct pending dependents of a failed task become blocked. */
  function FailureSpread(d: Db, failed: Id): Db {
    Dict(d.order, map id | id in d.tab ::
      if id in PendingDependents(d, failed)
      then WithStatus(d.tab[id], Blocked, DependencyFailedReason(failed))
      else d.tab[id])
  }

  // ----- dependency graph -----

  function DependentsOf(d: Db, id: Id): seq<Id> {
    Select(d.order, set x | x in d.tab && id in d.tab[x].dependsOn)
  }

  /** A chain of dependencies: each element depends on the next. */
  ghost predicate DepChain(d: Db, p: seq<Id>) {
    forall i :: 0 <= i < |p| - 1 ==> p[i] in d.tab && p[i + 1] in d.tab[p[i]].dependsOn
  }

  ghost predicate Acyclic(d: Db) {
    forall p :: DepChain(d, p) && |p| >= 2 ==> p[0] != p[|p| - 1]
  }
}
