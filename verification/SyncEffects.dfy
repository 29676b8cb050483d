/** What a sync message does, field by field. */
module SyncEffects {
  import opened Dicts
  import opened TaskRules
  import opened SyncRules

  /** A task the store knows takes a valid status, a named assignee and the version. */
  ghost predicate TaskSynced(t: Task, u: Task, ts: TaskSync) {
    && u.title == t.title && u.needs == t.needs && u.dependsOn == t.dependsOn && u.priority == t.priority
    && u.createdAt == t.createdAt && u.failReason == t.failReason
    && (ts.status.Some? ==> u.status == ts.status.value)
    && (ts.status.None? ==> u.status == t.status)
    && (ts.assignedTo.Some? && ts.assignedTo.value != "" ==> u.assignedTo == ts.assignedTo)
    && (ts.assignedTo.None? || ts.assignedTo.value == "" ==> u.assignedTo == t.assignedTo)
    && u.version == ts.version
  }

  /** An unknown one is created with the message's fields, and the defaults for the others. */
  ghost predicate TaskArrived(u: Task, ts: TaskSync, now: int) {
    && u.title == ts.title && u.needs == [] && u.dependsOn == [] && u.priority == 3
    && u.createdAt == now && u.failReason == None
    && (ts.status.Some? ==> u.status == ts.status.value)
    && (ts.status.None? ==> u.status == Pending)
    && u.assignedTo == ts.assignedTo && u.version == ts.version
  }

  /** A message above the version seen so far is taken; any other changes nothing. */
  ghost predicate MessageEffect(s: SyncState, e: SyncState, m: SyncMessage, now: int) {
    if m.version <= s.version then e == s
    else
      && e.version == m.version
      && match m.taskState
        case None => e.tasks == s.tasks
        case Some(ts) =>
          && OnlyAt(s.tasks, e.tasks, ts.taskId)
          && if ts.taskId in s.tasks.tab then TaskSynced(s.tasks.tab[ts.taskId], e.tasks.tab[ts.taskId], ts)
             else TaskArrived(e.tasks.tab[ts.taskId], ts, now)
  }

  lemma MessageMeans(s: SyncState, m: SyncMessage, now: int)
    ensures MessageEffect(s, MessageApplied(s, m, now), m, now)
  {
  }
}
