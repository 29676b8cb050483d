/** Sync messages: a fold over the versions that rise above everything seen so far. */
module SyncRules {
  import opened Dicts
  import opened TaskRules

  /** `status` is None when the message's text names no task status. */
  datatype TaskSync = TaskSync(taskId: Id, title: string, status: Option<Status>, assignedTo: Option<Id>, version: int)

  datatype SyncMessage = SyncMessage(version: int, taskState: Option<TaskSync>)

  datatype SyncState = SyncState(version: int, tasks: Db)

  const DEFAULT_PRIORITY := 3

  /** The in-memory store keeps the status when the message's is not valid, and the assignee when
      the message has none. */
  function StateApplied(d: Db, ts: TaskSync, now: int): Db {
    if ts.taskId in d.tab then
      var t := d.tab[ts.taskId];
      d.Put(ts.taskId, t.(
        status := if ts.status.Some? then ts.status.value else t.status,
        assignedTo := if ts.assignedTo.Some? && ts.assignedTo.value != "" then ts.assignedTo else t.assignedTo,
        version := ts.version))
    else
      d.Put(ts.taskId, Task(ts.title, [], [], DEFAULT_PRIORITY,
        if ts.status.Some? then ts.status.value else Pending, ts.assignedTo, now, ts.version, None))
  }

  function MessageApplied(s: SyncState, m: SyncMessage, now: int): SyncState {
    if m.version <= s.version then s
    else SyncState(m.version, if m.taskState.Some? then StateApplied(s.tasks, m.taskState.value, now) else s.tasks)
  }

  /** The table and version after a batch, and the number of messages applied. */
  function Batch(s: SyncState, ms: seq<SyncMessage>, now: int): (SyncState, nat) {
    if ms == [] then (s, 0)
    else
      var (s1, n) := Batch(s, ms[..|ms| - 1], now);
      var m := ms[|ms| - 1];
      (MessageApplied(s1, m, now), if m.version <= s1.version then n else n + 1)
  }

  /** Message `i` exceeds the start version and every earlier message. */
  predicate IsRecord(start: int, ms: seq<SyncMessage>, i: nat)
    requires i < |ms|
  {
    ms[i].version > start && forall j :: 0 <= j < i ==> ms[j].version < ms[i].version
  }

  function Records(start: int, ms: seq<SyncMessage>): set<nat> {
    set i: nat | i < |ms| && IsRecord(start, ms, i)
  }

  /** The messages that set a record, in order. */
  function RecordList(start: int, ms: seq<SyncMessage>): seq<SyncMessage> {
    if ms == [] then []
    else
      var n := |ms| - 1;
      RecordList(start, ms[..n]) + (if IsRecord(start, ms, n) then [ms[n]] else [])
  }

  function StatesApplied(d: Db, ms: seq<SyncMessage>, now: int): Db {
    if ms == [] then d
    else
      var n := |ms| - 1;
      var d1 := StatesApplied(d, ms[..n], now);
      if ms[n].taskState.Some? then StateApplied(d1, ms[n].taskState.value, now) else d1
  }

  lemma StatesAppliedStep(d: Db, ms: seq<SyncMessage>, m: SyncMessage, now: int)
    ensures var d1 := StatesApplied(d, ms, now);
      StatesApplied(d, ms + [m], now) == if m.taskState.Some? then StateApplied(d1, m.taskState.value, now) else d1
  {
    assert (ms + [m])[..|ms|] == ms;
  }

  ghost predicate IsMaximum(v: int, start: int, ms: seq<SyncMessage>) {
    && v >= start && (forall i :: 0 <= i < |ms| ==> v >= ms[i].version)
    && (v == start || exists i :: 0 <= i < |ms| && v == ms[i].version)
  }

  lemma BatchStep(s: SyncState, ms: seq<SyncMessage>, now: int)
    requires ms != []
    ensures var (front, m) := (ms[..|ms| - 1], ms[|ms| - 1]);
      && Batch(s, ms, now).0 == MessageApplied(Batch(s, front, now).0, m, now)
      && Batch(s, ms, now).1 == Batch(s, front, now).1 + if m.version <= Batch(s, front, now).0.version then 0 else 1
  {
  }

  /** The final version is the maximum of the start version and the messages'. */
  lemma {:induction false} BatchEndsAtMaximum(s: SyncState, ms: seq<SyncMessage>, now: int)
    ensures IsMaximum(Batch(s, ms, now).0.version, s.version, ms)
  {
    if ms == [] {
    } else {
      var front := ms[..|ms| - 1];
      BatchEndsAtMaximum(s, front, now);
      BatchStep(s, ms, now);
      assert forall i :: 0 <= i < |front| ==> front[i] == ms[i];
    }
  }

  /** A message is applied exactly when it sets a record. */
  lemma AppliedIsRecord(s: SyncState, ms: seq<SyncMessage>, i: nat, now: int)
    requires i < |ms|
    ensures ms[i].version > Batch(s, ms[..i], now).0.version <==> IsRecord(s.version, ms, i)
  {
    BatchEndsAtMaximum(s, ms[..i], now);
    var v := Batch(s, ms[..i], now).0.version;
    assert forall j :: 0 <= j < i ==> ms[..i][j] == ms[j];
  }

  lemma RecordsStep(start: int, ms: seq<SyncMessage>)
    requires ms != []
    ensures var n := |ms| - 1;
      Records(start, ms) == Records(start, ms[..n]) + if IsRecord(start, ms, n) then {n} else {}
  {
    var n := |ms| - 1;
    forall i: nat | i < n ensures IsRecord(start, ms, i) <==> IsRecord(start, ms[..n], i) {
      assert forall j :: 0 <= j <= i ==> ms[..n][j] == ms[j];
    }
  }

  lemma {:induction false} BatchCountsRecords(s: SyncState, ms: seq<SyncMessage>, now: int)
    ensures Batch(s, ms, now).1 == |Records(s.version, ms)|
  {
    if ms == [] {
      assert Records(s.version, ms) == {};
    } else {
      BatchCountsRecords(s, ms[..|ms| - 1], now);
      BatchStep(s, ms, now);
      AppliedIsRecord(s, ms, |ms| - 1, now);
      RecordsStep(s.version, ms);
    }
  }

  lemma {:induction false} BatchAppliesStates(s: SyncState, ms: seq<SyncMessage>, now: int)
    ensures Batch(s, ms, now).0.tasks == StatesApplied(s.tasks, RecordList(s.version, ms), now)
  {
    if ms == [] {
    } else {
      var n := |ms| - 1;
      BatchAppliesStates(s, ms[..n], now);
      BatchStep(s, ms, now);
      AppliedIsRecord(s, ms, n, now);
      var r := RecordList(s.version, ms[..n]);
      if IsRecord(s.version, ms, n) {
        StatesAppliedStep(s.tasks, r, ms[n], now);
      } else {
        assert r + [] == r;
      }
    }
  }

  /** A batch applies exactly the record-setting messages, counts them, and ends at the maximum. */
  lemma BatchAppliesRecords(s: SyncState, ms: seq<SyncMessage>, now: int)
    ensures Batch(s, ms, now).1 == |Records(s.version, ms)|
    ensures IsMaximum(Batch(s, ms, now).0.version, s.version, ms)
    ensures Batch(s, ms, now).0.tasks == StatesApplied(s.tasks, RecordList(s.version, ms), now)
  {
    BatchCountsRecords(s, ms, now);
    BatchEndsAtMaximum(s, ms, now);
    BatchAppliesStates(s, ms, now);
  }

  /** A batch of a concatenation is the two batches in sequence. */
  lemma {:induction false} BatchesCompose(s: SyncState, a: seq<SyncMessage>, b: seq<SyncMessage>, now: int)
    ensures Batch(s, a + b, now).0 == Batch(Batch(s, a, now).0, b, now).0
    ensures Batch(s, a + b, now).1 == Batch(s, a, now).1 + Batch(Batch(s, a, now).0, b, now).1
  {
    if b == [] {
      assert a + b == a;
    } else {
      var n := |b| - 1;
      BatchesCompose(s, a, b[..n], now);
      assert (a + b)[..|a + b| - 1] == a + b[..n];
    }
  }

  /** Replaying a batch applies nothing and changes nothing. */
  lemma ReplayIsIdempotent(s: SyncState, ms: seq<SyncMessage>, now: int, later: int)
    ensures Batch(Batch(s, ms, now).0, ms, later) == (Batch(s, ms, now).0, 0)
  {
    BatchEndsAtMaximum(s, ms, now);
    OldMessagesChangeNothing(Batch(s, ms, now).0, ms, later);
  }

  lemma {:induction false} OldMessagesChangeNothing(s: SyncState, ms: seq<SyncMessage>, now: int)
    requires forall i :: 0 <= i < |ms| ==> ms[i].version <= s.version
    ensures Batch(s, ms, now) == (s, 0)
  {
    if ms == [] {
    } else {
      OldMessagesChangeNothing(s, ms[..|ms| - 1], now);
    }
  }

  // ----- the SQL store: no counter, only the log -----

  /** MAX(version) over the log, 0 when it is empty. */
  function MaxVersion(log: seq<int>): int {
    if log == [] then 0
    else if |log| == 1 then log[0]
    else
      var m := MaxVersion(log[..|log| - 1]);
      if log[|log| - 1] > m then log[|log| - 1] else m
  }

  function LogStep(log: seq<int>, m: SyncMessage): seq<int> {
    if m.version <= MaxVersion(log) then log else log + [m.version]
  }

  function LogBatch(log: seq<int>, ms: seq<SyncMessage>): (seq<int>, nat) {
    if ms == [] then (log, 0)
    else
      var (l, n) := LogBatch(log, ms[..|ms| - 1]);
      var m := ms[|ms| - 1];
      (LogStep(l, m), if m.version <= MaxVersion(l) then n else n + 1)
  }

  ghost predicate Rising(log: seq<int>) {
    && (forall i :: 0 <= i < |log| ==> log[i] > 0)
    && (forall i, j :: 0 <= i < j < |log| ==> log[i] < log[j])
  }

  lemma {:induction false} MaxOfRising(log: seq<int>)
    requires Rising(log)
    ensures MaxVersion(log) == if log == [] then 0 else log[|log| - 1]
  {
    if |log| > 1 {
      MaxOfRising(log[..|log| - 1]);
    }
  }

  lemma RisingStep(log: seq<int>, m: SyncMessage)
    requires Rising(log)
    ensures Rising(LogStep(log, m))
    ensures MaxVersion(LogStep(log, m)) == if m.version <= MaxVersion(log) then MaxVersion(log) else m.version
  {
    MaxOfRising(log);
    MaxOfRising(LogStep(log, m));
  }

  lemma LogBatchStep(log: seq<int>, ms: seq<SyncMessage>)
    requires ms != []
    ensures var (l, m) := (LogBatch(log, ms[..|ms| - 1]), ms[|ms| - 1]);
      && LogBatch(log, ms).0 == LogStep(l.0, m)
      && LogBatch(log, ms).1 == l.1 + if m.version <= MaxVersion(l.0) then 0 else 1
  {
  }

  /** The maximum of the store's strictly rising log always equals the in-memory counter, and both
      stores apply the same number of messages. */
  lemma {:induction false} StoreVersionAgrees(log: seq<int>, s: SyncState, ms: seq<SyncMessage>, now: int)
    requires Rising(log) && MaxVersion(log) == s.version
    ensures Rising(LogBatch(log, ms).0)
    ensures MaxVersion(LogBatch(log, ms).0) == Batch(s, ms, now).0.version
    ensures LogBatch(log, ms).1 == Batch(s, ms, now).1
    ensures |LogBatch(log, ms).0| == |log| + LogBatch(log, ms).1
  {
    if ms == [] {
    } else {
      var front := ms[..|ms| - 1];
      StoreVersionAgrees(log, s, front, now);
      BatchStep(s, ms, now);
      LogBatchStep(log, ms);
      RisingStep(LogBatch(log, front).0, ms[|ms| - 1]);
    }
  }
}
