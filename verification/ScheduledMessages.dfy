/** One worker's tick over the scheduled messages, and the service that creates, toggles and removes
    them, as methods over the tables. */
module ScheduledMessages {
  import opened Common
  import opened Schedule
  import opened Shard
  import opened Scheduler

  ghost function NewMessages(rows: map<RowId, Row>, now: int, order: seq<RowId>): seq<ScheduledFiring>
    requires forall i | 0 <= i < |order| :: order[i] in rows
  {
    seq(|order|, i requires 0 <= i < |order| => MessageFor(Due(order[i], rows[order[i]]), now))
  }

  /** A row of the tick has moved to a run after `now`; every other row is as before. */
  ghost predicate RowsFired(before: map<RowId, Row>, after: map<RowId, Row>, now: int, end: int, fired: seq<RowId>) {
    && after.Keys == before.Keys
    && (forall id | id in before && id !in fired :: after[id] == before[id])
    && (forall id | id in before && id in fired ::
          && before[id].sched.Valid()
          && after[id] == before[id].(nextRunAt := after[id].nextRunAt, lastRunAt := Some(now))
          && IsOccurrence(before[id].sched, after[id].nextRunAt)
          && NextRun(before[id].sched, now) <= after[id].nextRunAt <= NextRun(before[id].sched, end))
  }

  /** The five steps that fire the row at hand, when its conditional update matches. */
  function FireSteps(dt: nat): seq<Step> {
    [Advance(dt), Compute(0)] + [Claim(0), CreateMessage(0)] + [Enqueue(0)]
  }

  lemma ComputeHead(s: State, shardId: int, now: int, due: seq<Due>, dt: nat)
    requires due != [] && s.workers == [Worker(shardId, Looping(now, due))]
    requires ComputeNextRunAt(due[0].row.sched, s.clock + dt).Ok?
    ensures Exec(s, [Advance(dt), Compute(0)]) == s.(
      clock := s.clock + dt,
      workers := [Worker(shardId, Computed(now, due, ComputeNextRunAt(due[0].row.sched, s.clock + dt).value))])
  {
    hide ComputeNextRunAt, Exec;
    ExecTwo(s, Advance(dt), Compute(0));
  }

  lemma ClaimHead(s: State, shardId: int, now: int, due: seq<Due>, next: int)
    requires due != [] && s.workers == [Worker(shardId, Computed(now, due, next))] && Matches(s.rows, due[0])
    ensures Exec(s, [Claim(0), CreateMessage(0)]) == s.(
      rows := UpdateMany(s.rows, due[0], next, now),
      messages := s.messages + [MessageFor(due[0], now)],
      workers := [Worker(shardId, Created(now, due, |s.messages|))])
  {
    hide Exec, UpdateMany, Matches;
    ExecTwo(s, Claim(0), CreateMessage(0));
    assert Apply(s, Claim(0)).workers == [Worker(shardId, Claimed(now, due))];
  }

  lemma EnqueueHead(s: State, shardId: int, now: int, due: seq<Due>, m: nat)
    requires due != [] && s.workers == [Worker(shardId, Created(now, due, m))]
    ensures Apply(s, Enqueue(0))
         == s.(jobs := s.jobs + multiset{m}, workers := [Worker(shardId, Looping(now, due[1..]))])
  {
  }

  lemma FireHead(s: State, shardId: int, now: int, due: seq<Due>, dt: nat)
    requires due != [] && s.workers == [Worker(shardId, Looping(now, due))] && Matches(s.rows, due[0])
    requires ComputeNextRunAt(due[0].row.sched, s.clock + dt).Ok?
    ensures var next := ComputeNextRunAt(due[0].row.sched, s.clock + dt).value;
      Exec(s, FireSteps(dt)) == Fired(s, shardId, due[0], next, now, s.clock + dt, due[1..])
  {
    hide ComputeNextRunAt, Exec, Apply, UpdateMany, Matches;
    var next := ComputeNextRunAt(due[0].row.sched, s.clock + dt).value;
    ComputeHead(s, shardId, now, due, dt);
    var s1 := Exec(s, [Advance(dt), Compute(0)]);
    ClaimHead(s1, shardId, now, due, next);
    var s2 := Exec(s1, [Claim(0), CreateMessage(0)]);
    EnqueueHead(s2, shardId, now, due, |s.messages|);
    ExecAppend(s, [Advance(dt), Compute(0)], [Claim(0), CreateMessage(0)]);
    ExecOne(s, [Advance(dt), Compute(0)] + [Claim(0), CreateMessage(0)], Enqueue(0));
  }

  lemma SnapshotTaken(s: State, shardId: int, lag: nat, order: seq<RowId>)
    requires s.workers == [Worker(shardId, Idle)] && lag <= s.clock
    requires Lists(order, DueIds(s.rows, s.clock - lag, shardId, s.totalShards))
    ensures forall i | 0 <= i < |order| :: order[i] in s.rows
    ensures Apply(s, Snapshot(0, lag, order))
         == s.(workers := [Worker(shardId, Looping(s.clock - lag, ReadRows(s.rows, order)))])
  {
    assert forall i | 0 <= i < |order| :: order[i] in s.rows;
    hide ShardOf, Lists, DueIds, ReadRows;
  }

  lemma SnapshotSteps(s: State, shardId: int, dt: nat, lag: nat, order: seq<RowId>)
    requires s.workers == [Worker(shardId, Idle)] && lag <= s.clock + dt
    requires Lists(order, DueIds(s.rows, s.clock + dt - lag, shardId, s.totalShards))
    ensures forall i | 0 <= i < |order| :: order[i] in s.rows
    ensures Exec(s, [Advance(dt), Snapshot(0, lag, order)])
         == s.(clock := s.clock + dt,
               workers := [Worker(shardId, Looping(s.clock + dt - lag, ReadRows(s.rows, order)))])
  {
    hide Exec, ShardOf, Lists, DueIds, ReadRows, ApplyWorker;
    ExecTwo(s, Advance(dt), Snapshot(0, lag, order));
    SnapshotTaken(Apply(s, Advance(dt)), shardId, lag, order);
  }

  /** No toggle is under way during a tick that runs alone. */
  predicate NoToggles(steps: seq<Step>) {
    forall k | 0 <= k < |steps| :: !steps[k].ToggleRead?
  }

  lemma {:induction false} QuietRun(s: State, steps: seq<Step>)
    requires s.toggles == multiset{} && NoToggles(steps)
    ensures NoUndercut(s, steps) && Exec(s, steps).toggles == multiset{}
    decreases |steps|
  {
    hide Apply, Undercut;
    if steps != [] {
      QuietStep(s, steps[0]);
      QuietRun(Apply(s, steps[0]), steps[1..]);
    }
  }

  lemma QuietStep(s: State, step: Step)
    requires s.toggles == multiset{} && !step.ToggleRead?
    ensures !Undercut(s, step) && Apply(s, step).toggles == multiset{}
  {
    hide ComputeNextRunAt, DueIds, Lists, Matches;
  }

  /** The loop after firing the first `i` rows of the tick. */
  ghost predicate Firing(start: State, trace: seq<Step>, shardId: int, tick: int, order: seq<RowId>, i: nat, s: State) {
    && i <= |order| && (forall k | 0 <= k < |order| :: order[k] in start.rows)
    && s == Exec(start, trace) && start.toggles == multiset{} && NoToggles(trace)
    && s.workers == [Worker(shardId, Looping(tick, ReadRows(start.rows, order)[i..]))]
    && RowsFired(start.rows, s.rows, tick, s.clock, order[..i])
    && s.messages == start.messages + NewMessages(start.rows, tick, order[..i])
    && s.jobs == start.jobs + multiset(seq(i, k => |start.messages| + k))
    && s.totalShards == start.totalShards && s.nextId == start.nextId
    && 0 <= tick <= s.clock
  }

  function Fired(s: State, shardId: int, d: Due, next: int, now: int, clock: int, rest: seq<Due>): State {
    s.(clock := clock,
       rows := UpdateMany(s.rows, d, next, now),
       messages := s.messages + [MessageFor(d, now)],
       jobs := s.jobs + multiset{|s.messages|},
       workers := [Worker(shardId, Looping(now, rest))])
  }

  lemma FireNext(start: State, trace: seq<Step>, shardId: int, tick: int, order: seq<RowId>, i: nat, s: State, dt: nat)
    requires Inv(start) && Firing(start, trace, shardId, tick, order, i, s) && i < |order|
    requires forall j, k | 0 <= j < k < |order| :: order[j] != order[k]
    ensures var d := Due(order[i], start.rows[order[i]]);
      && ReadRows(start.rows, order)[i..][0] == d
      && Matches(s.rows, d) && ComputeNextRunAt(d.row.sched, s.clock + dt).Ok?
      && var next := ComputeNextRunAt(d.row.sched, s.clock + dt).value;
      Firing(start, trace + FireSteps(dt), shardId, tick, order, i + 1,
             Fired(s, shardId, d, next, tick, s.clock + dt, ReadRows(start.rows, order)[i + 1..]))
  {
    hide IsOccurrence, ComputeNextRunAt, RowOk, PhaseOk, OncePerOccurrence, OneJobPerMessage;
    hide Exec, UpdateMany, RowsFired;
    var d := Due(order[i], start.rows[order[i]]);
    var read := ReadRows(start.rows, order);
    assert read[i..][0] == d && read[i..][1..] == read[i + 1..];
    assert RowOk(start.rows[order[i]], start.clock);
    RowsFiredNext(start.rows, s.rows, tick, s.clock, order, i, dt, start.clock);
    FireHead(s, shardId, tick, read[i..], dt);
    ExecAppend(start, trace, FireSteps(dt));
    assert NewMessages(start.rows, tick, order[..i + 1])
        == NewMessages(start.rows, tick, order[..i]) + [MessageFor(d, tick)];
    assert |NewMessages(start.rows, tick, order[..i])| == i;
    var n := |start.messages|;
    assert seq(i + 1, k => n + k) == seq(i, k => n + k) + [n + i];
  }

  lemma RowsFiredNext(
    before: map<RowId, Row>, rows: map<RowId, Row>, tick: int, clock: int,
    order: seq<RowId>, i: nat, dt: nat, start: int)
    requires i < |order| && 0 <= tick <= clock
    requires forall j, k | 0 <= j < k < |order| :: order[j] != order[k]
    requires RowsFired(before, rows, tick, clock, order[..i])
    requires order[i] in before && RowOk(before[order[i]], start)
    ensures var d := Due(order[i], before[order[i]]);
      && Matches(rows, d) && ComputeNextRunAt(d.row.sched, clock + dt).Ok?
      && var next := ComputeNextRunAt(d.row.sched, clock + dt).value;
      RowsFired(before, UpdateMany(rows, d, next, tick), tick, clock + dt, order[..i + 1])
  {
    hide IsOccurrence, ComputeNextRunAt, NextRun;
    var d := Due(order[i], before[order[i]]);
    assert order[i] !in order[..i];
    assert order[..i + 1] == order[..i] + [order[i]];
    FirstAfter(d.row.sched, tick, clock + dt);
    forall id | id in before && id in order[..i]
      ensures NextRun(before[id].sched, clock) <= NextRun(before[id].sched, clock + dt)
    {
      NextRunMonotone(before[id].sched, clock, clock + dt);
    }
  }

  lemma FirstAfter(sched: Schedule, tick: int, now: int)
    requires sched.Valid() && 0 <= tick <= now
    ensures ComputeNextRunAt(sched, now) == Ok(NextRun(sched, now))
    ensures NextRun(sched, tick) <= NextRun(sched, now) && IsOccurrence(sched, NextRun(sched, now))
  {
    hide IsOccurrence, ComputeNextRunAt;
    NextRunIsLeast(sched, now);
    NextRunMonotone(sched, tick, now);
  }

  /** When all due rows have fired, none is due. */
  lemma NoneLeft(before: map<RowId, Row>, rows: map<RowId, Row>, now: int, end: int, order: seq<RowId>,
                 shardId: int, totalShards: int)
    requires RowsFired(before, rows, now, end, order) && now >= 0
    requires Lists(order, DueIds(before, now, shardId, totalShards))
    ensures DueIds(rows, now, shardId, totalShards) == {}
  {
    hide IsOccurrence, NextRun;
    forall id | id in rows ensures id !in DueIds(rows, now, shardId, totalShards) {
      if id in order {
        NextRunIsLeast(before[id].sched, now);
      } else {
        assert id !in DueIds(before, now, shardId, totalShards);
      }
    }
  }

  lemma FiringStarts(start: State, shardId: int, dt: nat, lag: nat, order: seq<RowId>)
    requires Inv(start) && start.toggles == multiset{}
    requires start.workers == [Worker(shardId, Idle)] && lag <= dt
    requires Lists(order, DueIds(start.rows, start.clock + dt - lag, shardId, start.totalShards))
    ensures Firing(start, [Advance(dt), Snapshot(0, lag, order)], shardId, start.clock + dt - lag, order, 0,
                   start.(clock := start.clock + dt,
                          workers := [Worker(shardId, Looping(start.clock + dt - lag, ReadRows(start.rows, order)))]))
  {
    hide IsOccurrence, NextRun, Exec;
    SnapshotSteps(start, shardId, dt, lag, order);
    assert ReadRows(start.rows, order)[0..] == ReadRows(start.rows, order);
    assert order[..0] == [];
  }

  /** What a tick that ran alone did. */
  ghost predicate TickDone(start: State, trace: seq<Step>, shardId: int, now: int, order: seq<RowId>, end: State) {
    && end == Exec(start, trace) && Inv(end)
    && DueIds(end.rows, now, shardId, end.totalShards) == {}
    && (forall k | 0 <= k < |order| :: order[k] in start.rows)
    && RowsFired(start.rows, end.rows, now, end.clock, order)
    && end.messages == start.messages + NewMessages(start.rows, now, order)
    && end.jobs == start.jobs + multiset(seq(|order|, k => |start.messages| + k))
  }

  // The same, field by field.

  /** `due` lists each enabled row of the shard whose next run has come, once. */
  ghost predicate DueReport(shardId: int, totalShards: int, now: int, due: seq<RowId>, before: map<RowId, Row>) {
    && (forall id :: id in due <==>
          id in before && before[id].isEnabled && before[id].nextRunAt <= now
          && ShardOf(before[id].deviceId, totalShards) == shardId)
    && (forall j, k | 0 <= j < k < |due| :: due[j] != due[k])
  }

  /** Each due row has one new message, with what the row carries, and that is in the queue once. */
  ghost predicate MessageReport(now: int, due: seq<RowId>, before: map<RowId, Row>,
                                sent: seq<ScheduledFiring>, messages: seq<ScheduledFiring>,
                                queued: multiset<nat>, jobs: multiset<nat>)
  {
    && |messages| == |sent| + |due| && sent <= messages
    && (forall k | 0 <= k < |due| && due[k] in before ::
          var m, r := messages[|sent| + k], before[due[k]];
          && m.deviceId == r.deviceId && m.payload == r.payload && m.sched == r.sched
          && m.queuedAt == now && m.scheduleId == due[k] && m.occurrence == r.nextRunAt)
    && (forall m: nat :: jobs[m] == queued[m] + if |sent| <= m < |sent| + |due| then 1 else 0)
  }

  /** Each due row has moved to a run after `now`, and not beyond its first after the end of the tick;
      every other row is as before, and no enabled row of the shard is due at `now`. */
  ghost predicate RowReport(shardId: int, totalShards: int, now: int, end: int, due: seq<RowId>,
                            before: map<RowId, Row>, after: map<RowId, Row>)
  {
    && after.Keys == before.Keys
    && (forall id | id in before && id !in due :: after[id] == before[id])
    && (forall id | id in before && id in due ::
          var r := after[id];
          && r == before[id].(nextRunAt := r.nextRunAt, lastRunAt := Some(now))
          && now < r.nextRunAt && IsOccurrence(r.sched, r.nextRunAt)
          && (forall t | end < t < r.nextRunAt :: !IsOccurrence(r.sched, t)))
    && (forall id | id in after && after[id].isEnabled && ShardOf(after[id].deviceId, totalShards) == shardId ::
          after[id].nextRunAt > now)
  }

  lemma {:induction false} NewJobs(n: nat, count: nat, m: nat)
    ensures multiset(seq(count, k => n + k))[m] == if n <= m < n + count then 1 else 0
    decreases count
  {
    if count > 0 {
      NewJobs(n, count - 1, m);
      assert seq(count, k => n + k) == seq(count - 1, k => n + k) + [n + count - 1];
    }
  }

  lemma MovedOn(before: Row, after: Row, now: int, end: int)
    requires before.sched.Valid() && 0 <= now <= end
    requires IsOccurrence(before.sched, after.nextRunAt)
    requires NextRun(before.sched, now) <= after.nextRunAt <= NextRun(before.sched, end)
    ensures now < after.nextRunAt
    ensures forall t | end < t < after.nextRunAt :: !IsOccurrence(before.sched, t)
  {
    hide IsOccurrence, NextRun;
    NextRunIsLeast(before.sched, now);
    NextRunIsLeast(before.sched, end);
  }

  lemma MovedRows(before: map<RowId, Row>, after: map<RowId, Row>, now: int, end: int, due: seq<RowId>)
    requires RowsFired(before, after, now, end, due) && 0 <= now <= end
    ensures forall id | id in before && id in due ::
      var r := after[id];
      && r == before[id].(nextRunAt := r.nextRunAt, lastRunAt := Some(now))
      && now < r.nextRunAt && IsOccurrence(r.sched, r.nextRunAt)
      && (forall t | end < t < r.nextRunAt :: !IsOccurrence(r.sched, t))
  {
    hide IsOccurrence, NextRun;
    forall id | id in before && id in due
      ensures now < after[id].nextRunAt && after[id].sched == before[id].sched
      ensures forall t | end < t < after[id].nextRunAt :: !IsOccurrence(after[id].sched, t)
    {
      MovedOn(before[id], after[id], now, end);
    }
  }

  lemma DueIsReported(shardId: int, totalShards: int, now: int, due: seq<RowId>, before: map<RowId, Row>)
    requires Lists(due, DueIds(before, now, shardId, totalShards))
    ensures DueReport(shardId, totalShards, now, due, before)
  {
    hide ShardOf;
  }

  lemma MessagesAreReported(now: int, due: seq<RowId>, before: map<RowId, Row>,
                            sent: seq<ScheduledFiring>, queued: multiset<nat>)
    requires forall k | 0 <= k < |due| :: due[k] in before
    ensures MessageReport(now, due, before, sent, sent + NewMessages(before, now, due),
                          queued, queued + multiset(seq(|due|, k => |sent| + k)))
  {
    var more := multiset(seq(|due|, k => |sent| + k));
    forall m: nat ensures more[m] == if |sent| <= m < |sent| + |due| then 1 else 0 {
      NewJobs(|sent|, |due|, m);
    }
  }

  lemma RowsAreReported(shardId: int, totalShards: int, now: int, end: int, due: seq<RowId>,
                        before: map<RowId, Row>, after: map<RowId, Row>)
    requires RowsFired(before, after, now, end, due) && 0 <= now <= end
    requires DueIds(after, now, shardId, totalShards) == {}
    ensures RowReport(shardId, totalShards, now, end, due, before, after)
  {
    MovedRows(before, after, now, end, due);
    hide IsOccurrence, NextRun, ShardOf;
    forall id | id in after && after[id].isEnabled && ShardOf(after[id].deviceId, totalShards) == shardId
      ensures after[id].nextRunAt > now
    {
      assert id !in DueIds(after, now, shardId, totalShards);
    }
  }

  lemma TickIsReported(start: State, trace: seq<Step>, shardId: int, now: int, due: seq<RowId>, end: State)
    requires TickDone(start, trace, shardId, now, due, end) && 0 <= now <= end.clock
    requires end.totalShards == start.totalShards
    requires Lists(due, DueIds(start.rows, now, shardId, start.totalShards))
    ensures end == Exec(start, trace) && Inv(end)
    ensures DueReport(shardId, start.totalShards, now, due, start.rows)
    ensures MessageReport(now, due, start.rows, start.messages, end.messages, start.jobs, end.jobs)
    ensures RowReport(shardId, start.totalShards, now, end.clock, due, start.rows, end.rows)
  {
    hide Exec, Inv, DueIds, Lists, RowsFired, NewMessages, DueReport, MessageReport, RowReport;
    DueIsReported(shardId, start.totalShards, now, due, start.rows);
    MessagesAreReported(now, due, start.rows, start.messages, start.jobs);
    RowsAreReported(shardId, start.totalShards, now, end.clock, due, start.rows, end.rows);
  }

  lemma FiringEnds(start: State, trace: seq<Step>, shardId: int, tick: int, order: seq<RowId>, s: State)
    requires Inv(start) && Firing(start, trace, shardId, tick, order, |order|, s)
    requires Lists(order, DueIds(start.rows, tick, shardId, start.totalShards))
    ensures TickDone(start, trace + [Compute(0)], shardId, tick, order, s.(workers := [Worker(shardId, Idle)]))
  {
    hide IsOccurrence, NextRun, ComputeNextRunAt, Exec, Inv, RowsFired, NoUndercut;
    assert order[..|order|] == order;
    NoneLeft(start.rows, s.rows, tick, s.clock, order, shardId, s.totalShards);
    ExecOne(start, trace, Compute(0));
    QuietRun(start, trace + [Compute(0)]);
    RunKeepsInv(start, trace + [Compute(0)]);
    assert Apply(s, Compute(0)).workers == [Worker(shardId, Idle)];
  }

  lemma ClockAndIds(s: State)
    requires Inv(s)
    ensures s.clock >= 0 && s.nextId !in s.rows
  {
    hide RowOk, TogglesOk, WorkersOk, MessagesOk, OneJobPerMessage, Spent, OncePerOccurrence;
  }

  /** The calls of one toggle, in turn. */
  function ToggleSteps(s: State, id: RowId, isEnabled: bool): seq<Step> {
    if id !in s.rows then [ToggleRead(id, isEnabled)]
    else
      var row := s.rows[id];
      var next := if isEnabled then ComputeNextRunAt(row.sched, s.clock) else Ok(row.nextRunAt);
      var value := if next.Ok? then next.value else 0;
      [ToggleRead(id, isEnabled)]
      + (if isEnabled then [ToggleCompute(Asked(id, row.sched))] else [])
      + [ToggleWrite(Ready(id, isEnabled, value))]
  }

  lemma {:induction false} StepsKeepInv(s: State, steps: seq<Step>)
    requires Inv(s) && forall k | 0 <= k < |steps| :: !IsWorkerStep(steps[k])
    ensures Inv(Exec(s, steps))
    decreases |steps|
  {
    hide Inv, Apply;
    if steps != [] {
      StepKeepsInv(s, steps[0]);
      StepsKeepInv(Apply(s, steps[0]), steps[1..]);
    }
  }

  lemma RowFacts(s: State, id: RowId)
    requires Inv(s) && id in s.rows
    ensures s.clock >= 0 && RowOk(s.rows[id], s.clock)
  {
    hide IsOccurrence, NextRun;
  }

  lemma EnablingRuns(s: State, id: RowId, next: int)
    requires s.toggles == multiset{} && id in s.rows && ComputeNextRunAt(s.rows[id].sched, s.clock) == Ok(next)
    ensures Exec(s, ToggleSteps(s, id, true))
         == s.(rows := s.rows[id := s.rows[id].(isEnabled := true, nextRunAt := next)])
  {
    hide Exec, ComputeNextRunAt;
    var asked := Asked(id, s.rows[id].sched);
    ExecTwo(s, ToggleRead(id, true), ToggleCompute(asked));
    var t := Exec(s, [ToggleRead(id, true), ToggleCompute(asked)]);
    assert t == s.(toggles := multiset{Ready(id, true, next)});
    ExecOne(s, [ToggleRead(id, true), ToggleCompute(asked)], ToggleWrite(Ready(id, true, next)));
    assert ToggleSteps(s, id, true)
        == [ToggleRead(id, true), ToggleCompute(asked)] + [ToggleWrite(Ready(id, true, next))];
  }

  lemma DisablingRuns(s: State, id: RowId)
    requires s.toggles == multiset{} && id in s.rows
    ensures Exec(s, ToggleSteps(s, id, false)) == s.(rows := s.rows[id := s.rows[id].(isEnabled := false)])
  {
    hide Exec, ComputeNextRunAt;
    var ready := Ready(id, false, s.rows[id].nextRunAt);
    ExecTwo(s, ToggleRead(id, false), ToggleWrite(ready));
    assert ToggleSteps(s, id, false) == [ToggleRead(id, false), ToggleWrite(ready)];
  }

  lemma ToggleKeepsInv(s: State, id: RowId, isEnabled: bool)
    requires Inv(s)
    ensures Inv(Exec(s, ToggleSteps(s, id, isEnabled)))
  {
    hide Inv, Exec, ComputeNextRunAt;
    StepsKeepInv(s, ToggleSteps(s, id, isEnabled));
  }

  /** The calls of a toggle with nothing in between: one row changes, and no toggle is left. */
  lemma ToggleRuns(s: State, id: RowId, isEnabled: bool)
    requires Inv(s) && s.toggles == multiset{}
    ensures var t := Exec(s, ToggleSteps(s, id, isEnabled));
      if id !in s.rows then t == s
         else
           var row := s.rows[id];
           var next := if isEnabled then ComputeNextRunAt(row.sched, s.clock) else Ok(row.nextRunAt);
           && next.Ok? && row.nextRunAt <= next.value
           && (isEnabled ==> IsLeastAfter(row.sched, s.clock, next.value))
           && t == s.(rows := s.rows[id := row.(isEnabled := isEnabled, nextRunAt := next.value)])
  {
    hide Inv, Exec, IsOccurrence, IsLeastAfter, ComputeNextRunAt, RowOk;
    if id !in s.rows {
      ExecSingle(s, ToggleRead(id, isEnabled));
    } else {
      RowFacts(s, id);
      ToggleValue(s.rows[id], s.clock);
      if isEnabled {
        EnablingRuns(s, id, ComputeNextRunAt(s.rows[id].sched, s.clock).value);
      } else {
        DisablingRuns(s, id);
      }
    }
  }

  lemma ToggleValue(row: Row, now: int)
    requires RowOk(row, now) && now >= 0
    ensures ComputeNextRunAt(row.sched, now).Ok?
    ensures row.nextRunAt <= ComputeNextRunAt(row.sched, now).value
    ensures IsLeastAfter(row.sched, now, ComputeNextRunAt(row.sched, now).value)
  {
    hide IsOccurrence, ComputeNextRunAt;
    NextRunIsLeast(row.sched, now);
  }

  lemma FirstRun(sched: Schedule, now: int)
    requires sched.Valid() && now >= 0
    ensures ComputeNextRunAt(sched, now).Ok? && IsLeastAfter(sched, now, ComputeNextRunAt(sched, now).value)
  {
    hide IsOccurrence, ComputeNextRunAt;
    NextRunIsLeast(sched, now);
  }

  /** The scheduled-messages processor of one worker, running with no other worker in between.
      Its fields are the tables, the queue and the clock. */
  class ScheduledMessagesProcessor {
    const shardId: int
    const totalShards: int
    var clock: int
    var nextId: nat
    var rows: map<RowId, Row>
    var messages: seq<ScheduledFiring>
    var jobs: multiset<nat>

    constructor (shardId: int, totalShards: int, now: int)
      requires now >= 0
      ensures this.shardId == shardId && this.totalShards == totalShards && clock == now
      ensures Init(Abs(Idle))
    {
      this.shardId, this.totalShards, clock := shardId, totalShards, now;
      nextId, rows, messages, jobs := 0, map[], [], multiset{};
      new;
      assert Abs(Idle).workers[0].phase == Idle;
    }

    /** The state of the protocol, with this worker alone, at a phase of its loop. */
    ghost function Abs(p: Phase): State
      reads this
    {
      State(clock, totalShards, nextId, rows, multiset{}, messages, jobs, [Worker(shardId, p)])
    }

    /** Time passes, and the clock is read. */
    method ReadClock(dt: nat) returns (now: int)
      modifies this`clock
      ensures now == clock == old(clock) + dt
    {
      clock := clock + dt;
      now := clock;
    }

    method FindMany(now: int) returns (all: seq<RowId>)
      ensures Lists(all, set id | id in rows && rows[id].isEnabled && rows[id].nextRunAt <= now)
    {
      all := [];
      var due := set id | id in rows && rows[id].isEnabled && rows[id].nextRunAt <= now;
      var rest := due;
      while rest != {}
        invariant rest <= due
        invariant Lists(all, due - rest)
      {
        var id :| id in rest;
        all, rest := all + [id], rest - {id};
      }
      assert due - {} == due;
    }

    method FilterShard(all: seq<RowId>, now: int) returns (mine: seq<RowId>)
      requires Lists(all, set id | id in rows && rows[id].isEnabled && rows[id].nextRunAt <= now)
      ensures Lists(mine, DueIds(rows, now, shardId, totalShards))
    {
      mine := [];
      for i := 0 to |all|
        invariant forall k | 0 <= k < |mine| ::
          mine[k] in DueIds(rows, now, shardId, totalShards) && mine[k] in all[..i]
        invariant forall id | id in all[..i] && ShardOf(rows[id].deviceId, totalShards) == shardId :: id in mine
        invariant forall j, k | 0 <= j < k < |mine| :: mine[j] != mine[k]
      {
        var shard := ShardForDevice(rows[all[i]].deviceId, totalShards);
        if shard == shardId {
          mine := mine + [all[i]];
        }
      }
      assert all[..|all|] == all;
    }

    /** `create`: an unknown repeat type is an error, and a valid schedule first runs at its
        first occurrence after now. */
    method Create(deviceId: DeviceId, payload: string, sched: Schedule, isEnabled: bool) returns (r: Result<RowId>)
      requires sched.Valid() || sched.repeatType.Unknown?
      requires Inv(Abs(Idle))
      modifies this
      ensures Abs(Idle) == Apply(old(Abs(Idle)), Step.Create(deviceId, payload, sched, isEnabled, 0)) && Inv(Abs(Idle))
      ensures r.Ok? <==> sched.Valid()
      ensures r.Ok? ==>
        && r.value !in old(rows) && r.value in rows
        && rows == old(rows)[r.value := Row(deviceId, payload, sched, isEnabled, rows[r.value].nextRunAt, None)]
        && IsLeastAfter(sched, clock, rows[r.value].nextRunAt)
      ensures r.Err? ==> rows == old(rows)
      ensures messages == old(messages) && jobs == old(jobs)
    {
      hide ComputeNextRunAt, IsOccurrence, NextRun, Inv;
      StepKeepsInv(Abs(Idle), Step.Create(deviceId, payload, sched, isEnabled, 0));
      ClockAndIds(Abs(Idle));
      ErrorIffUnknown(sched, clock);
      var next := ComputeNextRunAt(sched, clock);
      if next.Err? {
        return Err(next.error);
      }
      FirstRun(sched, clock);
      r := Ok(nextId);
      rows := rows[nextId := Row(deviceId, payload, sched, isEnabled, next.value, None)];
      nextId := nextId + 1;
    }

    /** `toggle`, with nobody else acting between its read and its write: enabling computes the next
        run from now, disabling writes back the one that was read. */
    method Toggle(id: RowId, isEnabled: bool) returns (r: Result<Row>)
      requires Inv(Abs(Idle))
      modifies this`rows
      ensures Inv(Abs(Idle)) && (r.Ok? <==> id in old(rows))
      ensures Abs(Idle) == Exec(old(Abs(Idle)), ToggleSteps(old(Abs(Idle)), id, isEnabled))
      ensures rows == if r.Ok? then old(rows)[id := r.value] else old(rows)
      ensures r.Ok? ==>
        && r.value == old(rows)[id].(isEnabled := isEnabled, nextRunAt := r.value.nextRunAt)
        && old(rows)[id].nextRunAt <= r.value.nextRunAt
        && (if isEnabled then IsLeastAfter(r.value.sched, clock, r.value.nextRunAt)
            else r.value.nextRunAt == old(rows)[id].nextRunAt)
    {
      hide ComputeNextRunAt, IsOccurrence, NextRun, Inv, Exec, ToggleSteps, IsLeastAfter;
      ToggleKeepsInv(Abs(Idle), id, isEnabled);
      ToggleRuns(Abs(Idle), id, isEnabled);
      if id !in rows {
        return Err("Scheduled message not found");
      }
      var row := rows[id];
      var next := if isEnabled then ComputeNextRunAt(row.sched, clock) else Ok(row.nextRunAt);
      r := Ok(row.(isEnabled := isEnabled, nextRunAt := next.value));
      rows := rows[id := r.value];
    }

    method Remove(id: RowId) returns (r: Result<bool>)
      requires Inv(Abs(Idle))
      modifies this`rows
      ensures Abs(Idle) == Apply(old(Abs(Idle)), Step.Remove(id)) && Inv(Abs(Idle))
      ensures (r.Ok? <==> id in old(rows)) && (r.Ok? ==> r.value) && rows == old(rows) - {id}
    {
      StepKeepsInv(Abs(Idle), Step.Remove(id));
      hide Inv;
      if id !in rows {
        assert rows - {id} == rows;
        return Err("Scheduled message not found");
      }
      rows := rows - {id};
      r := Ok(true);
    }

    /** The loop over the due rows, as they were read. */
    method FireAll(read: seq<Due>, tick: int, elapsed: nat -> nat,
                   ghost start: State, ghost steps: seq<Step>, ghost order: seq<RowId>)
      returns (ghost trace: seq<Step>)
      requires Inv(start) && Firing(start, steps, shardId, tick, order, 0, Abs(Looping(tick, read)))
      requires read == ReadRows(start.rows, order) && tick <= clock
      requires forall j, k | 0 <= j < k < |order| :: order[j] != order[k]
      modifies this`clock, this`rows, this`messages, this`jobs
      ensures tick <= clock && Firing(start, trace, shardId, tick, order, |order|, Abs(Looping(tick, read[|read|..])))
    {
      hide IsOccurrence, NextRun, ComputeNextRunAt, Inv, Exec, Firing, UpdateMany;
      trace := steps;
      assert read[0..] == read;
      for i := 0 to |read|
        invariant tick <= clock
        invariant Firing(start, trace, shardId, tick, order, i, Abs(Looping(tick, read[i..])))
      {
        var sm := read[i];
        ghost var s := Abs(Looping(tick, read[i..]));
        var t := ReadClock(elapsed(i));
        FireNext(start, trace, shardId, tick, order, i, s, t - s.clock);
        trace := trace + FireSteps(t - s.clock);
        var next := ComputeNextRunAt(sm.row.sched, t);
        if Matches(rows, sm) {
          rows := UpdateMany(rows, sm, next.value, tick);
          messages := messages + [MessageFor(sm, tick)];
          jobs := jobs + multiset{|messages| - 1};
        }
      }
    }

    /** One tick. Whatever the number of runs a row has missed, it fires once; afterwards no
        enabled row of the shard is due at the time of the tick. The times that pass before each reading
        of the clock are given: at the start, at the query, and at each row. */
    method Process(jobShard: Option<int>, atStart: nat, atQuery: nat, ofRows: nat -> nat)
      returns (ghost now: int, ghost due: seq<RowId>, ghost trace: seq<Step>)
      requires Inv(Abs(Idle))
      modifies this
      ensures old(clock) <= now <= clock
      ensures if jobShard.Some? && jobShard.value != shardId
        then Abs(Idle) == old(Abs(Idle))
        else
          && now == old(clock) + atStart
          && Abs(Idle) == Exec(old(Abs(Idle)), trace) && Inv(Abs(Idle))
          && DueReport(shardId, totalShards, now, due, old(rows))
          && MessageReport(now, due, old(rows), old(messages), messages, old(jobs), jobs)
          && RowReport(shardId, totalShards, now, clock, due, old(rows), rows)
    {
      hide IsOccurrence, NextRun, ComputeNextRunAt, Inv, Exec, Firing, TickDone, Lists, RowsFired, DueIds, UpdateMany;
      hide DueReport, MessageReport, RowReport;
      ClockAndIds(Abs(Idle));
      ghost var start := Abs(Idle);
      now, due, trace := clock, [], [];
      if jobShard.Some? && jobShard.value != shardId {
        return;
      }
      var tick := ReadClock(atStart);
      now := tick;
      var asked := ReadClock(atQuery);
      var all := FindMany(tick);
      var order := FilterShard(all, tick);
      due := order;
      trace := [Advance(asked - start.clock), Snapshot(0, asked - tick, order)];
      FiringStarts(start, shardId, asked - start.clock, asked - tick, order);
      ListsInRows(order, rows, tick, shardId, totalShards);
      var read := ReadRows(rows, order);
      trace := FireAll(read, tick, ofRows, start, trace, order);
      FiringEnds(start, trace, shardId, tick, order, Abs(Looping(tick, read[|read|..])));
      trace := trace + [Compute(0)];
      TickIsReported(start, trace, shardId, tick, order, Abs(Idle));
    }
  }

  lemma ListsInRows(order: seq<RowId>, rows: map<RowId, Row>, now: int, shardId: int, totalShards: int)
    requires Lists(order, DueIds(rows, now, shardId, totalShards))
    ensures forall k | 0 <= k < |order| :: order[k] in rows
    ensures forall j, k | 0 <= j < k < |order| :: order[j] != order[k]
  {
  }
}
