/** What the scheduler does not guard: when a disabled row still fires, and what a tick between the
    read and the write of `toggle` does. */
module ScheduledRows {
  import opened Common
  import opened Schedule
  import opened Shard
  import opened Scheduler
  import opened ScheduledMessages

  // ---------------------------------------------------------------- disabled rows

  /** The step enables a row. */
  predicate Enables(step: Step, id: RowId) {
    step.ToggleWrite? && step.p.Ready? && step.p.isEnabled && step.p.id == id
  }

  predicate NoEnabling(steps: seq<Step>, id: RowId) {
    forall k | 0 <= k < |steps| :: !Enables(steps[k], id)
  }

  /** A message for the row was created on the way from `s` to `t`. */
  ghost predicate FiredBetween(s: State, t: State, id: RowId) {
    exists i :: |s.messages| <= i < |t.messages| && t.messages[i].scheduleId == id
  }

  /** The rows of its snapshot a worker has not come to the end of its claim for. */
  function Unprocessed(p: Phase): seq<Due> {
    match p
    case Idle => []
    case Looping(_, due) => due
    case Computed(_, due, _) => due
    case Claimed(_, due) => if due == [] then [] else due[1..]
    case Created(_, due, _) => if due == [] then [] else due[1..]
  }

  /** The conditional update for this entry matches, or will once a disabling toggle under way has
      written back the next run it read. */
  predicate WillMatch(s: State, id: RowId, d: Due) {
    && d.id == id && id in s.rows
    && (s.rows[id].nextRunAt == d.row.nextRunAt || Ready(id, false, d.row.nextRunAt) in s.toggles)
  }

  predicate HasClaimed(p: Phase, id: RowId) {
    p.Claimed? && p.due != [] && p.due[0].id == id
  }

  predicate HasMatch(s: State, id: RowId, p: Phase) {
    exists i :: 0 <= i < |Unprocessed(p)| && WillMatch(s, id, Unprocessed(p)[i])
  }

  /** Some worker has claimed the row, or holds an unprocessed entry for it that will match. */
  predicate CanFire(s: State, id: RowId) {
    exists w :: 0 <= w < |s.workers| && (HasClaimed(s.workers[w].phase, id) || HasMatch(s, id, s.workers[w].phase))
  }

  predicate Quiet(s: State, id: RowId) {
    id < s.nextId && (id in s.rows ==> !s.rows[id].isEnabled) && !CanFire(s, id)
  }

  lemma NoMatch(s: State, id: RowId, w: nat)
    requires Quiet(s, id) && w < |s.workers|
    ensures !HasClaimed(s.workers[w].phase, id) && !HasMatch(s, id, s.workers[w].phase)
  {
    hide HasMatch, HasClaimed;
  }

  lemma MatchMoves(s: State, t: State, id: RowId, p: Phase, q: Phase)
    requires HasMatch(t, id, q)
    requires forall d | d in Unprocessed(q) && d.id == id :: d in Unprocessed(p)
    requires forall d | WillMatch(t, id, d) :: WillMatch(s, id, d)
    ensures HasMatch(s, id, p)
  {
    hide Unprocessed;
    var i :| 0 <= i < |Unprocessed(q)| && WillMatch(t, id, Unprocessed(q)[i]);
    var d := Unprocessed(q)[i];
    assert d in Unprocessed(p) by { assert d in Unprocessed(q) && d.id == id; }
    var j :| 0 <= j < |Unprocessed(p)| && Unprocessed(p)[j] == d;
    assert WillMatch(s, id, Unprocessed(p)[j]);
  }

  /** Nothing a user does without enabling the row makes an old entry match. */
  lemma UserMatches(s: State, id: RowId, step: Step, d: Due)
    requires id < s.nextId && !IsWorkerStep(step) && !Enables(step, id)
    requires WillMatch(ApplyUser(s, step), id, d)
    ensures WillMatch(s, id, d)
  {
    hide ComputeNextRunAt;
  }

  lemma UserKeepsDisabled(s: State, id: RowId, step: Step)
    requires id < s.nextId && (id in s.rows ==> !s.rows[id].isEnabled)
    requires !IsWorkerStep(step) && !Enables(step, id)
    ensures var t := ApplyUser(s, step);
      id < t.nextId && (id in t.rows ==> !t.rows[id].isEnabled) && t.workers == s.workers
  {
    hide ComputeNextRunAt;
  }

  lemma UserStaysQuiet(s: State, id: RowId, step: Step)
    requires Quiet(s, id) && !IsWorkerStep(step) && !Enables(step, id)
    ensures Quiet(ApplyUser(s, step), id)
  {
    hide ApplyUser, WillMatch, HasMatch, HasClaimed, Enables;
    var t := ApplyUser(s, step);
    UserKeepsDisabled(s, id, step);
    forall w | 0 <= w < |t.workers|
      ensures !HasClaimed(t.workers[w].phase, id) && !HasMatch(t, id, t.workers[w].phase)
    {
      forall d | WillMatch(t, id, d) ensures WillMatch(s, id, d) {
        UserMatches(s, id, step, d);
      }
      if HasMatch(t, id, t.workers[w].phase) {
        MatchMoves(s, t, id, s.workers[w].phase, t.workers[w].phase);
      }
      NoMatch(s, id, w);
    }
  }

  /** Only the phase of worker `w` and rows other than `id` have changed. */
  ghost predicate SameButWorker(s: State, t: State, id: RowId, w: nat) {
    && w < |s.workers| == |t.workers| && t.nextId == s.nextId && t.toggles == s.toggles
    && (id in t.rows <==> id in s.rows) && (id in s.rows ==> t.rows[id] == s.rows[id])
    && forall v | 0 <= v < |s.workers| && v != w :: t.workers[v] == s.workers[v]
  }

  lemma WorkerStaysQuiet(s: State, t: State, id: RowId, w: nat)
    requires Quiet(s, id) && SameButWorker(s, t, id, w)
    requires !HasClaimed(t.workers[w].phase, id)
    requires forall d | d in Unprocessed(t.workers[w].phase) && d.id == id :: d in Unprocessed(s.workers[w].phase)
    ensures Quiet(t, id)
  {
    assert forall d | WillMatch(t, id, d) :: WillMatch(s, id, d);
    hide Unprocessed, HasClaimed, HasMatch, WillMatch;
    forall v | 0 <= v < |t.workers|
      ensures !HasClaimed(t.workers[v].phase, id) && !HasMatch(t, id, t.workers[v].phase)
    {
      if HasMatch(t, id, t.workers[v].phase) {
        MatchMoves(s, t, id, s.workers[v].phase, t.workers[v].phase);
      }
      NoMatch(s, id, v);
    }
  }

  lemma SnapshotStaysQuiet(s: State, id: RowId, w: nat, lag: nat, order: seq<RowId>)
    requires Quiet(s, id)
    ensures Quiet(ApplyWorker(s, Snapshot(w, lag, order)), id)
  {
    hide Quiet, ShardOf;
    var t := ApplyWorker(s, Snapshot(w, lag, order));
    if t != s {
      assert forall i | 0 <= i < |order| :: order[i] != id by { NotDue(s, id, lag, s.workers[w].shardId, order); }
      WorkerStaysQuiet(s, t, id, w);
    }
  }

  lemma NotDue(s: State, id: RowId, lag: nat, shardId: int, order: seq<RowId>)
    requires Quiet(s, id) && Lists(order, DueIds(s.rows, s.clock - lag, shardId, s.totalShards))
    ensures id !in order
  {
  }

  lemma ComputeStaysQuiet(s: State, id: RowId, w: nat)
    requires Quiet(s, id)
    ensures Quiet(ApplyWorker(s, Compute(w)), id)
  {
    hide Quiet, ComputeNextRunAt;
    var t := ApplyWorker(s, Compute(w));
    if t != s {
      WorkerStaysQuiet(s, t, id, w);
    }
  }

  lemma ClaimStaysQuiet(s: State, id: RowId, w: nat)
    requires Quiet(s, id)
    ensures Quiet(ApplyWorker(s, Claim(w)), id)
  {
    var t := ApplyWorker(s, Claim(w));
    if t != s {
      NoMatch(s, id, w);
      hide Quiet;
      var p := s.workers[w].phase;
      assert Unprocessed(p)[0] == p.due[0];
      assert !(Matches(s.rows, p.due[0]) && p.due[0].id == id);
      WorkerStaysQuiet(s, t, id, w);
    }
  }

  /** A quiet row gets no message. */
  lemma CreateStaysQuiet(s: State, id: RowId, w: nat)
    requires Quiet(s, id)
    ensures Quiet(ApplyWorker(s, CreateMessage(w)), id)
    ensures !FiredBetween(s, ApplyWorker(s, CreateMessage(w)), id)
  {
    var t := ApplyWorker(s, CreateMessage(w));
    if t != s {
      NoMatch(s, id, w);
      hide Quiet;
      WorkerStaysQuiet(s, t, id, w);
    }
  }

  lemma EnqueueStaysQuiet(s: State, id: RowId, w: nat)
    requires Quiet(s, id)
    ensures Quiet(ApplyWorker(s, Enqueue(w)), id)
  {
    hide Quiet;
    var t := ApplyWorker(s, Enqueue(w));
    if t != s {
      WorkerStaysQuiet(s, t, id, w);
    }
  }

  lemma StepStaysQuiet(s: State, id: RowId, step: Step)
    requires Quiet(s, id) && !Enables(step, id)
    ensures Quiet(Apply(s, step), id)
    ensures !FiredBetween(s, Apply(s, step), id)
  {
    hide Quiet, Enables, ComputeNextRunAt, Lists, DueIds, Matches;
    match step
    case Snapshot(w, lag, order) => SnapshotStaysQuiet(s, id, w, lag, order);
    case Compute(w) => ComputeStaysQuiet(s, id, w);
    case Claim(w) => ClaimStaysQuiet(s, id, w);
    case CreateMessage(w) => CreateStaysQuiet(s, id, w);
    case Enqueue(w) => EnqueueStaysQuiet(s, id, w);
    case _ => UserStaysQuiet(s, id, step);
  }

  lemma MessagesKept(s: State, step: Step)
    ensures s.messages <= Apply(s, step).messages
  {
    hide ComputeNextRunAt, Lists, DueIds, Matches;
  }

  lemma {:induction false} RunStaysQuiet(s: State, id: RowId, steps: seq<Step>)
    requires Quiet(s, id) && NoEnabling(steps, id)
    ensures s.messages <= Exec(s, steps).messages && !FiredBetween(s, Exec(s, steps), id)
    decreases |steps|
  {
    hide Quiet, Apply, Enables;
    if steps != [] {
      var t, u := Apply(s, steps[0]), Exec(Apply(s, steps[0]), steps[1..]);
      StepStaysQuiet(s, id, steps[0]);
      MessagesKept(s, steps[0]);
      RunStaysQuiet(t, id, steps[1..]);
      forall i | |s.messages| <= i < |u.messages| ensures u.messages[i].scheduleId != id {
        if i < |t.messages| { assert u.messages[i] == t.messages[i]; }
      }
    }
  }

  // ---------------------------------------------------------------- the other half

  function Rank(p: Phase): nat {
    if p.Claimed? then 3 else if p.Created? then 2 else if p.Looping? then 1 else 0
  }

  /** The `i`-th unprocessed entry of worker `w` is for the row, with its present next run. */
  predicate EntryAt(s: State, id: RowId, w: nat, i: nat) {
    && id in s.rows && w < |s.workers| && i < |Unprocessed(s.workers[w].phase)|
    && var d := Unprocessed(s.workers[w].phase)[i];
       d.id == id && d.row.nextRunAt == s.rows[id].nextRunAt
  }

  /** The next step of a worker with unprocessed entries. */
  function NextStep(p: Phase, w: nat): Step {
    if p.Claimed? then CreateMessage(w)
    else if p.Created? then Enqueue(w)
    else if p.Looping? then Compute(w)
    else Claim(w)
  }

  lemma ClaimFires(s: State, id: RowId, w: nat)
    requires w < |s.workers| && HasClaimed(s.workers[w].phase, id)
    ensures FiredBetween(s, Apply(s, CreateMessage(w)), id)
  {
    var t := Apply(s, CreateMessage(w));
    assert t.messages[|s.messages|].scheduleId == id;
  }

  /** The entry has come nearer: it is next after fewer steps, or has been claimed. */
  predicate Nearer(s: State, t: State, id: RowId, w: nat, i: nat) {
    && w < |s.workers| && w < |t.workers|
    && (|| HasClaimed(t.workers[w].phase, id)
        || (EntryAt(t, id, w, i) && Rank(t.workers[w].phase) < Rank(s.workers[w].phase))
        || (i > 0 && EntryAt(t, id, w, i - 1)))
  }

  lemma ClaimNearer(s: State, id: RowId, w: nat, i: nat)
    requires EntryAt(s, id, w, i) && s.workers[w].phase.Computed?
    ensures Nearer(s, Apply(s, Claim(w)), id, w, i)
  {
  }

  lemma ComputeNearer(s: State, id: RowId, w: nat, i: nat)
    requires Core(s) && EntryAt(s, id, w, i) && s.workers[w].phase.Looping?
    ensures Nearer(s, Apply(s, Compute(w)), id, w, i)
  {
    hide IsOccurrence, ComputeNextRunAt, OneJobPerMessage, RowOk;
    assert PhaseOk(s, s.workers[w].phase);
    NextRunIsLeast(s.workers[w].phase.due[0].row.sched, s.clock);
  }

  /** A worker's next step claims the row or brings its entry nearer. */
  lemma EntryNearer(s: State, id: RowId, w: nat, i: nat)
    requires Core(s) && EntryAt(s, id, w, i)
    ensures Nearer(s, Apply(s, NextStep(s.workers[w].phase, w)), id, w, i)
  {
    var p := s.workers[w].phase;
    hide Core, EntryAt, Nearer, HasClaimed, Apply;
    assert !p.Idle? && |s.workers| > w by { EntryPhase(s, id, w, i); }
    match p
    case Looping(_, _) => ComputeNearer(s, id, w, i);
    case Computed(_, _, _) => ClaimNearer(s, id, w, i);
    case Claimed(_, _) => CreateNearer(s, id, w, i);
    case Created(_, _, _) => EnqueueNearer(s, id, w, i);
  }

  lemma EntryPhase(s: State, id: RowId, w: nat, i: nat)
    requires EntryAt(s, id, w, i)
    ensures w < |s.workers| && !s.workers[w].phase.Idle?
  {
  }

  lemma CreateNearer(s: State, id: RowId, w: nat, i: nat)
    requires EntryAt(s, id, w, i) && s.workers[w].phase.Claimed?
    ensures Nearer(s, Apply(s, CreateMessage(w)), id, w, i)
  {
  }

  lemma EnqueueNearer(s: State, id: RowId, w: nat, i: nat)
    requires EntryAt(s, id, w, i) && s.workers[w].phase.Created?
    ensures Nearer(s, Apply(s, Enqueue(w)), id, w, i)
  {
  }

  lemma ExecCons(s: State, step: Step, rest: seq<Step>)
    ensures Exec(s, [step] + rest) == Exec(Apply(s, step), rest)
  {
    hide Apply;
    assert ([step] + rest)[1..] == rest;
  }

  lemma ConsFires(s: State, id: RowId, step: Step, rest: seq<Step>)
    requires !Enables(step, id) && NoEnabling(rest, id)
    requires FiredBetween(Apply(s, step), Exec(Apply(s, step), rest), id)
    ensures NoEnabling([step] + rest, id) && FiredBetween(s, Exec(s, [step] + rest), id)
  {
    hide Apply, Enables, Exec;
    ExecCons(s, step, rest);
    MessagesKept(s, step);
  }

  lemma ClaimedFires(s: State, id: RowId, w: nat)
    requires w < |s.workers| && HasClaimed(s.workers[w].phase, id)
    ensures NoEnabling([CreateMessage(w)], id) && FiredBetween(s, Exec(s, [CreateMessage(w)]), id)
  {
    hide Apply, FiredBetween, HasClaimed;
    ClaimFires(s, id, w);
    ExecSingle(s, CreateMessage(w));
  }

  lemma {:induction false} EntryFires(s: State, id: RowId, w: nat, i: nat) returns (steps: seq<Step>)
    requires Core(s) && EntryAt(s, id, w, i)
    ensures NoEnabling(steps, id) && FiredBetween(s, Exec(s, steps), id)
    decreases i, Rank(s.workers[w].phase)
  {
    hide Core, Apply, NextStep, FiredBetween, HasClaimed, Rank, NoEnabling, Unprocessed;
    var p := s.workers[w].phase;
    var step := NextStep(p, w);
    var t := Apply(s, step);
    EntryNearer(s, id, w, i);
    if HasClaimed(p, id) {
      steps := [CreateMessage(w)];
      ClaimedFires(s, id, w);
    } else {
      StepKeepsCore(s, step);
      NextEnablesNothing(p, w, id);
      if w < |t.workers| && HasClaimed(t.workers[w].phase, id) {
        steps := [CreateMessage(w)];
        ClaimedFires(t, id, w);
      } else if EntryAt(t, id, w, i) && Rank(t.workers[w].phase) < Rank(p) {
        steps := EntryFires(t, id, w, i);
      } else {
        steps := EntryFires(t, id, w, i - 1);
      }
      ConsFires(s, id, step, steps);
      steps := [step] + steps;
    }
  }

  lemma NextEnablesNothing(p: Phase, w: nat, id: RowId)
    ensures !Enables(NextStep(p, w), id)
  {
  }

  /** A disabling toggle writes back the next run that an entry still matches. */
  lemma WrittenBack(s: State, id: RowId, w: nat, i: nat)
    requires Core(s) && id in s.rows && w < |s.workers| && i < |Unprocessed(s.workers[w].phase)|
    requires WillMatch(s, id, Unprocessed(s.workers[w].phase)[i])
    requires !EntryAt(s, id, w, i)
    ensures EntryAt(Apply(s, ToggleWrite(Ready(id, false, Unprocessed(s.workers[w].phase)[i].row.nextRunAt))), id, w, i)
  {
    hide Core;
  }

  lemma MatchFires(s: State, id: RowId, w: nat, i: nat) returns (steps: seq<Step>)
    requires Core(s) && id in s.rows && w < |s.workers| && i < |Unprocessed(s.workers[w].phase)|
    requires WillMatch(s, id, Unprocessed(s.workers[w].phase)[i])
    ensures NoEnabling(steps, id) && FiredBetween(s, Exec(s, steps), id)
  {
    hide Core, Apply, EntryAt, FiredBetween, NoEnabling;
    if EntryAt(s, id, w, i) {
      steps := EntryFires(s, id, w, i);
    } else {
      WrittenBack(s, id, w, i);
      var write := ToggleWrite(Ready(id, false, Unprocessed(s.workers[w].phase)[i].row.nextRunAt));
      StepKeepsCore(s, write);
      steps := EntryFires(Apply(s, write), id, w, i);
      ConsFires(s, id, write, steps);
      steps := [write] + steps;
    }
  }

  lemma CanFireFires(s: State, id: RowId) returns (steps: seq<Step>)
    requires Core(s) && id in s.rows && CanFire(s, id)
    ensures NoEnabling(steps, id) && FiredBetween(s, Exec(s, steps), id)
  {
    hide Core, WillMatch, HasClaimed, Unprocessed, FiredBetween, NoEnabling;
    var w :| 0 <= w < |s.workers| && (HasClaimed(s.workers[w].phase, id) || HasMatch(s, id, s.workers[w].phase));
    if HasClaimed(s.workers[w].phase, id) {
      steps := [CreateMessage(w)];
      ClaimedFires(s, id, w);
    } else {
      var i :| 0 <= i < |Unprocessed(s.workers[w].phase)| && WillMatch(s, id, Unprocessed(s.workers[w].phase)[i]);
      steps := MatchFires(s, id, w, i);
    }
  }

  /** Disabling cancels exactly what no worker has claimed or holds a matching entry for: as long as
      a disabled row is not enabled again, some run creates a message for it if and only if a worker
      does. */
  lemma DisabledFiresIff(s: State, id: RowId)
    requires Core(s) && id in s.rows && !s.rows[id].isEnabled
    ensures CanFire(s, id) <==> exists steps :: NoEnabling(steps, id) && FiredBetween(s, Exec(s, steps), id)
  {
    if CanFire(s, id) {
      var steps := CanFireFires(s, id);
    } else {
      hide CanFire, Core, Exec, FiredBetween, NoEnabling;
      assert Quiet(s, id) by { IdKnown(s, id); }
      forall steps | NoEnabling(steps, id) ensures !FiredBetween(s, Exec(s, steps), id) {
        RunStaysQuiet(s, id, steps);
      }
    }
  }

  lemma IdKnown(s: State, id: RowId)
    requires Core(s) && id in s.rows
    ensures id < s.nextId
  {
  }

  /** A row is created, becomes due and is read by worker 0. */
  function ReadLate(s: State, row: Row): seq<Step> {
    var dt := if row.nextRunAt > s.clock then row.nextRunAt - s.clock else 0;
    [Create(row.deviceId, row.payload, row.sched, true, 0), Advance(dt)] + [Snapshot(0, 0, [s.nextId])]
  }

  /** Then it is disabled. */
  function DisableAfter(id: RowId, row: Row): seq<Step> {
    [ToggleRead(id, false), ToggleWrite(Ready(id, false, row.nextRunAt))]
  }

  /** The first row of an empty table. */
  lemma CreateFirst(s: State, deviceId: DeviceId, payload: string, sched: Schedule)
    requires s.rows == map[] && s.clock >= 0 && sched.Valid()
    ensures NextRun(sched, s.clock) > s.clock
    ensures Apply(s, Create(deviceId, payload, sched, true, 0))
         == s.(nextId := s.nextId + 1,
               rows := map[s.nextId := Row(deviceId, payload, sched, true, NextRun(sched, s.clock), None)])
  {
    hide ComputeNextRunAt, IsOccurrence;
    NextRunIsLeast(sched, s.clock);
  }

  /** The state in which worker 0 has read the row. */
  ghost function Reading(s: State, id: RowId, row: Row): State
    requires |s.workers| >= 1
  {
    s.(workers := s.workers[0 := s.workers[0].(phase := Looping(s.clock, [Due(id, row)]))])
  }

  lemma ReadFirst(s: State, id: RowId, row: Row)
    requires s.rows == map[id := row] && row.isEnabled && row.nextRunAt <= s.clock && 0 <= s.clock
    requires |s.workers| >= 1 && s.workers[0] == Worker(ShardOf(row.deviceId, s.totalShards), Idle)
    ensures Apply(s, Snapshot(0, 0, [id])) == Reading(s, id, row)
  {
    hide ShardOf;
    assert DueIds(s.rows, s.clock, s.workers[0].shardId, s.totalShards) == {id};
    assert ReadRows(s.rows, [id]) == [Due(id, row)];
  }

  lemma CreateAndWait(s: State, deviceId: DeviceId, payload: string, sched: Schedule, dt: nat)
    requires s.rows == map[] && s.clock >= 0 && sched.Valid()
    ensures Exec(s, [Create(deviceId, payload, sched, true, 0), Advance(dt)])
         == s.(clock := s.clock + dt, nextId := s.nextId + 1,
               rows := map[s.nextId := Row(deviceId, payload, sched, true, NextRun(sched, s.clock), None)])
  {
    hide Exec, ComputeNextRunAt, NextRun;
    CreateFirst(s, deviceId, payload, sched);
    ExecTwo(s, Create(deviceId, payload, sched, true, 0), Advance(dt));
  }

  /** The table with its first row, when that is due. */
  function RowDue(s: State, row: Row): State {
    s.(clock := row.nextRunAt, nextId := s.nextId + 1, rows := map[s.nextId := row])
  }

  /** The row a `create` in this state makes. */
  predicate IsFirstRow(s: State, row: Row) {
    && row.sched.Valid() && row.isEnabled && row.lastRunAt.None?
    && row.nextRunAt == NextRun(row.sched, s.clock)
  }

  lemma RowReadLate(s: State, row: Row)
    requires s.rows == map[] && s.clock >= 0 && s.clock < row.nextRunAt && IsFirstRow(s, row)
    requires |s.workers| >= 1 && s.workers[0] == Worker(ShardOf(row.deviceId, s.totalShards), Idle)
    ensures Exec(s, ReadLate(s, row)) == Reading(RowDue(s, row), s.nextId, row)
  {
    hide Exec, Apply, ComputeNextRunAt, NextRun, ShardOf, Reading;
    var create, wait := Create(row.deviceId, row.payload, row.sched, true, 0), Advance(row.nextRunAt - s.clock);
    CreateAndWait(s, row.deviceId, row.payload, row.sched, row.nextRunAt - s.clock);
    ReadFirst(RowDue(s, row), s.nextId, row);
    ExecOne(s, [create, wait], Snapshot(0, 0, [s.nextId]));
  }

  /** Disabling a row that worker 0 has read leaves it able to fire. */
  lemma DisableRead(s: State, id: RowId, row: Row)
    requires |s.workers| >= 1 && s.workers[0].phase == Looping(s.clock, [Due(id, row)])
    requires s.rows == map[id := row] && s.toggles == multiset{}
    ensures var t := Exec(s, DisableAfter(id, row));
      id in t.rows && !t.rows[id].isEnabled && CanFire(t, id)
  {
    hide Exec;
    ExecTwo(s, ToggleRead(id, false), ToggleWrite(Ready(id, false, row.nextRunAt)));
    var t := Exec(s, DisableAfter(id, row));
    assert t.workers == s.workers && t.rows == map[id := row.(isEnabled := false)];
    assert WillMatch(t, id, Unprocessed(t.workers[0].phase)[0]);
  }

  /** It happens: from any start, with the owner of any device and any valid schedule, a row that was
      disabled still fires. */
  lemma DisabledRowFires(s: State, row: Row) returns (more: seq<Step>)
    requires Init(s) && IsFirstRow(s, row)
    requires |s.workers| >= 1 && s.workers[0].shardId == ShardOf(row.deviceId, s.totalShards)
    ensures var t, id := Exec(s, ReadLate(s, row) + DisableAfter(s.nextId, row)), s.nextId;
      && id in t.rows && !t.rows[id].isEnabled
      && NoEnabling(more, id) && FiredBetween(t, Exec(t, more), id)
  {
    StartFacts(s);
    CreateFirst(s, row.deviceId, row.payload, row.sched);
    hide Exec, Apply, ComputeNextRunAt, NextRun, ShardOf, Core, Init;
    hide CanFire, NoEnabling, FiredBetween, ReadLate, DisableAfter;
    RowReadLate(s, row);
    DisableRead(Exec(s, ReadLate(s, row)), s.nextId, row);
    ExecAppend(s, ReadLate(s, row), DisableAfter(s.nextId, row));
    StartCore(s, ReadLate(s, row) + DisableAfter(s.nextId, row));
    more := CanFireFires(Exec(s, ReadLate(s, row) + DisableAfter(s.nextId, row)), s.nextId);
  }

  lemma StartCore(s: State, steps: seq<Step>)
    requires Init(s)
    ensures Core(Exec(s, steps))
  {
    hide Exec;
    InitInv(s);
    RunKeepsCore(s, steps);
  }

  // ---------------------------------------------------------------- a tick inside a toggle

  /** A whole tick over a table with one row. */
  function SoleTick(dt: nat, id: RowId): seq<Step> {
    [Advance(dt), Snapshot(0, 0, [id])] + FireSteps(0) + [Compute(0)]
  }

  /** A worker, and the one row of the table, which is its own. */
  predicate SoleRow(s: State, shardId: int, id: RowId, r: Row) {
    && s.workers == [Worker(shardId, Idle)] && s.rows == map[id := r] && s.clock >= 0
    && r.isEnabled && r.sched.Valid() && ShardOf(r.deviceId, s.totalShards) == shardId
  }

  lemma SoleRowRead(s: State, shardId: int, id: RowId, r: Row, dt: nat)
    requires SoleRow(s, shardId, id, r) && r.nextRunAt <= s.clock + dt
    ensures Exec(s, [Advance(dt), Snapshot(0, 0, [id])])
         == s.(clock := s.clock + dt, workers := [Worker(shardId, Looping(s.clock + dt, [Due(id, r)]))])
  {
    hide Exec, ShardOf;
    assert DueIds(s.rows, s.clock + dt, shardId, s.totalShards) == {id};
    assert ReadRows(s.rows, [id]) == [Due(id, r)];
    SnapshotSteps(s, shardId, dt, 0, [id]);
  }

  lemma SoleRowFires(s: State, shardId: int, id: RowId, r: Row, now: int)
    requires s.workers == [Worker(shardId, Looping(now, [Due(id, r)]))] && s.rows == map[id := r]
    requires s.clock == now >= 0 && r.sched.Valid()
    ensures Exec(s, FireSteps(0)) == s.(
      rows := map[id := r.(nextRunAt := NextRun(r.sched, now), lastRunAt := Some(now))],
      messages := s.messages + [MessageFor(Due(id, r), now)],
      jobs := s.jobs + multiset{|s.messages|},
      workers := [Worker(shardId, Looping(now, []))])
  {
    hide ComputeNextRunAt, IsOccurrence, Exec, FireSteps, UpdateMany;
    NextRunIsLeast(r.sched, now);
    UpdateSole(id, r, NextRun(r.sched, now), now);
    assert [Due(id, r)][1..] == [];
    FireHead(s, shardId, now, [Due(id, r)], 0);
  }

  lemma SoleRowTick(s: State, shardId: int, id: RowId, r: Row, dt: nat)
    requires SoleRow(s, shardId, id, r) && r.nextRunAt <= s.clock + dt
    ensures var now := s.clock + dt;
      Exec(s, SoleTick(dt, id)) == s.(
        clock := now,
        rows := map[id := r.(nextRunAt := NextRun(r.sched, now), lastRunAt := Some(now))],
        messages := s.messages + [MessageFor(Due(id, r), now)],
        jobs := s.jobs + multiset{|s.messages|})
  {
    hide NextRun, Exec, Apply, FireSteps, ShardOf, MessageFor;
    var read, fire := [Advance(dt), Snapshot(0, 0, [id])], FireSteps(0);
    SoleRowRead(s, shardId, id, r, dt);
    SoleRowFires(Exec(s, read), shardId, id, r, s.clock + dt);
    ExecAppend(s, read, fire);
    LoopEnds(Exec(s, read + fire), shardId, s.clock + dt);
    ExecOne(s, read + fire, Compute(0));
  }

  lemma UpdateSole(id: RowId, r: Row, next: int, now: int)
    ensures UpdateMany(map[id := r], Due(id, r), next, now) == map[id := r.(nextRunAt := next, lastRunAt := Some(now))]
  {
  }

  lemma LoopEnds(s: State, shardId: int, now: int)
    requires s.workers == [Worker(shardId, Looping(now, []))]
    ensures Apply(s, Compute(0)) == s.(workers := [Worker(shardId, Idle)])
  {
    hide ComputeNextRunAt;
  }

  /** A row is created, and enabled again up to the write of that toggle. */
  function HalfToggle(s: State, row: Row): seq<Step> {
    [Create(row.deviceId, row.payload, row.sched, true, 0), ToggleRead(s.nextId, true)]
    + [ToggleCompute(Asked(s.nextId, row.sched))]
  }

  /** A tick when the row is due, and then the write. */
  function TickAndWrite(s: State, row: Row): seq<Step> {
    var dt := if row.nextRunAt > s.clock then row.nextRunAt - s.clock else 0;
    SoleTick(dt, s.nextId) + [ToggleWrite(Ready(s.nextId, true, row.nextRunAt))]
  }

  /** And one more tick. */
  function TickInToggle(s: State, row: Row): seq<Step> {
    HalfToggle(s, row) + TickAndWrite(s, row) + SoleTick(0, s.nextId)
  }

  /** The state with the row in the table, and the toggle's value settled. */
  function HalfToggled(s: State, row: Row): State {
    s.(nextId := s.nextId + 1, rows := map[s.nextId := row], toggles := multiset{Ready(s.nextId, true, row.nextRunAt)})
  }

  lemma ToggleHalfDone(s: State, row: Row)
    requires s.rows == map[] && s.toggles == multiset{} && s.clock >= 0 && IsFirstRow(s, row)
    ensures Exec(s, HalfToggle(s, row)) == HalfToggled(s, row)
  {
    hide Exec, ComputeNextRunAt, NextRun;
    var create := Create(row.deviceId, row.payload, row.sched, true, 0);
    CreateFirst(s, row.deviceId, row.payload, row.sched);
    ExecTwo(s, create, ToggleRead(s.nextId, true));
    AskAndCompute(Apply(s, create), s.nextId, row);
    ExecOne(s, [create, ToggleRead(s.nextId, true)], ToggleCompute(Asked(s.nextId, row.sched)));
  }

  lemma AskAndCompute(s: State, id: RowId, r: Row)
    requires s.rows == map[id := r] && s.toggles == multiset{} && r.sched.Valid() && s.clock >= 0
    ensures Apply(Apply(s, ToggleRead(id, true)), ToggleCompute(Asked(id, r.sched)))
         == s.(toggles := multiset{Ready(id, true, NextRun(r.sched, s.clock))})
  {
    hide ComputeNextRunAt, IsOccurrence;
    NextRunIsLeast(r.sched, s.clock);
    assert Apply(s, ToggleRead(id, true)).toggles == multiset{Asked(id, r.sched)};
  }

  lemma WrittenAfterTick(s: State, shardId: int, id: RowId, r: Row)
    requires SoleRow(s, shardId, id, r) && r.nextRunAt > s.clock
    requires s.toggles == multiset{Ready(id, true, r.nextRunAt)}
    ensures var now := r.nextRunAt;
      Exec(s, SoleTick(now - s.clock, id) + [ToggleWrite(Ready(id, true, now))])
      == s.(clock := now, toggles := multiset{},
            rows := map[id := r.(lastRunAt := Some(now))],
            messages := s.messages + [MessageFor(Due(id, r), now)],
            jobs := s.jobs + multiset{|s.messages|})
  {
    hide Exec, SoleTick, NextRun, ShardOf;
    SoleRowTick(s, shardId, id, r, r.nextRunAt - s.clock);
    ExecOne(s, SoleTick(r.nextRunAt - s.clock, id), ToggleWrite(Ready(id, true, r.nextRunAt)));
  }

  /** Two messages for one occurrence. */
  predicate FiredTwice(t: State) {
    && |t.messages| == 2 && t.messages[0].scheduleId == t.messages[1].scheduleId
    && t.messages[0].occurrence == t.messages[1].occurrence
  }

  /** The tick fires the row, and so does the one after the write. */
  lemma TwoTicks(s: State, shardId: int, id: RowId, r: Row)
    requires SoleRow(s, shardId, id, r) && r.nextRunAt > s.clock && s.messages == []
    requires s.toggles == multiset{Ready(id, true, r.nextRunAt)}
    ensures FiredTwice(Exec(s, SoleTick(r.nextRunAt - s.clock, id) + [ToggleWrite(Ready(id, true, r.nextRunAt))]
                               + SoleTick(0, id)))
  {
    hide Exec, NextRun, SoleTick, ShardOf;
    var inside := SoleTick(r.nextRunAt - s.clock, id) + [ToggleWrite(Ready(id, true, r.nextRunAt))];
    WrittenAfterTick(s, shardId, id, r);
    SoleRowTick(Exec(s, inside), shardId, id, r.(lastRunAt := Some(r.nextRunAt)), 0);
    ExecAppend(s, inside, SoleTick(0, id));
  }

  lemma LoneTickInToggle(s: State, shardId: int, row: Row)
    requires s.rows == map[] && s.toggles == multiset{} && s.messages == [] && 0 <= s.clock < row.nextRunAt
    requires s.workers == [Worker(shardId, Idle)] && shardId == ShardOf(row.deviceId, s.totalShards)
    requires IsFirstRow(s, row)
    ensures FiredTwice(Exec(s, TickInToggle(s, row)))
  {
    hide Exec, Apply, NextRun, SoleTick, ShardOf, FiredTwice, HalfToggle;
    ToggleHalfDone(s, row);
    TwoTicks(HalfToggled(s, row), shardId, s.nextId, row);
    ExecAppend(s, HalfToggle(s, row), TickAndWrite(s, row) + SoleTick(0, s.nextId));
    assert TickInToggle(s, row) == HalfToggle(s, row) + (TickAndWrite(s, row) + SoleTick(0, s.nextId));
  }

  // Other workers that take no step make no difference.

  function Widen(s: State, rest: seq<Worker>): State { s.(workers := s.workers + rest) }

  /** A step of worker 0 or of no worker. */
  predicate ByFirst(step: Step) {
    match step
    case Snapshot(w, _, _) => w == 0
    case Compute(w) => w == 0
    case Claim(w) => w == 0
    case CreateMessage(w) => w == 0
    case Enqueue(w) => w == 0
    case _ => true
  }

  lemma UserStepWidens(s: State, rest: seq<Worker>, step: Step)
    requires !IsWorkerStep(step)
    ensures ApplyUser(Widen(s, rest), step) == Widen(ApplyUser(s, step), rest)
  {
    hide ComputeNextRunAt;
  }

  lemma PhaseWidens(s: State, rest: seq<Worker>, p: Phase)
    requires |s.workers| == 1
    ensures WithPhase(Widen(s, rest), 0, p) == Widen(WithPhase(s, 0, p), rest)
    ensures |WithPhase(s, 0, p).workers| == 1
  {
    assert (s.workers + rest)[0 := s.workers[0].(phase := p)] == s.workers[0 := s.workers[0].(phase := p)] + rest;
  }

  lemma WorkerStepWidens(s: State, rest: seq<Worker>, step: Step)
    requires |s.workers| == 1 && IsWorkerStep(step) && ByFirst(step)
    ensures ApplyWorker(Widen(s, rest), step) == Widen(ApplyWorker(s, step), rest)
    ensures |ApplyWorker(s, step).workers| == 1
  {
    forall p: Phase
      ensures WithPhase(Widen(s, rest), 0, p) == Widen(WithPhase(s, 0, p), rest) && |WithPhase(s, 0, p).workers| == 1
    {
      PhaseWidens(s, rest, p);
    }
    hide ComputeNextRunAt, WithPhase, DueIds, Lists, ReadRows, Matches, UpdateMany, MessageFor;
    match step
    case Snapshot(_, _, _) =>
    case Compute(_) =>
    case Claim(_) => ClaimWidens(s, rest);
    case CreateMessage(_) =>
    case Enqueue(_) =>
  }

  lemma ClaimWidens(s: State, rest: seq<Worker>)
    requires |s.workers| == 1
    requires forall p: Phase :: WithPhase(Widen(s, rest), 0, p) == Widen(WithPhase(s, 0, p), rest)
    ensures ApplyWorker(Widen(s, rest), Claim(0)) == Widen(ApplyWorker(s, Claim(0)), rest)
  {
    hide WithPhase, Matches, UpdateMany;
  }

  lemma {:induction false} RunWidens(s: State, rest: seq<Worker>, steps: seq<Step>)
    requires |s.workers| == 1 && forall k | 0 <= k < |steps| :: ByFirst(steps[k])
    ensures Exec(Widen(s, rest), steps) == Widen(Exec(s, steps), rest)
    decreases |steps|
  {
    hide ApplyUser, ApplyWorker, ByFirst, Widen;
    if steps != [] {
      if IsWorkerStep(steps[0]) {
        WorkerStepWidens(s, rest, steps[0]);
      } else {
        UserStepWidens(s, rest, steps[0]);
        UserKeepsWorkers(s, steps[0]);
      }
      RunWidens(Apply(s, steps[0]), rest, steps[1..]);
    }
  }

  lemma UserKeepsWorkers(s: State, step: Step)
    ensures ApplyUser(s, step).workers == s.workers
  {
    hide ComputeNextRunAt;
  }

  lemma AllByFirst(s: State, row: Row)
    ensures forall k | 0 <= k < |TickInToggle(s, row)| :: ByFirst(TickInToggle(s, row)[k])
  {
  }

  /** The state without the workers after the first. */
  lemma FirstAlone(s: State)
    requires Init(s) && |s.workers| >= 1
    ensures var lone := s.(workers := [Worker(s.workers[0].shardId, Idle)]);
      s == Widen(lone, s.workers[1..]) && forall row :: TickInToggle(lone, row) == TickInToggle(s, row)
  {
    assert s.workers == [s.workers[0]] + s.workers[1..];
  }

  lemma WidenedFiresTwice(s: State, row: Row)
    requires Init(s) && IsFirstRow(s, row) && s.clock < row.nextRunAt
    requires |s.workers| >= 1 && s.workers[0].shardId == ShardOf(row.deviceId, s.totalShards)
    ensures FiredTwice(Exec(s, TickInToggle(s, row)))
  {
    StartFacts(s);
    FirstAlone(s);
    hide Exec, Init, NextRun, ShardOf, TickInToggle, ByFirst;
    var lone := s.(workers := [Worker(s.workers[0].shardId, Idle)]);
    LoneTickInToggle(lone, s.workers[0].shardId, row);
    AllByFirst(lone, row);
    RunWidens(lone, s.workers[1..], TickInToggle(lone, row));
  }

  /** Why no claim may undercut a toggle: from any start, with any valid schedule and the owner of the
      device as worker 0, the tick inside the toggle fires an occurrence, the write brings it back, and
      it fires again. */
  lemma SplitToggleFiresTwice(s: State, row: Row)
    requires Init(s) && IsFirstRow(s, row)
    requires |s.workers| >= 1 && s.workers[0].shardId == ShardOf(row.deviceId, s.totalShards)
    ensures FiredTwice(Exec(s, TickInToggle(s, row)))
    ensures !NoUndercut(s, TickInToggle(s, row))
  {
    StartFacts(s);
    CreateFirst(s, row.deviceId, row.payload, row.sched);
    hide Exec, Apply, NextRun, ComputeNextRunAt, Init, ShardOf, NoUndercut, TickInToggle;
    WidenedFiresTwice(s, row);
    if NoUndercut(s, TickInToggle(s, row)) {
      AtMostOncePerOccurrence(s, TickInToggle(s, row));
      SameMessage(Exec(s, TickInToggle(s, row)).messages);
    }
  }

  lemma SameMessage(messages: seq<ScheduledFiring>)
    requires |messages| == 2
    requires messages[0].scheduleId == messages[1].scheduleId && messages[0].occurrence == messages[1].occurrence
    ensures exists i, j | 0 <= i < |messages| && 0 <= j < |messages| ::
      messages[i].scheduleId == messages[j].scheduleId && messages[i].occurrence == messages[j].occurrence && i != j
  {
    assert messages[0].scheduleId == messages[1].scheduleId && 0 != 1;
  }

  lemma StartFacts(s: State)
    requires Init(s)
    ensures s.clock >= 0 && s.messages == [] && s.rows == map[]
    ensures s.toggles == multiset{} && (|s.workers| >= 1 ==> s.workers[0].phase.Idle?)
  {
  }
}
