/** The scheduled-message protocol: any number of workers take snapshots of the due rows,
    recompute the next run, claim a row by a conditional update on the old `nextRunAt`, and
    only then create and enqueue its message. Users create, toggle and remove rows meanwhile.

    Every database call is one atomic step; `toggle` reads a row, computes the next run and writes
    the row in three. A step that is not enabled changes nothing, so a run is any sequence of
    steps. */
module Scheduler {
  import opened Common
  import opened Schedule
  import opened Shard

  type RowId = nat

  datatype Row = Row(
    deviceId: DeviceId,
    payload: string,
    sched: Schedule,
    isEnabled: bool,
    nextRunAt: int,
    lastRunAt: Option<int>)

  /** A row as a worker read it. */
  datatype Due = Due(id: RowId, row: Row)

  /** A message created by a worker. The last three fields are history: the row it was created
      for, that row's schedule, and the occurrence. */
  datatype ScheduledFiring = ScheduledFiring(
    deviceId: DeviceId,
    payload: string,
    queuedAt: int,
    scheduleId: RowId,
    sched: Schedule,
    occurrence: int)

  /** Where a worker is in its loop over the due rows; the head of `due` is the row at hand. */
  datatype Phase =
    | Idle
    | Looping(now: int, due: seq<Due>)
    | Computed(now: int, due: seq<Due>, newNext: int)
    | Claimed(now: int, due: seq<Due>)
    | Created(now: int, due: seq<Due>, message: nat)

  datatype Worker = Worker(shardId: int, phase: Phase)

  /** A call of `toggle` under way: an enabling one that has read its row, or one whose value for
      `nextRunAt` is settled and not written yet. */
  datatype Pending =
    | Asked(id: RowId, sched: Schedule)
    | Ready(id: RowId, isEnabled: bool, nextRunAt: int)

  datatype State = State(
    clock: int,
    totalShards: int,
    nextId: nat,
    rows: map<RowId, Row>,
    toggles: multiset<Pending>,
    messages: seq<ScheduledFiring>,
    jobs: multiset<nat>,
    workers: seq<Worker>)

  datatype Step =
    | Advance(dt: nat)
    | Create(deviceId: DeviceId, payload: string, sched: Schedule, isEnabled: bool, lag: nat)
    | ToggleRead(id: RowId, isEnabled: bool)
    | ToggleCompute(p: Pending)
    | ToggleWrite(p: Pending)
    | Remove(id: RowId)
    | Snapshot(w: nat, lag: nat, order: seq<RowId>)
    | Compute(w: nat)
    | Claim(w: nat)
    | CreateMessage(w: nat)
    | Enqueue(w: nat)

  // ---------------------------------------------------------------- the tables

  /** The rows `findMany` returns at `now`, filtered to a shard. */
  function DueIds(rows: map<RowId, Row>, now: int, shardId: int, totalShards: int): set<RowId> {
    set id | id in rows && rows[id].isEnabled && rows[id].nextRunAt <= now
             && ShardOf(rows[id].deviceId, totalShards) == shardId
  }

  /** `order` lists the elements of `ids`, each once. */
  predicate Lists(order: seq<RowId>, ids: set<RowId>) {
    && (forall i | 0 <= i < |order| :: order[i] in ids)
    && (forall id | id in ids :: id in order)
    && (forall i, j | 0 <= i < j < |order| :: order[i] != order[j])
  }

  function ReadRows(rows: map<RowId, Row>, order: seq<RowId>): (due: seq<Due>)
    requires forall i | 0 <= i < |order| :: order[i] in rows
  {
    seq(|order|, i requires 0 <= i < |order| => Due(order[i], rows[order[i]]))
  }

  /** The conditional update: it matches while the row still has the `nextRunAt` that was read. */
  predicate Matches(rows: map<RowId, Row>, d: Due) {
    d.id in rows && rows[d.id].nextRunAt == d.row.nextRunAt
  }

  function UpdateMany(rows: map<RowId, Row>, d: Due, newNext: int, now: int): map<RowId, Row> {
    if Matches(rows, d)
    then rows[d.id := rows[d.id].(nextRunAt := newNext, lastRunAt := Some(now))]
    else rows
  }

  function MessageFor(d: Due, now: int): ScheduledFiring {
    ScheduledFiring(d.row.deviceId, d.row.payload, now, d.id, d.row.sched, d.row.nextRunAt)
  }

  // ---------------------------------------------------------------- the steps

  function WithPhase(s: State, w: nat, p: Phase): State
    requires w < |s.workers|
  {
    s.(workers := s.workers[w := s.workers[w].(phase := p)])
  }

  function Toggled(rows: map<RowId, Row>, id: RowId, isEnabled: bool, nextRunAt: int): map<RowId, Row> {
    if id in rows then rows[id := rows[id].(isEnabled := isEnabled, nextRunAt := nextRunAt)] else rows
  }

  function ApplyUser(s: State, step: Step): State {
    match step
    case Advance(dt) => s.(clock := s.clock + dt)
    case Create(deviceId, payload, sched, isEnabled, lag) =>  // computed `lag` ms before the insert
      var next := ComputeNextRunAt(sched, s.clock - lag);
      if sched.Valid() && next.Ok? && lag <= s.clock then
        var row := Row(deviceId, payload, sched, isEnabled, next.value, None);
        s.(rows := s.rows[s.nextId := row], nextId := s.nextId + 1)
      else s
    case ToggleRead(id, isEnabled) =>
      if id in s.rows then
        var row := s.rows[id];
        s.(toggles := s.toggles + multiset{if isEnabled then Asked(id, row.sched) else Ready(id, false, row.nextRunAt)})
      else s
    case ToggleCompute(p) =>
      if p in s.toggles && p.Asked? then
        match ComputeNextRunAt(p.sched, s.clock)
        case Ok(next) => s.(toggles := s.toggles - multiset{p} + multiset{Ready(p.id, true, next)})
        case Err(_) => s.(toggles := s.toggles - multiset{p})
      else s
    case ToggleWrite(p) =>
      if p in s.toggles && p.Ready? then
        s.(rows := Toggled(s.rows, p.id, p.isEnabled, p.nextRunAt), toggles := s.toggles - multiset{p})
      else s
    case Remove(id) => s.(rows := s.rows - {id})
    case _ => s
  }

  function ApplyWorker(s: State, step: Step): State {
    match step
    case Snapshot(w, lag, order) =>  // `now` was read `lag` ms before the query ran
      if w < |s.workers| && s.workers[w].phase.Idle? && lag <= s.clock
         && Lists(order, DueIds(s.rows, s.clock - lag, s.workers[w].shardId, s.totalShards))
      then WithPhase(s, w, Looping(s.clock - lag, ReadRows(s.rows, order)))
      else s
    case Compute(w) =>
      if w < |s.workers| && s.workers[w].phase.Looping? then
        var p := s.workers[w].phase;
        if p.due == [] then WithPhase(s, w, Idle)
        else
          match ComputeNextRunAt(p.due[0].row.sched, s.clock)
          case Ok(newNext) => WithPhase(s, w, Computed(p.now, p.due, newNext))
          case Err(_) => WithPhase(s, w, Idle)
      else s
    case Claim(w) =>
      if w < |s.workers| && s.workers[w].phase.Computed? && s.workers[w].phase.due != [] then
        var p := s.workers[w].phase;
        if Matches(s.rows, p.due[0]) then
          WithPhase(s, w, Claimed(p.now, p.due)).(rows := UpdateMany(s.rows, p.due[0], p.newNext, p.now))
        else WithPhase(s, w, Looping(p.now, p.due[1..]))
      else s
    case CreateMessage(w) =>
      if w < |s.workers| && s.workers[w].phase.Claimed? && s.workers[w].phase.due != [] then
        var p := s.workers[w].phase;
        WithPhase(s, w, Created(p.now, p.due, |s.messages|)).(messages := s.messages + [MessageFor(p.due[0], p.now)])
      else s
    case Enqueue(w) =>
      if w < |s.workers| && s.workers[w].phase.Created? && s.workers[w].phase.due != [] then
        var p := s.workers[w].phase;
        WithPhase(s, w, Looping(p.now, p.due[1..])).(jobs := s.jobs + multiset{p.message})
      else s
    case _ => s
  }

  predicate IsWorkerStep(step: Step) {
    step.Snapshot? || step.Compute? || step.Claim? || step.CreateMessage? || step.Enqueue?
  }

  function Apply(s: State, step: Step): State {
    if IsWorkerStep(step) then ApplyWorker(s, step) else ApplyUser(s, step)
  }

  function Exec(s: State, steps: seq<Step>): State
    decreases |steps|
  {
    if steps == [] then s else Exec(Apply(s, steps[0]), steps[1..])
  }

  /** No rows and no messages yet; the workers' shard ids are arbitrary, even equal. */
  predicate Init(s: State) {
    && s.clock >= 0
    && s.rows == map[] && s.toggles == multiset{} && s.messages == [] && s.jobs == multiset{}
    && forall w | 0 <= w < |s.workers| :: s.workers[w].phase.Idle?
  }

  // ---------------------------------------------------------------- what every run keeps

  predicate RowOk(r: Row, clock: int) {
    r.sched.Valid() && IsOccurrence(r.sched, r.nextRunAt) && r.nextRunAt <= NextRun(r.sched, clock)
  }

  predicate RowsOk(s: State) {
    && s.clock >= 0
    && forall id | id in s.rows :: id < s.nextId && RowOk(s.rows[id], s.clock)
  }

  /** A toggle will write an occurrence of its row's schedule, not beyond the next. */
  predicate PendingOk(s: State, p: Pending) {
    && p.id < s.nextId
    && (p.Asked? ==> p.sched.Valid() && (p.id in s.rows ==> s.rows[p.id].sched == p.sched))
    && (p.Ready? && p.id in s.rows ==>
          s.rows[p.id].sched.Valid() && IsOccurrence(s.rows[p.id].sched, p.nextRunAt)
          && p.nextRunAt <= NextRun(s.rows[p.id].sched, s.clock))
  }

  predicate TogglesOk(s: State) {
    forall p | p in s.toggles :: PendingOk(s, p)
  }

  /** What no step ever changes in a row. */
  predicate SameContent(a: Row, b: Row) {
    a.deviceId == b.deviceId && a.payload == b.payload && a.sched == b.sched
  }

  /** What a worker read is an occurrence that was due then. */
  predicate DueOk(s: State, now: int, d: Due) {
    && d.id < s.nextId
    && d.row.sched.Valid() && IsOccurrence(d.row.sched, d.row.nextRunAt) && d.row.nextRunAt <= now
    && (d.id in s.rows ==> SameContent(s.rows[d.id], d.row))
  }

  predicate PhaseOk(s: State, p: Phase) {
    p.Idle? || (
      && 0 <= p.now <= s.clock
      && (forall i | 0 <= i < |p.due| :: DueOk(s, p.now, p.due[i]))
      && (p.Looping? || p.due != [])
      && (p.Computed? ==>
        var sched := p.due[0].row.sched;
        p.now < p.newNext && IsOccurrence(sched, p.newNext) && p.newNext <= NextRun(sched, s.clock))
      && (p.Created? ==> p.message < |s.messages|))
  }

  predicate WorkersOk(s: State) {
    forall w | 0 <= w < |s.workers| :: PhaseOk(s, s.workers[w].phase)
  }

  /** The message is to the row's device, with the row's content. */
  predicate CarriesRow(m: ScheduledFiring, r: Row) {
    m.deviceId == r.deviceId && m.payload == r.payload && m.sched == r.sched
  }

  predicate MessageOk(s: State, m: ScheduledFiring) {
    && IsOccurrence(m.sched, m.occurrence) && m.occurrence <= m.queuedAt <= s.clock && m.scheduleId < s.nextId
    && (m.scheduleId in s.rows ==> CarriesRow(m, s.rows[m.scheduleId]))
  }

  predicate MessagesOk(s: State) {
    forall i | 0 <= i < |s.messages| :: MessageOk(s, s.messages[i])
  }

  predicate Queueing(p: Phase, m: nat) {
    p.Created? && p.message == m
  }

  /** Every message is in the queue once, or its worker is about to put it there. */
  ghost predicate OneJobPerMessage(s: State) {
    && (forall m: nat :: s.jobs[m] <= 1)
    && (forall m: nat | m >= |s.messages| :: s.jobs[m] == 0)
    && (forall m: nat, w | 0 <= w < |s.workers| && Queueing(s.workers[w].phase, m) :: s.jobs[m] == 0)
    && (forall m: nat, v, w | 0 <= v < w < |s.workers| ::
          !(Queueing(s.workers[v].phase, m) && Queueing(s.workers[w].phase, m)))
    && (forall m: nat | m < |s.messages| && s.jobs[m] == 0 ::
          exists w :: 0 <= w < |s.workers| && Queueing(s.workers[w].phase, m))
  }

  ghost predicate Core(s: State) {
    RowsOk(s) && TogglesOk(s) && WorkersOk(s) && MessagesOk(s) && OneJobPerMessage(s)
  }

  /** Later, with the same rows of the same content. */
  ghost predicate Later(s: State, t: State) {
    && s.clock <= t.clock && s.nextId <= t.nextId && |s.messages| <= |t.messages|
    && (forall id | id in t.rows && id < s.nextId :: id in s.rows && SameContent(t.rows[id], s.rows[id]))
  }

  lemma LaterKeepsMessages(s: State, t: State)
    requires Later(s, t) && MessagesOk(s)
    ensures forall i | 0 <= i < |s.messages| :: MessageOk(t, s.messages[i])
  {
    hide IsOccurrence;
    forall i | 0 <= i < |s.messages| ensures MessageOk(t, s.messages[i]) {
      assert MessageOk(s, s.messages[i]);
    }
  }

  lemma LaterKeepsPhase(s: State, t: State, p: Phase)
    requires Later(s, t) && s.clock >= 0 && PhaseOk(s, p)
    ensures PhaseOk(t, p)
  {
    hide IsOccurrence, NextRun;
    if p.Computed? {
      NextRunMonotone(p.due[0].row.sched, s.clock, t.clock);
    }
  }

  lemma LaterKeepsPending(s: State, t: State, p: Pending)
    requires Later(s, t) && s.clock >= 0 && PendingOk(s, p)
    ensures PendingOk(t, p)
  {
    hide IsOccurrence, NextRun;
    if p.Ready? && p.id in t.rows {
      NextRunMonotone(t.rows[p.id].sched, s.clock, t.clock);
    }
  }

  /** A step of a user, or of time. */
  lemma TableStepKeepsCore(s: State, t: State)
    requires Core(s) && Later(s, t) && RowsOk(t)
    requires forall p | p in t.toggles && p !in s.toggles :: PendingOk(t, p)
    requires t.messages == s.messages && t.workers == s.workers && t.jobs == s.jobs
    ensures Core(t)
  {
    hide IsOccurrence, NextRun, PhaseOk, PendingOk, RowOk, MessageOk;
    LaterKeepsMessages(s, t);
    forall w | 0 <= w < |t.workers| ensures PhaseOk(t, t.workers[w].phase) {
      LaterKeepsPhase(s, t, s.workers[w].phase);
    }
    forall p | p in t.toggles ensures PendingOk(t, p) {
      if p in s.toggles { LaterKeepsPending(s, t, p); }
    }
  }

  lemma AdvanceKeepsCore(s: State, dt: nat)
    requires Core(s)
    ensures Core(ApplyUser(s, Advance(dt))) && Later(s, ApplyUser(s, Advance(dt)))
  {
    hide IsOccurrence, NextRun, OneJobPerMessage, PhaseOk, PendingOk;
    var t := ApplyUser(s, Advance(dt));
    forall id | id in t.rows ensures RowOk(t.rows[id], t.clock) {
      NextRunMonotone(s.rows[id].sched, s.clock, t.clock);
    }
    TableStepKeepsCore(s, t);
  }

  lemma CreateKeepsCore(s: State, step: Step)
    requires Core(s) && step.Create?
    ensures Core(ApplyUser(s, step)) && Later(s, ApplyUser(s, step))
  {
    hide IsOccurrence, ComputeNextRunAt, OneJobPerMessage, PhaseOk, PendingOk;
    var t := ApplyUser(s, step);
    if t != s {
      NextRunIsLeast(step.sched, s.clock - step.lag);
      NextRunMonotone(step.sched, s.clock - step.lag, s.clock);
      assert RowsOk(t) by { hide NextRun; }
      TableStepKeepsCore(s, t);
    }
  }

  lemma ToggleReadKeepsCore(s: State, id: RowId, isEnabled: bool)
    requires Core(s)
    ensures Core(ApplyUser(s, ToggleRead(id, isEnabled))) && Later(s, ApplyUser(s, ToggleRead(id, isEnabled)))
  {
    hide IsOccurrence, NextRun, OneJobPerMessage, PhaseOk;
    var t := ApplyUser(s, ToggleRead(id, isEnabled));
    if id in s.rows {
      assert RowOk(s.rows[id], s.clock);
      TableStepKeepsCore(s, t);
    }
  }

  lemma ToggleComputeKeepsCore(s: State, p: Pending)
    requires Core(s)
    ensures Core(ApplyUser(s, ToggleCompute(p))) && Later(s, ApplyUser(s, ToggleCompute(p)))
  {
    hide IsOccurrence, ComputeNextRunAt, OneJobPerMessage, PhaseOk;
    var t := ApplyUser(s, ToggleCompute(p));
    if p in s.toggles && p.Asked? {
      assert PendingOk(s, p);
      NextRunIsLeast(p.sched, s.clock);
      TableStepKeepsCore(s, t);
    }
  }

  lemma ToggleWriteKeepsCore(s: State, p: Pending)
    requires Core(s)
    ensures Core(ApplyUser(s, ToggleWrite(p))) && Later(s, ApplyUser(s, ToggleWrite(p)))
  {
    hide IsOccurrence, NextRun, OneJobPerMessage, PhaseOk;
    var t := ApplyUser(s, ToggleWrite(p));
    if p in s.toggles && p.Ready? {
      assert PendingOk(s, p);
      TableStepKeepsCore(s, t);
    }
  }

  lemma UserKeepsCore(s: State, step: Step)
    requires Core(s) && !IsWorkerStep(step)
    ensures Core(ApplyUser(s, step)) && Later(s, ApplyUser(s, step))
  {
    hide Core, RowOk;
    match step
    case Advance(dt) => AdvanceKeepsCore(s, dt);
    case Create(_, _, _, _, _) => CreateKeepsCore(s, step);
    case ToggleRead(id, isEnabled) => ToggleReadKeepsCore(s, id, isEnabled);
    case ToggleCompute(p) => ToggleComputeKeepsCore(s, p);
    case ToggleWrite(p) => ToggleWriteKeepsCore(s, p);
    case Remove(id) => RemoveKeepsCore(s, id);
  }

  lemma RemoveKeepsCore(s: State, id: RowId)
    requires Core(s)
    ensures Core(ApplyUser(s, Remove(id))) && Later(s, ApplyUser(s, Remove(id)))
  {
    hide RowOk, OneJobPerMessage, PhaseOk, PendingOk;
    TableStepKeepsCore(s, ApplyUser(s, Remove(id)));
  }

  /** A step of one worker. */
  lemma WorkerStepKeepsCore(s: State, t: State, w: nat)
    requires Core(s) && Later(s, t) && RowsOk(t) && t.toggles == s.toggles
    requires w < |s.workers| == |t.workers|
    requires forall v | 0 <= v < |s.workers| && v != w :: t.workers[v] == s.workers[v]
    requires PhaseOk(t, t.workers[w].phase) && OneJobPerMessage(t) && s.messages <= t.messages
    requires forall i | |s.messages| <= i < |t.messages| :: MessageOk(t, t.messages[i])
    ensures Core(t)
  {
    hide IsOccurrence, NextRun, PhaseOk, PendingOk, RowOk, OneJobPerMessage, MessageOk;
    LaterKeepsMessages(s, t);
    forall v | 0 <= v < |t.workers| ensures PhaseOk(t, t.workers[v].phase) {
      if v != w { LaterKeepsPhase(s, t, s.workers[v].phase); }
    }
    forall p | p in t.toggles ensures PendingOk(t, p) {
      LaterKeepsPending(s, t, p);
    }
  }

  lemma SnapshotKeepsCore(s: State, w: nat, lag: nat, order: seq<RowId>)
    requires Core(s)
    ensures Core(ApplyWorker(s, Snapshot(w, lag, order)))
  {
    hide IsOccurrence, NextRun, PendingOk, PhaseOk, OneJobPerMessage;
    var t := ApplyWorker(s, Snapshot(w, lag, order));
    if t != s {
      SnapshotIsOk(s, w, lag, order);
      PhaseChangeKeepsJobs(s, t, w);
      LaterKeepsPhase(s, t, t.workers[w].phase);
      WorkerStepKeepsCore(s, t, w);
    }
  }

  lemma SnapshotIsOk(s: State, w: nat, lag: nat, order: seq<RowId>)
    requires RowsOk(s) && w < |s.workers| && lag <= s.clock
    requires Lists(order, DueIds(s.rows, s.clock - lag, s.workers[w].shardId, s.totalShards))
    ensures PhaseOk(s, Looping(s.clock - lag, ReadRows(s.rows, order)))
  {
    hide IsOccurrence, NextRun;
  }

  /** A worker that neither held nor takes a message for the queue leaves the queue as it is. */
  lemma PhaseChangeKeepsJobs(s: State, t: State, w: nat)
    requires OneJobPerMessage(s) && w < |s.workers| == |t.workers|
    requires t.messages == s.messages && t.jobs == s.jobs
    requires !s.workers[w].phase.Created? && !t.workers[w].phase.Created?
    requires forall v | 0 <= v < |s.workers| && v != w :: t.workers[v] == s.workers[v]
    ensures OneJobPerMessage(t)
  {
    forall m: nat | m < |t.messages| && t.jobs[m] == 0
      ensures exists v :: 0 <= v < |t.workers| && Queueing(t.workers[v].phase, m)
    {
      var v :| 0 <= v < |s.workers| && Queueing(s.workers[v].phase, m);
      assert Queueing(t.workers[v].phase, m);
    }
  }

  lemma ComputeKeepsCore(s: State, w: nat)
    requires Core(s)
    ensures Core(ApplyWorker(s, Compute(w)))
  {
    hide IsOccurrence, ComputeNextRunAt, PhaseOk, PendingOk, RowOk, OneJobPerMessage;
    var t := ApplyWorker(s, Compute(w));
    if t != s {
      ComputeIsOk(s, w);
      PhaseChangeKeepsJobs(s, t, w);
      LaterKeepsPhase(s, t, t.workers[w].phase);
      WorkerStepKeepsCore(s, t, w);
    }
  }

  lemma ComputeIsOk(s: State, w: nat)
    requires s.clock >= 0 && w < |s.workers| && s.workers[w].phase.Looping? && PhaseOk(s, s.workers[w].phase)
    ensures PhaseOk(s, ApplyWorker(s, Compute(w)).workers[w].phase)
  {
    hide IsOccurrence, ComputeNextRunAt;
    var p := s.workers[w].phase;
    if p.due != [] {
      NextRunIsLeast(p.due[0].row.sched, s.clock);
    }
  }

  lemma ClaimKeepsCore(s: State, w: nat)
    requires Core(s)
    ensures Core(ApplyWorker(s, Claim(w)))
  {
    hide IsOccurrence, NextRun, PhaseOk, PendingOk, RowOk, OneJobPerMessage;
    var t := ApplyWorker(s, Claim(w));
    if t != s {
      ClaimIsOk(s, w);
      PhaseChangeKeepsJobs(s, t, w);
      WorkerStepKeepsCore(s, t, w);
    }
  }

  /** A claim moves its row strictly forward, to an occurrence after the time of the tick. */
  lemma ClaimIsOk(s: State, w: nat)
    requires RowsOk(s) && w < |s.workers| && s.workers[w].phase.Computed? && PhaseOk(s, s.workers[w].phase)
    ensures var t := ApplyWorker(s, Claim(w));
      && RowsOk(t) && Later(s, t) && PhaseOk(t, t.workers[w].phase)
      && t.rows.Keys == s.rows.Keys
      && (forall id | id in s.rows :: s.rows[id].nextRunAt <= t.rows[id].nextRunAt)
  {
    hide IsOccurrence, NextRun;
  }

  lemma CreateMessageKeepsCore(s: State, w: nat)
    requires Core(s)
    ensures Core(ApplyWorker(s, CreateMessage(w)))
  {
    hide IsOccurrence, NextRun, RowOk, PendingOk, OneJobPerMessage;
    var t := ApplyWorker(s, CreateMessage(w));
    if t != s {
      var p := s.workers[w].phase;
      assert PhaseOk(s, p);
      assert DueOk(s, p.now, p.due[0]);
      CreateMessageKeepsJobs(s, w);
      WorkerStepKeepsCore(s, t, w);
    }
  }

  lemma CreateMessageKeepsJobs(s: State, w: nat)
    requires OneJobPerMessage(s) && w < |s.workers| && s.workers[w].phase.Claimed? && s.workers[w].phase.due != []
    requires WorkersOk(s)
    ensures OneJobPerMessage(ApplyWorker(s, CreateMessage(w)))
  {
    hide IsOccurrence, NextRun;
    var t := ApplyWorker(s, CreateMessage(w));
    forall v | 0 <= v < |s.workers| ensures !Queueing(s.workers[v].phase, |s.messages|) {
      assert PhaseOk(s, s.workers[v].phase);
    }
    forall m: nat | m < |t.messages| && t.jobs[m] == 0
      ensures exists v :: 0 <= v < |t.workers| && Queueing(t.workers[v].phase, m)
    {
      if m == |s.messages| {
        assert Queueing(t.workers[w].phase, m);
      } else {
        var v :| 0 <= v < |s.workers| && Queueing(s.workers[v].phase, m);
        assert Queueing(t.workers[v].phase, m);
      }
    }
  }

  lemma EnqueueKeepsCore(s: State, w: nat)
    requires Core(s)
    ensures Core(ApplyWorker(s, Enqueue(w)))
  {
    hide IsOccurrence, NextRun, RowOk, PendingOk, OneJobPerMessage;
    var t := ApplyWorker(s, Enqueue(w));
    if t != s {
      assert PhaseOk(s, s.workers[w].phase);
      EnqueueKeepsJobs(s, w);
      WorkerStepKeepsCore(s, t, w);
    }
  }

  lemma EnqueueKeepsJobs(s: State, w: nat)
    requires OneJobPerMessage(s) && w < |s.workers| && s.workers[w].phase.Created? && s.workers[w].phase.due != []
    requires s.workers[w].phase.message < |s.messages|
    ensures OneJobPerMessage(ApplyWorker(s, Enqueue(w)))
  {
    var t := ApplyWorker(s, Enqueue(w));
    var p := s.workers[w].phase;
    assert Queueing(p, p.message);
    forall m: nat | m < |t.messages| && t.jobs[m] == 0
      ensures exists v :: 0 <= v < |t.workers| && Queueing(t.workers[v].phase, m)
    {
      var v :| 0 <= v < |s.workers| && Queueing(s.workers[v].phase, m);
      assert Queueing(t.workers[v].phase, m);
    }
  }

  /** Every step, of any toggle and any worker, keeps these. */
  lemma StepKeepsCore(s: State, step: Step)
    requires Core(s)
    ensures Core(Apply(s, step))
  {
    hide Core, ApplyWorker, ApplyUser;
    match step
    case Snapshot(w, lag, order) => SnapshotKeepsCore(s, w, lag, order);
    case Compute(w) => ComputeKeepsCore(s, w);
    case Claim(w) => ClaimKeepsCore(s, w);
    case CreateMessage(w) => CreateMessageKeepsCore(s, w);
    case Enqueue(w) => EnqueueKeepsCore(s, w);
    case _ => UserKeepsCore(s, step);
  }

  lemma {:induction false} RunKeepsCore(s: State, steps: seq<Step>)
    requires Core(s)
    ensures Core(Exec(s, steps))
    decreases |steps|
  {
    hide Core, Apply;
    if steps != [] {
      StepKeepsCore(s, steps[0]);
      RunKeepsCore(Apply(s, steps[0]), steps[1..]);
    }
  }

  // ---------------------------------------------------------------- no occurrence twice

  /** The row has moved on from that occurrence, or is gone for good, and no toggle under way will
      bring it back. */
  ghost predicate Passed(s: State, id: RowId, occurrence: int) {
    && id < s.nextId && occurrence <= s.clock
    && (id in s.rows ==> occurrence < s.rows[id].nextRunAt)
    && (forall p | p in s.toggles && p.Ready? && p.id == id :: occurrence < p.nextRunAt)
  }

  predicate HoldsClaim(p: Phase, id: RowId, occurrence: int) {
    p.Claimed? && p.due != [] && p.due[0].id == id && p.due[0].row.nextRunAt == occurrence
  }

  /** No occurrence of a schedule has two messages, or a message and a pending claim, or two
      pending claims. */
  ghost predicate OncePerOccurrence(s: State) {
    && (forall i, j | 0 <= i < j < |s.messages| ::
          !(s.messages[i].scheduleId == s.messages[j].scheduleId
            && s.messages[i].occurrence == s.messages[j].occurrence))
    && (forall i, w | 0 <= i < |s.messages| && 0 <= w < |s.workers| ::
          !HoldsClaim(s.workers[w].phase, s.messages[i].scheduleId, s.messages[i].occurrence))
    && (forall v, w | 0 <= v < w < |s.workers| && s.workers[v].phase.Claimed? && s.workers[v].phase.due != [] ::
          !HoldsClaim(s.workers[w].phase, s.workers[v].phase.due[0].id, s.workers[v].phase.due[0].row.nextRunAt))
  }

  /** Every occurrence that was claimed or fired is passed. */
  ghost predicate Spent(s: State) {
    && (forall i | 0 <= i < |s.messages| :: Passed(s, s.messages[i].scheduleId, s.messages[i].occurrence))
    && (forall w | 0 <= w < |s.workers| && s.workers[w].phase.Claimed? && s.workers[w].phase.due != [] ::
          Passed(s, s.workers[w].phase.due[0].id, s.workers[w].phase.due[0].row.nextRunAt))
  }

  ghost predicate Inv(s: State) {
    Core(s) && Spent(s) && OncePerOccurrence(s)
  }

  /** The step claims an occurrence that a toggle of the row, under way, would bring back. */
  ghost predicate Undercut(s: State, step: Step) {
    && step.Claim? && step.w < |s.workers|
    && s.workers[step.w].phase.Computed? && s.workers[step.w].phase.due != []
    && var d := s.workers[step.w].phase.due[0];
    && Matches(s.rows, d)
    && exists p :: p in s.toggles && p.Ready? && p.id == d.id && p.nextRunAt <= d.row.nextRunAt
  }

  /** Passed occurrences stay passed. */
  ghost predicate Onward(s: State, t: State) {
    forall id, o | Passed(s, id, o) :: Passed(t, id, o)
  }

  lemma UserGoesOnward(s: State, step: Step)
    requires Core(s) && !IsWorkerStep(step)
    ensures Onward(s, ApplyUser(s, step))
  {
    hide IsOccurrence, ComputeNextRunAt, OneJobPerMessage, PhaseOk, RowOk;
    var t := ApplyUser(s, step);
    if step.ToggleCompute? && step.p in s.toggles && step.p.Asked? {
      assert PendingOk(s, step.p);
      NextRunIsLeast(step.p.sched, s.clock);
    }
  }

  lemma UserKeepsInv(s: State, step: Step)
    requires Inv(s) && !IsWorkerStep(step)
    ensures Inv(ApplyUser(s, step))
  {
    hide Core, Passed, Spent, OncePerOccurrence, ComputeNextRunAt;
    UserKeepsCore(s, step);
    UserGoesOnward(s, step);
    OnwardKeepsSpent(s, ApplyUser(s, step));
  }

  lemma OnwardKeepsSpent(s: State, t: State)
    requires Spent(s) && OncePerOccurrence(s) && Onward(s, t)
    requires t.messages == s.messages && t.workers == s.workers
    ensures Spent(t) && OncePerOccurrence(t)
  {
    hide Passed;
  }

  /** What is spent stays so when one worker moves on to a phase without a claim. */
  lemma PhaseStepKeepsSpent(s: State, t: State, w: nat)
    requires Spent(s) && OncePerOccurrence(s) && w < |s.workers| == |t.workers|
    requires t == WithPhase(s, w, t.workers[w].phase).(jobs := t.jobs) && !t.workers[w].phase.Claimed?
    ensures Spent(t) && OncePerOccurrence(t)
  {
    forall id, o | Passed(s, id, o) ensures Passed(t, id, o) {
    }
    hide Passed;
  }

  /** A worker's step that neither claims nor creates. */
  lemma QuietStepKeepsInv(s: State, step: Step)
    requires Inv(s) && (step.Snapshot? || step.Compute? || step.Enqueue?)
    ensures Inv(ApplyWorker(s, step))
  {
    StepKeepsCore(s, step);
    hide Core, ComputeNextRunAt, DueIds, Lists, Spent, OncePerOccurrence;
    var t := ApplyWorker(s, step);
    if t != s {
      PhaseStepKeepsSpent(s, t, step.w);
    }
  }

  lemma ClaimKeepsInv(s: State, w: nat)
    requires Inv(s) && !Undercut(s, Claim(w))
    ensures Inv(ApplyWorker(s, Claim(w)))
  {
    hide Core, Spent, OncePerOccurrence, Undercut, Matches;
    var t := ApplyWorker(s, Claim(w));
    ClaimKeepsCore(s, w);
    if t != s {
      if Matches(s.rows, s.workers[w].phase.due[0]) {
        ClaimSpends(s, w);
        ClaimIsFirst(s, w);
      } else {
        PhaseStepKeepsSpent(s, t, w);
      }
    }
  }

  /** A matching claim that undercuts no toggle passes its occurrence, and no other comes back. */
  lemma ClaimPasses(s: State, w: nat)
    requires Core(s) && !Undercut(s, Claim(w))
    requires w < |s.workers| && s.workers[w].phase.Computed? && s.workers[w].phase.due != []
    requires Matches(s.rows, s.workers[w].phase.due[0])
    ensures Onward(s, ApplyWorker(s, Claim(w)))
    ensures Passed(ApplyWorker(s, Claim(w)), s.workers[w].phase.due[0].id, s.workers[w].phase.due[0].row.nextRunAt)
  {
    hide IsOccurrence, NextRun, OneJobPerMessage;
    var p := s.workers[w].phase;
    assert PhaseOk(s, p);
    assert DueOk(s, p.now, p.due[0]);
    hide PhaseOk, DueOk;
  }

  lemma ClaimSpends(s: State, w: nat)
    requires Core(s) && Spent(s) && !Undercut(s, Claim(w))
    requires w < |s.workers| && s.workers[w].phase.Computed? && s.workers[w].phase.due != []
    requires Matches(s.rows, s.workers[w].phase.due[0])
    ensures Spent(ApplyWorker(s, Claim(w)))
  {
    ClaimPasses(s, w);
    hide Core, Passed, Undercut, Matches, UpdateMany;
    var p := s.workers[w].phase;
    assert ApplyWorker(s, Claim(w)).workers[w].phase == Claimed(p.now, p.due);
  }

  /** Nobody fired or claimed an occurrence that a conditional update still matches. */
  lemma ClaimIsFirst(s: State, w: nat)
    requires Spent(s) && OncePerOccurrence(s) && w < |s.workers| && s.workers[w].phase.Computed?
    ensures OncePerOccurrence(ApplyWorker(s, Claim(w)))
  {
    var p := s.workers[w].phase;
    if p.due != [] && Matches(s.rows, p.due[0]) {
      var id, o := p.due[0].id, p.due[0].row.nextRunAt;
      assert !Passed(s, id, o);
      hide Passed;
      forall v | 0 <= v < |s.workers| ensures !HoldsClaim(s.workers[v].phase, id, o) {
      }
      forall i | 0 <= i < |s.messages|
        ensures !(s.messages[i].scheduleId == id && s.messages[i].occurrence == o)
      {
      }
    }
  }

  lemma CreateMessageKeepsInv(s: State, w: nat)
    requires Inv(s)
    ensures Inv(ApplyWorker(s, CreateMessage(w)))
  {
    CreateMessageKeepsCore(s, w);
    hide Core;
    var t := ApplyWorker(s, CreateMessage(w));
    if t != s {
      CreateMessageOnce(s, w);
      assert forall id, o | Passed(s, id, o) :: Passed(t, id, o);
    }
  }

  lemma CreateMessageOnce(s: State, w: nat)
    requires OncePerOccurrence(s) && w < |s.workers| && s.workers[w].phase.Claimed? && s.workers[w].phase.due != []
    ensures OncePerOccurrence(ApplyWorker(s, CreateMessage(w)))
  {
    var p := s.workers[w].phase;
    assert HoldsClaim(p, p.due[0].id, p.due[0].row.nextRunAt);
  }

  /** Every step but an undercutting claim keeps the invariant. */
  lemma StepKeepsInv(s: State, step: Step)
    requires Inv(s) && !Undercut(s, step)
    ensures Inv(Apply(s, step))
  {
    hide Inv, ApplyWorker, ApplyUser, Undercut;
    match step
    case Snapshot(_, _, _) => QuietStepKeepsInv(s, step);
    case Compute(_) => QuietStepKeepsInv(s, step);
    case Enqueue(_) => QuietStepKeepsInv(s, step);
    case Claim(w) => ClaimKeepsInv(s, w);
    case CreateMessage(w) => CreateMessageKeepsInv(s, w);
    case _ => UserKeepsInv(s, step);
  }

  /** No step of the run claims an occurrence that a toggle under way would bring back. */
  ghost predicate NoUndercut(s: State, steps: seq<Step>)
    decreases |steps|
  {
    steps != [] ==> !Undercut(s, steps[0]) && NoUndercut(Apply(s, steps[0]), steps[1..])
  }

  lemma {:induction false} RunKeepsInv(s: State, steps: seq<Step>)
    requires Inv(s) && NoUndercut(s, steps)
    ensures Inv(Exec(s, steps))
    decreases |steps|
  {
    hide Inv, Apply, Undercut;
    if steps != [] {
      StepKeepsInv(s, steps[0]);
      RunKeepsInv(Apply(s, steps[0]), steps[1..]);
    }
  }

  /** The step claims a row while a toggle of it is between its read and its write. */
  ghost predicate ClaimsInToggle(s: State, step: Step) {
    && step.Claim? && step.w < |s.workers|
    && s.workers[step.w].phase.Computed? && s.workers[step.w].phase.due != []
    && Matches(s.rows, s.workers[step.w].phase.due[0])
    && exists p :: p in s.toggles && p.id == s.workers[step.w].phase.due[0].id
  }

  ghost predicate NoClaimInToggle(s: State, steps: seq<Step>)
    decreases |steps|
  {
    steps != [] ==> !ClaimsInToggle(s, steps[0]) && NoClaimInToggle(Apply(s, steps[0]), steps[1..])
  }

  /** So it is enough that no claim of a row falls between a toggle's read and its write. */
  lemma {:induction false} NoClaimNoUndercut(s: State, steps: seq<Step>)
    requires NoClaimInToggle(s, steps)
    ensures NoUndercut(s, steps)
    decreases |steps|
  {
    hide Apply;
    if steps != [] {
      NoClaimNoUndercut(Apply(s, steps[0]), steps[1..]);
    }
  }

  // ---------------------------------------------------------------- main results

  lemma InitInv(s: State)
    requires Init(s)
    ensures Inv(s)
  {
  }

  /** In every run in which no claim undercuts a toggle under way, an occurrence of a schedule gets
      at most one message. */
  lemma AtMostOncePerOccurrence(s: State, steps: seq<Step>)
    requires Init(s) && NoUndercut(s, steps)
    ensures var t := Exec(s, steps);
      forall i, j | 0 <= i < |t.messages| && 0 <= j < |t.messages|
        && t.messages[i].scheduleId == t.messages[j].scheduleId
        && t.messages[i].occurrence == t.messages[j].occurrence :: i == j
  {
    hide Core, Spent, Exec, NoUndercut;
    InitInv(s);
    RunKeepsInv(s, steps);
  }

  /** In every run at all, messages are for true occurrences and never early, carry the device and the
      content of their row, as long as that is there, rows hold occurrences, and every message is
      enqueued at most once. */
  lemma MessagesAreTrue(s: State, steps: seq<Step>)
    requires Init(s)
    ensures var t := Exec(s, steps);
      && (forall i | 0 <= i < |t.messages| ::
            IsOccurrence(t.messages[i].sched, t.messages[i].occurrence)
            && t.messages[i].occurrence <= t.messages[i].queuedAt)
      && (forall i | 0 <= i < |t.messages| && t.messages[i].scheduleId in t.rows ::
            var m, r := t.messages[i], t.rows[t.messages[i].scheduleId];
            m.deviceId == r.deviceId && m.payload == r.payload && m.sched == r.sched)
      && (forall id | id in t.rows :: IsOccurrence(t.rows[id].sched, t.rows[id].nextRunAt))
      && (forall m: nat :: t.jobs[m] <= if m < |t.messages| then 1 else 0)
  {
    hide IsOccurrence, NextRun, PhaseOk, PendingOk, Exec;
    InitInv(s);
    RunKeepsCore(s, steps);
    var t := Exec(s, steps);
    forall i | 0 <= i < |t.messages| ensures IsOccurrence(t.messages[i].sched, t.messages[i].occurrence)
      && t.messages[i].occurrence <= t.messages[i].queuedAt
    {
      assert MessageOk(t, t.messages[i]);
    }
    forall i | 0 <= i < |t.messages| && t.messages[i].scheduleId in t.rows
      ensures CarriesRow(t.messages[i], t.rows[t.messages[i].scheduleId])
    {
      assert MessageOk(t, t.messages[i]);
    }
    forall id | id in t.rows ensures IsOccurrence(t.rows[id].sched, t.rows[id].nextRunAt) {
      assert RowOk(t.rows[id], t.clock);
    }
  }

  /** Once all workers are idle again, every message is in the queue exactly once. */
  lemma DrainedQueue(s: State, steps: seq<Step>)
    requires Init(s)
    requires forall w | 0 <= w < |Exec(s, steps).workers| :: Exec(s, steps).workers[w].phase.Idle?
    ensures var t := Exec(s, steps);
      forall m: nat :: t.jobs[m] == if m < |t.messages| then 1 else 0
  {
    hide IsOccurrence, RowOk, PhaseOk, PendingOk, Exec;
    InitInv(s);
    RunKeepsCore(s, steps);
  }

  /** No surviving row's next run is earlier than before. */
  ghost predicate RowsForward(s: State, t: State) {
    forall id | id in t.rows && id < s.nextId :: id in s.rows && s.rows[id].nextRunAt <= t.rows[id].nextRunAt
  }

  /** The step writes a toggle's value after the row has moved beyond it. */
  predicate StaleWrite(s: State, step: Step) {
    && step.ToggleWrite? && step.p in s.toggles && step.p.Ready?
    && step.p.id in s.rows && step.p.nextRunAt < s.rows[step.p.id].nextRunAt
  }

  lemma ClaimGoesForward(s: State, w: nat)
    requires Core(s)
    ensures RowsForward(s, ApplyWorker(s, Claim(w)))
  {
    if w < |s.workers| && s.workers[w].phase.Computed? {
      assert PhaseOk(s, s.workers[w].phase);
      ClaimIsOk(s, w);
    }
  }

  lemma WriteForwardIff(s: State, p: Pending)
    requires RowsOk(s)
    ensures RowsForward(s, ApplyUser(s, ToggleWrite(p))) <==> !StaleWrite(s, ToggleWrite(p))
  {
    hide RowOk;
    if p in s.toggles && p.Ready? && p.id in s.rows {
      assert ApplyUser(s, ToggleWrite(p)).rows[p.id].nextRunAt == p.nextRunAt;
    }
  }

  /** A step moves some row back exactly when it is a stale write of a toggle. */
  lemma ForwardIffNotStale(s: State, step: Step)
    requires Core(s)
    ensures RowsForward(s, Apply(s, step)) <==> !StaleWrite(s, step)
  {
    hide ComputeNextRunAt, OneJobPerMessage, TogglesOk, WorkersOk, MessagesOk, RowOk, Matches, DueIds, Lists;
    match step
    case Claim(w) => ClaimGoesForward(s, w);
    case ToggleWrite(p) => WriteForwardIff(s, p);
    case _ =>
  }

  predicate NoStaleWrite(s: State, steps: seq<Step>)
    decreases |steps|
  {
    steps != [] ==> !StaleWrite(s, steps[0]) && NoStaleWrite(Apply(s, steps[0]), steps[1..])
  }

  /** In every run without such a write, no next run ever moves back. */
  lemma {:induction false} NextRunNeverMovesBack(s: State, steps: seq<Step>)
    requires Core(s) && NoStaleWrite(s, steps)
    ensures RowsForward(s, Exec(s, steps)) && s.nextId <= Exec(s, steps).nextId
    decreases |steps|
  {
    hide Apply, Core, StaleWrite;
    if steps != [] {
      ForwardIffNotStale(s, steps[0]);
      IdsGrow(s, steps[0]);
      StepKeepsCore(s, steps[0]);
      NextRunNeverMovesBack(Apply(s, steps[0]), steps[1..]);
    }
  }

  lemma IdsGrow(s: State, step: Step)
    ensures s.nextId <= Apply(s, step).nextId
  {
    hide ComputeNextRunAt;
  }

  lemma {:induction false} ExecAppend(s: State, a: seq<Step>, b: seq<Step>)
    ensures Exec(s, a + b) == Exec(Exec(s, a), b)
    decreases |a|
  {
    hide Apply;
    if a == [] {
      assert a + b == b;
    } else {
      assert (a + b)[1..] == a[1..] + b;
      ExecAppend(Apply(s, a[0]), a[1..], b);
    }
  }

  lemma ExecOne(s: State, a: seq<Step>, step: Step)
    ensures Exec(s, a + [step]) == Apply(Exec(s, a), step)
  {
    hide Apply;
    ExecAppend(s, a, [step]);
    assert Exec(Apply(Exec(s, a), step), []) == Apply(Exec(s, a), step);
  }

  lemma ExecSingle(s: State, step: Step)
    ensures Exec(s, [step]) == Apply(s, step)
  {
    hide Apply;
    assert Exec(Apply(s, step), []) == Apply(s, step);
  }

  lemma ExecTwo(s: State, a: Step, b: Step)
    ensures Exec(s, [a, b]) == Apply(Apply(s, a), b)
  {
    hide Apply;
    assert [a, b][1..] == [b];
    ExecSingle(Apply(s, a), b);
    assert Exec(s, [a, b]) == Exec(Apply(s, a), [b]);
  }
}
