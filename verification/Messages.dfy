/** Sending messages under two check-then-act limits: a monthly quota per workspace and a daily
    limit per device. Every worker has three slots; every database call, clock reading, queue and
    socket call is one step, and slots, users and receipts interleave freely. A worker may take any
    job of the queue; a step that is not enabled changes nothing. */
module Messages {
  import opened Common
  import opened JsDate
  import opened Schedule
  import opened Shard
  import opened Receipts

  /** The index of a message in the table, from which nothing is ever deleted. */
  type MessageId = nat
  type WorkspaceId = nat

  datatype Plan = Plan(monthlyMessageQuota: int, dailyDeviceLimit: int)

  /** A slot of a worker's queue processor. */
  datatype Place = Place(worker: nat, slot: nat)

  /** How far a slot has come with message `id`, which it read as `m`. */
  datatype Slot =
    | Free
    | Fetched(id: MessageId, m: Message)
    | MonthRead(id: MessageId, m: Message, start: int)
    | MonthPassed(id: MessageId, m: Message)
    | DayRead(id: MessageId, m: Message, start: int)
    | DayPassed(id: MessageId, m: Message)
    | DeviceOk(id: MessageId, m: Message)
    | Sending(id: MessageId, m: Message)
    | Stamped(id: MessageId, m: Message, sentAt: int, providerId: string)
    | Failing(id: MessageId, m: Message)

  const SLOTS: nat := 3
  const DEFAULT_DAILY_LIMIT: int := 200

  /** Shards, the time zone of the servers, the plans, and the workspace of each device. */
  datatype Config = Config(
    totalShards: nat,
    zone: int,
    plans: map<WorkspaceId, Plan>,
    home: map<DeviceId, WorkspaceId>)

  /** `pending` holds the messages whose job the service has yet to add to the queue. */
  datatype State = State(
    clock: int,
    messages: seq<Message>,
    pending: multiset<MessageId>,
    jobs: multiset<MessageId>,
    slots: map<Place, Slot>)

  datatype Step =
    | Advance(dt: nat)
    | Send(deviceId: DeviceId)
    | Retry(id: MessageId)
    | Enqueue(id: MessageId)
    | Receipt(workspaceId: WorkspaceId, u: Update)
    | Fetch(p: Place, id: MessageId)
    | ReadMonth(p: Place)
    | CountMonth(p: Place)
    | ReadDay(p: Place)
    | CountDay(p: Place)
    | CheckDevice(p: Place, connected: bool)
    | MarkProcessing(p: Place)
    | Transmit(p: Place, answer: Option<string>)
    | WriteSent(p: Place)
    | WriteFailed(p: Place)

  predicate IsSent(s: Status) { s == SENT || s == DELIVERED || s == READ }

  /** `setUTCDate(1)` and midnight. */
  function StartOfMonth(t: int): int {
    MakeDay(GetUTCFullYear(t), GetUTCMonth(t), 1) * MS_PER_DAY
  }

  /** Midnight of the server's day, in a zone `zone` ms ahead of UTC. */
  function StartOfDay(zone: int, t: int): int {
    DayOf(t + zone) * MS_PER_DAY - zone
  }

  /** A subscription without a plan has no quota, and the default daily limit. */
  function Quota(c: Config, w: WorkspaceId): int {
    if w in c.plans then c.plans[w].monthlyMessageQuota else 0
  }

  function DailyLimit(c: Config, w: WorkspaceId): int {
    if w in c.plans then c.plans[w].dailyDeviceLimit else DEFAULT_DAILY_LIMIT
  }

  /** What a limit counts over: a device by day, or a workspace by month. */
  datatype Scope = DeviceDay(deviceId: DeviceId) | WorkspaceMonth(workspaceId: WorkspaceId)

  predicate InScope(scope: Scope, m: Message) {
    match scope
    case DeviceDay(d) => m.deviceId == d
    case WorkspaceMonth(w) => m.workspaceId == w
  }

  /** The start of the day or month an instant lies in; it names that period. */
  function Start(c: Config, scope: Scope, t: int): int {
    match scope
    case DeviceDay(_) => StartOfDay(c.zone, t)
    case WorkspaceMonth(_) => StartOfMonth(t)
  }

  function Limit(c: Config, scope: Scope): int {
    match scope
    case DeviceDay(d) => if d in c.home then DailyLimit(c, c.home[d]) else 0
    case WorkspaceMonth(w) => Quota(c, w)
  }

  /** The rows the `count` queries see: sent messages from `start` on. */
  function SentSince(messages: seq<Message>, scope: Scope, start: int): set<MessageId> {
    set id | 0 <= id < |messages| && InScope(scope, messages[id]) && IsSent(messages[id].status)
             && messages[id].sentAt >= start
  }

  /** The worker that owns a device. */
  predicate Owns(c: Config, worker: nat, deviceId: DeviceId) {
    ShardOf(deviceId, c.totalShards) == worker
  }

  // ---------------------------------------------------------------- the steps

  function Put(s: State, p: Place, slot: Slot): State {
    s.(slots := s.slots[p := slot])
  }

  function Marked(messages: seq<Message>, id: MessageId, status: Status): seq<Message> {
    if id < |messages| then messages[id := messages[id].(status := status)] else messages
  }

  function MarkedSent(messages: seq<Message>, id: MessageId, sentAt: int, providerId: string): seq<Message> {
    if id < |messages| then
      messages[id := messages[id].(status := SENT, sentAt := sentAt, providerMessageId := Some(providerId))]
    else messages
  }

  function ApplyUser(c: Config, s: State, step: Step): State {
    match step
    case Advance(dt) => s.(clock := s.clock + dt)
    case Send(d) =>
      if d in c.home then
        s.(messages := s.messages + [Message(d, c.home[d], QUEUED, 0, None)],
           pending := s.pending + multiset{|s.messages|})
      else s
    case Retry(id) =>
      if id < |s.messages| then
        s.(messages := Marked(s.messages, id, QUEUED), pending := s.pending + multiset{id})
      else s
    case Enqueue(id) =>
      if id in s.pending then s.(pending := s.pending - multiset{id}, jobs := s.jobs + multiset{id}) else s
    case Receipt(w, u) => s.(messages := Raised(s.messages, w, [u]))
    case _ => s
  }

  /** Taking a job: a message that is missing or sent needs nothing, and one of another shard goes
      back to the queue. */
  function TakeJob(c: Config, s: State, p: Place, id: MessageId): State {
    if id !in s.jobs then s
    else if id >= |s.messages| || IsSent(s.messages[id].status) then s.(jobs := s.jobs - multiset{id})
    else if !Owns(c, p.worker, s.messages[id].deviceId) then s
    else Put(s, p, Fetched(id, s.messages[id])).(jobs := s.jobs - multiset{id})
  }

  /** The two counts; each ends the attempt at its limit. */
  function MonthChecked(c: Config, s: State, id: MessageId, m: Message, start: int): Slot {
    if |SentSince(s.messages, WorkspaceMonth(m.workspaceId), start)| >= Quota(c, m.workspaceId)
    then Failing(id, m) else MonthPassed(id, m)
  }

  function DayChecked(c: Config, s: State, id: MessageId, m: Message, start: int): Slot {
    if |SentSince(s.messages, DeviceDay(m.deviceId), start)| >= DailyLimit(c, m.workspaceId)
    then Failing(id, m) else DayPassed(id, m)
  }

  /** Where a step takes a busy slot. */
  function NextSlot(c: Config, s: State, slot: Slot, step: Step): Slot {
    match slot
    case Free => Free
    case Fetched(id, m) =>
      if !step.ReadMonth? then slot
      else if Quota(c, m.workspaceId) > 0 then MonthRead(id, m, StartOfMonth(s.clock))
      else MonthPassed(id, m)
    case MonthRead(id, m, start) => if step.CountMonth? then MonthChecked(c, s, id, m, start) else slot
    case MonthPassed(id, m) =>
      if !step.ReadDay? then slot
      else if DailyLimit(c, m.workspaceId) > 0 then DayRead(id, m, StartOfDay(c.zone, s.clock))
      else DayPassed(id, m)
    case DayRead(id, m, start) => if step.CountDay? then DayChecked(c, s, id, m, start) else slot
    case DayPassed(id, m) =>
      if !step.CheckDevice? then slot else if step.connected then DeviceOk(id, m) else Failing(id, m)
    case DeviceOk(id, m) => if step.MarkProcessing? then Sending(id, m) else slot
    case Sending(id, m) =>
      if !step.Transmit? then slot
      else if step.answer.Some? then Stamped(id, m, s.clock, step.answer.value)
      else Failing(id, m)
    case Stamped(_, _, _, _) => if step.WriteSent? then Free else slot
    case Failing(_, _) => if step.WriteFailed? then Free else slot
  }

  /** What it writes: a busy slot writes its message three times at most. */
  function NextMessages(messages: seq<Message>, slot: Slot, step: Step): seq<Message> {
    if slot.DeviceOk? && step.MarkProcessing? then Marked(messages, slot.id, PROCESSING)
    else if slot.Stamped? && step.WriteSent? then MarkedSent(messages, slot.id, slot.sentAt, slot.providerId)
    else if slot.Failing? && step.WriteFailed? then Marked(messages, slot.id, FAILED)
    else messages
  }

  function ApplySlot(c: Config, s: State, p: Place, step: Step): State {
    if p !in s.slots then s
    else if s.slots[p].Free? then (if step.Fetch? then TakeJob(c, s, p, step.id) else s)
    else
      s.(messages := NextMessages(s.messages, s.slots[p], step),
         slots := s.slots[p := NextSlot(c, s, s.slots[p], step)])
  }

  /** The slot a step belongs to. */
  function PlaceOf(step: Step): Option<Place> {
    match step
    case Fetch(p, _) => Some(p)
    case ReadMonth(p) => Some(p)
    case CountMonth(p) => Some(p)
    case ReadDay(p) => Some(p)
    case CountDay(p) => Some(p)
    case CheckDevice(p, _) => Some(p)
    case MarkProcessing(p) => Some(p)
    case Transmit(p, _) => Some(p)
    case WriteSent(p) => Some(p)
    case WriteFailed(p) => Some(p)
    case _ => None
  }

  function Apply(c: Config, s: State, step: Step): State {
    if PlaceOf(step).Some? then ApplySlot(c, s, PlaceOf(step).value, step) else ApplyUser(c, s, step)
  }

  function Exec(c: Config, s: State, steps: seq<Step>): State
    decreases |steps|
  {
    if steps == [] then s else Exec(c, Apply(c, s, steps[0]), steps[1..])
  }

  /** No messages and no jobs yet, and every slot of every worker free. */
  predicate Init(c: Config, s: State) {
    && s.messages == [] && s.pending == multiset{} && s.jobs == multiset{}
    && s.slots == map p | p in Places(c.totalShards) :: Free
  }

  function Places(workers: nat): set<Place> {
    set w, k | 0 <= w < workers && 0 <= k < SLOTS :: Place(w, k)
  }

  /** Three slots to each worker. */
  lemma ThreeSlots(workers: nat, p: Place)
    ensures p in Places(workers) <==> p.worker < workers && p.slot < 3
  {
    assert p.slot < SLOTS && p.worker < workers ==> Place(p.worker, p.slot) in Places(workers);
  }

  // ---------------------------------------------------------------- periods

  /** A period starts before its instants, and later instants lie in later periods. */
  lemma Periods(c: Config, scope: Scope, t: int, u: int)
    requires t <= u
    ensures Start(c, scope, t) <= t && Start(c, scope, t) <= Start(c, scope, u)
  {
    hide StartOfMonth, StartOfDay;
    DaysInOrder(c.zone, t, u);
    MonthStarts(t);
    MonthStarts(u);
    MonthsInOrder(DayOf(t), DayOf(u));
  }

  lemma DaysInOrder(zone: int, t: int, u: int)
    requires t <= u
    ensures StartOfDay(zone, t) <= t && StartOfDay(zone, t) <= StartOfDay(zone, u)
    ensures DayOf(t) <= DayOf(u)
  {
    ClockOfTime(t + zone);
  }

  lemma MonthStarts(t: int)
    ensures StartOfMonth(t) == MonthStart(DayOf(t)) * MS_PER_DAY
    ensures StartOfMonth(t) <= t
  {
    hide CivilOfDay;
    var c := CivilOfDay(DayOf(t));
    CivilOfDayValid(DayOf(t));
    DayOfCivilOfDay(DayOf(t));
    MakeDayCarries(c.year, c.month, c.date);
    MakeDayCarries(c.year, c.month, 1);
    ClockOfTime(t);
  }

  /** The day starts at midnight of the zone, at most a day before. */
  lemma DayStartsAtMidnight(zone: int, t: int)
    ensures var r := StartOfDay(zone, t); r <= t < r + 86_400_000 && (r + zone) % 86_400_000 == 0
  {
    ClockOfTime(t + zone);
  }

  lemma FirstOf(year: int, month: int)
    requires 0 <= month < 12
    ensures CivilOfDay(MakeDay(year, month, 1)) == Civil(year, month, 1)
  {
    CivilOfDayOfCivil(Civil(year, month, 1));
    hide CivilOfDay, MakeDay;
  }

  lemma FirstOfMonth(t: int)
    ensures var c := CivilOfDay(t / 86_400_000);
      && 0 <= c.month < 12 && StartOfMonth(t) == MakeDay(c.year, c.month, 1) * 86_400_000
      && CivilOfDay(MakeDay(c.year, c.month, 1)) == c.(date := 1)
  {
    hide CivilOfDay, MakeDay, DaysInMonth;
    CivilOfDayValid(DayOf(t));
    var c := CivilOfDay(DayOf(t));
    FirstOf(c.year, c.month);
  }

  /** The month starts at midnight UTC of the first day of the month and year of the instant. */
  lemma MonthStartsOnFirst(t: int)
    ensures var r := StartOfMonth(t);
      && r <= t && r % 86_400_000 == 0
      && CivilOfDay(r / 86_400_000) == CivilOfDay(t / 86_400_000).(date := 1)
  {
    hide CivilOfDay, MakeDay, MonthStart, StartOfMonth;
    MonthStarts(t);
    FirstOfMonth(t);
  }

  lemma MonthsInOrder(d: int, e: int)
    requires d <= e
    ensures MonthStart(d) <= MonthStart(e)
  {
    hide CivilOfDay, DaysInMonth, MonthStart, MonthLength;
    MonthFacts(d);
    MonthFacts(e);
    if MonthStart(e) <= d {
      InMonth(e, d);
    }
  }

  // ---------------------------------------------------------------- what every run keeps

  predicate SlotOk(c: Config, s: State, p: Place, slot: Slot) {
    slot.Free? || (
      && slot.id < |s.messages|
      && s.messages[slot.id].deviceId == slot.m.deviceId && s.messages[slot.id].workspaceId == slot.m.workspaceId
      && slot.m.deviceId in c.home && c.home[slot.m.deviceId] == slot.m.workspaceId
      && Owns(c, p.worker, slot.m.deviceId)
      && (slot.MonthRead? ==> slot.start <= StartOfMonth(s.clock))
      && (slot.DayRead? ==> slot.start <= StartOfDay(c.zone, s.clock)))
  }

  ghost predicate Wf(c: Config, s: State) {
    && s.slots.Keys == Places(c.totalShards)
    && (forall p | p in s.slots :: SlotOk(c, s, p, s.slots[p]))
    && (forall id | 0 <= id < |s.messages| ::
          s.messages[id].deviceId in c.home && c.home[s.messages[id].deviceId] == s.messages[id].workspaceId)
  }

  /** A receipt touches the status alone, of messages with a provider's id alone, and only raises it. */
  lemma ReceiptRow(messages: seq<Message>, w: WorkspaceId, u: Update, id: MessageId)
    requires id < |messages|
    ensures var m, n := messages[id], Raised(messages, w, [u])[id];
      && n == m.(status := n.status) && Order(m.status) <= Order(n.status)
      && (m.providerMessageId.None? ==> n == m)
      && (IsSent(m.status) ==> IsSent(n.status))
      && (n != m ==> IsSent(n.status))
  {
    hide MostAsked;
    ReceiptsOnlyAdvance(messages, w, [u], id);
  }

  lemma UserKeepsMessages(c: Config, s: State, step: Step)
    requires PlaceOf(step).None?
    ensures var t := ApplyUser(c, s, step);
      && |s.messages| <= |t.messages| && t.slots == s.slots && s.clock <= t.clock
      && (forall id | 0 <= id < |s.messages| ::
            t.messages[id].deviceId == s.messages[id].deviceId
            && t.messages[id].workspaceId == s.messages[id].workspaceId)
      && (forall id | |s.messages| <= id < |t.messages| ::
            t.messages[id].deviceId in c.home && c.home[t.messages[id].deviceId] == t.messages[id].workspaceId)
  {
    hide MostAsked;
  }

  /** Rows keep their device and workspace. */
  ghost predicate SameOwners(s: State, t: State) {
    && |s.messages| <= |t.messages| && s.clock <= t.clock
    && forall id | 0 <= id < |s.messages| ::
         t.messages[id].deviceId == s.messages[id].deviceId && t.messages[id].workspaceId == s.messages[id].workspaceId
  }

  lemma SlotOkMoves(c: Config, s: State, t: State, p: Place, slot: Slot)
    requires SlotOk(c, s, p, slot) && SameOwners(s, t)
    ensures SlotOk(c, t, p, slot)
  {
    hide StartOfMonth, StartOfDay, ShardOf;
    Periods(c, WorkspaceMonth(0), s.clock, t.clock);
    Periods(c, DeviceDay([]), s.clock, t.clock);
  }

  lemma UserKeepsWf(c: Config, s: State, step: Step)
    requires Wf(c, s) && PlaceOf(step).None?
    ensures Wf(c, ApplyUser(c, s, step))
  {
    UserKeepsMessages(c, s, step);
    hide SlotOk, ApplyUser, Places;
    var t := ApplyUser(c, s, step);
    forall p | p in t.slots ensures SlotOk(c, t, p, t.slots[p]) {
      SlotOkMoves(c, s, t, p, s.slots[p]);
    }
  }

  lemma SlotKeepsMessages(c: Config, s: State, p: Place, step: Step)
    requires p in s.slots
    ensures var t := ApplySlot(c, s, p, step);
      && t.clock == s.clock && |t.messages| == |s.messages| && t.slots.Keys == s.slots.Keys && SameOwners(s, t)
      && (forall q | q in s.slots && q != p :: t.slots[q] == s.slots[q])
  {
    hide NextSlot, IsSent, Owns;
  }

  lemma NextSlotId(c: Config, s: State, slot: Slot, step: Step)
    requires !slot.Free?
    ensures var n := NextSlot(c, s, slot, step);
      && (!n.Free? ==> n.id == slot.id && n.m == slot.m)
      && (n.MonthRead? && !slot.MonthRead? ==> n.start == StartOfMonth(s.clock))
      && (n.DayRead? && !slot.DayRead? ==> n.start == StartOfDay(c.zone, s.clock))
      && (n.MonthRead? && slot.MonthRead? ==> n == slot) && (n.DayRead? && slot.DayRead? ==> n == slot)
      && (n.Stamped? && !slot.Stamped? ==> n.sentAt == s.clock)
      && (slot.Stamped? ==> n == slot || n.Free?)
  {
    hide StartOfMonth, StartOfDay, SentSince, Quota, DailyLimit;
  }

  lemma SlotMovesOk(c: Config, s: State, p: Place, step: Step)
    requires Wf(c, s) && p in s.slots
    ensures SlotOk(c, s, p, ApplySlot(c, s, p, step).slots[p])
  {
    assert SlotOk(c, s, p, s.slots[p]);
    hide StartOfMonth, StartOfDay, ShardOf, NextSlot, Places, IsSent, NextMessages;
    if !s.slots[p].Free? { NextSlotId(c, s, s.slots[p], step); }
  }

  lemma SlotKeepsWf(c: Config, s: State, p: Place, step: Step)
    requires Wf(c, s)
    ensures Wf(c, ApplySlot(c, s, p, step))
  {
    if p in s.slots {
      SlotKeepsMessages(c, s, p, step);
      SlotMovesOk(c, s, p, step);
      hide SlotOk, ApplySlot, Places;
      var t := ApplySlot(c, s, p, step);
      forall q | q in t.slots ensures SlotOk(c, t, q, t.slots[q]) {
        SlotOkMoves(c, s, t, q, t.slots[q]);
      }
    }
  }

  lemma StepKeepsWf(c: Config, s: State, step: Step)
    requires Wf(c, s)
    ensures Wf(c, Apply(c, s, step))
  {
    hide ApplySlot, ApplyUser, Wf;
    if PlaceOf(step).Some? {
      SlotKeepsWf(c, s, PlaceOf(step).value, step);
    } else {
      UserKeepsWf(c, s, step);
    }
  }

  lemma {:induction false} RunKeepsWf(c: Config, s: State, steps: seq<Step>)
    requires Wf(c, s)
    ensures Wf(c, Exec(c, s, steps))
    decreases |steps|
  {
    hide Wf, Apply;
    if steps != [] {
      StepKeepsWf(c, s, steps[0]);
      RunKeepsWf(c, Apply(c, s, steps[0]), steps[1..]);
    }
  }

  lemma InitWf(c: Config, s: State)
    requires Init(c, s)
    ensures Wf(c, s)
  {
  }

  // ---------------------------------------------------------------- one job per message

  predicate InQueue(s: State, id: MessageId) { id in s.pending || id in s.jobs }

  /** One job of the message in the queue at most, and only while it is QUEUED; a provider's id is
      only ever that of a sent message. */
  predicate QueueOk(s: State, id: MessageId) {
    && s.pending[id] + s.jobs[id] <= 1
    && (InQueue(s, id) ==> id < |s.messages| && s.messages[id].status == QUEUED)
    && (id < |s.messages| && s.messages[id].providerMessageId.Some? ==> IsSent(s.messages[id].status))
  }

  predicate InHand(status: Status) { status == QUEUED || status == PROCESSING }

  /** The message of a busy slot is neither in the queue nor sent nor failed. */
  predicate HeldOk(s: State, slot: Slot) {
    slot.Free? || (slot.id < |s.messages| && !InQueue(s, slot.id) && InHand(s.messages[slot.id].status))
  }

  predicate SameMessage(a: Slot, b: Slot) { !a.Free? && !b.Free? && a.id == b.id }

  /** A message has at most one job, in the queue or in a slot, and none once it is sent or failed. */
  ghost predicate Solo(s: State) {
    && (forall id: MessageId :: QueueOk(s, id))
    && (forall p | p in s.slots :: HeldOk(s, s.slots[p]))
    && (forall p, q | p in s.slots && q in s.slots && SameMessage(s.slots[p], s.slots[q]) :: p == q)
  }

  /** The retry of a message that did not fail. */
  predicate BadRetry(s: State, step: Step) {
    step.Retry? && step.id < |s.messages| && s.messages[step.id].status != FAILED
  }

  /** Away from one message, nothing about queue and status changes. */
  ghost predicate OneMessageMoves(s: State, t: State, id: MessageId) {
    && |s.messages| <= |t.messages| && t.slots == s.slots
    && (forall k: MessageId | k != id :: t.pending[k] == s.pending[k] && t.jobs[k] == s.jobs[k])
    && (forall k: MessageId | k != id && k < |s.messages| :: t.messages[k] == s.messages[k])
    && (|t.messages| == |s.messages| || (|t.messages| == |s.messages| + 1 && id == |s.messages|))
  }

  lemma OneMessageKeepsSolo(s: State, t: State, id: MessageId)
    requires Solo(s) && OneMessageMoves(s, t, id) && QueueOk(t, id)
    requires forall p | p in s.slots :: s.slots[p].Free? || s.slots[p].id != id
    ensures Solo(t)
  {
    forall k: MessageId ensures QueueOk(t, k) {
      assert QueueOk(s, k);
    }
    forall p | p in t.slots ensures HeldOk(t, t.slots[p]) {
      assert HeldOk(s, s.slots[p]);
    }
  }

  /** Nobody holds a message that is in the queue, or whose status is not that of a held one. */
  lemma NotHeld(s: State, id: MessageId)
    requires Solo(s) && (InQueue(s, id) || id >= |s.messages| || !InHand(s.messages[id].status))
    ensures forall p | p in s.slots :: s.slots[p].Free? || s.slots[p].id != id
  {
    forall p | p in s.slots ensures s.slots[p].Free? || s.slots[p].id != id {
      assert HeldOk(s, s.slots[p]);
    }
  }

  lemma ReceiptKeepsSolo(c: Config, s: State, w: WorkspaceId, u: Update)
    requires Solo(s)
    ensures Solo(ApplyUser(c, s, Receipt(w, u)))
  {
    hide Raised;
    var t := ApplyUser(c, s, Receipt(w, u));
    forall id: MessageId ensures QueueOk(t, id) {
      assert QueueOk(s, id);
      if id < |s.messages| { ReceiptRow(s.messages, w, u, id); }
    }
    forall p | p in t.slots ensures HeldOk(t, t.slots[p]) {
      assert HeldOk(s, s.slots[p]);
      if !s.slots[p].Free? {
        assert QueueOk(s, s.slots[p].id);
        ReceiptRow(s.messages, w, u, s.slots[p].id);
      }
    }
  }

  lemma SendKeepsSolo(c: Config, s: State, d: DeviceId)
    requires Solo(s)
    ensures Solo(ApplyUser(c, s, Send(d)))
  {
    hide Solo;
    if d in c.home {
      AllQueueOk(s, |s.messages|);
      NotHeld(s, |s.messages|);
      OneMessageKeepsSolo(s, ApplyUser(c, s, Send(d)), |s.messages|);
    }
  }

  lemma RetryKeepsSolo(c: Config, s: State, id: MessageId)
    requires Solo(s) && !BadRetry(s, Retry(id))
    ensures Solo(ApplyUser(c, s, Retry(id)))
  {
    hide Solo;
    if id < |s.messages| {
      AllQueueOk(s, id);
      NotHeld(s, id);
      OneMessageKeepsSolo(s, ApplyUser(c, s, Retry(id)), id);
    }
  }

  lemma EnqueueKeepsSolo(c: Config, s: State, id: MessageId)
    requires Solo(s)
    ensures Solo(ApplyUser(c, s, Enqueue(id)))
  {
    hide Solo;
    if id in s.pending {
      AllQueueOk(s, id);
      NotHeld(s, id);
      OneMessageKeepsSolo(s, ApplyUser(c, s, Enqueue(id)), id);
    }
  }

  lemma UserKeepsSolo(c: Config, s: State, step: Step)
    requires Solo(s) && PlaceOf(step).None? && !BadRetry(s, step)
    ensures Solo(ApplyUser(c, s, step))
  {
    hide Raised, Solo;
    match step
    case Receipt(w, u) => ReceiptKeepsSolo(c, s, w, u);
    case Send(d) => SendKeepsSolo(c, s, d);
    case Retry(id) => RetryKeepsSolo(c, s, id);
    case Enqueue(id) => EnqueueKeepsSolo(c, s, id);
    case Advance(_) => ClockKeepsSolo(s, ApplyUser(c, s, step));
  }

  lemma AllQueueOk(s: State, id: MessageId)
    requires Solo(s)
    ensures QueueOk(s, id)
  {
  }

  lemma ClockKeepsSolo(s: State, t: State)
    requires Solo(s) && t == s.(clock := t.clock)
    ensures Solo(t)
  {
    forall id: MessageId ensures QueueOk(t, id) {
      assert QueueOk(s, id);
    }
    forall p | p in t.slots ensures HeldOk(t, t.slots[p]) {
      assert HeldOk(s, s.slots[p]);
    }
  }

  lemma FetchKeepsSolo(c: Config, s: State, p: Place, id: MessageId)
    requires Solo(s) && p in s.slots && s.slots[p].Free?
    ensures Solo(TakeJob(c, s, p, id))
  {
    hide ShardOf;
    var t := TakeJob(c, s, p, id);
    assert QueueOk(s, id);
    forall k: MessageId ensures QueueOk(t, k) {
      assert QueueOk(s, k);
    }
    forall q | q in t.slots ensures HeldOk(t, t.slots[q]) && (q != p ==> !SameMessage(t.slots[p], t.slots[q])) {
      assert HeldOk(s, s.slots[q]);
    }
  }

  /** A step of a busy slot moves it on with its message, or frees it. */
  lemma BusySlotMoves(c: Config, s: State, p: Place, step: Step)
    requires p in s.slots && !s.slots[p].Free?
    ensures var t := ApplySlot(c, s, p, step);
      var id := s.slots[p].id;
      && t.pending == s.pending && t.jobs == s.jobs && |t.messages| == |s.messages| && t.slots.Keys == s.slots.Keys
      && (forall q | q in s.slots && q != p :: t.slots[q] == s.slots[q])
      && (forall k | 0 <= k < |s.messages| && k != id :: t.messages[k] == s.messages[k])
      && (t.slots[p].Free? || t.slots[p].id == id)
      && (id < |s.messages| && !t.slots[p].Free? ==>
            t.messages[id].status == s.messages[id].status || t.messages[id].status == PROCESSING)
      && (id < |s.messages| && t.messages[id].providerMessageId != s.messages[id].providerMessageId ==>
            t.slots[p].Free? && t.messages[id].status == SENT)
  {
    NextSlotId(c, s, s.slots[p], step);
    FreedByLastWrite(c, s, s.slots[p], step);
    WritesOwnMessage(s.messages, s.slots[p], step);
    hide NextSlot, NextMessages;
  }

  lemma WritesOwnMessage(messages: seq<Message>, slot: Slot, step: Step)
    requires !slot.Free?
    ensures var ms := NextMessages(messages, slot, step);
      && |ms| == |messages|
      && (forall k | 0 <= k < |messages| && k != slot.id :: ms[k] == messages[k])
      && (slot.id < |messages| ==>
            var m, n := messages[slot.id], ms[slot.id];
            || n == m
            || n == m.(status := PROCESSING)
            || (slot.Failing? && step.WriteFailed? && n == m.(status := FAILED))
            || (slot.Stamped? && step.WriteSent? && n.status == SENT))
  {
  }

  lemma FreedByLastWrite(c: Config, s: State, slot: Slot, step: Step)
    requires !slot.Free?
    ensures NextSlot(c, s, slot, step).Free?
        <==> (slot.Stamped? && step.WriteSent?) || (slot.Failing? && step.WriteFailed?)
  {
    hide StartOfMonth, StartOfDay, SentSince, Quota, DailyLimit;
  }

  lemma BusySlotKeepsSolo(c: Config, s: State, p: Place, step: Step)
    requires Solo(s) && p in s.slots && !s.slots[p].Free?
    ensures Solo(ApplySlot(c, s, p, step))
  {
    BusySlotMoves(c, s, p, step);
    hide ApplySlot;
    var t := ApplySlot(c, s, p, step);
    assert HeldOk(s, s.slots[p]);
    forall id: MessageId ensures QueueOk(t, id) {
      assert QueueOk(s, id);
    }
    forall q | q in t.slots ensures HeldOk(t, t.slots[q]) {
      assert HeldOk(s, s.slots[q]);
      if q != p { assert !SameMessage(s.slots[q], s.slots[p]); }
    }
    forall q, u | q in t.slots && u in t.slots && SameMessage(t.slots[q], t.slots[u]) ensures q == u {
      assert SameMessage(s.slots[q], s.slots[u]);
    }
  }

  lemma StepKeepsSolo(c: Config, s: State, step: Step)
    requires Solo(s) && !BadRetry(s, step)
    ensures Solo(Apply(c, s, step))
  {
    hide Solo, ApplyUser;
    if PlaceOf(step).None? {
      UserKeepsSolo(c, s, step);
    } else {
      SlotKeepsSolo(c, s, PlaceOf(step).value, step);
    }
  }

  lemma SlotKeepsSolo(c: Config, s: State, p: Place, step: Step)
    requires Solo(s)
    ensures Solo(ApplySlot(c, s, p, step))
  {
    hide Solo, TakeJob;
    if p in s.slots {
      if !s.slots[p].Free? {
        BusySlotKeepsSolo(c, s, p, step);
      } else if step.Fetch? {
        FetchKeepsSolo(c, s, p, step.id);
      }
    }
  }

  /** The run retries failed messages only. */
  ghost predicate FailedRetries(c: Config, s: State, steps: seq<Step>)
    decreases |steps|
  {
    steps != [] ==> !BadRetry(s, steps[0]) && FailedRetries(c, Apply(c, s, steps[0]), steps[1..])
  }

  // ---------------------------------------------------------------- the limits

  predicate PastDay(slot: Slot) { slot.DayPassed? || slot.DeviceOk? || slot.Sending? || slot.Stamped? }

  /** A slot has passed the check of a limit and may still send. */
  predicate PastCheck(scope: Scope, slot: Slot) {
    match scope
    case DeviceDay(_) => PastDay(slot) && InScope(scope, slot.m)
    case WorkspaceMonth(_) => (slot.MonthPassed? || slot.DayRead? || PastDay(slot)) && InScope(scope, slot.m)
  }

  /** The slot may still add a row to the period that starts at `period`. */
  predicate MayCount(c: Config, scope: Scope, period: int, clock: int, slot: Slot) {
    && PastCheck(scope, slot)
    && if slot.Stamped? then Start(c, scope, slot.sentAt) == period else Start(c, scope, clock) <= period
  }

  function Holders(c: Config, scope: Scope, period: int, s: State): set<Place> {
    set p | p in s.slots && MayCount(c, scope, period, s.clock, s.slots[p])
  }

  predicate IsRow(c: Config, scope: Scope, period: int, m: Message) {
    InScope(scope, m) && IsSent(m.status) && Start(c, scope, m.sentAt) == period
  }

  /** The messages of a scope sent in a period. */
  function Rows(c: Config, scope: Scope, period: int, s: State): set<MessageId> {
    set id | 0 <= id < |s.messages| && IsRow(c, scope, period, s.messages[id])
  }

  /** The slots that may ever hold a message of a scope. */
  function Capacity(c: Config, scope: Scope): set<Place> {
    match scope
    case DeviceDay(d) => set p | p in Places(c.totalShards) && Owns(c, p.worker, d)
    case WorkspaceMonth(w) => set p | p in Places(c.totalShards) && p.worker in OwningWorkers(c, w)
  }

  /** The workers that own a device of the workspace. */
  function OwningWorkers(c: Config, w: WorkspaceId): set<int> {
    set d | d in c.home && c.home[d] == w :: ShardOf(d, c.totalShards)
  }

  /** Rows of the period, and slots that may still add one, together stay under the limit plus the
      slots there are. */
  ghost predicate Gate(c: Config, scope: Scope, s: State) {
    forall period: int ::
      |Rows(c, scope, period, s)| + |Holders(c, scope, period, s)| <= Limit(c, scope) - 1 + |Capacity(c, scope)|
  }

  ghost predicate Inv(c: Config, scope: Scope, s: State) {
    Wf(c, s) && Solo(s) && Gate(c, scope, s)
  }

  lemma SubsetSize<T>(a: set<T>, b: set<T>)
    requires a <= b
    ensures |a| <= |b|
  {
    assert b == a + (b - a);
  }

  lemma Subsets(c: Config, scope: Scope, period: int, s: State, t: State)
    requires Rows(c, scope, period, t) <= Rows(c, scope, period, s)
    requires Holders(c, scope, period, t) <= Holders(c, scope, period, s)
    ensures |Rows(c, scope, period, t)| + |Holders(c, scope, period, t)|
         <= |Rows(c, scope, period, s)| + |Holders(c, scope, period, s)|
  {
    SubsetSize(Rows(c, scope, period, t), Rows(c, scope, period, s));
    SubsetSize(Holders(c, scope, period, t), Holders(c, scope, period, s));
  }

  /** No user and no receipt adds a row to a period: a receipt only moves sent messages. */
  lemma UserRows(c: Config, scope: Scope, s: State, step: Step, period: int)
    requires Solo(s) && PlaceOf(step).None?
    ensures Rows(c, scope, period, ApplyUser(c, s, step)) <= Rows(c, scope, period, s)
  {
    hide Raised, Start, InScope;
    var t := ApplyUser(c, s, step);
    forall id | id in Rows(c, scope, period, t) ensures id in Rows(c, scope, period, s) {
      if step.Receipt? {
        assert QueueOk(s, id);
        ReceiptRow(s.messages, step.workspaceId, step.u, id);
        ReceiptScope(scope, s.messages[id], t.messages[id]);
      }
    }
  }

  lemma ReceiptScope(scope: Scope, m: Message, n: Message)
    requires n == m.(status := n.status)
    ensures InScope(scope, m) == InScope(scope, n)
  {
  }

  lemma UserKeepsGate(c: Config, scope: Scope, s: State, step: Step)
    requires Solo(s) && Gate(c, scope, s) && PlaceOf(step).None?
    ensures Gate(c, scope, ApplyUser(c, s, step))
  {
    UserKeepsMessages(c, s, step);
    hide Start, Capacity, Limit, ApplyUser, Solo, PastCheck, Rows;
    var t := ApplyUser(c, s, step);
    forall period: int
      ensures |Rows(c, scope, period, t)| + |Holders(c, scope, period, t)| <= Limit(c, scope) - 1 + |Capacity(c, scope)|
    {
      assert Start(c, scope, s.clock) <= Start(c, scope, t.clock) by { Periods(c, scope, s.clock, t.clock); }
      UserRows(c, scope, s, step, period);
      Subsets(c, scope, period, s, t);
    }
  }

  lemma HoldersFit(c: Config, scope: Scope, period: int, s: State)
    requires Wf(c, s)
    ensures |Holders(c, scope, period, s)| <= |Capacity(c, scope)|
  {
    hide ShardOf, Places, Start;
    forall p | p in Holders(c, scope, period, s) ensures p in Capacity(c, scope) {
      var slot := s.slots[p];
      assert SlotOk(c, s, p, slot);
      if scope.WorkspaceMonth? {
        assert slot.m.deviceId in c.home && c.home[slot.m.deviceId] == scope.workspaceId;
      }
    }
    SubsetSize(Holders(c, scope, period, s), Capacity(c, scope));
  }

  /** Passing a check: fewer rows than the limit were seen since a start not after the current
      period's, and every other slot may be past the check too. */
  lemma PassKeepsGate(c: Config, scope: Scope, s: State, p: Place, slot: Slot, start: int)
    requires Gate(c, scope, s) && p in s.slots && Wf(c, Put(s, p, slot))
    requires !slot.Free? && !slot.Stamped?
    requires start <= Start(c, scope, s.clock) && |SentSince(s.messages, scope, start)| < Limit(c, scope)
    ensures Gate(c, scope, Put(s, p, slot))
  {
    hide Start, Wf, Capacity, Limit, InScope;
    var t := Put(s, p, slot);
    forall period: int
      ensures |Rows(c, scope, period, t)| + |Holders(c, scope, period, t)| <= Limit(c, scope) - 1 + |Capacity(c, scope)|
    {
      if Start(c, scope, s.clock) <= period {
        forall id | id in Rows(c, scope, period, t) ensures id in SentSince(s.messages, scope, start) {
          Periods(c, scope, s.messages[id].sentAt, s.messages[id].sentAt);
        }
        SubsetSize(Rows(c, scope, period, t), SentSince(s.messages, scope, start));
        HoldersFit(c, scope, period, t);
      } else {
        Subsets(c, scope, period, s, t);
      }
    }
  }

  lemma WriteSentSets(c: Config, scope: Scope, s: State, p: Place, period: int)
    requires Wf(c, s) && p in s.slots && s.slots[p].Stamped?
    ensures var t := ApplySlot(c, s, p, WriteSent(p));
      var slot := s.slots[p];
      && Holders(c, scope, period, t) == Holders(c, scope, period, s) - {p}
      && Rows(c, scope, period, t) <= Rows(c, scope, period, s)
           + if InScope(scope, slot.m) && Start(c, scope, slot.sentAt) == period then {slot.id} else {}
  {
    hide Start, ShardOf, Places;
    assert SlotOk(c, s, p, s.slots[p]);
  }

  /** Writing SENT turns a slot that may add a row into that row. */
  lemma WriteSentKeepsGate(c: Config, scope: Scope, s: State, p: Place)
    requires Wf(c, s) && Gate(c, scope, s) && p in s.slots && s.slots[p].Stamped?
    ensures Gate(c, scope, ApplySlot(c, s, p, WriteSent(p)))
  {
    hide Start, Capacity, Limit, Wf, ApplySlot, InScope, Rows;
    var t := ApplySlot(c, s, p, WriteSent(p));
    var slot := s.slots[p];
    forall period: int
      ensures |Rows(c, scope, period, t)| + |Holders(c, scope, period, t)| <= Limit(c, scope) - 1 + |Capacity(c, scope)|
    {
      WriteSentSets(c, scope, s, p, period);
      if InScope(scope, slot.m) && Start(c, scope, slot.sentAt) == period {
        assert p in Holders(c, scope, period, s);
        SubsetSize(Rows(c, scope, period, t), Rows(c, scope, period, s) + {slot.id});
      } else {
        Subsets(c, scope, period, s, t);
      }
    }
  }

  /** The step lets a slot past the check of the scope. */
  predicate Passes(c: Config, scope: Scope, s: State, p: Place, step: Step) {
    && p in s.slots && (step.CountMonth? || step.CountDay?)
    && !PastCheck(scope, s.slots[p])
    && p in ApplySlot(c, s, p, step).slots && PastCheck(scope, ApplySlot(c, s, p, step).slots[p])
  }

  lemma PassesKeepsGate(c: Config, scope: Scope, s: State, p: Place, step: Step)
    requires Wf(c, s) && Gate(c, scope, s) && Passes(c, scope, s, p, step)
    ensures Gate(c, scope, ApplySlot(c, s, p, step))
  {
    hide StartOfMonth, StartOfDay, Capacity, ShardOf, Places, SentSince, Gate;
    SlotKeepsWf(c, s, p, step);
    var slot := s.slots[p];
    assert SlotOk(c, s, p, slot);
    PassKeepsGate(c, scope, s, p, ApplySlot(c, s, p, step).slots[p], slot.start);
  }

  lemma OtherSlotRows(c: Config, scope: Scope, s: State, p: Place, step: Step, period: int)
    requires !(p in s.slots && s.slots[p].Stamped? && step.WriteSent?)
    ensures Rows(c, scope, period, ApplySlot(c, s, p, step)) <= Rows(c, scope, period, s)
  {
    hide Start, SentSince, Quota, DailyLimit, StartOfDay, StartOfMonth, ShardOf;
  }

  /** Only a count lets a slot past a check, when the limit is one. */
  lemma PastByCount(c: Config, scope: Scope, s: State, slot: Slot, step: Step)
    requires !slot.Free? && Limit(c, scope) >= 1 && !PastCheck(scope, slot)
    requires InScope(scope, slot.m) && slot.m.deviceId in c.home && c.home[slot.m.deviceId] == slot.m.workspaceId
    requires PastCheck(scope, NextSlot(c, s, slot, step))
    ensures step.CountMonth? || step.CountDay?
  {
    hide StartOfMonth, StartOfDay, SentSince;
  }

  /** What a step makes of a slot, seen from the checks. */
  ghost predicate NoNewPast(scope: Scope, a: Slot, b: Slot, clock: int) {
    && (PastCheck(scope, b) ==> PastCheck(scope, a))
    && (b.Stamped? && !a.Stamped? ==> b.sentAt == clock)
    && (a.Stamped? ==> b == a || b.Free?)
  }

  lemma FreeSlotPast(c: Config, scope: Scope, s: State, p: Place, step: Step)
    requires p in s.slots && s.slots[p].Free?
    ensures NoNewPast(scope, s.slots[p], ApplySlot(c, s, p, step).slots[p], s.clock)
  {
    hide Owns, IsSent, InScope;
  }

  lemma BusySlotPast(c: Config, scope: Scope, s: State, slot: Slot, step: Step)
    requires !slot.Free? && Limit(c, scope) >= 1
    requires slot.m.deviceId in c.home && c.home[slot.m.deviceId] == slot.m.workspaceId
    requires (step.CountMonth? || step.CountDay?) && PastCheck(scope, NextSlot(c, s, slot, step))
      ==> PastCheck(scope, slot)
    ensures NoNewPast(scope, slot, NextSlot(c, s, slot, step), s.clock)
  {
    hide Limit, NextSlot, InScope;
    var n := NextSlot(c, s, slot, step);
    NextSlotId(c, s, slot, step);
    if PastCheck(scope, n) && !PastCheck(scope, slot) {
      PastByCount(c, scope, s, slot, step);
    }
  }

  lemma SlotOfHome(c: Config, s: State, p: Place)
    requires Wf(c, s) && p in s.slots && !s.slots[p].Free?
    ensures var m := s.slots[p].m; m.deviceId in c.home && c.home[m.deviceId] == m.workspaceId
  {
    assert SlotOk(c, s, p, s.slots[p]);
  }

  lemma OtherSlotPast(c: Config, scope: Scope, s: State, p: Place, step: Step)
    requires Wf(c, s) && Limit(c, scope) >= 1 && p in s.slots && !Passes(c, scope, s, p, step)
    ensures p in ApplySlot(c, s, p, step).slots
    ensures NoNewPast(scope, s.slots[p], ApplySlot(c, s, p, step).slots[p], s.clock)
  {
    hide Wf, Limit, NextSlot, NextMessages, PastCheck, NoNewPast, TakeJob;
    if s.slots[p].Free? {
      TakenSlot(c, s, p, step);
      FreeSlotPast(c, scope, s, p, step);
    } else {
      SlotOfHome(c, s, p);
      BusySlotPast(c, scope, s, s.slots[p], step);
    }
  }

  lemma TakenSlot(c: Config, s: State, p: Place, step: Step)
    requires p in s.slots
    ensures p in ApplySlot(c, s, p, step).slots
  {
    hide Owns, IsSent;
  }

  lemma OtherSlotHolders(c: Config, scope: Scope, s: State, p: Place, step: Step, period: int)
    requires Wf(c, s) && Limit(c, scope) >= 1 && p in s.slots && !Passes(c, scope, s, p, step)
    ensures Holders(c, scope, period, ApplySlot(c, s, p, step)) <= Holders(c, scope, period, s)
  {
    OtherSlotPast(c, scope, s, p, step);
    SlotKeepsMessages(c, s, p, step);
    hide Start, Limit, ApplySlot, PastCheck, Wf, Passes;
  }

  /** All other steps of a slot add neither rows nor slots past the check. */
  lemma OtherSlotStep(c: Config, scope: Scope, s: State, p: Place, step: Step)
    requires Wf(c, s) && Gate(c, scope, s) && Limit(c, scope) >= 1 && p in s.slots
    requires !Passes(c, scope, s, p, step) && !(s.slots[p].Stamped? && step.WriteSent?)
    ensures Gate(c, scope, ApplySlot(c, s, p, step))
  {
    hide Capacity, Limit, Rows, Holders, ApplySlot, Passes, Wf;
    var t := ApplySlot(c, s, p, step);
    forall period: int
      ensures |Rows(c, scope, period, t)| + |Holders(c, scope, period, t)| <= Limit(c, scope) - 1 + |Capacity(c, scope)|
    {
      OtherSlotRows(c, scope, s, p, step, period);
      OtherSlotHolders(c, scope, s, p, step, period);
      Subsets(c, scope, period, s, t);
    }
  }

  lemma SlotKeepsGate(c: Config, scope: Scope, s: State, p: Place, step: Step)
    requires Wf(c, s) && Gate(c, scope, s) && Limit(c, scope) >= 1
    requires step.WriteSent? ==> step.p == p
    ensures Gate(c, scope, ApplySlot(c, s, p, step))
  {
    if p in s.slots {
      hide ApplySlot, Wf, Limit, Gate, Passes;
      if s.slots[p].Stamped? && step.WriteSent? {
        WriteSentKeepsGate(c, scope, s, p);
      } else if Passes(c, scope, s, p, step) {
        PassesKeepsGate(c, scope, s, p, step);
      } else {
        OtherSlotStep(c, scope, s, p, step);
      }
    }
  }

  lemma StepKeepsInv(c: Config, scope: Scope, s: State, step: Step)
    requires Inv(c, scope, s) && Limit(c, scope) >= 1 && !BadRetry(s, step)
    ensures Inv(c, scope, Apply(c, s, step))
  {
    hide ApplySlot, ApplyUser, Limit, Gate, Wf, Solo, BadRetry;
    StepKeepsWf(c, s, step);
    StepKeepsSolo(c, s, step);
    if PlaceOf(step).Some? {
      SlotKeepsGate(c, scope, s, PlaceOf(step).value, step);
    } else {
      UserKeepsGate(c, scope, s, step);
    }
  }

  lemma {:induction false} RunKeepsInv(c: Config, scope: Scope, s: State, steps: seq<Step>)
    requires Inv(c, scope, s) && Limit(c, scope) >= 1 && FailedRetries(c, s, steps)
    ensures Inv(c, scope, Exec(c, s, steps))
    decreases |steps|
  {
    hide Inv, Apply, Limit, BadRetry;
    if steps != [] {
      StepKeepsInv(c, scope, s, steps[0]);
      RunKeepsInv(c, scope, Apply(c, s, steps[0]), steps[1..]);
    }
  }

  lemma InitInv(c: Config, scope: Scope, s: State)
    requires Init(c, s) && Limit(c, scope) >= 1
    ensures Inv(c, scope, s)
  {
    InitSolo(c, s);
    hide Start, Limit, Capacity, Solo;
    forall period: int
      ensures |Rows(c, scope, period, s)| + |Holders(c, scope, period, s)| <= Limit(c, scope) - 1 + |Capacity(c, scope)|
    {
      assert Rows(c, scope, period, s) == {};
      assert Holders(c, scope, period, s) == {};
    }
  }

  // ---------------------------------------------------------------- main results

  /** The slots of some workers. */
  function SlotsOf(workers: set<int>): set<Place> {
    set w: nat, k: nat | w in workers && k < SLOTS :: Place(w, k)
  }

  function Upto(workers: set<int>, n: nat): set<int> { set w | w in workers && w < n }

  lemma SlotsOfOneMore(workers: set<int>, w: nat)
    requires w !in workers
    ensures |SlotsOf(workers + {w})| == |SlotsOf(workers)| + SLOTS
  {
    var three := {Place(w, 0), Place(w, 1), Place(w, 2)};
    assert SlotsOf(workers + {w}) == SlotsOf(workers) + three;
    assert SlotsOf(workers) !! three;
  }

  lemma UptoNext(workers: set<int>, n: nat)
    ensures Upto(workers, n + 1) == if n in workers then Upto(workers, n) + {n} else Upto(workers, n)
  {
  }

  lemma NoSlots(workers: set<int>)
    requires forall w | w in workers :: 0 <= w
    ensures |SlotsOf(Upto(workers, 0))| == |Upto(workers, 0)| == 0
  {
    assert Upto(workers, 0) == {} && SlotsOf({}) == {};
  }

  lemma {:induction false} SlotsOfSize(workers: set<int>, n: nat)
    requires forall w | w in workers :: 0 <= w
    ensures |SlotsOf(Upto(workers, n))| == SLOTS * |Upto(workers, n)|
    decreases n
  {
    hide SlotsOf;
    if n == 0 {
      NoSlots(workers);
    } else {
      SlotsOfSize(workers, n - 1);
      UptoNext(workers, n - 1);
      assert n - 1 !in Upto(workers, n - 1);
      hide Upto;
      if n - 1 in workers {
        SlotsOfOneMore(Upto(workers, n - 1), n - 1);
      }
    }
  }

  lemma ShardsInRange(c: Config, w: WorkspaceId)
    requires c.totalShards >= 1
    ensures forall k | k in OwningWorkers(c, w) :: 0 <= k < c.totalShards
  {
    forall d: DeviceId ensures 0 <= ShardOf(d, c.totalShards) < c.totalShards {
    }
    hide ShardOf;
  }

  lemma WorkspacePlaces(c: Config, w: WorkspaceId)
    requires c.totalShards >= 1
    ensures |Capacity(c, WorkspaceMonth(w))| == SLOTS * |OwningWorkers(c, w)|
  {
    hide OwningWorkers;
    ShardsInRange(c, w);
    SlotsOfSize(OwningWorkers(c, w), c.totalShards);
    assert Upto(OwningWorkers(c, w), c.totalShards) == OwningWorkers(c, w);
    assert Capacity(c, WorkspaceMonth(w)) == SlotsOf(OwningWorkers(c, w));
  }

  lemma OwnedPlaces(c: Config, d: DeviceId)
    requires c.totalShards >= 1
    ensures |Capacity(c, DeviceDay(d))| == SLOTS
  {
    var w := ShardOf(d, c.totalShards);
    assert 0 <= w < c.totalShards;
    assert Capacity(c, DeviceDay(d)) == {Place(w, 0), Place(w, 1), Place(w, 2)};
  }

  /** In every run that retries failed messages only, the rows of a scope counted as sent in one
      period stay below the limit plus the slots there are. */
  lemma RowsBounded(c: Config, scope: Scope, s: State, steps: seq<Step>, period: int)
    requires Init(c, s) && Limit(c, scope) >= 1 && FailedRetries(c, s, steps)
    ensures |Rows(c, scope, period, Exec(c, s, steps))| <= Limit(c, scope) - 1 + |Capacity(c, scope)|
  {
    hide Exec, Limit, Capacity, Wf, Solo, FailedRetries;
    InitInv(c, scope, s);
    RunKeepsInv(c, scope, s, steps);
    assert |Holders(c, scope, period, Exec(c, s, steps))| >= 0;
  }

  /** The messages of a device that were sent in the 24 hours from `day` on. */
  function SentOnDay(messages: seq<Message>, d: DeviceId, day: int): set<MessageId> {
    set id | 0 <= id < |messages| && messages[id].deviceId == d && messages[id].status in {SENT, DELIVERED, READ}
             && day <= messages[id].sentAt < day + 86_400_000
  }

  /** The messages of a workspace that were sent in a month of the calendar. */
  function SentInMonth(messages: seq<Message>, w: WorkspaceId, year: int, month: int): set<MessageId> {
    set id | 0 <= id < |messages| && messages[id].workspaceId == w && messages[id].status in {SENT, DELIVERED, READ}
             && CivilOfDay(messages[id].sentAt / 86_400_000).year == year
             && CivilOfDay(messages[id].sentAt / 86_400_000).month == month
  }

  lemma DayRows(c: Config, d: DeviceId, t: State, day: int)
    requires (day + c.zone) % 86_400_000 == 0
    ensures Rows(c, DeviceDay(d), day, t) == SentOnDay(t.messages, d, day)
  {
    forall id: MessageId | id < |t.messages|
      ensures StartOfDay(c.zone, t.messages[id].sentAt) == day
         <==> day <= t.messages[id].sentAt < day + 86_400_000
    {
      DayStartsAtMidnight(c.zone, t.messages[id].sentAt);
    }
    hide StartOfDay;
  }

  lemma MonthNamed(t: int, year: int, month: int)
    requires 0 <= month < 12
    ensures StartOfMonth(t) == MakeDay(year, month, 1) * MS_PER_DAY
       <==> CivilOfDay(t / 86_400_000).year == year && CivilOfDay(t / 86_400_000).month == month
  {
    hide CivilOfDay, MakeDay, StartOfMonth;
    FirstOfMonth(t);
    FirstOf(year, month);
  }

  lemma MonthRows(c: Config, w: WorkspaceId, t: State, year: int, month: int)
    requires 0 <= month < 12
    ensures Rows(c, WorkspaceMonth(w), MakeDay(year, month, 1) * MS_PER_DAY, t)
         == SentInMonth(t.messages, w, year, month)
  {
    forall id: MessageId | id < |t.messages|
      ensures StartOfMonth(t.messages[id].sentAt) == MakeDay(year, month, 1) * MS_PER_DAY
         <==> CivilOfDay(t.messages[id].sentAt / 86_400_000).year == year
              && CivilOfDay(t.messages[id].sentAt / 86_400_000).month == month
    {
      MonthNamed(t.messages[id].sentAt, year, month);
    }
    hide StartOfMonth, CivilOfDay, MakeDay;
  }

  /** The messages of a device sent on one day never exceed the daily limit of its workspace's plan, or
      200 where there is no plan, by more than two. */
  lemma DailyOvershoot(c: Config, d: DeviceId, s: State, steps: seq<Step>, day: int, limit: int)
    requires Init(c, s) && c.totalShards >= 1 && FailedRetries(c, s, steps)
    requires d in c.home && (day + c.zone) % 86_400_000 == 0
    requires limit == if c.home[d] in c.plans then c.plans[c.home[d]].dailyDeviceLimit else 200
    requires limit >= 1
    ensures |SentOnDay(Exec(c, s, steps).messages, d, day)| <= limit + 2
  {
    assert Limit(c, DeviceDay(d)) == limit;
    hide Exec, Limit, Capacity, FailedRetries, Rows, SentOnDay;
    RowsBounded(c, DeviceDay(d), s, steps, day);
    OwnedPlaces(c, d);
    DayRows(c, d, Exec(c, s, steps), day);
  }

  /** With K workers owning devices of a workspace, its messages sent in one month never exceed the
      quota of its plan by more than 3K - 1. */
  lemma MonthlyOvershoot(c: Config, w: WorkspaceId, s: State, steps: seq<Step>, year: int, month: int)
    requires Init(c, s) && c.totalShards >= 1 && FailedRetries(c, s, steps) && 0 <= month < 12
    requires w in c.plans && c.plans[w].monthlyMessageQuota >= 1
    ensures var k := |set d | d in c.home && c.home[d] == w :: ShardOf(d, c.totalShards)|;
      |SentInMonth(Exec(c, s, steps).messages, w, year, month)| <= c.plans[w].monthlyMessageQuota + 3 * k - 1
  {
    assert Limit(c, WorkspaceMonth(w)) == c.plans[w].monthlyMessageQuota;
    assert OwningWorkers(c, w) == set d | d in c.home && c.home[d] == w :: ShardOf(d, c.totalShards);
    hide Exec, Limit, Capacity, OwningWorkers, FailedRetries, Rows, SentInMonth, ShardOf, MakeDay;
    RowsBounded(c, WorkspaceMonth(w), s, steps, MakeDay(year, month, 1) * MS_PER_DAY);
    WorkspacePlaces(c, w);
    MonthRows(c, w, Exec(c, s, steps), year, month);
  }

  function WorkersBelow(n: nat): (r: set<int>)
    ensures |r| == n && forall k :: k in r <==> 0 <= k < n
  {
    if n == 0 then {} else WorkersBelow(n - 1) + {n - 1}
  }

  /** At most all N workers own a device of a workspace. */
  lemma OwnersAreWorkers(c: Config, w: WorkspaceId)
    requires c.totalShards >= 1
    ensures |OwningWorkers(c, w)| <= c.totalShards
  {
    hide OwningWorkers;
    ShardsInRange(c, w);
    SubsetSize(OwningWorkers(c, w), WorkersBelow(c.totalShards));
  }

  /** In every run at all, a message is handed to a socket only by the worker that owns its device. */
  lemma OnlyOwnerSends(c: Config, s: State, steps: seq<Step>, p: Place)
    requires Init(c, s)
    requires p in Exec(c, s, steps).slots
    requires var slot := Exec(c, s, steps).slots[p]; slot.Sending? || slot.Stamped?
    ensures var t := Exec(c, s, steps);
      t.slots[p].id < |t.messages| && ShardOf(t.messages[t.slots[p].id].deviceId, c.totalShards) == p.worker
  {
    hide Exec, ShardOf;
    InitWf(c, s);
    RunKeepsWf(c, s, steps);
    var t := Exec(c, s, steps);
    assert SlotOk(c, t, p, t.slots[p]);
  }

  // ---------------------------------------------------------------- receipts among the writes

  /** The step writes SENT on message `id`. */
  predicate WritesSent(s: State, step: Step, id: MessageId) {
    step.WriteSent? && step.p in s.slots && s.slots[step.p].Stamped? && s.slots[step.p].id == id
  }

  ghost predicate NeverSent(c: Config, s: State, steps: seq<Step>, id: MessageId)
    decreases |steps|
  {
    steps != [] ==> !WritesSent(s, steps[0], id) && NeverSent(c, Apply(c, s, steps[0]), steps[1..], id)
  }

  /** A message that was never marked SENT, nor touched by a receipt. */
  predicate Unsent(s: State, id: MessageId) {
    id < |s.messages| ==> s.messages[id].providerMessageId.None? && !IsSent(s.messages[id].status)
  }

  lemma SlotStaysUnsent(c: Config, s: State, p: Place, step: Step, id: MessageId)
    requires Unsent(s, id) && PlaceOf(step) == Some(p) && !WritesSent(s, step, id)
    ensures Unsent(ApplySlot(c, s, p, step), id)
  {
    hide StartOfMonth, StartOfDay, ShardOf, SentSince, Quota, DailyLimit;
  }

  lemma UserStaysUnsent(c: Config, s: State, step: Step, id: MessageId)
    requires Unsent(s, id) && PlaceOf(step).None?
    ensures Unsent(ApplyUser(c, s, step), id)
  {
    hide Raised;
    if step.Receipt? && id < |s.messages| {
      ReceiptRow(s.messages, step.workspaceId, step.u, id);
    }
  }

  /** In every run at all, a message has no provider's id before it is marked SENT, so no receipt
      touches it before. */
  lemma {:induction false} NoReceiptBeforeSent(c: Config, s: State, steps: seq<Step>, id: MessageId)
    requires Unsent(s, id) && NeverSent(c, s, steps, id)
    ensures Unsent(Exec(c, s, steps), id)
    ensures forall w, u | id < |Exec(c, s, steps).messages| ::
      Raised(Exec(c, s, steps).messages, w, [u])[id] == Exec(c, s, steps).messages[id]
    decreases |steps|
  {
    hide ApplyUser, ApplySlot, WritesSent, Raised;
    if steps == [] {
      if id < |s.messages| {
        forall w, u ensures Raised(s.messages, w, [u])[id] == s.messages[id] {
          ReceiptRow(s.messages, w, u, id);
        }
      }
    } else {
      if PlaceOf(steps[0]).Some? {
        SlotStaysUnsent(c, s, PlaceOf(steps[0]).value, steps[0], id);
      } else {
        UserStaysUnsent(c, s, steps[0], id);
      }
      NoReceiptBeforeSent(c, Apply(c, s, steps[0]), steps[1..], id);
    }
  }

  /** The message stays sent, as it was sent, and its status does not move back. */
  predicate SentOnward(m: Message, n: Message) {
    n == m.(status := n.status) && IsSent(n.status) && Order(m.status) <= Order(n.status)
  }

  lemma SlotKeepsSent(c: Config, s: State, p: Place, step: Step, id: MessageId)
    requires Solo(s) && id < |s.messages| && IsSent(s.messages[id].status)
    ensures var t := ApplySlot(c, s, p, step);
      id < |t.messages| && t.messages[id] == s.messages[id]
  {
    if p in s.slots && !s.slots[p].Free? {
      assert HeldOk(s, s.slots[p]);
      BusySlotMoves(c, s, p, step);
      hide ApplySlot;
    } else {
      hide ShardOf;
    }
  }

  lemma StepKeepsSent(c: Config, s: State, step: Step, id: MessageId)
    requires Solo(s) && !BadRetry(s, step) && id < |s.messages| && IsSent(s.messages[id].status)
    ensures var t := Apply(c, s, step);
      id < |t.messages| && SentOnward(s.messages[id], t.messages[id])
  {
    hide Raised, ApplySlot;
    if step.Receipt? {
      ReceiptRow(s.messages, step.workspaceId, step.u, id);
    } else if PlaceOf(step).Some? {
      SlotKeepsSent(c, s, PlaceOf(step).value, step, id);
    }
  }

  /** In every run that retries failed messages only, with receipts and jobs in any order, a sent
      message stays sent, and its status never moves back. */
  lemma {:induction false} SentNeverMovesBack(c: Config, s: State, steps: seq<Step>, id: MessageId)
    requires Solo(s) && FailedRetries(c, s, steps) && id < |s.messages| && IsSent(s.messages[id].status)
    ensures id < |Exec(c, s, steps).messages| && SentOnward(s.messages[id], Exec(c, s, steps).messages[id])
    decreases |steps|
  {
    hide Apply, Solo, BadRetry;
    if steps != [] {
      StepKeepsSent(c, s, steps[0], id);
      StepKeepsSolo(c, s, steps[0]);
      SentNeverMovesBack(c, Apply(c, s, steps[0]), steps[1..], id);
    }
  }

  lemma InitSolo(c: Config, s: State)
    requires Init(c, s)
    ensures Solo(s)
  {
    forall id: MessageId ensures QueueOk(s, id) {
    }
    forall p | p in s.slots ensures HeldOk(s, s.slots[p]) {
    }
  }

  // ---------------------------------------------------------------- runs

  lemma {:induction false} ExecAppend(c: Config, s: State, a: seq<Step>, b: seq<Step>)
    ensures Exec(c, s, a + b) == Exec(c, Exec(c, s, a), b)
    decreases |a|
  {
    hide Apply;
    if a == [] {
      assert a + b == b;
    } else {
      assert (a + b)[1..] == a[1..] + b;
      ExecAppend(c, Apply(c, s, a[0]), a[1..], b);
    }
  }

  lemma ExecOne(c: Config, s: State, step: Step)
    ensures Exec(c, s, [step]) == Apply(c, s, step)
  {
    hide Apply;
    assert Exec(c, Apply(c, s, step), []) == Apply(c, s, step);
  }
}
