/** One slot of the messages processor, as methods over the tables and the queue, with the steps of
    everybody else at its awaits. */
module MessagesQueue {
  import opened Common
  import opened JsDate
  import opened Shard
  import opened Receipts
  import opened Messages

  ghost predicate Avoids(steps: seq<Step>, p: Place) {
    forall k | 0 <= k < |steps| :: PlaceOf(steps[k]) != Some(p)
  }

  lemma OthersKeepSlot(c: Config, s: State, step: Step, p: Place)
    requires PlaceOf(step) != Some(p) && p in s.slots
    ensures p in Apply(c, s, step).slots && Apply(c, s, step).slots[p] == s.slots[p]
  {
    hide NextSlot, NextMessages, Raised, ShardOf;
  }

  /** What one call of `process` is about: its message, what the device row and the socket answer,
      and the steps others may take meanwhile. */
  datatype Call = Call(id: MessageId, connected: bool, answer: Option<string>, theirs: set<Step>)

  /** A step of the call's own slot is about its message and its answers; any other is given. */
  predicate Fits(call: Call, p: Place, step: Step) {
    if PlaceOf(step) != Some(p) then step in call.theirs
    else
      && (step.Fetch? ==> step.id == call.id)
      && (step.CheckDevice? ==> step.connected == call.connected)
      && (step.Transmit? ==> step.answer == call.answer)
  }

  ghost predicate Fit(call: Call, p: Place, steps: seq<Step>) {
    forall k | 0 <= k < |steps| :: Fits(call, p, steps[k])
  }

  /** A schedule holds steps of others only, and those the call allows. */
  ghost predicate Theirs(call: Call, p: Place, schedule: seq<seq<Step>>) {
    forall k | 0 <= k < |schedule| :: Avoids(schedule[k], p) && Fit(call, p, schedule[k])
  }

  function StepsOf(schedule: seq<seq<Step>>): set<Step> {
    set k, x | 0 <= k < |schedule| && x in schedule[k] :: x
  }

  lemma ScheduleFits(id: MessageId, connected: bool, answer: Option<string>, p: Place, schedule: seq<seq<Step>>)
    requires forall k | 0 <= k < |schedule| :: Avoids(schedule[k], p)
    ensures Theirs(Call(id, connected, answer, StepsOf(schedule)), p, schedule)
  {
    forall k, i | 0 <= k < |schedule| && 0 <= i < |schedule[k]| ensures schedule[k][i] in StepsOf(schedule) {
      assert schedule[k][i] in schedule[k];
    }
  }

  lemma NoSteps(c: Config, s: State)
    ensures Exec(c, s, []) == s
  {
  }

  lemma MessageOfSlot(c: Config, s: State, p: Place)
    requires Wf(c, s) && p in s.slots && !s.slots[p].Free?
    ensures s.slots[p].id < |s.messages|
  {
    assert SlotOk(c, s, p, s.slots[p]);
  }

  lemma Extends(c: Config, start: State, trace: seq<Step>, step: Step, t: State)
    requires t == Apply(c, Exec(c, start, trace), step)
    ensures t == Exec(c, start, trace + [step])
  {
    hide Exec, Apply;
    ExecAppend(c, start, trace, [step]);
    ExecOne(c, Exec(c, start, trace), step);
  }

  lemma FitSnoc(call: Call, p: Place, steps: seq<Step>, step: Step)
    requires Fit(call, p, steps) && Fits(call, p, step)
    ensures Fit(call, p, steps + [step])
  {
  }

  /** A step a slot has taken extends the run, and keeps it well formed. */
  lemma Acted(c: Config, call: Call, p: Place, start: State, trace: seq<Step>, step: Step, s: State, t: State)
    requires s == Exec(c, start, trace) && Wf(c, s) && t == Apply(c, s, step)
    requires Fit(call, p, trace) && Fits(call, p, step)
    ensures t == Exec(c, start, trace + [step]) && Wf(c, t) && Fit(call, p, trace + [step])
  {
    hide Exec, Apply, Wf;
    Extends(c, start, trace, step, t);
    StepKeepsWf(c, s, step);
    FitSnoc(call, p, trace, step);
  }

  lemma EmptyFits(call: Call, p: Place)
    ensures Avoids([], p) && Fit(call, p, [])
  {
  }

  /** What the two counts decide, in the terms of the plan and the table. */
  lemma MonthCheckMeans(c: Config, rows: seq<Message>, w: WorkspaceId, start: int)
    ensures var count := |set k | 0 <= k < |rows| && rows[k].workspaceId == w
                              && rows[k].status in {SENT, DELIVERED, READ} && rows[k].sentAt >= start|;
      (Quota(c, w) <= 0 || |SentSince(rows, WorkspaceMonth(w), start)| < Quota(c, w)) <==>
      (w in c.plans && c.plans[w].monthlyMessageQuota > 0 ==> count < c.plans[w].monthlyMessageQuota)
  {
    assert SentSince(rows, WorkspaceMonth(w), start)
        == set k | 0 <= k < |rows| && rows[k].workspaceId == w && rows[k].status in {SENT, DELIVERED, READ}
                   && rows[k].sentAt >= start;
  }

  lemma DayCheckMeans(c: Config, rows: seq<Message>, w: WorkspaceId, d: DeviceId, start: int)
    ensures var count := |set k | 0 <= k < |rows| && rows[k].deviceId == d
                              && rows[k].status in {SENT, DELIVERED, READ} && rows[k].sentAt >= start|;
      (DailyLimit(c, w) <= 0 || |SentSince(rows, DeviceDay(d), start)| < DailyLimit(c, w)) <==>
      if w in c.plans then c.plans[w].dailyDeviceLimit <= 0 || count < c.plans[w].dailyDeviceLimit else count < 200
  {
    assert SentSince(rows, DeviceDay(d), start)
        == set k | 0 <= k < |rows| && rows[k].deviceId == d && rows[k].status in {SENT, DELIVERED, READ}
                   && rows[k].sentAt >= start;
  }

  datatype Outcome = Ignored | Requeued | Delivered | Rejected

  /** The fields are the tables, the queue, the clock and where every slot is; between two awaits, the
      others take the steps of the next entry of `schedule`. */
  class MessagesProcessor {
    const c: Config
    const me: Place
    var clock: int
    var messages: seq<Message>
    var pending: multiset<MessageId>
    var jobs: multiset<MessageId>
    var slots: map<Place, Slot>

    constructor (c: Config, me: Place, now: int)
      requires me in Places(c.totalShards)
      ensures this.c == c && this.me == me && Valid() && slots[me] == Free && Init(c, Abs())
    {
      this.c, this.me, clock, messages, pending, jobs := c, me, now, [], multiset{}, multiset{};
      slots := map p | p in Places(c.totalShards) :: Free;
      new;
      InitWf(c, Abs());
    }

    ghost function Abs(): State
      reads this
    {
      State(clock, messages, pending, jobs, slots)
    }

    ghost predicate Valid()
      reads this
    {
      Wf(c, Abs()) && me in slots
    }

    /** The run so far: it fits the call, and has led here. */
    ghost predicate Ran(call: Call, start: State, trace: seq<Step>)
      reads this
    {
      Valid() && Abs() == Exec(c, start, trace) && Fit(call, me, trace)
    }

    method Others(steps: seq<Step>, ghost call: Call, ghost start: State, ghost trace: seq<Step>)
      returns (ghost more: seq<Step>)
      requires Ran(call, start, trace) && Avoids(steps, me) && Fit(call, me, steps)
      modifies this
      ensures Ran(call, start, more) && more == trace + steps && slots[me] == old(slots[me])
    {
      hide Exec, Apply, Wf;
      more := trace;
      assert trace + steps[..0] == trace;
      assert Fit(call, me, trace + steps);
      for i := 0 to |steps|
        invariant Valid() && slots[me] == old(slots[me])
        invariant Abs() == Exec(c, start, more) && more == trace + steps[..i]
      {
        StepKeepsWf(c, Abs(), steps[i]);
        OthersKeepSlot(c, Abs(), steps[i], me);
        Extends(c, start, more, steps[i], Apply(c, Abs(), steps[i]));
        var t := Apply(c, State(clock, messages, pending, jobs, slots), steps[i]);
        clock, messages, pending, jobs, slots := t.clock, t.messages, t.pending, t.jobs, t.slots;
        assert trace + steps[..i + 1] == more + [steps[i]];
        more := more + [steps[i]];
      }
      assert steps[..|steps|] == steps;
    }

    /** A step of this slot that moves it on, and the others' next. */
    method MoveOn(slot: Slot, ghost step: Step, theirs: seq<Step>,
                  ghost call: Call, ghost start: State, ghost trace: seq<Step>)
      returns (ghost more: seq<Step>)
      requires Ran(call, start, trace) && Fits(call, me, step) && Avoids(theirs, me) && Fit(call, me, theirs)
      requires Apply(c, Abs(), step) == Put(Abs(), me, slot)
      modifies this
      ensures Ran(call, start, more) && more == trace + [step] + theirs && slots[me] == slot
    {
      ghost var s := Abs();
      slots := slots[me := slot];
      hide Exec, Wf, Apply, Fit;
      Acted(c, call, me, start, trace, step, s, Abs());
      more := Others(theirs, call, start, trace + [step]);
    }

    /** The monthly quota of the workspace's plan: the slot passes when there is no plan or no quota, or
        when the count of the workspace's messages sent since the first of the month, taken at some point
        of the run, is below it. The month is the one read at the call. */
    method CheckMonth(id: MessageId, m: Message, schedule: seq<seq<Step>>,
                      ghost call: Call, ghost start: State, ghost trace: seq<Step>)
      returns (passed: bool, ghost more: seq<Step>, ghost at: nat, ghost month: int)
      requires Ran(call, start, trace) && slots[me] == Fetched(id, m)
      requires |schedule| == 2 && Theirs(call, me, schedule)
      modifies this
      ensures Ran(call, start, more) && trace <= more && |trace| <= at <= |more|
      ensures slots[me] == if passed then MonthPassed(id, m) else Failing(id, m)
      ensures month <= old(clock) && month % 86_400_000 == 0
      ensures CivilOfDay(month / 86_400_000) == CivilOfDay(old(clock) / 86_400_000).(date := 1)
      ensures var w, rows := m.workspaceId, Exec(c, start, more[..at]).messages;
        var count := |set k | 0 <= k < |rows| && rows[k].workspaceId == w
                              && rows[k].status in {SENT, DELIVERED, READ} && rows[k].sentAt >= month|;
        passed <==> (w in c.plans && c.plans[w].monthlyMessageQuota > 0 ==> count < c.plans[w].monthlyMessageQuota)
    {
      hide Exec, Wf, SentSince, StartOfMonth, Avoids, Fit, Quota, CivilOfDay;
      month := StartOfMonth(clock);
      MonthStartsOnFirst(clock);
      var monthlyQuota := Quota(c, m.workspaceId);
      if monthlyQuota > 0 {
        var startOfMonth := StartOfMonth(clock);
        more := MoveOn(MonthRead(id, m, startOfMonth), ReadMonth(me), schedule[0], call, start, trace);
        at := |more|;
        ghost var before := more;
        var sentThisMonth := |SentSince(messages, WorkspaceMonth(m.workspaceId), startOfMonth)|;
        passed := sentThisMonth < monthlyQuota;
        more := MoveOn(if passed then MonthPassed(id, m) else Failing(id, m), CountMonth(me),
                       schedule[1], call, start, more);
        assert more[..at] == before;
      } else {
        passed, at := true, |trace|;
        EmptyFits(call, me);
        more := MoveOn(MonthPassed(id, m), ReadMonth(me), [], call, start, trace);
      }
      MonthCheckMeans(c, Exec(c, start, more[..at]).messages, m.workspaceId, month);
    }

    /** The daily limit, in the same way: it counts the device's messages sent since midnight of the
        server's day. It is the plan's, where 0 is none, and 200 without a plan. */
    method CheckDay(id: MessageId, m: Message, schedule: seq<seq<Step>>,
                    ghost call: Call, ghost start: State, ghost trace: seq<Step>)
      returns (passed: bool, ghost more: seq<Step>, ghost at: nat, ghost midnight: int)
      requires Ran(call, start, trace) && slots[me] == MonthPassed(id, m)
      requires |schedule| == 2 && Theirs(call, me, schedule)
      modifies this
      ensures Ran(call, start, more) && trace <= more && |trace| <= at <= |more|
      ensures slots[me] == if passed then DayPassed(id, m) else Failing(id, m)
      ensures midnight <= old(clock) < midnight + 86_400_000 && (midnight + c.zone) % 86_400_000 == 0
      ensures var w, rows := m.workspaceId, Exec(c, start, more[..at]).messages;
        var count := |set k | 0 <= k < |rows| && rows[k].deviceId == m.deviceId
                              && rows[k].status in {SENT, DELIVERED, READ} && rows[k].sentAt >= midnight|;
        passed <==> if w in c.plans then c.plans[w].dailyDeviceLimit <= 0 || count < c.plans[w].dailyDeviceLimit
                    else count < 200
    {
      hide Exec, Wf, SentSince, StartOfDay, Avoids, Fit, DailyLimit;
      midnight := StartOfDay(c.zone, clock);
      DayStartsAtMidnight(c.zone, clock);
      var dailyLimit := DailyLimit(c, m.workspaceId);
      if dailyLimit > 0 {
        var startOfDay := StartOfDay(c.zone, clock);
        more := MoveOn(DayRead(id, m, startOfDay), ReadDay(me), schedule[0], call, start, trace);
        at := |more|;
        ghost var before := more;
        var sentToday := |SentSince(messages, DeviceDay(m.deviceId), startOfDay)|;
        passed := sentToday < dailyLimit;
        more := MoveOn(if passed then DayPassed(id, m) else Failing(id, m), CountDay(me),
                       schedule[1], call, start, more);
        assert more[..at] == before;
      } else {
        passed, at := true, |trace|;
        EmptyFits(call, me);
        more := MoveOn(DayPassed(id, m), ReadDay(me), [], call, start, trace);
      }
      DayCheckMeans(c, Exec(c, start, more[..at]).messages, m.workspaceId, m.deviceId, midnight);
    }

    /** The write of PROCESSING. */
    method WriteProcessing(id: MessageId, m: Message, theirs: seq<Step>,
                           ghost call: Call, ghost start: State, ghost trace: seq<Step>)
      returns (ghost more: seq<Step>)
      requires Ran(call, start, trace) && slots[me] == DeviceOk(id, m) && Avoids(theirs, me) && Fit(call, me, theirs)
      modifies this
      ensures Ran(call, start, more) && more == trace + [MarkProcessing(me)] + theirs && slots[me] == Sending(id, m)
    {
      ghost var s := Abs();
      MessageOfSlot(c, s, me);
      messages := messages[id := messages[id].(status := PROCESSING)];
      slots := slots[me := Sending(id, m)];
      assert Abs() == Apply(c, s, MarkProcessing(me));
      hide Exec, Wf, Apply, Fit;
      Acted(c, call, me, start, trace, MarkProcessing(me), s, Abs());
      more := Others(theirs, call, start, trace + [MarkProcessing(me)]);
    }

    /** The device check, PROCESSING and the socket; what they answer are parameters. A sent message is
        stamped with the time at which the socket answered. */
    method Handover(id: MessageId, m: Message, connected: bool, answer: Option<string>, schedule: seq<seq<Step>>,
                    ghost call: Call, ghost start: State, ghost trace: seq<Step>)
      returns (sent: bool, ghost more: seq<Step>, ghost at: nat)
      requires Ran(call, start, trace) && slots[me] == DayPassed(id, m)
      requires |schedule| == 3 && Theirs(call, me, schedule)
      requires call.connected == connected && call.answer == answer
      modifies this
      ensures Ran(call, start, more) && trace <= more && |trace| <= at <= |more|
      ensures sent == (connected && answer.Some?)
      ensures slots[me]
           == if sent then Stamped(id, m, Exec(c, start, more[..at]).clock, answer.value) else Failing(id, m)
    {
      hide Exec, Wf, Avoids, Fit, SentSince;
      sent, at := connected && answer.Some?, |trace|;
      more := MoveOn(if connected then DeviceOk(id, m) else Failing(id, m), CheckDevice(me, connected),
                     schedule[0], call, start, trace);
      if connected {
        more := WriteProcessing(id, m, schedule[1], call, start, more);
        at := |more|;
        ghost var before := more;
        var slot := if answer.Some? then Stamped(id, m, clock, answer.value) else Failing(id, m);
        more := MoveOn(slot, Transmit(me, answer), schedule[2], call, start, more);
        assert more[..at] == before;
      }
    }

    /** The checks and the handover in order, up to the last write. */
    method Attempt(id: MessageId, m: Message, connected: bool, answer: Option<string>, schedule: seq<seq<Step>>,
                   ghost call: Call, ghost start: State, ghost trace: seq<Step>)
      returns (sent: bool, ghost more: seq<Step>)
      requires Ran(call, start, trace) && slots[me] == Fetched(id, m)
      requires |schedule| == 7 && Theirs(call, me, schedule)
      requires call.connected == connected && call.answer == answer
      modifies this
      ensures Ran(call, start, more) && trace <= more && (sent ==> connected && answer.Some?)
      ensures if sent then slots[me].Stamped? && slots[me].id == id && slots[me].m == m
                           && Some(slots[me].providerId) == answer
              else slots[me] == Failing(id, m)
    {
      hide Exec, Wf, Avoids, Fit, SentSince, Quota, DailyLimit, StartOfMonth, StartOfDay;
      ghost var at: nat, since: int;
      sent, more, at, since := CheckMonth(id, m, schedule[..2], call, start, trace);
      if sent {
        sent, more, at, since := CheckDay(id, m, schedule[2..4], call, start, more);
        if sent {
          sent, more, at := Handover(id, m, connected, answer, schedule[4..], call, start, more);
        }
      }
    }

    /** The last write: SENT with the stamped time and the provider's id, or FAILED. */
    method Finish(id: MessageId, sent: bool, ghost call: Call, ghost start: State, ghost trace: seq<Step>)
      returns (ghost more: seq<Step>)
      requires Ran(call, start, trace) && !slots[me].Free? && slots[me].id == id
      requires if sent then slots[me].Stamped? else slots[me].Failing?
      modifies this
      ensures Ran(call, start, more) && trace <= more && slots[me] == Free
      ensures id < |messages| == |old(messages)|
      ensures messages[id] ==
        if sent then
          old(messages)[id].(status := SENT, sentAt := old(slots[me].sentAt),
                             providerMessageId := Some(old(slots[me].providerId)))
        else old(messages)[id].(status := FAILED)
      ensures forall k | 0 <= k < |messages| && k != id :: messages[k] == old(messages)[k]
    {
      ghost var s := Abs();
      MessageOfSlot(c, s, me);
      ghost var step := if sent then WriteSent(me) else WriteFailed(me);
      if sent {
        messages := MarkedSent(messages, id, slots[me].sentAt, slots[me].providerId);
      } else {
        messages := Marked(messages, id, FAILED);
      }
      slots := slots[me := Free];
      assert Abs() == Apply(c, s, step);
      hide Exec, Wf, Apply, Fit;
      Acted(c, call, me, start, trace, step, s, Abs());
      more := trace + [step];
    }

    /** `process` of a job that the queue hands to this slot. The run it makes is of its own steps and
        the given ones of others, and its own go by what the device row and the socket answer: so a
        message is rejected only when a check, the device row or the socket says so. */
    method Process(id: MessageId, connected: bool, answer: Option<string>, schedule: seq<seq<Step>>)
      returns (outcome: Outcome, ghost trace: seq<Step>)
      requires Valid() && slots[me] == Free && id in jobs
      requires |schedule| == 8 && forall k | 0 <= k < 8 :: Avoids(schedule[k], me)
      modifies this
      ensures Valid() && slots[me] == Free
      ensures Abs() == Exec(c, old(Abs()), trace) && Fit(Call(id, connected, answer, StepsOf(schedule)), me, trace)
      ensures outcome.Ignored? <==> id >= |old(messages)| || old(messages)[id].status in {SENT, DELIVERED, READ}
      ensures outcome.Requeued? <==>
        id < |old(messages)| && old(messages)[id].status in {QUEUED, PROCESSING, FAILED}
        && ShardOf(old(messages)[id].deviceId, c.totalShards) != me.worker
      ensures outcome.Ignored? ==> Abs() == old(Abs()).(jobs := old(jobs) - multiset{id})
      ensures outcome.Requeued? ==> Abs() == old(Abs())
      ensures outcome.Delivered? || outcome.Rejected? ==>
        id < |messages| && messages[id].status == if outcome.Delivered? then SENT else FAILED
      ensures outcome.Delivered? ==> connected && answer.Some? && messages[id].providerMessageId == answer
    {
      hide Exec, Wf, Avoids, ShardOf, SentSince;
      ghost var start, call := Abs(), Call(id, connected, answer, StepsOf(schedule));
      ScheduleFits(id, connected, answer, me, schedule);
      trace := [];
      NoSteps(c, start);
      if id >= |messages| || IsSent(messages[id].status) {
        jobs := jobs - multiset{id};
        Acted(c, call, me, start, [], Fetch(me, id), start, Abs());
        return Ignored, [] + [Fetch(me, id)];
      }
      var m := messages[id];
      var shard := ShardForDevice(m.deviceId, c.totalShards);
      if shard != me.worker {
        return Requeued, trace;
      }
      jobs, slots := jobs - multiset{id}, slots[me := Fetched(id, m)];
      trace := Run(id, m, connected, answer, schedule, call, start);
      outcome := if messages[id].status == SENT then Delivered else Rejected;
    }

    /** The attempt and its last write, once the job is taken. */
    method Run(id: MessageId, m: Message, connected: bool, answer: Option<string>, schedule: seq<seq<Step>>,
               ghost call: Call, ghost start: State)
      returns (ghost trace: seq<Step>)
      requires me in slots && slots[me] == Fetched(id, m) && Wf(c, start) && Abs() == Apply(c, start, Fetch(me, id))
      requires |schedule| == 8 && Theirs(call, me, schedule)
      requires call.id == id && call.connected == connected && call.answer == answer
      modifies this
      ensures Ran(call, start, trace) && slots[me] == Free && id < |messages|
      ensures messages[id].status == FAILED
        || (messages[id].status == SENT && connected && answer.Some? && messages[id].providerMessageId == answer)
    {
      hide Exec, Wf, Avoids, Apply, Fit;
      NoSteps(c, start);
      EmptyFits(call, me);
      Acted(c, call, me, start, [], Fetch(me, id), start, Abs());
      trace := Others(schedule[0], call, start, [] + [Fetch(me, id)]);
      var sent: bool;
      sent, trace := Attempt(id, m, connected, answer, schedule[1..], call, start, trace);
      trace := Finish(id, sent, call, start, trace);
    }
  }
}
