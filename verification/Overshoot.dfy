/** The runs in which the limits on sending are passed by as much as they can be when only failed
    messages are retried. */
module Overshoot {
  import opened Common
  import opened JsDate
  import opened Shard
  import opened Receipts
  import opened Messages

  // ---------------------------------------------------------------- one message

  /** A message as `send` creates it, and as it is once sent. */
  function New(c: Config, d: DeviceId): Message
    requires d in c.home
  {
    Message(d, c.home[d], QUEUED, 0, None)
  }

  function SentAt(c: Config, d: DeviceId, clock: int, key: string): Message
    requires d in c.home
  {
    Message(d, c.home[d], SENT, clock, Some(key))
  }

  /** A message is sent by a user, queued, taken by a slot and let past both checks. */
  function Pass(p: Place, d: DeviceId, id: MessageId): seq<Step> {
    [Send(d), Enqueue(id)] + [Fetch(p, id)] + [ReadMonth(p), CountMonth(p)] + [ReadDay(p), CountDay(p)]
  }

  /** The slot hands it to the socket, and writes it SENT. */
  function Deliver(p: Place, key: string): seq<Step> {
    [CheckDevice(p, true), MarkProcessing(p)] + [Transmit(p, Some(key)), WriteSent(p)]
  }

  /** No message from index `n` on is sent, so that every count reads `n` at most. */
  predicate FewSent(messages: seq<Message>, n: nat) {
    forall id | n <= id < |messages| :: !IsSent(messages[id].status)
  }

  /** Both limits of a workspace, where there are any, are above `n`. */
  predicate Room(c: Config, w: WorkspaceId, n: nat) {
    (Quota(c, w) <= 0 || n < Quota(c, w)) && (DailyLimit(c, w) <= 0 || n < DailyLimit(c, w))
  }

  function Below(n: nat): (r: set<MessageId>)
    ensures |r| == n && forall k: MessageId :: k in r <==> k < n
  {
    if n == 0 then {} else Below(n - 1) + {n - 1}
  }

  lemma CountSmall(messages: seq<Message>, scope: Scope, start: int, n: nat)
    requires FewSent(messages, n)
    ensures |SentSince(messages, scope, start)| <= n
  {
    hide InScope;
    SubsetSize(SentSince(messages, scope, start), Below(n));
  }

  lemma ExecTwo(c: Config, s: State, a: Step, b: Step)
    ensures Exec(c, s, [a, b]) == Apply(c, Apply(c, s, a), b)
  {
    hide Apply;
    ExecOne(c, s, a);
    ExecOne(c, Apply(c, s, a), b);
    ExecAppend(c, s, [a], [b]);
    assert [a] + [b] == [a, b];
  }

  lemma QueuesNew(c: Config, s: State, d: DeviceId)
    requires d in c.home
    ensures var id := |s.messages|;
      Exec(c, s, [Send(d), Enqueue(id)])
      == s.(messages := s.messages + [New(c, d)], jobs := s.jobs + multiset{id})
  {
    hide Exec;
    ExecTwo(c, s, Send(d), Enqueue(|s.messages|));
  }

  lemma TakesQueued(c: Config, s: State, p: Place, id: MessageId, jobs: multiset<MessageId>)
    requires p in s.slots && s.slots[p] == Free && id < |s.messages| && !IsSent(s.messages[id].status)
    requires Owns(c, p.worker, s.messages[id].deviceId) && s.jobs == jobs + multiset{id}
    ensures Apply(c, s, Fetch(p, id)) == s.(jobs := jobs, slots := s.slots[p := Fetched(id, s.messages[id])])
  {
    hide ShardOf;
    assert s.jobs - multiset{id} == jobs;
  }

  lemma TakesNew(c: Config, s: State, p: Place, d: DeviceId)
    requires d in c.home && p in s.slots && s.slots[p] == Free && Owns(c, p.worker, d)
    ensures var id := |s.messages|;
      Exec(c, s, [Send(d), Enqueue(id)] + [Fetch(p, id)])
      == s.(messages := s.messages + [New(c, d)], slots := s.slots[p := Fetched(id, New(c, d))])
  {
    hide Exec, Apply, Owns;
    var id := |s.messages|;
    QueuesNew(c, s, d);
    var t := Exec(c, s, [Send(d), Enqueue(id)]);
    TakesQueued(c, t, p, id, s.jobs);
    ExecAppend(c, s, [Send(d), Enqueue(id)], [Fetch(p, id)]);
    ExecOne(c, t, Fetch(p, id));
  }

  lemma PassesMonth(c: Config, s: State, p: Place, id: MessageId, m: Message, n: nat)
    requires p in s.slots && s.slots[p] == Fetched(id, m) && FewSent(s.messages, n) && Room(c, m.workspaceId, n)
    ensures Exec(c, s, [ReadMonth(p), CountMonth(p)]) == s.(slots := s.slots[p := MonthPassed(id, m)])
  {
    hide Exec, SentSince, StartOfMonth, Quota;
    ExecTwo(c, s, ReadMonth(p), CountMonth(p));
    CountSmall(s.messages, WorkspaceMonth(m.workspaceId), StartOfMonth(s.clock), n);
    var start := StartOfMonth(s.clock);
    assert s.slots[p := MonthRead(id, m, start)][p := MonthPassed(id, m)] == s.slots[p := MonthPassed(id, m)];
    assert s.slots[p := MonthPassed(id, m)][p := MonthPassed(id, m)] == s.slots[p := MonthPassed(id, m)];
  }

  lemma PassesDay(c: Config, s: State, p: Place, id: MessageId, m: Message, n: nat)
    requires p in s.slots && s.slots[p] == MonthPassed(id, m) && FewSent(s.messages, n) && Room(c, m.workspaceId, n)
    ensures Exec(c, s, [ReadDay(p), CountDay(p)]) == s.(slots := s.slots[p := DayPassed(id, m)])
  {
    hide Exec, SentSince, StartOfDay, DailyLimit;
    ExecTwo(c, s, ReadDay(p), CountDay(p));
    CountSmall(s.messages, DeviceDay(m.deviceId), StartOfDay(c.zone, s.clock), n);
    var start := StartOfDay(c.zone, s.clock);
    assert s.slots[p := DayRead(id, m, start)][p := DayPassed(id, m)] == s.slots[p := DayPassed(id, m)];
    assert s.slots[p := DayPassed(id, m)][p := DayPassed(id, m)] == s.slots[p := DayPassed(id, m)];
  }

  lemma FewSentNew(c: Config, messages: seq<Message>, d: DeviceId, n: nat)
    requires d in c.home && FewSent(messages, n)
    ensures FewSent(messages + [New(c, d)], n)
  {
  }

  /** A new message passes both checks while few are sent. */
  lemma PassAdds(c: Config, s: State, p: Place, d: DeviceId, n: nat)
    requires d in c.home && p in s.slots && s.slots[p] == Free && Owns(c, p.worker, d)
    requires FewSent(s.messages, n) && Room(c, c.home[d], n)
    ensures var id := |s.messages|;
      Exec(c, s, Pass(p, d, id))
      == s.(messages := s.messages + [New(c, d)], slots := s.slots[p := DayPassed(id, New(c, d))])
  {
    hide Exec, Room, FewSent, Owns;
    var id := |s.messages|;
    var a, b, e := [Send(d), Enqueue(id)] + [Fetch(p, id)], [ReadMonth(p), CountMonth(p)], [ReadDay(p), CountDay(p)];
    TakesNew(c, s, p, d);
    FewSentNew(c, s.messages, d, n);
    var s1 := Exec(c, s, a);
    PassesMonth(c, s1, p, id, New(c, d), n);
    var s2 := Exec(c, s1, b);
    PassesDay(c, s2, p, id, New(c, d), n);
    ExecAppend(c, s, a, b);
    ExecAppend(c, s, a + b, e);
  }

  lemma StartsSending(c: Config, s: State, p: Place, id: MessageId, m: Message)
    requires p in s.slots && s.slots[p] == DayPassed(id, m)
    ensures Exec(c, s, [CheckDevice(p, true), MarkProcessing(p)])
         == s.(slots := s.slots[p := Sending(id, m)], messages := Marked(s.messages, id, PROCESSING))
  {
    hide Exec, Marked;
    ExecTwo(c, s, CheckDevice(p, true), MarkProcessing(p));
    assert s.slots[p := DeviceOk(id, m)][p := Sending(id, m)] == s.slots[p := Sending(id, m)];
  }

  lemma EndsSending(c: Config, s: State, p: Place, id: MessageId, m: Message, key: string)
    requires p in s.slots && s.slots[p] == Sending(id, m)
    ensures Exec(c, s, [Transmit(p, Some(key)), WriteSent(p)])
         == s.(slots := s.slots[p := Free], messages := MarkedSent(s.messages, id, s.clock, key))
  {
    hide Exec, MarkedSent;
    ExecTwo(c, s, Transmit(p, Some(key)), WriteSent(p));
    assert s.slots[p := Stamped(id, m, s.clock, key)][p := Free] == s.slots[p := Free];
  }

  /** A slot past the checks sends its message whatever was sent since. */
  lemma DeliverSends(c: Config, s: State, p: Place, id: MessageId, m: Message, key: string)
    requires p in s.slots && s.slots[p] == DayPassed(id, m) && id < |s.messages|
    ensures Exec(c, s, Deliver(p, key))
         == s.(slots := s.slots[p := Free], messages := MarkedSent(s.messages, id, s.clock, key))
  {
    hide Exec, Apply;
    StartsSending(c, s, p, id, m);
    var t := Exec(c, s, [CheckDevice(p, true), MarkProcessing(p)]);
    EndsSending(c, t, p, id, m, key);
    assert s.slots[p := Sending(id, m)][p := Free] == s.slots[p := Free];
    assert MarkedSent(Marked(s.messages, id, PROCESSING), id, s.clock, key) == MarkedSent(s.messages, id, s.clock, key);
    ExecAppend(c, s, [CheckDevice(p, true), MarkProcessing(p)], [Transmit(p, Some(key)), WriteSent(p)]);
  }

  /** One message after another by one slot. */
  lemma SingleSends(c: Config, s: State, p: Place, d: DeviceId, n: nat, key: string)
    requires d in c.home && p in s.slots && s.slots[p] == Free && Owns(c, p.worker, d)
    requires FewSent(s.messages, n) && Room(c, c.home[d], n)
    ensures Exec(c, s, Pass(p, d, |s.messages|) + Deliver(p, key))
         == s.(messages := s.messages + [SentAt(c, d, s.clock, key)])
  {
    hide Exec, Room, FewSent, Owns, Pass, Deliver;
    var id := |s.messages|;
    PassAdds(c, s, p, d, n);
    var t := Exec(c, s, Pass(p, d, id));
    DeliverSends(c, t, p, id, New(c, d), key);
    ExecAppend(c, s, Pass(p, d, id), Deliver(p, key));
    assert s.slots[p := DayPassed(id, New(c, d))][p := Free] == s.slots;
    assert (s.messages + [New(c, d)])[id := SentAt(c, d, s.clock, key)] == s.messages + [SentAt(c, d, s.clock, key)];
  }

  // ---------------------------------------------------------------- up to the limit, one by one

  function Singles(p: Place, d: DeviceId, n: nat): seq<Step> {
    if n == 0 then [] else Singles(p, d, n - 1) + (Pass(p, d, n - 1) + Deliver(p, ""))
  }

  lemma {:induction false} SinglesRun(c: Config, s: State, p: Place, d: DeviceId, n: nat)
    requires d in c.home && p in s.slots && s.slots[p] == Free && Owns(c, p.worker, d) && s.messages == []
    requires n > 0 ==> Room(c, c.home[d], n - 1)
    ensures Exec(c, s, Singles(p, d, n)) == s.(messages := seq(n, _ => SentAt(c, d, s.clock, "")))
    decreases n
  {
    hide Apply, Pass, Deliver, Owns;
    if n == 0 {
      assert s.messages == seq(0, _ => SentAt(c, d, s.clock, ""));
    } else {
      SinglesRun(c, s, p, d, n - 1);
      hide Room;
      assert n > 1 ==> Room(c, c.home[d], n - 2) by { LessRoom(c, c.home[d], n - 1); }
      var t := Exec(c, s, Singles(p, d, n - 1));
      SingleSends(c, t, p, d, n - 1, "");
      ExecAppend(c, s, Singles(p, d, n - 1), Pass(p, d, n - 1) + Deliver(p, ""));
      assert seq(n, _ => SentAt(c, d, s.clock, ""))
          == seq(n - 1, _ => SentAt(c, d, s.clock, "")) + [SentAt(c, d, s.clock, "")];
    }
  }

  lemma LessRoom(c: Config, w: WorkspaceId, n: nat)
    requires Room(c, w, n)
    ensures n > 0 ==> Room(c, w, n - 1)
  {
  }

  // ---------------------------------------------------------------- then every slot at once

  /** Slots of distinct places and the devices whose messages they will take. */
  ghost predicate Crew(c: Config, s: State, ps: seq<Place>, ds: seq<DeviceId>) {
    && |ps| == |ds|
    && (forall i | 0 <= i < |ps| :: ps[i] in s.slots && ds[i] in c.home && Owns(c, ps[i].worker, ds[i]))
    && (forall i, j | 0 <= i < j < |ps| :: ps[i] != ps[j])
  }

  function PassAll(ps: seq<Place>, ds: seq<DeviceId>, first: nat, k: nat): seq<Step>
    requires k <= |ps| == |ds|
  {
    if k == 0 then [] else PassAll(ps, ds, first, k - 1) + Pass(ps[k - 1], ds[k - 1], first + k - 1)
  }

  function DeliverAll(ps: seq<Place>, k: nat): seq<Step>
    requires k <= |ps|
  {
    if k == 0 then [] else DeliverAll(ps, k - 1) + Deliver(ps[k - 1], "")
  }

  /** The messages after the first `k` of the crew have delivered and all of the first `n` have passed. */
  function CrewMessages(c: Config, ds: seq<DeviceId>, clock: int, n: nat, k: nat): (r: seq<Message>)
    requires n <= |ds| && forall i | 0 <= i < |ds| :: ds[i] in c.home
    ensures |r| == n
  {
    seq(n, i requires 0 <= i < n => if i < k then SentAt(c, ds[i], clock, "") else New(c, ds[i]))
  }

  /** The crew at work: `n` slots past the checks, the first `k` of them done. */
  ghost predicate AtWork(c: Config, s: State, t: State, ps: seq<Place>, ds: seq<DeviceId>, n: nat, k: nat) {
    && Crew(c, s, ps, ds) && k <= n <= |ps| && t.clock == s.clock && t.slots.Keys == s.slots.Keys
    && t.messages == s.messages + CrewMessages(c, ds, s.clock, n, k)
    && (forall i | 0 <= i < k || n <= i < |ps| :: t.slots[ps[i]] == Free)
    && (forall i | k <= i < n :: t.slots[ps[i]] == DayPassed(|s.messages| + i, New(c, ds[i])))
  }

  lemma OneMorePasses(c: Config, s: State, t: State, ps: seq<Place>, ds: seq<DeviceId>, n: nat)
    requires AtWork(c, s, t, ps, ds, n, 0) && n < |ps|
    requires Room(c, c.home[ds[n]], |s.messages|)
    ensures AtWork(c, s, Exec(c, t, Pass(ps[n], ds[n], |s.messages| + n)), ps, ds, n + 1, 0)
  {
    hide Exec, Room, Owns, Pass;
    assert FewSent(t.messages, |s.messages|);
    PassAdds(c, t, ps[n], ds[n], |s.messages|);
    assert CrewMessages(c, ds, s.clock, n + 1, 0) == CrewMessages(c, ds, s.clock, n, 0) + [New(c, ds[n])];
  }

  lemma OneMoreDelivers(c: Config, s: State, t: State, ps: seq<Place>, ds: seq<DeviceId>, k: nat)
    requires AtWork(c, s, t, ps, ds, |ps|, k) && k < |ps|
    ensures AtWork(c, s, Exec(c, t, Deliver(ps[k], "")), ps, ds, |ps|, k + 1)
  {
    hide Exec, Owns, Deliver;
    var id := |s.messages| + k;
    DeliverSends(c, t, ps[k], id, New(c, ds[k]), "");
    assert t.messages[id] == New(c, ds[k]);
    var u := Exec(c, t, Deliver(ps[k], ""));
    assert u.messages == s.messages + CrewMessages(c, ds, s.clock, |ps|, k + 1);
  }

  lemma {:induction false} AllPass(c: Config, s: State, ps: seq<Place>, ds: seq<DeviceId>, n: nat)
    requires AtWork(c, s, s, ps, ds, 0, 0) && n <= |ps|
    requires forall i | 0 <= i < |ps| :: Room(c, c.home[ds[i]], |s.messages|)
    ensures AtWork(c, s, Exec(c, s, PassAll(ps, ds, |s.messages|, n)), ps, ds, n, 0)
    decreases n
  {
    hide AtWork, Room, Pass, Apply;
    assert |ps| == |ds| && forall i | 0 <= i < |ps| :: ds[i] in c.home by { CrewOf(c, s, ps, ds); }
    if n > 0 {
      AllPass(c, s, ps, ds, n - 1);
      var t := Exec(c, s, PassAll(ps, ds, |s.messages|, n - 1));
      OneMorePasses(c, s, t, ps, ds, n - 1);
      ExecAppend(c, s, PassAll(ps, ds, |s.messages|, n - 1), Pass(ps[n - 1], ds[n - 1], |s.messages| + n - 1));
    }
  }

  lemma CrewOf(c: Config, s: State, ps: seq<Place>, ds: seq<DeviceId>)
    requires AtWork(c, s, s, ps, ds, 0, 0)
    ensures Crew(c, s, ps, ds)
  {
  }

  lemma {:induction false} AllDeliver(c: Config, s: State, t: State, ps: seq<Place>, ds: seq<DeviceId>, k: nat)
    requires AtWork(c, s, t, ps, ds, |ps|, 0) && k <= |ps|
    ensures AtWork(c, s, Exec(c, t, DeliverAll(ps, k)), ps, ds, |ps|, k)
    decreases k
  {
    hide AtWork, Deliver, Apply;
    if k > 0 {
      AllDeliver(c, s, t, ps, ds, k - 1);
      OneMoreDelivers(c, s, Exec(c, t, DeliverAll(ps, k - 1)), ps, ds, k - 1);
      ExecAppend(c, t, DeliverAll(ps, k - 1), Deliver(ps[k - 1], ""));
    }
  }

  /** Every message of the scope was sent now. */
  ghost predicate AllSentNow(scope: Scope, t: State) {
    forall id | 0 <= id < |t.messages| ::
      InScope(scope, t.messages[id]) && IsSent(t.messages[id].status) && t.messages[id].sentAt == t.clock
  }

  lemma AllAreRows(c: Config, scope: Scope, t: State)
    requires AllSentNow(scope, t)
    ensures |Rows(c, scope, Start(c, scope, t.clock), t)| == |t.messages|
  {
    hide Start;
    assert Rows(c, scope, Start(c, scope, t.clock), t) == Below(|t.messages|);
  }

  /** The messages of a crew lie in the scope. */
  predicate CrewInScope(c: Config, scope: Scope, ds: seq<DeviceId>) {
    forall i | 0 <= i < |ds| :: ds[i] in c.home && InScope(scope, New(c, ds[i]))
  }

  function FullRun(ps: seq<Place>, ds: seq<DeviceId>, n: nat): seq<Step>
    requires |ps| == |ds| > 0
  {
    Singles(ps[0], ds[0], n) + PassAll(ps, ds, n, |ps|) + DeliverAll(ps, |ps|)
  }

  /** A crew starts with free slots. */
  lemma CrewStarts(c: Config, s: State, t: State, ps: seq<Place>, ds: seq<DeviceId>)
    requires Init(c, s) && Crew(c, s, ps, ds) && t == s.(messages := t.messages)
    ensures AtWork(c, t, t, ps, ds, 0, 0)
  {
    assert t.messages == t.messages + CrewMessages(c, ds, t.clock, 0, 0);
  }

  /** From the start, `n` messages are sent one by one, and one more by every slot of the crew. */
  lemma FullRunSends(c: Config, s: State, scope: Scope, ps: seq<Place>, ds: seq<DeviceId>, n: nat)
    requires Init(c, s) && Crew(c, s, ps, ds) && |ps| > 0 && CrewInScope(c, scope, ds)
    requires forall i | 0 <= i < |ps| :: Room(c, c.home[ds[i]], n)
    ensures var t := Exec(c, s, FullRun(ps, ds, n));
      t.clock == s.clock && |t.messages| == n + |ps| && AllSentNow(scope, t)
  {
    CrewStarts(c, s, s, ps, ds);
    LessRoom(c, c.home[ds[0]], n);
    hide Exec, Init, Room, Singles, PassAll, DeliverAll, Owns;
    SinglesRun(c, s, ps[0], ds[0], n);
    var s1 := Exec(c, s, Singles(ps[0], ds[0], n));
    CrewStarts(c, s, s1, ps, ds);
    AllPass(c, s1, ps, ds, |ps|);
    var s2 := Exec(c, s1, PassAll(ps, ds, n, |ps|));
    AllDeliver(c, s1, s2, ps, ds, |ps|);
    ExecAppend(c, s, Singles(ps[0], ds[0], n), PassAll(ps, ds, n, |ps|));
    ExecAppend(c, s, Singles(ps[0], ds[0], n) + PassAll(ps, ds, n, |ps|), DeliverAll(ps, |ps|));
    CrewSent(c, scope, s1, Exec(c, s, FullRun(ps, ds, n)), ps, ds);
  }

  lemma CrewSent(c: Config, scope: Scope, s: State, t: State, ps: seq<Place>, ds: seq<DeviceId>)
    requires AtWork(c, s, t, ps, ds, |ps|, |ps|) && CrewInScope(c, scope, ds) && |ps| > 0
    requires s.messages == seq(|s.messages|, _ => SentAt(c, ds[0], s.clock, ""))
    ensures |t.messages| == |s.messages| + |ps| && AllSentNow(scope, t)
  {
    forall i | 0 <= i < |ds| ensures InScope(scope, SentAt(c, ds[i], s.clock, "")) {
      assert InScope(scope, New(c, ds[i]));
    }
    hide InScope, Owns;
    forall id | 0 <= id < |t.messages|
      ensures InScope(scope, t.messages[id]) && IsSent(t.messages[id].status) && t.messages[id].sentAt == t.clock
    {
      if id < |s.messages| {
        assert t.messages[id] == SentAt(c, ds[0], s.clock, "");
      } else {
        assert t.messages[id] == SentAt(c, ds[id - |s.messages|], s.clock, "");
      }
    }
  }

  // ---------------------------------------------------------------- without any retry

  predicate NoRetries(steps: seq<Step>) {
    forall k | 0 <= k < |steps| :: !steps[k].Retry?
  }

  lemma {:induction false} NoRetriesFailed(c: Config, s: State, steps: seq<Step>)
    requires NoRetries(steps)
    ensures FailedRetries(c, s, steps)
    decreases |steps|
  {
    hide Apply;
    if steps != [] {
      NoRetriesFailed(c, Apply(c, s, steps[0]), steps[1..]);
    }
  }

  lemma {:induction false} SinglesRetryNothing(p: Place, d: DeviceId, n: nat)
    ensures NoRetries(Singles(p, d, n))
    decreases n
  {
    if n > 0 { SinglesRetryNothing(p, d, n - 1); }
  }

  lemma {:induction false} PassAllRetriesNothing(ps: seq<Place>, ds: seq<DeviceId>, first: nat, k: nat)
    requires k <= |ps| == |ds|
    ensures NoRetries(PassAll(ps, ds, first, k))
    decreases k
  {
    if k > 0 { PassAllRetriesNothing(ps, ds, first, k - 1); }
  }

  lemma {:induction false} DeliverAllRetriesNothing(ps: seq<Place>, k: nat)
    requires k <= |ps|
    ensures NoRetries(DeliverAll(ps, k))
    decreases k
  {
    if k > 0 { DeliverAllRetriesNothing(ps, k - 1); }
  }

  lemma FullRunRetriesNothing(c: Config, s: State, ps: seq<Place>, ds: seq<DeviceId>, n: nat)
    requires |ps| == |ds| > 0
    ensures FailedRetries(c, s, FullRun(ps, ds, n))
  {
    hide Singles, PassAll, DeliverAll;
    SinglesRetryNothing(ps[0], ds[0], n);
    PassAllRetriesNothing(ps, ds, n, |ps|);
    DeliverAllRetriesNothing(ps, |ps|);
    NoRetriesFailed(c, s, FullRun(ps, ds, n));
  }

  // ---------------------------------------------------------------- the maxima

  lemma Reached(c: Config, s: State, scope: Scope, ps: seq<Place>, ds: seq<DeviceId>, n: nat)
    requires Init(c, s) && Crew(c, s, ps, ds) && |ps| > 0 && CrewInScope(c, scope, ds)
    requires forall i | 0 <= i < |ps| :: Room(c, c.home[ds[i]], n)
    ensures var steps := FullRun(ps, ds, n);
      FailedRetries(c, s, steps) && |Rows(c, scope, Start(c, scope, s.clock), Exec(c, s, steps))| == n + |ps|
  {
    FullRunSends(c, s, scope, ps, ds, n);
    FullRunRetriesNothing(c, s, ps, ds, n);
    hide Exec, Start, Rows, FailedRetries, AllSentNow, FullRun, Room, Crew, CrewInScope, Init;
    AllAreRows(c, scope, Exec(c, s, FullRun(ps, ds, n)));
  }

  /** `max` is the largest number of messages of the device that any run which retries failed messages
      only sends in the 24 hours from one midnight on. */
  ghost predicate IsDailyMaximum(c: Config, d: DeviceId, s: State, max: int) {
    && (forall steps, day | FailedRetries(c, s, steps) && (day + c.zone) % 86_400_000 == 0 ::
          |SentOnDay(Exec(c, s, steps).messages, d, day)| <= max)
    && (exists steps, day ::
          FailedRetries(c, s, steps) && (day + c.zone) % 86_400_000 == 0
          && |SentOnDay(Exec(c, s, steps).messages, d, day)| == max)
  }

  /** The same of a workspace and a month of the calendar. */
  ghost predicate IsMonthlyMaximum(c: Config, w: WorkspaceId, s: State, max: int) {
    && (forall steps, year, month | FailedRetries(c, s, steps) && 0 <= month < 12 ::
          |SentInMonth(Exec(c, s, steps).messages, w, year, month)| <= max)
    && (exists steps, year, month ::
          FailedRetries(c, s, steps) && 0 <= month < 12
          && |SentInMonth(Exec(c, s, steps).messages, w, year, month)| == max)
  }

  /** The three slots of its owner, all for one device. */
  lemma OwnCrew(c: Config, d: DeviceId, s: State) returns (ps: seq<Place>, ds: seq<DeviceId>)
    requires Init(c, s) && c.totalShards >= 1 && d in c.home
    ensures |ps| == 3 && ds == [d, d, d] && Crew(c, s, ps, ds)
  {
    var w := ShardOf(d, c.totalShards);
    assert 0 <= w < c.totalShards;
    hide ShardOf;
    ps, ds := [Place(w, 0), Place(w, 1), Place(w, 2)], [d, d, d];
  }

  lemma DailyReached(c: Config, d: DeviceId, s: State, l: int)
    requires Init(c, s) && c.totalShards >= 1 && d in c.home && l >= 1 && Room(c, c.home[d], l - 1)
    ensures exists steps, day ::
      FailedRetries(c, s, steps) && (day + c.zone) % 86_400_000 == 0
      && |SentOnDay(Exec(c, s, steps).messages, d, day)| == l + 2
  {
    hide Exec, Rows, FailedRetries, SentOnDay, StartOfDay, Room, FullRun, Init, Crew;
    var ps, ds := OwnCrew(c, d, s);
    Reached(c, s, DeviceDay(d), ps, ds, l - 1);
    var steps, day := FullRun(ps, ds, l - 1), StartOfDay(c.zone, s.clock);
    DayStartsAtMidnight(c.zone, s.clock);
    DayRows(c, d, Exec(c, s, steps), day);
    assert |SentOnDay(Exec(c, s, steps).messages, d, day)| == l + 2;
  }

  /** For every daily limit l >= 1 of a plan, or 200 without one, l + 2 is the maximum, when the quota q,
      if there is one, does not stop the device before its limit does. */
  lemma DailyMaximum(c: Config, d: DeviceId, s: State, q: int, l: int)
    requires Init(c, s) && c.totalShards >= 1 && d in c.home
    requires if c.home[d] in c.plans then c.plans[c.home[d]] == Plan(q, l) else q == 0 && l == 200
    requires l >= 1 && (q <= 0 || l <= q)
    ensures IsDailyMaximum(c, d, s, l + 2)
  {
    assert Room(c, c.home[d], l - 1);
    hide Exec, FailedRetries, SentOnDay, Room, Init;
    DailyReached(c, d, s, l);
    forall steps, day | FailedRetries(c, s, steps) && (day + c.zone) % 86_400_000 == 0
      ensures |SentOnDay(Exec(c, s, steps).messages, d, day)| <= l + 2
    {
      DailyOvershoot(c, d, s, steps, day, l);
    }
  }

  /** One device of the workspace for each of some workers. */
  ghost predicate OwnersOf(c: Config, w: WorkspaceId, workers: set<int>, owners: seq<DeviceId>) {
    && |owners| == |workers|
    && (forall k | 0 <= k < |owners| ::
          owners[k] in c.home && c.home[owners[k]] == w && ShardOf(owners[k], c.totalShards) in workers)
    && (forall j, k | 0 <= j < k < |owners| :: ShardOf(owners[j], c.totalShards) != ShardOf(owners[k], c.totalShards))
  }

  lemma {:induction false} PickOwners(c: Config, w: WorkspaceId, workers: set<int>) returns (owners: seq<DeviceId>)
    requires workers <= OwningWorkers(c, w)
    ensures OwnersOf(c, w, workers, owners)
    decreases |workers|
  {
    hide ShardOf;
    if workers == {} {
      owners := [];
    } else {
      var k :| k in workers;
      owners := PickOwners(c, w, workers - {k});
      var d :| d in c.home && c.home[d] == w && ShardOf(d, c.totalShards) == k;
      owners := owners + [d];
    }
  }

  /** The slots of the owners' workers, three for each. */
  function CrewPlaces(c: Config, owners: seq<DeviceId>): seq<Place>
    requires c.totalShards >= 1
  {
    seq(SLOTS * |owners|, i requires 0 <= i < SLOTS * |owners| =>
      Place(ShardOf(owners[i / SLOTS], c.totalShards), i % SLOTS))
  }

  function CrewDevices(owners: seq<DeviceId>): seq<DeviceId> {
    seq(SLOTS * |owners|, i requires 0 <= i < SLOTS * |owners| => owners[i / SLOTS])
  }

  lemma WholeCrew(c: Config, s: State, w: WorkspaceId, workers: set<int>, owners: seq<DeviceId>)
    requires Init(c, s) && c.totalShards >= 1 && OwnersOf(c, w, workers, owners)
    ensures Crew(c, s, CrewPlaces(c, owners), CrewDevices(owners))
    ensures CrewInScope(c, WorkspaceMonth(w), CrewDevices(owners))
    ensures forall i | 0 <= i < |CrewDevices(owners)| :: c.home[CrewDevices(owners)[i]] == w
  {
    var ps := CrewPlaces(c, owners);
    forall k | 0 <= k < |owners| ensures 0 <= ShardOf(owners[k], c.totalShards) < c.totalShards {
    }
    hide ShardOf;
    forall i, j | 0 <= i < j < |ps| ensures ps[i] != ps[j] {
      if i / SLOTS == j / SLOTS {
        assert i == SLOTS * (i / SLOTS) + i % SLOTS && j == SLOTS * (j / SLOTS) + j % SLOTS;
      }
    }
  }

  lemma MonthlyReached(c: Config, w: WorkspaceId, s: State, q: int)
    requires Init(c, s) && c.totalShards >= 1 && q >= 1 && Room(c, w, q - 1) && |OwningWorkers(c, w)| > 0
    ensures exists steps, year, month ::
      FailedRetries(c, s, steps) && 0 <= month < 12
      && |SentInMonth(Exec(c, s, steps).messages, w, year, month)| == q + 3 * |OwningWorkers(c, w)| - 1
  {
    hide Exec, Rows, FailedRetries, Room, Init, Crew, CrewInScope, OwningWorkers;
    hide StartOfMonth, SentInMonth, CivilOfDay, MakeDay, FullRun;
    var owners := PickOwners(c, w, OwningWorkers(c, w));
    WholeCrew(c, s, w, OwningWorkers(c, w), owners);
    var ps, ds := CrewPlaces(c, owners), CrewDevices(owners);
    Reached(c, s, WorkspaceMonth(w), ps, ds, q - 1);
    var steps, now := FullRun(ps, ds, q - 1), CivilOfDay(s.clock / 86_400_000);
    FirstOfMonth(s.clock);
    MonthRows(c, w, Exec(c, s, steps), now.year, now.month);
    assert |SentInMonth(Exec(c, s, steps).messages, w, now.year, now.month)| == q + 3 * |OwningWorkers(c, w)| - 1;
  }

  /** For every quota q >= 1 of a plan and every workspace that has a device, q + 3K - 1 is the maximum,
      where the devices of the workspace lie on K shards, when the daily limit l, if there is one, is not
      below the quota. */
  lemma MonthlyMaximum(c: Config, w: WorkspaceId, s: State, q: int, l: int)
    requires Init(c, s) && c.totalShards >= 1 && (exists d :: d in c.home && c.home[d] == w)
    requires w in c.plans && c.plans[w] == Plan(q, l) && q >= 1 && (l <= 0 || q <= l)
    ensures var k := |set d | d in c.home && c.home[d] == w :: ShardOf(d, c.totalShards)|;
      IsMonthlyMaximum(c, w, s, q + 3 * k - 1)
  {
    var d :| d in c.home && c.home[d] == w;
    assert ShardOf(d, c.totalShards) in OwningWorkers(c, w);
    assert OwningWorkers(c, w) == set e | e in c.home && c.home[e] == w :: ShardOf(e, c.totalShards);
    assert Room(c, w, q - 1);
    hide Exec, FailedRetries, Room, Init, ShardOf, OwningWorkers, SentInMonth;
    MonthlyReached(c, w, s, q);
    forall steps, year, month | FailedRetries(c, s, steps) && 0 <= month < 12
      ensures |SentInMonth(Exec(c, s, steps).messages, w, year, month)| <= q + 3 * |OwningWorkers(c, w)| - 1
    {
      MonthlyOvershoot(c, w, s, steps, year, month);
    }
  }
}
