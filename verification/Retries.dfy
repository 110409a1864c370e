/** Which retries the limits on sending bear: those of failed messages, and no others. */
module Retries {
  import opened Common
  import opened Shard
  import opened Receipts
  import opened Messages
  import opened Overshoot

  /** The step retries a message whose status is not among those allowed. */
  predicate RetryOutside(s: State, step: Step, allowed: set<Status>) {
    step.Retry? && step.id < |s.messages| && s.messages[step.id].status !in allowed
  }

  ghost predicate RetriesWithin(c: Config, s: State, steps: seq<Step>, allowed: set<Status>)
    decreases |steps|
  {
    steps != [] ==>
      !RetryOutside(s, steps[0], allowed) && RetriesWithin(c, Apply(c, s, steps[0]), steps[1..], allowed)
  }

  ghost predicate BoundedBy(c: Config, scope: Scope, s: State, allowed: set<Status>, bound: int) {
    forall steps, period | RetriesWithin(c, s, steps, allowed) ::
      |Rows(c, scope, period, Exec(c, s, steps))| <= bound
  }

  /** Some number bounds the rows of a scope in every period of every run with such retries. */
  ghost predicate HasBound(c: Config, scope: Scope, s: State, allowed: set<Status>) {
    exists bound :: BoundedBy(c, scope, s, allowed, bound)
  }

  lemma {:induction false} WithinAppend(c: Config, s: State, a: seq<Step>, b: seq<Step>, allowed: set<Status>)
    requires RetriesWithin(c, s, a, allowed) && RetriesWithin(c, Exec(c, s, a), b, allowed)
    ensures RetriesWithin(c, s, a + b, allowed)
    decreases |a|
  {
    hide Apply, RetryOutside;
    if a == [] {
      assert a + b == b;
    } else {
      assert (a + b)[1..] == a[1..] + b && (a + b)[0] == a[0];
      WithinAppend(c, Apply(c, s, a[0]), a[1..], b, allowed);
    }
  }

  lemma {:induction false} NoRetriesWithin(c: Config, s: State, steps: seq<Step>, allowed: set<Status>)
    requires NoRetries(steps)
    ensures RetriesWithin(c, s, steps, allowed)
    decreases |steps|
  {
    hide Apply;
    if steps != [] {
      NoRetriesWithin(c, Apply(c, s, steps[0]), steps[1..], allowed);
    }
  }

  lemma {:induction false} WithinFailed(c: Config, s: State, steps: seq<Step>, allowed: set<Status>)
    requires RetriesWithin(c, s, steps, allowed) && allowed <= {FAILED}
    ensures FailedRetries(c, s, steps)
    decreases |steps|
  {
    hide Apply;
    if steps != [] {
      WithinFailed(c, Apply(c, s, steps[0]), steps[1..], allowed);
    }
  }

  // ---------------------------------------------------------------- steps of a cycle

  /** A slot takes a job and passes both checks. */
  function Take(p: Place, id: MessageId): seq<Step> {
    [Fetch(p, id)] + ([ReadMonth(p), CountMonth(p)] + [ReadDay(p), CountDay(p)])
  }

  function Again(id: MessageId): seq<Step> { [Retry(id), Enqueue(id)] }

  function Fail(p: Place): seq<Step> { [CheckDevice(p, false), WriteFailed(p)] }

  lemma ChecksPass(c: Config, s: State, p: Place, id: MessageId, m: Message)
    requires p in s.slots && s.slots[p] == Fetched(id, m) && FewSent(s.messages, 0)
    ensures Exec(c, s, [ReadMonth(p), CountMonth(p)] + [ReadDay(p), CountDay(p)])
         == s.(slots := s.slots[p := DayPassed(id, m)])
  {
    NoneSentYet(c, m.workspaceId);
    hide Exec, Apply, Room, FewSent;
    var month := [ReadMonth(p), CountMonth(p)];
    PassesMonth(c, s, p, id, m, 0);
    PassesDay(c, Exec(c, s, month), p, id, m, 0);
    ExecAppend(c, s, month, [ReadDay(p), CountDay(p)]);
    assert s.slots[p := MonthPassed(id, m)][p := DayPassed(id, m)] == s.slots[p := DayPassed(id, m)];
  }

  lemma TakePasses(c: Config, s: State, p: Place, id: MessageId, jobs: multiset<MessageId>)
    requires p in s.slots && s.slots[p] == Free && id < |s.messages| && s.jobs == jobs + multiset{id}
    requires Owns(c, p.worker, s.messages[id].deviceId) && FewSent(s.messages, 0)
    ensures Exec(c, s, Take(p, id)) == s.(jobs := jobs, slots := s.slots[p := DayPassed(id, s.messages[id])])
  {
    var m := s.messages[id];
    assert !IsSent(m.status);
    hide Exec, Apply, Owns, FewSent;
    TakesQueued(c, s, p, id, jobs);
    ExecOne(c, s, Fetch(p, id));
    ChecksPass(c, s.(jobs := jobs, slots := s.slots[p := Fetched(id, m)]), p, id, m);
    ExecAppend(c, s, [Fetch(p, id)], [ReadMonth(p), CountMonth(p)] + [ReadDay(p), CountDay(p)]);
    assert s.slots[p := Fetched(id, m)][p := DayPassed(id, m)] == s.slots[p := DayPassed(id, m)];
  }

  lemma AgainQueues(c: Config, s: State, id: MessageId)
    requires id < |s.messages|
    ensures Exec(c, s, Again(id)) == s.(messages := Marked(s.messages, id, QUEUED), jobs := s.jobs + multiset{id})
  {
    hide Exec, Marked;
    ExecTwo(c, s, Retry(id), Enqueue(id));
  }

  lemma AgainWithin(c: Config, s: State, id: MessageId, allowed: set<Status>)
    requires id < |s.messages| && s.messages[id].status in allowed
    ensures RetriesWithin(c, s, Again(id), allowed)
    ensures RetriesWithin(c, s, [Retry(id)], allowed)
  {
    hide Apply;
    NoRetriesWithin(c, Apply(c, s, Retry(id)), [Enqueue(id)], allowed);
    assert Again(id)[1..] == [Enqueue(id)] && [Retry(id)][1..] == [];
  }

  lemma FailWrites(c: Config, s: State, p: Place, id: MessageId, m: Message)
    requires p in s.slots && s.slots[p] == DayPassed(id, m)
    ensures Exec(c, s, Fail(p)) == s.(slots := s.slots[p := Free], messages := Marked(s.messages, id, FAILED))
  {
    hide Exec, Marked;
    ExecTwo(c, s, CheckDevice(p, false), WriteFailed(p));
    assert s.slots[p := Failing(id, m)][p := Free] == s.slots[p := Free];
  }

  /** The provider's id of the `i`-th message. */
  function Key(i: nat): string { seq(i + 1, _ => 'x') }

  lemma KeysDiffer(i: nat, j: nat)
    ensures Key(i) != "" && (Key(i) == Key(j) ==> i == j)
  {
    assert |Key(i)| == i + 1 && |Key(j)| == j + 1;
  }

  /** `n` messages that were sent and left in a status out of the count; a receipt has since marked the
      first `k` DELIVERED. */
  function Stale(c: Config, d: DeviceId, clock: int, n: nat, left: Status, k: nat): (r: seq<Message>)
    requires d in c.home
    ensures |r| == n
  {
    seq(n, i requires 0 <= i < n => SentAt(c, d, clock, Key(i)).(status := if i < k then DELIVERED else left))
  }

  lemma StaleNext(c: Config, d: DeviceId, clock: int, n: nat, left: Status)
    requires d in c.home
    ensures Stale(c, d, clock, n + 1, left, 0)
         == Stale(c, d, clock, n, left, 0) + [SentAt(c, d, clock, Key(n)).(status := left)]
  {
    hide Key;
  }

  lemma StaleUncounted(c: Config, d: DeviceId, clock: int, n: nat, left: Status)
    requires d in c.home && !IsSent(left)
    ensures FewSent(Stale(c, d, clock, n, left, 0), 0)
    ensures FewSent(Stale(c, d, clock, n, left, 0) + [New(c, d)], 0)
  {
    hide Key;
  }

  // ---------------------------------------------------------------- receipts

  lemma KeyFound(messages: seq<Message>, w: WorkspaceId, k: nat)
    requires k < |messages|
    requires forall i | 0 <= i < |messages| ::
      messages[i].workspaceId == w && messages[i].providerMessageId == Some(Key(i))
    ensures FindFirst(messages, Key(k), w) == Some(k)
  {
    hide Key;
    var found := FindFirst(messages, Key(k), w);
    if found.Some? { KeysDiffer(k, found.value); }
  }

  lemma RaisedNothing(table: seq<Message>, w: WorkspaceId)
    ensures Raised(table, w, []) == table
  {
  }

  function ReceiptFor(k: nat, read: bool): Update { Update(true, DIRECT_SUFFIX, Key(k), Some(if read then 4 else 3)) }

  function Receipted(read: bool): Status { if read then READ else DELIVERED }

  /** A receipt for the `k`-th message finds it. */
  lemma ReceiptRaises(messages: seq<Message>, w: WorkspaceId, k: nat, read: bool)
    requires k < |messages| && Order(messages[k].status) < Order(Receipted(read))
    requires forall i | 0 <= i < |messages| ::
      messages[i].workspaceId == w && messages[i].providerMessageId == Some(Key(i))
    ensures Raised(messages, w, [ReceiptFor(k, read)])
         == messages[k := messages[k].(status := Receipted(read))]
  {
    hide Key, Raised, FindFirst;
    KeysDiffer(k, k);
    KeyFound(messages, w, k);
    RaisedNothing(messages, w);
    RaisedNext(messages, w, [], ReceiptFor(k, read));
    assert [] + [ReceiptFor(k, read)] == [ReceiptFor(k, read)];
  }

  function AllReceipts(w: WorkspaceId, n: nat): seq<Step> {
    if n == 0 then [] else AllReceipts(w, n - 1) + [Receipt(w, ReceiptFor(n - 1, false))]
  }

  lemma OneMoreReceipt(c: Config, d: DeviceId, clock: int, n: nat, left: Status, k: nat)
    requires d in c.home && k < n && !IsSent(left)
    ensures Raised(Stale(c, d, clock, n, left, k), c.home[d], [ReceiptFor(k, false)])
         == Stale(c, d, clock, n, left, k + 1)
  {
    hide Key, Raised, ReceiptFor;
    var table := Stale(c, d, clock, n, left, k);
    ReceiptRaises(table, c.home[d], k, false);
    assert table[k := table[k].(status := DELIVERED)] == Stale(c, d, clock, n, left, k + 1);
  }

  lemma {:induction false} ReceiptsRun(c: Config, s: State, d: DeviceId, n: nat, left: Status, k: nat)
    requires d in c.home && s.messages == Stale(c, d, s.clock, n, left, 0) && k <= n && !IsSent(left)
    ensures var t := Exec(c, s, AllReceipts(c.home[d], k));
      t.clock == s.clock && t.messages == Stale(c, d, s.clock, n, left, k)
    ensures NoRetries(AllReceipts(c.home[d], k))
    decreases k
  {
    hide ReceiptFor, Raised, Stale;
    if k > 0 {
      ReceiptsRun(c, s, d, n, left, k - 1);
      var t := Exec(c, s, AllReceipts(c.home[d], k - 1));
      var receipt := Receipt(c.home[d], ReceiptFor(k - 1, false));
      OneMoreReceipt(c, d, s.clock, n, left, k - 1);
      ExecAppend(c, s, AllReceipts(c.home[d], k - 1), [receipt]);
      ExecOne(c, t, receipt);
    }
  }

  // ---------------------------------------------------------------- one cycle for every status

  /** Where a cycle leaves its message. */
  function Left(status: Status): Status {
    if status == QUEUED || status == PROCESSING then FAILED else QUEUED
  }

  /** Two free slots of the worker that owns the device. */
  ghost predicate Pair(c: Config, s: State, d: DeviceId, p: Place, q: Place) {
    && c.totalShards >= 1 && d in c.home && p != q
    && p in s.slots && q in s.slots && s.slots[p] == Free && s.slots[q] == Free
    && Owns(c, p.worker, d) && Owns(c, q.worker, d)
  }

  ghost predicate CycledTo(c: Config, s: State, t: State, d: DeviceId, n: nat, left: Status)
    requires d in c.home
  {
    && t.clock == s.clock && t.slots == s.slots && t.jobs == s.jobs
    && t.messages == Stale(c, d, s.clock, n, left, 0)
  }

  /** Sent, and retried although it was. */
  lemma SentCycle(c: Config, s: State, t: State, d: DeviceId, n: nat, p: Place, q: Place, allowed: set<Status>)
    returns (steps: seq<Step>)
    requires Pair(c, s, d, p, q) && CycledTo(c, s, t, d, n, QUEUED) && SENT in allowed
    ensures RetriesWithin(c, t, steps, allowed) && CycledTo(c, s, Exec(c, t, steps), d, n + 1, QUEUED)
  {
    StaleUncounted(c, d, s.clock, n, QUEUED);
    StaleNext(c, d, s.clock, n, QUEUED);
    hide Exec, Apply, Owns, Pass, Deliver, Key, RetriesWithin, FewSent, Room;
    assert Room(c, c.home[d], 0) by { NoneSentYet(c, c.home[d]); }
    SingleSends(c, t, p, d, 0, Key(n));
    var once := Pass(p, d, n) + Deliver(p, Key(n));
    var u := Exec(c, t, once);
    RetryLeaves(c, u, n);
    AgainWithin(c, u, n, allowed);
    steps := once + [Retry(n)];
    ExecAppend(c, t, once, [Retry(n)]);
    NoRetriesWithin(c, t, once, allowed) by { SingleRetriesNothing(p, d, n); }
    WithinAppend(c, t, once, [Retry(n)], allowed);
    assert Marked(u.messages, n, QUEUED) == Stale(c, d, s.clock, n + 1, QUEUED, 0);
  }

  lemma NoneSentYet(c: Config, w: WorkspaceId)
    ensures Room(c, w, 0)
  {
  }

  lemma SingleRetriesNothing(p: Place, d: DeviceId, n: nat)
    ensures NoRetries(Pass(p, d, n)) && NoRetries(Pass(p, d, n) + Deliver(p, Key(n)))
  {
    hide Key;
  }

  lemma RetryLeaves(c: Config, s: State, id: MessageId)
    requires id < |s.messages|
    ensures Exec(c, s, [Retry(id)])
         == s.(messages := Marked(s.messages, id, QUEUED), pending := s.pending + multiset{id})
  {
    hide Exec, Marked;
    ExecOne(c, s, Retry(id));
  }

  /** Sent, receipted, and then retried. */
  lemma ReceiptCycle(c: Config, s: State, t: State, d: DeviceId, n: nat, p: Place, q: Place,
                     read: bool, allowed: set<Status>)
    returns (steps: seq<Step>)
    requires Pair(c, s, d, p, q) && CycledTo(c, s, t, d, n, QUEUED) && Receipted(read) in allowed
    ensures RetriesWithin(c, t, steps, allowed) && CycledTo(c, s, Exec(c, t, steps), d, n + 1, QUEUED)
  {
    StaleUncounted(c, d, s.clock, n, QUEUED);
    StaleNext(c, d, s.clock, n, QUEUED);
    hide Exec, Apply, Owns, Pass, Deliver, Key, RetriesWithin, FewSent, Room, ReceiptFor;
    assert Room(c, c.home[d], 0) by { NoneSentYet(c, c.home[d]); }
    SingleSends(c, t, p, d, 0, Key(n));
    var once, receipt := Pass(p, d, n) + Deliver(p, Key(n)), Receipt(c.home[d], ReceiptFor(n, read));
    var u := Exec(c, t, once);
    ReceiptStep(c, u, d, n, read);
    var v := Exec(c, u, [receipt]);
    RetryLeaves(c, v, n);
    AgainWithin(c, v, n, allowed);
    steps := once + [receipt] + [Retry(n)];
    ExecAppend(c, t, once, [receipt]);
    ExecAppend(c, t, once + [receipt], [Retry(n)]);
    assert NoRetries(once + [receipt]) by { SingleRetriesNothing(p, d, n); }
    NoRetriesWithin(c, t, once + [receipt], allowed);
    WithinAppend(c, t, once + [receipt], [Retry(n)], allowed);
    assert Marked(v.messages, n, QUEUED) == Stale(c, d, s.clock, n + 1, QUEUED, 0);
  }

  lemma ReceiptStep(c: Config, s: State, d: DeviceId, n: nat, read: bool)
    requires d in c.home && |s.messages| == n + 1 && s.messages[n].status == SENT
    requires forall i | 0 <= i <= n ::
      s.messages[i].workspaceId == c.home[d] && s.messages[i].providerMessageId == Some(Key(i))
    ensures Exec(c, s, [Receipt(c.home[d], ReceiptFor(n, read))])
         == s.(messages := s.messages[n := s.messages[n].(status := Receipted(read))])
  {
    hide Exec, Key, Raised, ReceiptFor;
    ReceiptRaises(s.messages, c.home[d], n, read);
    ExecOne(c, s, Receipt(c.home[d], ReceiptFor(n, read)));
  }

  /** Queued, and retried although it was: two slots take its jobs, one sends it and the other fails. */
  lemma QueuedCycle(c: Config, s: State, t: State, d: DeviceId, n: nat, p: Place, q: Place, allowed: set<Status>)
    returns (steps: seq<Step>)
    requires Pair(c, s, d, p, q) && CycledTo(c, s, t, d, n, FAILED) && QUEUED in allowed
    ensures RetriesWithin(c, t, steps, allowed) && CycledTo(c, s, Exec(c, t, steps), d, n + 1, FAILED)
  {
    StaleUncounted(c, d, s.clock, n, FAILED);
    var m := New(c, d);
    var queued := t.(messages := t.messages + [m], jobs := t.jobs + multiset{n});
    hide Exec, Apply, Owns, Take, Deliver, Fail, Key, RetriesWithin, FewSent, Again;
    QueuesNew(c, t, d);
    var create := [Send(d), Enqueue(n)];
    AgainQueues(c, queued, n);
    AgainWithin(c, queued, n, allowed);
    assert Marked(queued.messages, n, QUEUED) == queued.messages;
    var twice := Exec(c, queued, Again(n));
    TakePasses(c, twice, p, n, t.jobs + multiset{n});
    var one := Exec(c, twice, Take(p, n));
    TakePasses(c, one, q, n, t.jobs);
    var both := Exec(c, one, Take(q, n));
    var rest := Deliver(p, Key(n)) + Fail(q);
    SendAndFail(c, s, both, d, n, p, q);
    steps := create + Again(n) + Take(p, n) + Take(q, n) + rest;
    ExecAppend(c, t, create, Again(n));
    ExecAppend(c, t, create + Again(n), Take(p, n));
    ExecAppend(c, t, create + Again(n) + Take(p, n), Take(q, n));
    ExecAppend(c, t, create + Again(n) + Take(p, n) + Take(q, n), rest);
    QueuedWithin(c, t, queued, create, n, p, q, rest, allowed);
  }

  lemma QueuedWithin(c: Config, t: State, queued: State, create: seq<Step>, n: nat, p: Place, q: Place,
                     rest: seq<Step>, allowed: set<Status>)
    requires queued == Exec(c, t, create) && RetriesWithin(c, queued, Again(n), allowed)
    requires NoRetries(create) && rest == Deliver(p, Key(n)) + Fail(q)
    ensures RetriesWithin(c, t, create + Again(n) + Take(p, n) + Take(q, n) + rest, allowed)
  {
    hide Exec, RetriesWithin, Key;
    var tail := Take(p, n) + Take(q, n) + rest;
    assert NoRetries(tail);
    NoRetriesWithin(c, t, create, allowed);
    WithinAppend(c, t, create, Again(n), allowed);
    NoRetriesWithin(c, Exec(c, t, create + Again(n)), tail, allowed);
    WithinAppend(c, t, create + Again(n), tail, allowed);
    assert create + Again(n) + tail == create + Again(n) + Take(p, n) + Take(q, n) + rest;
  }

  /** Two slots past the checks hold the last message: the first sends it, the second writes FAILED. */
  lemma SendAndFail(c: Config, s: State, t: State, d: DeviceId, n: nat, p: Place, q: Place)
    requires Pair(c, s, d, p, q) && t.clock == s.clock && t.jobs == s.jobs
    requires t.messages == Stale(c, d, s.clock, n, FAILED, 0) + [New(c, d)]
    requires t.slots == s.slots[p := DayPassed(n, New(c, d))][q := DayPassed(n, New(c, d))]
    ensures CycledTo(c, s, Exec(c, t, Deliver(p, Key(n)) + Fail(q)), d, n + 1, FAILED)
  {
    hide Exec, Owns, Deliver, Fail, Key;
    DeliverSends(c, t, p, n, New(c, d), Key(n));
    var u := Exec(c, t, Deliver(p, Key(n)));
    FailWrites(c, u, q, n, New(c, d));
    ExecAppend(c, t, Deliver(p, Key(n)), Fail(q));
    assert t.slots[p := Free][q := Free] == s.slots;
    StaleNext(c, d, s.clock, n, FAILED);
    assert Marked(u.messages, n, FAILED) == Stale(c, d, s.clock, n + 1, FAILED, 0);
  }

  /** A new message up to its PROCESSING. */
  function Begin(p: Place, d: DeviceId, n: nat): seq<Step> {
    Pass(p, d, n) + [CheckDevice(p, true), MarkProcessing(p)]
  }

  lemma BeginRuns(c: Config, t: State, d: DeviceId, n: nat, p: Place)
    requires d in c.home && p in t.slots && t.slots[p] == Free && Owns(c, p.worker, d)
    requires n == |t.messages| && FewSent(t.messages, 0)
    ensures Exec(c, t, Begin(p, d, n))
         == t.(messages := t.messages + [New(c, d).(status := PROCESSING)],
               slots := t.slots[p := Sending(n, New(c, d))])
    ensures NoRetries(Begin(p, d, n))
  {
    NoneSentYet(c, c.home[d]);
    SingleRetriesNothing(p, d, n);
    hide Exec, Apply, Owns, Pass, FewSent, Room;
    PassAdds(c, t, p, d, 0);
    var passed := Exec(c, t, Pass(p, d, n));
    StartsSending(c, passed, p, n, New(c, d));
    ExecAppend(c, t, Pass(p, d, n), [CheckDevice(p, true), MarkProcessing(p)]);
    assert t.slots[p := DayPassed(n, New(c, d))][p := Sending(n, New(c, d))] == t.slots[p := Sending(n, New(c, d))];
    assert Marked(passed.messages, n, PROCESSING) == t.messages + [New(c, d).(status := PROCESSING)];
  }

  /** Retried while a slot is sending it: another takes it, and fails after the first has sent it. */
  lemma ProcessingCycle(c: Config, s: State, t: State, d: DeviceId, n: nat, p: Place, q: Place, allowed: set<Status>)
    returns (steps: seq<Step>)
    requires Pair(c, s, d, p, q) && CycledTo(c, s, t, d, n, FAILED) && PROCESSING in allowed
    ensures RetriesWithin(c, t, steps, allowed) && CycledTo(c, s, Exec(c, t, steps), d, n + 1, FAILED)
  {
    StaleUncounted(c, d, s.clock, n, FAILED);
    hide Exec, Apply, Owns, Begin, Take, Fail, Key, RetriesWithin, FewSent, Again;
    var begin := Begin(p, d, n);
    BeginRuns(c, t, d, n, p);
    var sending := Exec(c, t, begin);
    AgainQueues(c, sending, n);
    AgainWithin(c, sending, n, allowed);
    var queued := Exec(c, sending, Again(n));
    assert queued.messages == t.messages + [New(c, d)];
    TakePasses(c, queued, q, n, t.jobs);
    var rest := [Transmit(p, Some(Key(n))), WriteSent(p)] + Fail(q);
    EndAndFail(c, s, Exec(c, queued, Take(q, n)), d, n, p, q);
    steps := begin + Again(n) + Take(q, n) + rest;
    ExecAppend(c, t, begin, Again(n));
    ExecAppend(c, t, begin + Again(n), Take(q, n));
    ExecAppend(c, t, begin + Again(n) + Take(q, n), rest);
    ProcessingWithin(c, t, sending, begin, n, p, q, rest, allowed);
  }

  lemma ProcessingWithin(c: Config, t: State, sending: State, start: seq<Step>, n: nat, p: Place, q: Place,
                         rest: seq<Step>, allowed: set<Status>)
    requires sending == Exec(c, t, start) && RetriesWithin(c, sending, Again(n), allowed)
    requires NoRetries(start) && rest == [Transmit(p, Some(Key(n))), WriteSent(p)] + Fail(q)
    ensures RetriesWithin(c, t, start + Again(n) + Take(q, n) + rest, allowed)
  {
    hide Exec, RetriesWithin, Key;
    var tail := Take(q, n) + rest;
    assert NoRetries(tail);
    NoRetriesWithin(c, t, start, allowed);
    WithinAppend(c, t, start, Again(n), allowed);
    NoRetriesWithin(c, Exec(c, t, start + Again(n)), tail, allowed);
    WithinAppend(c, t, start + Again(n), tail, allowed);
    assert start + Again(n) + tail == start + Again(n) + Take(q, n) + rest;
  }

  /** The same end, with the first slot already sending. */
  lemma EndAndFail(c: Config, s: State, t: State, d: DeviceId, n: nat, p: Place, q: Place)
    requires Pair(c, s, d, p, q) && t.clock == s.clock && t.jobs == s.jobs
    requires t.messages == Stale(c, d, s.clock, n, FAILED, 0) + [New(c, d)]
    requires t.slots == s.slots[p := Sending(n, New(c, d))][q := DayPassed(n, New(c, d))]
    ensures CycledTo(c, s, Exec(c, t, [Transmit(p, Some(Key(n))), WriteSent(p)] + Fail(q)), d, n + 1, FAILED)
  {
    hide Exec, Owns, Fail, Key;
    var end := [Transmit(p, Some(Key(n))), WriteSent(p)];
    EndsSending(c, t, p, n, New(c, d), Key(n));
    var u := Exec(c, t, end);
    FailWrites(c, u, q, n, New(c, d));
    ExecAppend(c, t, end, Fail(q));
    assert t.slots[p := Free][q := Free] == s.slots;
    StaleNext(c, d, s.clock, n, FAILED);
    assert Marked(u.messages, n, FAILED) == Stale(c, d, s.clock, n + 1, FAILED, 0);
  }

  lemma OneCycle(c: Config, s: State, t: State, d: DeviceId, n: nat, p: Place, q: Place,
                 status: Status, allowed: set<Status>)
    returns (steps: seq<Step>)
    requires Pair(c, s, d, p, q) && CycledTo(c, s, t, d, n, Left(status)) && status in allowed && status != FAILED
    ensures RetriesWithin(c, t, steps, allowed) && CycledTo(c, s, Exec(c, t, steps), d, n + 1, Left(status))
  {
    hide Exec, Pair, CycledTo, RetriesWithin;
    match status
    case QUEUED => steps := QueuedCycle(c, s, t, d, n, p, q, allowed);
    case PROCESSING => steps := ProcessingCycle(c, s, t, d, n, p, q, allowed);
    case SENT => steps := SentCycle(c, s, t, d, n, p, q, allowed);
    case DELIVERED => steps := ReceiptCycle(c, s, t, d, n, p, q, false, allowed);
    case READ => steps := ReceiptCycle(c, s, t, d, n, p, q, true, allowed);
  }

  lemma {:induction false} ManyCycles(c: Config, s: State, d: DeviceId, n: nat, p: Place, q: Place,
                                      status: Status, allowed: set<Status>)
    returns (steps: seq<Step>)
    requires Pair(c, s, d, p, q) && s.messages == [] && status in allowed && status != FAILED
    ensures RetriesWithin(c, s, steps, allowed) && CycledTo(c, s, Exec(c, s, steps), d, n, Left(status))
    decreases n
  {
    if n == 0 {
      steps := [];
    } else {
      hide RetriesWithin, Exec, CycledTo, Owns;
      var before := ManyCycles(c, s, d, n - 1, p, q, status, allowed);
      var cycle := OneCycle(c, s, Exec(c, s, before), d, n - 1, p, q, status, allowed);
      ExecAppend(c, s, before, cycle);
      WithinAppend(c, s, before, cycle, allowed);
      steps := before + cycle;
    }
  }

  // ---------------------------------------------------------------- main results

  lemma StaleSentNow(c: Config, scope: Scope, t: State, d: DeviceId, n: nat, left: Status)
    requires d in c.home && InScope(scope, New(c, d)) && t.messages == Stale(c, d, t.clock, n, left, n)
    ensures AllSentNow(scope, t)
  {
    hide Key;
  }

  /** A retry of a message in any status but FAILED takes a message that will have been sent out of the
      count, and its receipt brings it back: for any limits and every n, n rows of one period. */
  lemma RetriesUnbounded(c: Config, scope: Scope, d: DeviceId, s: State, status: Status, allowed: set<Status>, n: nat)
    returns (steps: seq<Step>)
    requires Init(c, s) && c.totalShards >= 1 && d in c.home && InScope(scope, New(c, d))
    requires status in allowed && status != FAILED
    ensures RetriesWithin(c, s, steps, allowed)
    ensures |Rows(c, scope, Start(c, scope, s.clock), Exec(c, s, steps))| == n
  {
    var p, q := Place(ShardOf(d, c.totalShards), 0), Place(ShardOf(d, c.totalShards), 1);
    assert p in Places(c.totalShards) && q in Places(c.totalShards);
    assert Pair(c, s, d, p, q);
    hide Exec, Rows, Start, Init, Pair, Stale, AllReceipts, RetriesWithin, ShardOf, InScope;
    var cycles := ManyCycles(c, s, d, n, p, q, status, allowed);
    var u := Exec(c, s, cycles);
    ReceiptsRun(c, u, d, n, Left(status), n);
    NoRetriesWithin(c, u, AllReceipts(c.home[d], n), allowed);
    WithinAppend(c, s, cycles, AllReceipts(c.home[d], n), allowed);
    ExecAppend(c, s, cycles, AllReceipts(c.home[d], n));
    steps := cycles + AllReceipts(c.home[d], n);
    StaleSentNow(c, scope, Exec(c, s, steps), d, n, Left(status));
    AllAreRows(c, scope, Exec(c, s, steps));
  }

  /** The rows of a device's day, or of the month of a workspace with a device, stay within some bound
      if and only if nothing but failed messages is retried. */
  lemma BoundIffFailedOnly(c: Config, scope: Scope, d: DeviceId, s: State, allowed: set<Status>)
    requires Init(c, s) && c.totalShards >= 1 && d in c.home && InScope(scope, New(c, d)) && Limit(c, scope) >= 1
    ensures HasBound(c, scope, s, allowed) <==> allowed <= {FAILED}
  {
    hide Exec, Rows, Start, Init, RetriesWithin, FailedRetries, Limit, Capacity, InScope;
    if allowed <= {FAILED} {
      var bound := Limit(c, scope) - 1 + |Capacity(c, scope)|;
      forall steps, period | RetriesWithin(c, s, steps, allowed)
        ensures |Rows(c, scope, period, Exec(c, s, steps))| <= bound
      {
        WithinFailed(c, s, steps, allowed);
        RowsBounded(c, scope, s, steps, period);
      }
      assert BoundedBy(c, scope, s, allowed, bound);
    } else {
      var status :| status in allowed && status != FAILED;
      forall bound ensures !BoundedBy(c, scope, s, allowed, bound) {
        var n := if bound >= 0 then bound + 1 else 0;
        var steps := RetriesUnbounded(c, scope, d, s, status, allowed, n);
        assert |Rows(c, scope, Start(c, scope, s.clock), Exec(c, s, steps))| > bound;
      }
    }
  }
}
