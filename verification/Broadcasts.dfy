/** A broadcast: the dispatch loop that skips or queues each recipient, interleaved with the
    message jobs that report progress on the counters they share with it. Every database call
    is one atomic step, and a step that is not enabled changes nothing. The broadcast is started
    once and none of its messages is retried. */
module Broadcasts {

  datatype Status = Draft | Running | Completed

  datatype RecipientStatus = Waiting | Sent | Failed

  /** The message job of a recipient: in the queue; sent or failed, with the recipient row
      written; counted, with what the increment returned compared; done. */
  datatype Task =
    | NoTask
    | Queued
    | Reported(ok: bool)
    | Counted(ok: bool, completes: bool)
    | Finished(ok: bool)

  /** Where the dispatch loop is, with its two local counters. */
  datatype Dispatcher =
    | NotStarted
    | Looping(next: nat, activeCount: nat, cumulativeDelay: int)
    | Created(next: nat, activeCount: nat, cumulativeDelay: int)
    | TotalsWritten(activeCount: nat)
    | Done(activeCount: nat)

  datatype State = State(
    status: Status,
    totalTargets: int,
    successCount: int,
    failedCount: int,
    recipients: seq<RecipientStatus>,
    tasks: seq<Task>,
    delays: seq<int>,
    dispatcher: Dispatcher,
    lateCounts: nat)  // history: increments after the dispatch loop wrote totalTargets

  datatype Step =
    | Begin
    | Skip
    | CreateMessage
    | AddJob(delay: int)
    | WriteTotals
    | CompleteIfEmpty
    | Report(i: nat, ok: bool)
    | Increment(i: nat)
    | Complete(i: nat)

  const MIN_DELAY: int := 3000
  const MAX_DELAY: int := 8000

  /** `create`: every recipient counts as a target. */
  function Create(n: nat): State {
    State(Draft, n, 0, 0, seq(n, _ => Waiting), seq(n, _ => NoTask), [], NotStarted, 0)
  }

  predicate LoopDone(s: State) {
    s.dispatcher.TotalsWritten? || s.dispatcher.Done?
  }

  /** The steps of the dispatch loop. */
  function Dispatch(s: State, step: Step): State {
    var d := s.dispatcher;
    match step
    case Begin =>
      if d.NotStarted? then s.(status := Running, dispatcher := Looping(0, 0, 0)) else s
    case Skip =>
      if d.Looping? && d.next < |s.recipients| then
        s.(recipients := s.recipients[d.next := Failed],
           dispatcher := Looping(d.next + 1, d.activeCount, d.cumulativeDelay))
      else s
    case CreateMessage =>
      if d.Looping? && d.next < |s.recipients| then
        s.(dispatcher := Created(d.next, d.activeCount, d.cumulativeDelay))
      else s
    case AddJob(delay) =>
      if d.Created? && d.next < |s.tasks| && MIN_DELAY <= delay <= MAX_DELAY then
        var cumulative := d.cumulativeDelay + delay;
        s.(tasks := s.tasks[d.next := Queued], delays := s.delays + [cumulative],
           dispatcher := Looping(d.next + 1, d.activeCount + 1, cumulative))
      else s
    case WriteTotals =>
      if d.Looping? && d.next == |s.recipients| then
        s.(totalTargets := d.activeCount, dispatcher := TotalsWritten(d.activeCount))
      else s
    case CompleteIfEmpty =>
      if d.TotalsWritten? then
        s.(status := if d.activeCount == 0 then Completed else s.status, dispatcher := Done(d.activeCount))
      else s
    case _ => s
  }

  /** The steps of the message job of recipient `i`. */
  function Progress(s: State, step: Step): State {
    match step
    case Report(i, ok) =>
      if i < |s.tasks| == |s.recipients| && s.tasks[i].Queued? then
        s.(tasks := s.tasks[i := Reported(ok)], recipients := s.recipients[i := if ok then Sent else Failed])
      else s
    case Increment(i) =>
      if i < |s.tasks| && s.tasks[i].Reported? then
        var ok := s.tasks[i].ok;
        var success := s.successCount + if ok then 1 else 0;
        var failed := s.failedCount + if ok then 0 else 1;
        s.(successCount := success, failedCount := failed,
           tasks := s.tasks[i := Counted(ok, success + failed >= s.totalTargets)],
           lateCounts := s.lateCounts + if LoopDone(s) then 1 else 0)
      else s
    case Complete(i) =>
      if i < |s.tasks| && s.tasks[i].Counted? then
        s.(status := if s.tasks[i].completes then Completed else s.status,
           tasks := s.tasks[i := Finished(s.tasks[i].ok)])
      else s
    case _ => s
  }

  predicate IsProgress(step: Step) { step.Report? || step.Increment? || step.Complete? }

  function Apply(s: State, step: Step): State {
    if IsProgress(step) then Progress(s, step) else Dispatch(s, step)
  }

  function Exec(s: State, steps: seq<Step>): State
    decreases |steps|
  {
    if steps == [] then s else Exec(Apply(s, steps[0]), steps[1..])
  }

  // ---------------------------------------------------------------- counting

  function Num<T>(s: seq<T>, p: T -> bool): (n: nat)
    ensures n <= |s|
  {
    if s == [] then 0 else Num(s[..|s| - 1], p) + if p(s[|s| - 1]) then 1 else 0
  }

  lemma {:induction false} NumUpdate<T>(s: seq<T>, i: nat, x: T, p: T -> bool)
    requires i < |s|
    ensures Num(s[i := x], p) == Num(s, p) - (if p(s[i]) then 1 else 0) + if p(x) then 1 else 0
  {
    var n := |s| - 1;
    if i < n {
      NumUpdate(s[..n], i, x, p);
      assert s[i := x][..n] == s[..n][i := x];
    } else {
      assert s[i := x][..n] == s[..n];
    }
  }

  lemma {:induction false} NumImplies<T>(s: seq<T>, p: T -> bool, q: T -> bool)
    requires forall i | 0 <= i < |s| :: p(s[i]) ==> q(s[i])
    ensures Num(s, p) <= Num(s, q)
    ensures Num(s, p) == Num(s, q) ==> forall i | 0 <= i < |s| :: q(s[i]) ==> p(s[i])
  {
    if s != [] {
      NumImplies(s[..|s| - 1], p, q);
    }
  }

  lemma {:induction false} NumPrefix<T>(s: seq<T>, p: T -> bool, k: nat)
    requires k <= |s| && forall i | k <= i < |s| :: !p(s[i])
    ensures Num(s, p) <= k
    ensures Num(s, p) == k ==> forall i | 0 <= i < k :: p(s[i])
  {
    if s != [] {
      var n := |s| - 1;
      NumPrefix(s[..n], p, if k <= n then k else n);
    }
  }

  function IsTask(): Task -> bool { (t: Task) => !t.NoTask? }

  function IsCounted(): Task -> bool { (t: Task) => t.Counted? || t.Finished? }

  function CountedAs(ok: bool): Task -> bool { (t: Task) => (t.Counted? || t.Finished?) && t.ok == ok }

  // ---------------------------------------------------------------- the invariant

  /** Recipients the dispatch loop has passed. */
  function Passed(s: State): nat {
    match s.dispatcher
    case NotStarted => 0
    case Looping(next, _, _) => next
    case Created(next, _, _) => next
    case _ => |s.recipients|
  }

  function Active(s: State): nat {
    match s.dispatcher
    case NotStarted => 0
    case Looping(_, a, _) => a
    case Created(_, a, _) => a
    case TotalsWritten(a) => a
    case Done(a) => a
  }

  function CountSum(s: State): int { s.successCount + s.failedCount }

  /** The recipient row says what its task has reported; a passed recipient without a task was
      skipped. */
  predicate RowOk(s: State, i: nat)
    requires i < |s.recipients| == |s.tasks|
  {
    && (i >= Passed(s) ==> s.tasks[i].NoTask?)
    && match s.tasks[i]
       case NoTask => s.recipients[i] == if i < Passed(s) then Failed else Waiting
       case Queued => s.recipients[i] == Waiting
       case Reported(ok) => s.recipients[i] == if ok then Sent else Failed
       case Counted(ok, _) => s.recipients[i] == if ok then Sent else Failed
       case Finished(ok) => s.recipients[i] == if ok then Sent else Failed
  }

  ghost predicate Rows(s: State) {
    && |s.recipients| == |s.tasks|
    && Passed(s) <= |s.recipients|
    && (s.dispatcher.Created? ==> Passed(s) < |s.recipients|)
    && forall i | 0 <= i < |s.tasks| :: RowOk(s, i)
  }

  ghost predicate Counters(s: State) {
    && Active(s) == Num(s.tasks, IsTask())
    && s.successCount == Num(s.tasks, CountedAs(true))
    && s.failedCount == Num(s.tasks, CountedAs(false))
    && CountSum(s) == Num(s.tasks, IsCounted())
    && s.totalTargets == (if LoopDone(s) then Active(s) else |s.recipients|)
  }

  /** The broadcast is COMPLETED, or a step that will write so is under way. */
  ghost predicate Closing(s: State) {
    || s.status == Completed
    || (exists i :: 0 <= i < |s.tasks| && s.tasks[i].Counted? && s.tasks[i].completes)
    || (s.dispatcher.TotalsWritten? && s.dispatcher.activeCount == 0)
  }

  /** Nothing queued is uncounted, and nothing more will be queued. */
  predicate AllCounted(s: State) {
    Passed(s) == |s.recipients| && CountSum(s) == Active(s)
  }

  /** What decides whether the last increment sees the final number of targets. */
  predicate WillComplete(s: State) {
    Active(s) == 0 || Active(s) == |s.recipients| || s.lateCounts > 0
  }

  ghost predicate Completion(s: State) {
    && (Closing(s) ==> AllCounted(s) && !s.dispatcher.NotStarted?)
    && (Closing(s) && !LoopDone(s) ==> Active(s) == |s.recipients|)
    && (!LoopDone(s) ==> s.lateCounts == 0)
    && (!LoopDone(s) && Active(s) == |s.recipients| && AllCounted(s) && Active(s) > 0 ==> Closing(s))
    && (LoopDone(s) && AllCounted(s) ==> (Closing(s) <==> WillComplete(s)))
  }

  ghost predicate Paced(s: State) {
    && |s.delays| == Active(s) && PacedDelays(s.delays)
    && (s.dispatcher.NotStarted? ==> s.delays == [])
    && (s.dispatcher.Looping? || s.dispatcher.Created? ==>
          s.dispatcher.cumulativeDelay == if s.delays == [] then 0 else s.delays[|s.delays| - 1])
  }

  ghost predicate Inv(s: State) {
    Rows(s) && Counters(s) && Completion(s) && Paced(s)
  }

  lemma {:induction false} NumNone(n: nat, p: Task -> bool)
    requires !p(NoTask)
    ensures Num(seq(n, _ => NoTask), p) == 0
  {
    if n > 0 {
      assert seq(n, _ => NoTask)[..n - 1] == seq(n - 1, _ => NoTask);
      NumNone(n - 1, p);
    }
  }

  lemma CreateInv(n: nat)
    ensures Inv(Create(n))
  {
    hide Num;
    NumNone(n, IsTask());
    NumNone(n, IsCounted());
    NumNone(n, CountedAs(true));
    NumNone(n, CountedAs(false));
  }

  /** Counted tasks are tasks of passed recipients. */
  lemma CountBounds(s: State)
    requires Rows(s) && Counters(s)
    ensures 0 <= CountSum(s) <= Active(s) <= Passed(s) <= |s.recipients|
  {
    NumImplies(s.tasks, IsCounted(), IsTask());
    forall i | Passed(s) <= i < |s.tasks| ensures s.tasks[i].NoTask? {
      assert RowOk(s, i);
    }
    NumPrefix(s.tasks, IsTask(), Passed(s));
  }

  lemma UpdateCounts(s: State, i: nat, t: Task)
    requires i < |s.tasks|
    ensures var ts := s.tasks[i := t];
      && Num(ts, IsTask()) == Num(s.tasks, IsTask())
           - (if s.tasks[i].NoTask? then 0 else 1) + (if t.NoTask? then 0 else 1)
      && Num(ts, IsCounted()) == Num(s.tasks, IsCounted())
           - (if IsCounted()(s.tasks[i]) then 1 else 0) + (if IsCounted()(t) then 1 else 0)
      && Num(ts, CountedAs(true)) == Num(s.tasks, CountedAs(true))
           - (if CountedAs(true)(s.tasks[i]) then 1 else 0) + (if CountedAs(true)(t) then 1 else 0)
      && Num(ts, CountedAs(false)) == Num(s.tasks, CountedAs(false))
           - (if CountedAs(false)(s.tasks[i]) then 1 else 0) + (if CountedAs(false)(t) then 1 else 0)
  {
    NumUpdate(s.tasks, i, t, IsTask());
    NumUpdate(s.tasks, i, t, IsCounted());
    NumUpdate(s.tasks, i, t, CountedAs(true));
    NumUpdate(s.tasks, i, t, CountedAs(false));
  }

  /** Only the status write of an empty broadcast, and tasks, decide whether one is closing. */
  lemma SameClosing(s: State, t: State)
    requires |t.tasks| == |s.tasks| && t.status == s.status
    requires forall i | 0 <= i < |s.tasks| && (s.tasks[i].Counted? || t.tasks[i].Counted?) :: s.tasks[i] == t.tasks[i]
    requires (s.dispatcher.TotalsWritten? && s.dispatcher.activeCount == 0)
        <==> (t.dispatcher.TotalsWritten? && t.dispatcher.activeCount == 0)
    ensures Closing(t) <==> Closing(s)
  {
  }

  lemma DispatchKeepsCounters(s: State, step: Step)
    requires Rows(s) && Counters(s)
    ensures Rows(Dispatch(s, step)) && Counters(Dispatch(s, step))
  {
    hide Num;
    var t := Dispatch(s, step);
    if step.AddJob? && t != s {
      assert RowOk(s, s.dispatcher.next);
      UpdateCounts(s, s.dispatcher.next, Queued);
    }
    forall i | 0 <= i < |t.tasks| ensures RowOk(t, i) {
      assert RowOk(s, i);
    }
  }

  lemma DispatchKeepsCompletion(s: State, step: Step)
    requires Inv(s)
    ensures Completion(Dispatch(s, step))
  {
    hide Num, RowOk;
    CountBounds(s);
    var t := Dispatch(s, step);
    if step.WriteTotals? && Active(s) == 0 && t != s {
      assert Closing(t);
    } else if step.CompleteIfEmpty? && t != s {
      if Active(s) > 0 { SameClosing(s, t); }
    } else {
      if step.AddJob? && t != s {
        assert RowOk(s, s.dispatcher.next);
        assert s.tasks[s.dispatcher.next].NoTask? by { UntouchedAhead(s); }
      }
      if !step.Begin? {
        SameClosing(s, t);
      } else if t != s {
        SameClosing(s.(status := Running), t);
      }
    }
  }

  lemma UntouchedAhead(s: State)
    requires Rows(s)
    ensures forall i | Passed(s) <= i < |s.tasks| :: s.tasks[i].NoTask?
  {
    forall i | Passed(s) <= i < |s.tasks| ensures s.tasks[i].NoTask? {
      assert RowOk(s, i);
    }
  }

  ghost predicate PacedDelays(delays: seq<int>) {
    && (forall k | 0 <= k < |delays| :: MIN_DELAY * (k + 1) <= delays[k] <= MAX_DELAY * (k + 1))
    && (forall k | 0 < k < |delays| :: MIN_DELAY <= delays[k] - delays[k - 1] <= MAX_DELAY)
  }

  lemma PaceNext(delays: seq<int>, d: int)
    requires PacedDelays(delays) && MIN_DELAY <= d <= MAX_DELAY
    ensures PacedDelays(delays + [(if delays == [] then 0 else delays[|delays| - 1]) + d])
  {
  }

  lemma DispatchKeepsPace(s: State, step: Step)
    requires Paced(s)
    ensures Paced(Dispatch(s, step))
  {
    hide PacedDelays;
    if step.AddJob? && MIN_DELAY <= step.delay <= MAX_DELAY {
      PaceNext(s.delays, step.delay);
    }
  }

  lemma ProgressKeepsCounters(s: State, step: Step)
    requires Rows(s) && Counters(s)
    ensures Rows(Progress(s, step)) && Counters(Progress(s, step))
  {
    hide Num;
    var t := Progress(s, step);
    if t != s {
      var i := step.i;
      assert RowOk(s, i);
      UpdateCounts(s, i, t.tasks[i]);
      assert s.tasks[i := t.tasks[i]] == t.tasks;
      forall k | 0 <= k < |t.tasks| ensures RowOk(t, k) {
        assert RowOk(s, k);
      }
    }
  }

  lemma ProgressKeepsCompletion(s: State, step: Step)
    requires Inv(s)
    ensures Completion(Progress(s, step))
  {
    hide Num, RowOk;
    CountBounds(s);
    var t := Progress(s, step);
    ProgressKeepsCounters(s, step);
    CountBounds(t);
    if t != s {
      match step
      case Report(i, ok) => SameClosing(s, t);
      case Increment(i) =>
        if t.tasks[i].completes { assert Closing(t); }
        if Closing(t) && !t.tasks[i].completes { ClosingBefore(s, t, i); }
      case Complete(i) =>
        if s.tasks[i].completes {
          assert Closing(s) && Closing(t);
        } else {
          ClosingBefore(s, t, i);
          ClosingBefore(t, s, i);
        }
    }
  }

  /** A task that completes nothing does not make a broadcast closing. */
  lemma ClosingBefore(s: State, t: State, i: nat)
    requires i < |s.tasks| == |t.tasks| && s.status == t.status && s.dispatcher == t.dispatcher
    requires forall k | 0 <= k < |s.tasks| && k != i :: s.tasks[k] == t.tasks[k]
    requires t.tasks[i].Counted? ==> !t.tasks[i].completes
    ensures Closing(t) ==> Closing(s)
  {
    if Closing(t) && t.status != Completed && !(t.dispatcher.TotalsWritten? && t.dispatcher.activeCount == 0) {
      var k :| 0 <= k < |t.tasks| && t.tasks[k].Counted? && t.tasks[k].completes;
      assert s.tasks[k] == t.tasks[k];
    }
  }

  lemma StepKeepsInv(s: State, step: Step)
    requires Inv(s)
    ensures Inv(Apply(s, step))
  {
    hide Num, RowOk, Rows, Counters, Completion;
    if IsProgress(step) {
      ProgressKeepsCounters(s, step);
      ProgressKeepsCompletion(s, step);
    } else {
      DispatchKeepsCounters(s, step);
      DispatchKeepsCompletion(s, step);
      DispatchKeepsPace(s, step);
    }
  }

  lemma {:induction false} RunKeepsInv(s: State, steps: seq<Step>)
    requires Inv(s)
    ensures Inv(Exec(s, steps))
    decreases |steps|
  {
    hide Inv, Apply;
    if steps != [] {
      StepKeepsInv(s, steps[0]);
      RunKeepsInv(Apply(s, steps[0]), steps[1..]);
    }
  }

  // ---------------------------------------------------------------- main results

  /** In every run, a COMPLETED broadcast has passed every recipient and counted every message. */
  lemma CompletedMeansCounted(n: nat, steps: seq<Step>)
    requires Exec(Create(n), steps).status == Completed
    ensures var t := Exec(Create(n), steps);
      && |t.tasks| == |t.recipients|
      && (forall i | 0 <= i < |t.tasks| :: t.tasks[i].NoTask? || t.tasks[i].Counted? || t.tasks[i].Finished?)
      && (forall i | 0 <= i < |t.tasks| && t.tasks[i].NoTask? :: t.recipients[i] == Failed)
      && CountSum(t) == Num(t.tasks, IsTask())
  {
    hide Exec, Create, Num, RowOk;
    CreateInv(n);
    RunKeepsInv(Create(n), steps);
    var t := Exec(Create(n), steps);
    assert Closing(t);
    NumImplies(t.tasks, IsCounted(), IsTask());
    forall i | 0 <= i < |t.tasks| ensures t.tasks[i].NoTask? ==> t.recipients[i] == Failed {
      if t.tasks[i].NoTask? { SkippedFailed(t, i); }
    }
    forall i | 0 <= i < |t.tasks| ensures t.tasks[i].NoTask? || t.tasks[i].Counted? || t.tasks[i].Finished? {
      assert IsTask()(t.tasks[i]) ==> IsCounted()(t.tasks[i]);
    }
  }

  lemma SkippedFailed(s: State, i: nat)
    requires Rows(s) && i < Passed(s) && s.tasks[i].NoTask?
    ensures s.recipients[i] == Failed
  {
    assert RowOk(s, i);
  }

  /** The dispatch loop and all message jobs have run to their end. */
  predicate Drained(s: State) {
    s.dispatcher.Done? && forall i | 0 <= i < |s.tasks| :: s.tasks[i].NoTask? || s.tasks[i].Finished?
  }

  lemma DrainedCounts(s: State)
    requires Inv(s) && Drained(s)
    ensures AllCounted(s) && (Closing(s) <==> s.status == Completed)
  {
    hide Num, RowOk;
    CountBounds(s);
    NumImplies(s.tasks, IsTask(), IsCounted());
  }

  /** A drained broadcast is COMPLETED exactly when everybody or nobody was skipped, or some
      message was counted after the loop wrote the final number of targets. */
  lemma CompletedIff(n: nat, steps: seq<Step>)
    requires Drained(Exec(Create(n), steps))
    ensures var t := Exec(Create(n), steps);
      t.status == Completed <==> t.totalTargets == 0 || t.totalTargets == |t.recipients| || t.lateCounts > 0
  {
    hide Exec, Create, Num, RowOk;
    CreateInv(n);
    RunKeepsInv(Create(n), steps);
    DrainedCounts(Exec(Create(n), steps));
  }

  /** In every run, the k-th queued message has a delay between 3000k and 8000k ms, and successive
      delays are 3000 to 8000 ms apart. */
  lemma DelaysPaced(n: nat, steps: seq<Step>)
    ensures var t := Exec(Create(n), steps);
      && |t.delays| == Num(t.tasks, IsTask())
      && (forall k | 0 <= k < |t.delays| :: 3000 * (k + 1) <= t.delays[k] <= 8000 * (k + 1))
      && (forall k | 0 < k < |t.delays| :: 3000 <= t.delays[k] - t.delays[k - 1] <= 8000)
  {
    hide Exec, Create, Num, Rows, Completion;
    CreateInv(n);
    RunKeepsInv(Create(n), steps);
  }

  lemma {:induction false} NumSame<T, U>(s: seq<T>, p: T -> bool, u: seq<U>, q: U -> bool)
    requires |s| == |u| && forall i | 0 <= i < |s| :: p(s[i]) <==> q(u[i])
    ensures Num(s, p) == Num(u, q)
  {
    if s != [] {
      NumSame(s[..|s| - 1], p, u[..|u| - 1], q);
    }
  }

  lemma {:induction false} NumSum<T>(s: seq<T>, p: T -> bool, q: T -> bool, u: T -> bool)
    requires forall i | 0 <= i < |s| :: (u(s[i]) <==> p(s[i]) || q(s[i])) && !(p(s[i]) && q(s[i]))
    ensures Num(s, u) == Num(s, p) + Num(s, q)
  {
    if s != [] {
      NumSum(s[..|s| - 1], p, q, u);
    }
  }

  lemma {:induction false} NumAll<T>(s: seq<T>, p: T -> bool)
    requires forall i | 0 <= i < |s| :: p(s[i])
    ensures Num(s, p) == |s|
  {
    if s != [] {
      NumAll(s[..|s| - 1], p);
    }
  }

  function IsSkipped(): Task -> bool { (t: Task) => t.NoTask? }

  function Is(status: RecipientStatus): RecipientStatus -> bool { (r: RecipientStatus) => r == status }

  /** The final counters agree with the recipient rows, and with the list the broadcast began with. */
  lemma FinalTotals(n: nat, steps: seq<Step>)
    requires Drained(Exec(Create(n), steps))
    ensures var t := Exec(Create(n), steps);
      var skipped := Num(t.tasks, IsSkipped());
      && t.successCount + t.failedCount == t.totalTargets
      && Num(t.recipients, Is(Sent)) == t.successCount
      && Num(t.recipients, Is(Failed)) == t.failedCount + skipped
      && t.totalTargets + skipped == n == |t.recipients|
  {
    hide Exec, Num;
    CreateInv(n);
    RunKeepsInv(Create(n), steps);
    RunKeepsLength(Create(n), steps);
    var t := Exec(Create(n), steps);
    DrainedCounts(t);
    forall i | 0 <= i < |t.tasks|
      ensures CountedAs(true)(t.tasks[i]) <==> Is(Sent)(t.recipients[i])
      ensures (CountedAs(false)(t.tasks[i]) || IsSkipped()(t.tasks[i])) <==> Is(Failed)(t.recipients[i])
    {
      assert RowOk(t, i);
    }
    NumSame(t.tasks, CountedAs(true), t.recipients, Is(Sent));
    var failedOrSkipped := (x: Task) => CountedAs(false)(x) || IsSkipped()(x);
    NumSum(t.tasks, CountedAs(false), IsSkipped(), failedOrSkipped);
    NumSame(t.tasks, failedOrSkipped, t.recipients, Is(Failed));
    var any := (x: Task) => true;
    NumSum(t.tasks, IsTask(), IsSkipped(), any);
    NumAll(t.tasks, any);
  }

  lemma {:induction false} RunKeepsLength(s: State, steps: seq<Step>)
    ensures |Exec(s, steps).recipients| == |s.recipients|
    decreases |steps|
  {
    if steps != [] {
      RunKeepsLength(Apply(s, steps[0]), steps[1..]);
    }
  }

  lemma {:induction false} ExecAppend(s: State, a: seq<Step>, b: seq<Step>)
    ensures Exec(s, a + b) == Exec(Exec(s, a), b)
    decreases |a|
  {
    hide Apply;
    if a == [] {
      assert a + b == b;
    } else {
      assert (a + b)[1..] == a[1..] + b;
      ExecAppend(Apply(s, a[0]), a[1..], b);
    }
  }

  lemma ExecOne(s: State, step: Step)
    ensures Exec(s, [step]) == Apply(s, step)
  {
    hide Apply;
    assert Exec(Apply(s, step), []) == Apply(s, step);
  }

  lemma ExecTwo(s: State, a: Step, b: Step)
    ensures Exec(s, [a, b]) == Apply(Apply(s, a), b)
  {
    hide Apply;
    ExecOne(s, a);
    ExecOne(Apply(s, a), b);
    ExecAppend(s, [a], [b]);
    assert [a] + [b] == [a, b];
  }

  /** A queued message may have any delay from 3000 to 8000 ms after the one before, and no other. */
  lemma AnyDelay(s: State, delay: int)
    requires s.dispatcher.Created? && s.dispatcher.next < |s.tasks|
    ensures var d := s.dispatcher;
      Apply(s, AddJob(delay)) ==
        if 3000 <= delay <= 8000 then
          s.(tasks := s.tasks[d.next := Queued], delays := s.delays + [d.cumulativeDelay + delay],
             dispatcher := Looping(d.next + 1, d.activeCount + 1, d.cumulativeDelay + delay))
        else s
  {
  }

  lemma DispatchFirst(s: State)
    requires s == Create(2)
    ensures Exec(s, [Begin, Skip] + [CreateMessage, AddJob(3000)])
         == State(Running, 2, 0, 0, [Failed, Waiting], [NoTask, Queued], [3000], Looping(2, 1, 3000), 0)
  {
    hide Exec;
    ExecTwo(s, Begin, Skip);
    var t := Exec(s, [Begin, Skip]);
    assert t.recipients == [Failed, Waiting] && t.tasks == [NoTask, NoTask];
    ExecTwo(t, CreateMessage, AddJob(3000));
    ExecAppend(s, [Begin, Skip], [CreateMessage, AddJob(3000)]);
  }

  lemma CountEarly(s: State)
    requires s == State(Running, 2, 0, 0, [Failed, Waiting], [NoTask, Queued], [3000], Looping(2, 1, 3000), 0)
    ensures Exec(s, [Report(1, true), Increment(1)] + [Complete(1), WriteTotals])
         == State(Running, 1, 1, 0, [Failed, Sent], [NoTask, Finished(true)], [3000], TotalsWritten(1), 0)
  {
    hide Exec;
    ExecTwo(s, Report(1, true), Increment(1));
    var t := Exec(s, [Report(1, true), Increment(1)]);
    assert t.recipients == [Failed, Sent] && t.tasks == [NoTask, Counted(true, false)];
    ExecTwo(t, Complete(1), WriteTotals);
    assert t.tasks[1 := Finished(true)] == [NoTask, Finished(true)];
    ExecAppend(s, [Report(1, true), Increment(1)], [Complete(1), WriteTotals]);
  }

  /** The stuck run: one recipient is skipped, and the other is counted before the loop writes the
      final number of targets. Nothing is left to run, and the broadcast stays RUNNING. */
  lemma StuckRunning()
    ensures var steps := [Begin, Skip] + [CreateMessage, AddJob(3000)]
                       + ([Report(1, true), Increment(1)] + [Complete(1), WriteTotals]) + [CompleteIfEmpty];
      var t := Exec(Create(2), steps);
      Drained(t) && t.status == Running && t.successCount == t.totalTargets == 1
  {
    hide Exec, Create;
    var first := [Begin, Skip] + [CreateMessage, AddJob(3000)];
    var second := [Report(1, true), Increment(1)] + [Complete(1), WriteTotals];
    DispatchFirst(Create(2));
    CountEarly(Exec(Create(2), first));
    ExecAppend(Create(2), first, second);
    ExecAppend(Create(2), first + second, [CompleteIfEmpty]);
    ExecOne(Exec(Create(2), first + second), CompleteIfEmpty);
  }

  // ---------------------------------------------------------------- the processors

  lemma ExecSnoc(s: State, a: seq<Step>, step: Step)
    ensures Exec(s, a + [step]) == Apply(Exec(s, a), step)
  {
    hide Exec, Apply;
    ExecAppend(s, a, [step]);
    ExecOne(Exec(s, a), step);
  }

  lemma ExecNil(s: State)
    ensures Exec(s, []) == s
  {
  }

  /** One round of the dispatch: what the contact lookup and `randomDelay` return, and the steps that
      message jobs take before and after the job of the recipient is queued. */
  datatype Round = Round(optOut: bool, delay: int, before: seq<Step>, after: seq<Step>)

  ghost predicate RoundOk(r: Round) {
    3000 <= r.delay <= 8000 && OnlyProgress(r.before) && OnlyProgress(r.after)
  }

  /** An opted-out recipient is skipped; for any other a message is created and its job queued. */
  function RoundSteps(r: Round): seq<Step> {
    if r.optOut then [Skip] + r.after else [CreateMessage] + r.before + [AddJob(r.delay)] + r.after
  }

  function AllRounds(rounds: seq<Round>): seq<Step> {
    if rounds == [] then [] else AllRounds(rounds[..|rounds| - 1]) + RoundSteps(rounds[|rounds| - 1])
  }

  /** The whole dispatch, with what message jobs do at its first and its last write. */
  function DispatchRun(rounds: seq<Round>, first: seq<Step>, last: seq<Step>): seq<Step> {
    UpTo(rounds, first, |rounds|) + ([WriteTotals] + last + [CompleteIfEmpty])
  }

  function UpTo(rounds: seq<Round>, first: seq<Step>, i: nat): seq<Step>
    requires i <= |rounds|
  {
    [Begin] + first + AllRounds(rounds[..i])
  }

  /** The delays of the jobs queued: each is the one before and what was drawn. */
  function DrawnDelays(rounds: seq<Round>): seq<int> {
    if rounds == [] then []
    else
      var delays, r := DrawnDelays(rounds[..|rounds| - 1]), rounds[|rounds| - 1];
      if r.optOut then delays else delays + [(if delays == [] then 0 else delays[|delays| - 1]) + r.delay]
  }

  lemma NoRounds(rounds: seq<Round>, first: seq<Step>)
    ensures UpTo(rounds, first, 0) == [] + [Begin] + first && DrawnDelays(rounds[..0]) == []
  {
  }

  lemma RoundNext(rounds: seq<Round>, first: seq<Step>, i: nat)
    requires i < |rounds|
    ensures UpTo(rounds, first, i + 1) == UpTo(rounds, first, i) + RoundSteps(rounds[i])
  {
    assert rounds[..i + 1][..i] == rounds[..i];
    hide RoundSteps;
    assert [Begin] + first + (AllRounds(rounds[..i]) + RoundSteps(rounds[i]))
        == [Begin] + first + AllRounds(rounds[..i]) + RoundSteps(rounds[i]);
  }

  lemma DelaysNext(rounds: seq<Round>, i: nat)
    requires i < |rounds|
    ensures var delays := DrawnDelays(rounds[..i]);
      DrawnDelays(rounds[..i + 1]) == if rounds[i].optOut then delays
        else delays + [(if delays == [] then 0 else delays[|delays| - 1]) + rounds[i].delay]
  {
    assert rounds[..i + 1][..i] == rounds[..i];
  }

  ghost predicate OnlyProgress(steps: seq<Step>) {
    forall k | 0 <= k < |steps| :: IsProgress(steps[k])
  }

  /** The same recipients have a message job. */
  predicate SameTasks(a: seq<Task>, b: seq<Task>) {
    |a| == |b| && forall k | 0 <= k < |a| :: a[k].NoTask? <==> b[k].NoTask?
  }

  /** Of the recipients passed, those not opted out have a message job, and no others have one. */
  ghost predicate TasksFollow(tasks: seq<Task>, rounds: seq<Round>, i: nat) {
    i <= |tasks| == |rounds| && forall k | 0 <= k < |tasks| :: tasks[k].NoTask? <==> k >= i || rounds[k].optOut
  }

  lemma TasksFollowNext(before: seq<Task>, after: seq<Task>, rounds: seq<Round>, i: nat)
    requires TasksFollow(before, rounds, i) && i < |before|
    requires SameTasks(if rounds[i].optOut then before else before[i := Queued], after)
    ensures TasksFollow(after, rounds, i + 1)
  {
    if !rounds[i].optOut {
      assert !before[i := Queued][i].NoTask?;
    }
  }

  lemma NothingQueued(before: seq<Task>, after: seq<Task>, rounds: seq<Round>)
    requires before == seq(|rounds|, _ => NoTask) && SameTasks(before, after)
    ensures TasksFollow(after, rounds, 0)
  {
  }

  lemma AllFollow(before: seq<Task>, after: seq<Task>, rounds: seq<Round>)
    requires TasksFollow(before, rounds, |rounds|) && SameTasks(before, after)
    ensures |after| == |rounds| && forall k | 0 <= k < |rounds| :: after[k].NoTask? <==> rounds[k].optOut
  {
  }

  lemma Begins(start: State, t: State)
    requires Inv(start) && start.dispatcher.NotStarted?
    requires t == start.(status := Running, dispatcher := Looping(0, 0, 0))
    ensures t == Exec(start, [] + [Begin]) && Inv(t)
  {
    hide Exec, Inv;
    ExecNil(start);
    Stepped(start, [], Begin, t);
  }

  /** The rows of one broadcast, shared by the dispatch loop and the message jobs. */
  class BroadcastRows {
    var status: Status
    var totalTargets: int
    var successCount: int
    var failedCount: int
    var recipients: seq<RecipientStatus>
    var tasks: seq<Task>
    var delays: seq<int>
    ghost var lateCounts: nat

    constructor (n: nat)
      ensures Abs(NotStarted) == Create(n)
    {
      status, totalTargets, successCount, failedCount := Draft, n, 0, 0;
      recipients, tasks, delays := seq(n, _ => Waiting), seq(n, _ => NoTask), [];
      lateCounts := 0;
    }

    ghost function Abs(d: Dispatcher): State
      reads this
    {
      State(status, totalTargets, successCount, failedCount, recipients, tasks, delays, d, lateCounts)
    }

    /** First call of `updateBroadcastProgress`. */
    method WriteRecipient(i: nat, ok: bool, ghost d: Dispatcher)
      requires i < |tasks| == |recipients| && tasks[i].Queued?
      modifies this`recipients, this`tasks
      ensures Abs(d) == Apply(old(Abs(d)), Report(i, ok)) && |recipients| == old(|recipients|)
      ensures SameTasks(old(tasks), tasks)
    {
      recipients := recipients[i := if ok then Sent else Failed];
      tasks := tasks[i := Reported(ok)];
    }

    /** Second call: the increment returns the row it left, which is compared with the targets. */
    method IncrementCounter(i: nat, ghost d: Dispatcher)
      requires i < |tasks| && tasks[i].Reported?
      modifies this`successCount, this`failedCount, this`tasks, this`lateCounts
      ensures Abs(d) == Apply(old(Abs(d)), Increment(i)) && SameTasks(old(tasks), tasks)
    {
      var ok := tasks[i].ok;
      if ok { successCount := successCount + 1; } else { failedCount := failedCount + 1; }
      tasks := tasks[i := Counted(ok, successCount + failedCount >= totalTargets)];
      if d.TotalsWritten? || d.Done? { lateCounts := lateCounts + 1; }
    }

    /** Third call, made when the comparison succeeded. */
    method WriteCompleted(i: nat, ghost d: Dispatcher)
      requires i < |tasks| && tasks[i].Counted?
      modifies this`status, this`tasks
      ensures Abs(d) == Apply(old(Abs(d)), Complete(i)) && SameTasks(old(tasks), tasks)
    {
      if tasks[i].completes { status := Completed; }
      tasks := tasks[i := Finished(tasks[i].ok)];
    }

    /** A step of a message job; one that is not enabled changes nothing. */
    method Other(step: Step, ghost d: Dispatcher)
      requires IsProgress(step) && |tasks| == |recipients|
      modifies this
      ensures Abs(d) == Apply(old(Abs(d)), step)
      ensures |recipients| == old(|recipients|) && SameTasks(old(tasks), tasks) && delays == old(delays)
    {
      match step {
        case Report(i, ok) => if i < |tasks| && tasks[i].Queued? { WriteRecipient(i, ok, d); }
        case Increment(i) => if i < |tasks| && tasks[i].Reported? { IncrementCounter(i, d); }
        case Complete(i) => if i < |tasks| && tasks[i].Counted? { WriteCompleted(i, d); }
      }
    }

    /** The given steps of the message jobs. */
    method Others(theirs: seq<Step>, ghost d: Dispatcher, ghost start: State, ghost steps: seq<Step>)
      requires OnlyProgress(theirs) && Abs(d) == Exec(start, steps) && Inv(Abs(d))
      modifies this
      ensures Abs(d) == Exec(start, steps + theirs) && Inv(Abs(d))
      ensures |recipients| == old(|recipients|) && SameTasks(old(tasks), tasks) && delays == old(delays)
    {
      hide Exec, Apply, Inv;
      assert steps + theirs[..0] == steps;
      for k := 0 to |theirs|
        invariant Abs(d) == Exec(start, steps + theirs[..k]) && Inv(Abs(d))
        invariant |recipients| == old(|recipients|) && SameTasks(old(tasks), tasks) && delays == old(delays)
      {
        SameLength(Abs(d));
        ghost var s := Abs(d);
        Other(theirs[k], d);
        Stepped(start, steps + theirs[..k], theirs[k], Abs(d));
        assert steps + theirs[..k + 1] == steps + theirs[..k] + [theirs[k]];
      }
      assert theirs[..|theirs|] == theirs;
    }

    /** One round of the dispatch loop: skip an opted-out contact, or create and queue a message. */
    method DispatchOne(r: Round, i: nat, activeCount: nat, cumulativeDelay: int,
                       ghost start: State, ghost steps: seq<Step>)
      returns (active: nat, cumulative: int)
      requires i < |recipients| && Inv(Abs(Looping(i, activeCount, cumulativeDelay))) && RoundOk(r)
      requires Abs(Looping(i, activeCount, cumulativeDelay)) == Exec(start, steps)
      modifies this
      ensures Abs(Looping(i + 1, active, cumulative)) == Exec(start, steps + RoundSteps(r))
      ensures Inv(Abs(Looping(i + 1, active, cumulative)))
      ensures |recipients| == old(|recipients|) && active == activeCount + if r.optOut then 0 else 1
      ensures cumulative == cumulativeDelay + if r.optOut then 0 else r.delay
      ensures delays == if r.optOut then old(delays) else old(delays) + [cumulative]
      ensures i < old(|tasks|) && SameTasks(if r.optOut then old(tasks) else old(tasks)[i := Queued], tasks)
    {
      hide Exec, Inv;
      SameLength(Abs(Looping(i, activeCount, cumulativeDelay)));
      ghost var done := steps + [Skip];
      if r.optOut {
        active, cumulative := activeCount, cumulativeDelay;
        recipients := recipients[i := Failed];
        Stepped(start, steps, Skip, Abs(Looping(i + 1, active, cumulative)));
      } else {
        Stepped(start, steps, CreateMessage, Abs(Created(i, activeCount, cumulativeDelay)));
        Others(r.before, Created(i, activeCount, cumulativeDelay), start, steps + [CreateMessage]);
        SameLength(Abs(Created(i, activeCount, cumulativeDelay)));
        cumulative := cumulativeDelay + r.delay;
        tasks := tasks[i := Queued];
        delays := delays + [cumulative];
        active := activeCount + 1;
        Stepped(start, steps + [CreateMessage] + r.before, AddJob(r.delay), Abs(Looping(i + 1, active, cumulative)));
        done := steps + [CreateMessage] + r.before + [AddJob(r.delay)];
      }
      Others(r.after, Looping(i + 1, active, cumulative), start, done);
      assert done + r.after == steps + RoundSteps(r);
    }

    /** The end of the dispatch: the final number of targets, and completion when there are none. */
    method FinishDispatch(activeCount: nat, last: seq<Step>,
                          ghost cumulativeDelay: int, ghost start: State, ghost steps: seq<Step>)
      requires Inv(Abs(Looping(|recipients|, activeCount, cumulativeDelay))) && OnlyProgress(last)
      requires Abs(Looping(|recipients|, activeCount, cumulativeDelay)) == Exec(start, steps)
      modifies this
      ensures Abs(Done(activeCount)) == Exec(start, steps + ([WriteTotals] + last + [CompleteIfEmpty]))
      ensures Inv(Abs(Done(activeCount)))
      ensures SameTasks(old(tasks), tasks) && delays == old(delays)
    {
      hide Exec, Inv;
      totalTargets := activeCount;
      Stepped(start, steps, WriteTotals, Abs(TotalsWritten(activeCount)));
      Others(last, TotalsWritten(activeCount), start, steps + [WriteTotals]);
      if activeCount == 0 {
        status := Completed;
      }
      Stepped(start, steps + [WriteTotals] + last, CompleteIfEmpty, Abs(Done(activeCount)));
      assert steps + [WriteTotals] + last + [CompleteIfEmpty] == steps + ([WriteTotals] + last + [CompleteIfEmpty]);
    }

    /** The dispatch loop, for any opt-outs and delays, and any steps of message jobs at each await. */
    method Process(rounds: seq<Round>, first: seq<Step>, last: seq<Step>) returns (activeCount: nat)
      requires Abs(NotStarted) == Create(|rounds|) && OnlyProgress(first) && OnlyProgress(last)
      requires forall k | 0 <= k < |rounds| :: RoundOk(rounds[k])
      modifies this
      ensures Abs(Done(activeCount)) == Exec(Create(|rounds|), DispatchRun(rounds, first, last))
      ensures Inv(Abs(Done(activeCount)))
      ensures delays == DrawnDelays(rounds) && activeCount == totalTargets == |delays|
      ensures |tasks| == |rounds| && forall k | 0 <= k < |rounds| :: tasks[k].NoTask? <==> rounds[k].optOut
    {
      hide Exec, Inv, Num, RoundSteps, RoundOk, UpTo, DrawnDelays, SameTasks, Apply;
      ghost var start := Abs(NotStarted);
      CreateInv(|rounds|);
      status := Running;
      Begins(start, Abs(Looping(0, 0, 0)));
      activeCount := 0;
      var cumulativeDelay := 0;
      Others(first, Looping(0, 0, 0), start, [] + [Begin]);
      NoRounds(rounds, first);
      NothingQueued(start.tasks, tasks, rounds);
      for i := 0 to |rounds|
        invariant Abs(Looping(i, activeCount, cumulativeDelay)) == Exec(start, UpTo(rounds, first, i))
        invariant Inv(Abs(Looping(i, activeCount, cumulativeDelay)))
        invariant |recipients| == |rounds| && TasksFollow(tasks, rounds, i)
        invariant delays == DrawnDelays(rounds[..i]) && activeCount == |delays|
        invariant cumulativeDelay == if delays == [] then 0 else delays[|delays| - 1]
      {
        RoundNext(rounds, first, i);
        DelaysNext(rounds, i);
        ghost var before := tasks;
        activeCount, cumulativeDelay :=
          DispatchOne(rounds[i], i, activeCount, cumulativeDelay, start, UpTo(rounds, first, i));
        TasksFollowNext(before, tasks, rounds, i);
      }
      assert rounds[..|rounds|] == rounds;
      ghost var queued := tasks;
      FinishDispatch(activeCount, last, cumulativeDelay, start, UpTo(rounds, first, |rounds|));
      AllFollow(queued, tasks, rounds);
      FinalRows(Abs(Done(activeCount)));
    }
  }

  lemma SameLength(s: State)
    requires Inv(s)
    ensures |s.tasks| == |s.recipients|
  {
  }

  /** A step of the loop extends the run it belongs to. */
  lemma Stepped(start: State, steps: seq<Step>, step: Step, t: State)
    requires Inv(Exec(start, steps)) && t == Apply(Exec(start, steps), step)
    ensures t == Exec(start, steps + [step]) && Inv(t)
  {
    hide Exec, Apply, Inv;
    StepKeepsInv(Exec(start, steps), step);
    ExecSnoc(start, steps, step);
  }

  lemma FinalRows(s: State)
    requires Inv(s) && s.dispatcher.Done?
    ensures s.totalTargets == s.dispatcher.activeCount == |s.delays|
  {
  }
}
