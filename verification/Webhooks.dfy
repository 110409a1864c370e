/** The retry bookkeeping of webhook deliveries. */
module Webhooks {
  import opened Common

  datatype Status = PENDING | RETRYING | SUCCESS | FAILED

  datatype Delivery = Delivery(
    status: Status,
    responseCode: Option<int>,
    responseBody: string,
    retryCount: int,
    nextRetryAt: Option<int>)

  /** What the HTTP call comes to. */
  datatype Outcome = Response(ok: bool, code: int, body: string, error: string) | NoResponse(error: string)

  /** One attempt of the job: its outcome, and the clock at its first and its last write. */
  datatype Attempt = Attempt(outcome: Outcome, first: int, last: int)

  predicate Succeeds(a: Attempt) { a.outcome.Response? && a.outcome.ok }

  function Slice(s: string): string { if |s| <= 2000 then s else s[..2000] }

  function Max(a: int, b: int): int { if a >= b then a else b }

  function Pow2(n: nat): nat { if n == 0 then 1 else 2 * Pow2(n - 1) }

  function DelayMs(attemptsMade: nat): int { 10_000 * Max(1, Pow2(Max(0, attemptsMade))) }

  /** `markRetryState`. */
  function MarkRetryState(d: Delivery, maxAttempts: int, attemptsMade: nat, code: Option<int>, body: string, now: int)
    : Delivery
  {
    var willRetry := attemptsMade + 1 < maxAttempts;
    d.(status := if willRetry then RETRYING else FAILED,
       responseCode := if code.Some? then code else d.responseCode,
       responseBody := Slice(body),
       retryCount := attemptsMade + 1,
       nextRetryAt := if willRetry then Some(now + DelayMs(attemptsMade)) else None)
  }

  /** What an attempt leaves in the row. A bad status is recorded twice, the second time by the
      handler of the error the first one throws. */
  function AfterAttempt(d: Delivery, maxAttempts: int, attemptsMade: nat, a: Attempt): Delivery {
    match a.outcome
    case Response(ok, code, body, error) =>
      if ok then d.(status := SUCCESS, responseCode := Some(code), responseBody := Slice(body),
                    retryCount := attemptsMade, nextRetryAt := None)
      else
        MarkRetryState(MarkRetryState(d, maxAttempts, attemptsMade, Some(code), Slice(body), a.first),
                       maxAttempts, attemptsMade, None, error, a.last)
    case NoResponse(error) => MarkRetryState(d, maxAttempts, attemptsMade, None, error, a.last)
  }

  class WebhooksProcessor {
    var row: Delivery

    constructor ()
      ensures row == Delivery(PENDING, None, "", 0, None)
    {
      row := Delivery(PENDING, None, "", 0, None);
    }

    method Mark(maxAttempts: int, attemptsMade: nat, code: Option<int>, body: string, now: int)
      modifies this
      ensures row == MarkRetryState(old(row), maxAttempts, attemptsMade, code, body, now)
    {
      var nextAttempt := attemptsMade + 1;
      var willRetry := nextAttempt < maxAttempts;
      var delayMs := 10_000 * Max(1, Pow2(Max(0, attemptsMade)));
      row := row.(status := if willRetry then RETRYING else FAILED);
      row := row.(responseBody := Slice(body), retryCount := nextAttempt);
      if code.Some? { row := row.(responseCode := code); }
      row := row.(nextRetryAt := if willRetry then Some(now + delayMs) else None);
    }

    /** One attempt; `attempts` is the job option, one when it is not a number. */
    method Process(attempts: Option<nat>, attemptsMade: nat, a: Attempt) returns (r: Result<int>)
      modifies this
      ensures var maxAttempts := if attempts.Some? then attempts.value else 1;
        row == AfterAttempt(old(row), maxAttempts, attemptsMade, a)
      ensures r.Ok? <==> a.outcome.Response? && a.outcome.ok
      ensures a.outcome.Response? && a.outcome.ok ==>
        && row.status == SUCCESS && row.responseCode == Some(a.outcome.code)
        && row.responseBody == (if |a.outcome.body| <= 2000 then a.outcome.body else a.outcome.body[..2000])
        && row.retryCount == attemptsMade && row.nextRetryAt == None
      ensures r.Err? ==>
        var again := attempts.Some? && attemptsMade + 1 < attempts.value;
        && row.status == (if again then RETRYING else FAILED)
        && row.responseCode == (if a.outcome.Response? then Some(a.outcome.code) else old(row).responseCode)
        && row.responseBody == (if |a.outcome.error| <= 2000 then a.outcome.error else a.outcome.error[..2000])
        && row.retryCount == attemptsMade + 1
        && row.nextRetryAt == if again then Some(a.last + 10_000 * Pow2(attemptsMade)) else None
    {
      Positive(attemptsMade);
      var maxAttempts := if attempts.Some? then attempts.value else 1;
      match a.outcome {
        case Response(ok, code, body, error) =>
          if !ok {
            Mark(maxAttempts, attemptsMade, Some(code), Slice(body), a.first);
            Mark(maxAttempts, attemptsMade, None, error, a.last);
            return Err(error);
          }
          row := row.(status := SUCCESS, responseCode := Some(code), responseBody := Slice(body));
          row := row.(retryCount := attemptsMade, nextRetryAt := None);
          return Ok(code);
        case NoResponse(error) =>
          Mark(maxAttempts, attemptsMade, None, error, a.last);
          return Err(error);
      }
    }
  }

  lemma {:induction false} Positive(k: nat)
    ensures Pow2(k) >= 1
  {
    if k > 0 { Positive(k - 1); }
  }

  // ---------------------------------------------------------------- runs

  /** The row, and how far ahead of its last write each retry was set. */
  datatype Progress = Progress(row: Delivery, made: nat, delays: seq<int>)

  const START := Progress(Delivery(PENDING, None, "", 0, None), 0, [])

  predicate Over(p: Progress, maxAttempts: nat) { p.row.status == SUCCESS || p.made >= maxAttempts }

  /** The queue runs the job until it succeeds or its attempts, at least one, are used up. */
  function Run(maxAttempts: nat, attempts: seq<Attempt>): Progress {
    if attempts == [] then START
    else
      var p := Run(maxAttempts, attempts[..|attempts| - 1]);
      var a := attempts[|attempts| - 1];
      if Over(p, maxAttempts) then p
      else
        var row := AfterAttempt(p.row, maxAttempts, p.made, a);
        Progress(row, p.made + 1,
                 p.delays + if row.nextRetryAt.Some? then [row.nextRetryAt.value - a.last] else [])
  }

  /** The attempts that are made: up to the first success, and no more than allowed. */
  function Made(maxAttempts: nat, attempts: seq<Attempt>): seq<Attempt> {
    if attempts == [] || maxAttempts == 0 then []
    else if Succeeds(attempts[0]) then [attempts[0]]
    else [attempts[0]] + Made(maxAttempts - 1, attempts[1..])
  }

  function Failures(attempts: seq<Attempt>): nat {
    if attempts == [] then 0 else (if Succeeds(attempts[0]) then 0 else 1) + Failures(attempts[1..])
  }

  function Sum(s: seq<int>): int { if s == [] then 0 else Sum(s[..|s| - 1]) + s[|s| - 1] }

  ghost predicate AllFail(attempts: seq<Attempt>) {
    forall i | 0 <= i < |attempts| :: !Succeeds(attempts[i])
  }

  lemma {:induction false} MadeSnoc(maxAttempts: nat, attempts: seq<Attempt>, a: Attempt)
    ensures var made := Made(maxAttempts, attempts);
      && |made| <= maxAttempts
      && (forall i | 0 <= i < |made| - 1 :: !Succeeds(made[i]))
      && Made(maxAttempts, attempts + [a])
         == if |made| == maxAttempts || (made != [] && Succeeds(made[|made| - 1])) then made else made + [a]
  {
    hide Succeeds;
    if maxAttempts > 0 && attempts != [] {
      assert (attempts + [a])[1..] == attempts[1..] + [a];
      MadeSnoc(maxAttempts - 1, attempts[1..], a);
    } else if maxAttempts > 0 {
      assert attempts + [a] == [a];
    }
  }

  lemma {:induction false} FailuresOf(made: seq<Attempt>)
    requires forall i | 0 <= i < |made| - 1 :: !Succeeds(made[i])
    ensures Failures(made) == if made != [] && Succeeds(made[|made| - 1]) then |made| - 1 else |made|
  {
    if |made| > 1 {
      FailuresOf(made[1..]);
    }
  }

  /** The delays recorded by the first `k` failures. */
  function Delays(k: nat): seq<int> {
    if k == 0 then [] else Delays(k - 1) + [DelayMs(k - 1)]
  }

  lemma {:induction false} DelaysSum(k: nat)
    ensures Sum(Delays(k)) == 10_000 * (Pow2(k) - 1)
  {
    if k > 0 {
      DelaysSum(k - 1);
      Positive(k - 1);
    }
  }

  ghost predicate Consistent(maxAttempts: nat, made: seq<Attempt>, p: Progress) {
    var won := made != [] && Succeeds(made[|made| - 1]);
    && p.made == |made| <= maxAttempts
    && (forall i | 0 <= i < |made| - 1 :: !Succeeds(made[i]))
    && p.row.status == (if made == [] then PENDING else if won then SUCCESS
                        else if |made| == maxAttempts then FAILED else RETRYING)
    && p.row.retryCount == (if won then |made| - 1 else |made|)
    && (p.row.nextRetryAt.None? <==> made == [] || won || |made| == maxAttempts)
    && p.delays == Delays(if won || (|made| == maxAttempts && made != []) then |made| - 1 else |made|)
  }

  lemma AttemptConsistent(maxAttempts: nat, made: seq<Attempt>, p: Progress, a: Attempt)
    requires Consistent(maxAttempts, made, p) && !Over(p, maxAttempts)
    ensures var row := AfterAttempt(p.row, maxAttempts, p.made, a);
      Consistent(maxAttempts, made + [a],
        Progress(row, p.made + 1, p.delays + if row.nextRetryAt.Some? then [row.nextRetryAt.value - a.last] else []))
  {
    hide Slice, DelayMs;
    assert p.made < maxAttempts && (made == [] || !Succeeds(made[|made| - 1]));
    assert Delays(|made| + 1) == Delays(|made|) + [DelayMs(|made|)];
  }

  lemma {:induction false} RunConsistent(maxAttempts: nat, attempts: seq<Attempt>)
    ensures Consistent(maxAttempts, Made(maxAttempts, attempts), Run(maxAttempts, attempts))
  {
    if attempts != [] {
      var n := |attempts| - 1;
      RunConsistent(maxAttempts, attempts[..n]);
      MadeSnoc(maxAttempts, attempts[..n], attempts[n]);
      assert attempts == attempts[..n] + [attempts[n]];
      var p := Run(maxAttempts, attempts[..n]);
      if !Over(p, maxAttempts) {
        AttemptConsistent(maxAttempts, Made(maxAttempts, attempts[..n]), p, attempts[n]);
      }
    }
  }

  /** For any limit and any outcomes: the row is SUCCESS when an attempt that was made succeeded,
      FAILED when the limit was reached without one, RETRYING after other failures; it counts the
      failures, and it names a next retry exactly while there will be one. */
  lemma DeliveryStatus(maxAttempts: nat, attempts: seq<Attempt>)
    requires maxAttempts >= 1
    ensures var made, row := Made(maxAttempts, attempts), Run(maxAttempts, attempts).row;
      && (row.status == SUCCESS <==> !AllFail(made))
      && (row.status == FAILED <==> AllFail(made) && |made| == maxAttempts)
      && (row.status == RETRYING <==> AllFail(made) && 0 < |made| < maxAttempts)
      && row.retryCount == Failures(made)
      && (row.nextRetryAt.Some? <==> row.status == RETRYING)
  {
    RunConsistent(maxAttempts, attempts);
    FailuresOf(Made(maxAttempts, attempts));
  }

  /** A delivery that fails for good has waited 10 s, 20 s, 40 s and so on between its attempts. */
  lemma TotalDelay(maxAttempts: nat, attempts: seq<Attempt>)
    requires maxAttempts >= 1 && Run(maxAttempts, attempts).row.status == FAILED
    ensures Sum(Run(maxAttempts, attempts).delays) == 10_000 * (Pow2(maxAttempts - 1) - 1)
  {
    RunConsistent(maxAttempts, attempts);
    DelaysSum(maxAttempts - 1);
  }

  /** Recording a bad status twice counts it once, and keeps its code; but the body of the response
      is lost to the message of the error. */
  lemma BadStatusRecordedOnce(d: Delivery, maxAttempts: int, attemptsMade: nat, a: Attempt)
    requires a.outcome.Response? && !a.outcome.ok
    ensures var row := AfterAttempt(d, maxAttempts, attemptsMade, a);
      && row == MarkRetryState(d, maxAttempts, attemptsMade, Some(a.outcome.code), a.outcome.error, a.last)
      && row.responseBody == Slice(a.outcome.error)
  {
  }
}
