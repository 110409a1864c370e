/** The fixed-window rate limiter of the frontend middleware. */
module RateLimiter {

  datatype Rule = Rule(windowMs: int, max: int)

  const WINDOW_MS: int := 60_000
  const AUTH := Rule(WINDOW_MS, 20)
  const DEFAULT := Rule(WINDOW_MS, 300)

  datatype Entry = Entry(count: int, resetAt: int)

  type Hits = map<string, Entry>

  datatype Response = Next | TooManyRequests(retryAfter: int, limit: int)

  datatype Request = Request(ip: string, pathname: string, now: int)

  predicate IsAuthPath(pathname: string) { "/auth" <= pathname }

  function RuleFor(pathname: string): Rule {
    if IsAuthPath(pathname) || pathname == "/" then AUTH else DEFAULT
  }

  function KeyFor(r: Request): string {
    r.ip + ":" + if IsAuthPath(r.pathname) then "auth" else "default"
  }

  predicate OpensWindow(hits: Hits, r: Request) {
    KeyFor(r) !in hits || hits[KeyFor(r)].resetAt < r.now
  }

  /** The entry of the request's key after the request. */
  function NewEntry(hits: Hits, r: Request): Entry {
    if OpensWindow(hits, r) then Entry(1, r.now + RuleFor(r.pathname).windowMs)
    else hits[KeyFor(r)].(count := hits[KeyFor(r)].count + 1)
  }

  predicate Allowed(hits: Hits, r: Request) {
    OpensWindow(hits, r) || NewEntry(hits, r).count <= RuleFor(r.pathname).max
  }

  function CeilDiv1000(x: int): int { (x + 999) / 1000 }

  function Respond(hits: Hits, r: Request): Response {
    if Allowed(hits, r) then Next
    else TooManyRequests(CeilDiv1000(NewEntry(hits, r).resetAt - r.now), RuleFor(r.pathname).max)
  }

  class Middleware {
    var hits: Hits

    constructor ()
      ensures hits == map[]
    {
      hits := map[];
    }

    method Handle(r: Request) returns (response: Response)
      modifies this
      ensures hits == old(hits)[KeyFor(r) := NewEntry(old(hits), r)]
      ensures response == Respond(old(hits), r)
      ensures
        var auth := |r.pathname| >= 5 && r.pathname[..5] == "/auth";
        var max := if auth || r.pathname == "/" then 20 else 300;
        var key := if auth then r.ip + ":" + "auth" else r.ip + ":" + "default";
        var opens := key !in old(hits) || old(hits)[key].resetAt < r.now;
        && hits.Keys == old(hits).Keys + {key} && (forall k | k in hits && k != key :: hits[k] == old(hits)[k])
        && (opens ==> hits[key] == Entry(1, r.now + 60_000))
        && (!opens ==> hits[key] == Entry(old(hits)[key].count + 1, old(hits)[key].resetAt))
        && (response == Next <==> opens || hits[key].count <= max)
        && (response != Next ==>
              && response.limit == max
              && 1000 * (response.retryAfter - 1) < hits[key].resetAt - r.now <= 1000 * response.retryAfter)
    {
      var rule := if IsAuthPath(r.pathname) || r.pathname == "/" then AUTH else DEFAULT;
      var key := r.ip + ":" + if IsAuthPath(r.pathname) then "auth" else "default";
      if key !in hits || hits[key].resetAt < r.now {
        hits := hits[key := Entry(1, r.now + rule.windowMs)];
        return Next;
      }
      hits := hits[key := hits[key].(count := hits[key].count + 1)];
      if hits[key].count > rule.max {
        return TooManyRequests(CeilDiv1000(hits[key].resetAt - r.now), rule.max);
      }
      return Next;
    }
  }

  // ---------------------------------------------------------------- runs

  /** What a run records of a request: its key, its time, the number of windows its key had
      opened, and whether it opened one or was let through. */
  datatype Record = Record(key: string, time: int, epoch: nat, opener: bool, allowed: bool)

  datatype History = History(hits: Hits, epochs: map<string, nat>, log: seq<Record>)

  function Epoch(h: History, key: string): nat {
    if key in h.epochs then h.epochs[key] else 0
  }

  function Extend(h: History, r: Request): History {
    var key, opener := KeyFor(r), OpensWindow(h.hits, r);
    var epoch := if opener then Epoch(h, key) + 1 else Epoch(h, key);
    History(h.hits[key := NewEntry(h.hits, r)], h.epochs[key := epoch],
            h.log + [Record(key, r.now, epoch, opener, Allowed(h.hits, r))])
  }

  function Run(reqs: seq<Request>): History {
    if reqs == [] then History(map[], map[], [])
    else Extend(Run(reqs[..|reqs| - 1]), reqs[|reqs| - 1])
  }

  ghost predicate TimesOrdered(reqs: seq<Request>) {
    forall i, j | 0 <= i < j < |reqs| :: reqs[i].now <= reqs[j].now
  }

  ghost function Count(log: seq<Record>, p: Record -> bool): nat {
    if log == [] then 0 else Count(log[..|log| - 1], p) + if p(log[|log| - 1]) then 1 else 0
  }

  // Requests of a key let through: in the closed interval from `a` to `b`; in a window; in a
  // window after the request that opened it.

  ghost function Within(key: string, a: int, b: int): Record -> bool {
    (r: Record) => r.key == key && r.allowed && a <= r.time <= b
  }

  ghost function Window(key: string, epoch: nat): Record -> bool {
    (r: Record) => r.key == key && r.allowed && r.epoch == epoch
  }

  ghost function Late(key: string, epoch: nat): Record -> bool {
    (r: Record) => r.key == key && r.allowed && r.epoch == epoch && !r.opener
  }

  ghost function LetThrough(log: seq<Record>, key: string, a: int, b: int): nat { Count(log, Within(key, a, b)) }

  ghost function InEpoch(log: seq<Record>, key: string, epoch: nat): nat { Count(log, Window(key, epoch)) }

  ghost function LateInEpoch(log: seq<Record>, key: string, epoch: nat): nat { Count(log, Late(key, epoch)) }

  lemma {:induction false} CountSplit(log: seq<Record>, p: Record -> bool, q: Record -> bool, u: Record -> bool)
    requires forall i | 0 <= i < |log| :: p(log[i]) ==> q(log[i]) || u(log[i])
    ensures Count(log, p) <= Count(log, q) + Count(log, u)
  {
    if log != [] {
      CountSplit(log[..|log| - 1], p, q, u);
    }
  }

  lemma {:induction false} CountNone(log: seq<Record>, p: Record -> bool)
    requires forall i | 0 <= i < |log| :: !p(log[i])
    ensures Count(log, p) == 0
  {
    if log != [] {
      CountNone(log[..|log| - 1], p);
    }
  }

  /** The second of two records of a key is a whole window later when a window, or the whole
      window of the first, lies between them. */
  ghost predicate FarApart(r: Record, q: Record) {
    (r.epoch + 2 <= q.epoch || (r.epoch + 1 == q.epoch && r.opener)) ==> r.time + WINDOW_MS < q.time
  }

  /** What a run keeps about the times of one key. */
  ghost predicate KeyTimes(h: History, key: string, last: int) {
    var e := Epoch(h, key);
    var mine := set i | 0 <= i < |h.log| && h.log[i].key == key;
    && (e > 0 <==> key in h.hits)
    && (forall i | i in mine :: 1 <= h.log[i].epoch <= e && (h.log[i].opener ==> h.log[i].allowed))
    && (key in h.hits ==>
      var start := h.hits[key].resetAt - WINDOW_MS;
      && start <= last
      && (forall i | i in mine && h.log[i].epoch == e ::
            start <= h.log[i].time <= start + WINDOW_MS && (h.log[i].opener ==> h.log[i].time == start))
      && (forall i | i in mine && h.log[i].epoch < e :: h.log[i].time < start)
      && (forall i | i in mine && (h.log[i].epoch + 2 <= e || (h.log[i].epoch + 1 == e && h.log[i].opener)) ::
            h.log[i].time + WINDOW_MS < start))
    && (forall i, j | i in mine && j in mine :: FarApart(h.log[i], h.log[j]))
  }

  /** What a run keeps about the counts of one key, whose requests never use a limit above `max`. */
  ghost predicate KeyCounts(h: History, key: string, max: int) {
    var e := Epoch(h, key);
    && (key in h.hits ==> 1 <= h.hits[key].count && LateInEpoch(h.log, key, e) <= h.hits[key].count - 1)
    && (forall x: nat :: LateInEpoch(h.log, key, x) <= max - 1)
    && (forall x: nat :: InEpoch(h.log, key, x) <= LateInEpoch(h.log, key, x) + if 1 <= x <= e then 1 else 0)
  }

  ghost predicate KeyInv(h: History, key: string, max: int, last: int) {
    KeyTimes(h, key, last) && KeyCounts(h, key, max)
  }

  lemma CountExtend(h: History, r: Request, p: Record -> bool)
    ensures CountsExtend(h, r, p)
  {
    var t := Extend(h, r);
    assert t.log[..|t.log| - 1] == h.log;
  }

  ghost predicate CountsExtend(h: History, r: Request, p: Record -> bool) {
    Count(Extend(h, r).log, p) == Count(h.log, p) + if p(Extend(h, r).log[|h.log|]) then 1 else 0
  }

  lemma EpochsExtend(h: History, r: Request, key: string)
    ensures forall x: nat :: CountsExtend(h, r, Window(key, x))
    ensures forall x: nat :: CountsExtend(h, r, Late(key, x))
  {
    forall x: nat ensures CountsExtend(h, r, Window(key, x)) {
      CountExtend(h, r, Window(key, x));
    }
    forall x: nat ensures CountsExtend(h, r, Late(key, x)) {
      CountExtend(h, r, Late(key, x));
    }
  }

  lemma OtherKey(h: History, r: Request, key: string, max: int, last: int)
    requires KeyInv(h, key, max, last) && KeyFor(r) != key && last <= r.now
    ensures KeyInv(Extend(h, r), key, max, r.now)
  {
    hide Count, KeyFor;
    EpochsExtend(h, r, key);
    var t := Extend(h, r);
    forall x: nat
      ensures InEpoch(t.log, key, x) == InEpoch(h.log, key, x)
      ensures LateInEpoch(t.log, key, x) == LateInEpoch(h.log, key, x)
    {
      assert CountsExtend(h, r, Window(key, x)) && CountsExtend(h, r, Late(key, x));
    }
  }

  lemma SameKeyTimes(h: History, r: Request, last: int)
    requires KeyTimes(h, KeyFor(r), last) && last <= r.now
    ensures KeyTimes(Extend(h, r), KeyFor(r), r.now)
  {
    hide KeyFor;
  }

  lemma SameKeyCounts(h: History, r: Request, max: int, last: int)
    requires KeyInv(h, KeyFor(r), max, last) && 1 <= max && RuleFor(r.pathname).max <= max
    ensures KeyCounts(Extend(h, r), KeyFor(r), max)
  {
    hide Count, KeyFor;
    var key := KeyFor(r);
    EpochsExtend(h, r, key);
    if OpensWindow(h.hits, r) {
      CountNone(h.log, Late(key, Epoch(h, key) + 1));
      CountNone(h.log, Window(key, Epoch(h, key) + 1));
    }
    var t := Extend(h, r);
    assert CountsExtend(h, r, Late(key, Epoch(t, key)));
    forall x: nat
      ensures LateInEpoch(t.log, key, x) <= max - 1
      ensures InEpoch(t.log, key, x) <= LateInEpoch(t.log, key, x) + if 1 <= x <= Epoch(t, key) then 1 else 0
    {
      var late, all := LateInEpoch(h.log, key, x), InEpoch(h.log, key, x);
      assert CountsExtend(h, r, Window(key, x)) && CountsExtend(h, r, Late(key, x));
    }
  }

  lemma {:induction false} RunKeepsKeyInv(reqs: seq<Request>, key: string, max: int, last: int)
    requires TimesOrdered(reqs) && max >= 1 && (reqs != [] ==> reqs[|reqs| - 1].now <= last)
    requires forall i | 0 <= i < |reqs| :: KeyFor(reqs[i]) == key ==> RuleFor(reqs[i].pathname).max <= max
    ensures KeyInv(Run(reqs), key, max, last)
  {
    hide KeyFor, RuleFor, KeyTimes, KeyCounts, Extend;
    if reqs == [] {
      NothingKept(key, max, last);
    } else {
      var n := |reqs| - 1;
      RunKeepsKeyInv(reqs[..n], key, max, reqs[n].now);
      var h := Run(reqs[..n]);
      if KeyFor(reqs[n]) == key {
        SameKeyTimes(h, reqs[n], reqs[n].now);
        SameKeyCounts(h, reqs[n], max, reqs[n].now);
      } else {
        OtherKey(h, reqs[n], key, max, reqs[n].now);
      }
      KeptLonger(Run(reqs), key, max, reqs[n].now, last);
    }
  }

  lemma NothingKept(key: string, max: int, last: int)
    requires max >= 1
    ensures KeyInv(Run([]), key, max, last)
  {
  }

  lemma KeptLonger(h: History, key: string, max: int, last: int, later: int)
    requires KeyInv(h, key, max, last) && last <= later
    ensures KeyInv(h, key, max, later)
  {
    hide KeyCounts;
  }

  // ---------------------------------------------------------------- main results

  ghost predicate LimitAtMost(reqs: seq<Request>, key: string, max: int) {
    max >= 1 && forall i | 0 <= i < |reqs| :: KeyFor(reqs[i]) == key ==> RuleFor(reqs[i].pathname).max <= max
  }

  /** A window lets through at most the largest limit used with its key. */
  lemma WindowBound(reqs: seq<Request>, key: string, max: int, epoch: nat)
    requires TimesOrdered(reqs) && LimitAtMost(reqs, key, max)
    ensures InEpoch(Run(reqs).log, key, epoch) <= max
  {
    RunKeepsKeyInv(reqs, key, max, if reqs == [] then 0 else reqs[|reqs| - 1].now);
  }

  /** The index of a record that satisfies `p`, with the largest epoch among those. */
  lemma {:induction false} LatestEpoch(log: seq<Record>, p: Record -> bool) returns (j: int)
    ensures j >= 0 ==> j < |log| && p(log[j])
    ensures j >= 0 ==> forall i | 0 <= i < |log| && p(log[i]) :: log[i].epoch <= log[j].epoch
    ensures j < 0 ==> forall i | 0 <= i < |log| :: !p(log[i])
  {
    if log == [] {
      j := -1;
    } else {
      var n := |log| - 1;
      j := LatestEpoch(log[..n], p);
      if p(log[n]) && (j < 0 || log[j].epoch <= log[n].epoch) {
        j := n;
      }
    }
  }

  /** Any closed interval of one window length lets through at most 2 * max - 1 requests: it meets
      at most two windows, and when it meets two it misses the request that opened the first. */
  lemma SlidingBound(reqs: seq<Request>, key: string, max: int, a: int)
    requires TimesOrdered(reqs) && LimitAtMost(reqs, key, max)
    ensures LetThrough(Run(reqs).log, key, a, a + 60_000) <= 2 * max - 1
  {
    var h := Run(reqs);
    RunKeepsKeyInv(reqs, key, max, if reqs == [] then 0 else reqs[|reqs| - 1].now);
    var p := Within(key, a, a + WINDOW_MS);
    var j := LatestEpoch(h.log, p);
    if j < 0 {
      CountNone(h.log, p);
    } else {
      var e := h.log[j].epoch;
      var before := if e > 0 then e - 1 else 0;
      forall i | 0 <= i < |h.log| && p(h.log[i])
        ensures Window(key, e)(h.log[i]) || Late(key, before)(h.log[i])
      {
        assert FarApart(h.log[i], h.log[j]);
      }
      CountSplit(h.log, p, Window(key, e), Late(key, before));
      assert InEpoch(h.log, key, e) <= max && LateInEpoch(h.log, key, before) <= max - 1;
    }
  }

  lemma LastLetter(r: Request)
    ensures KeyFor(r)[|KeyFor(r)| - 1] == if IsAuthPath(r.pathname) then 'h' else 't'
  {
  }

  /** The key of an authentication path is limited by that rule alone, 39 in a minute. */
  lemma AuthBound(reqs: seq<Request>, ip: string, a: int)
    requires TimesOrdered(reqs)
    ensures LetThrough(Run(reqs).log, ip + ":" + "auth", a, a + 60_000) <= 39
  {
    var key := ip + ":" + "auth";
    assert key[|key| - 1] == 'h';
    forall i | 0 <= i < |reqs| && KeyFor(reqs[i]) == key ensures RuleFor(reqs[i].pathname).max <= 20 {
      LastLetter(reqs[i]);
    }
    SlidingBound(reqs, key, 20, a);
  }

  /** Any key at all lets through at most 599 requests in a minute. */
  lemma AnyKeyBound(reqs: seq<Request>, key: string, a: int)
    requires TimesOrdered(reqs)
    ensures LetThrough(Run(reqs).log, key, a, a + 60_000) <= 599
  {
    SlidingBound(reqs, key, 300, a);
  }

  /** `n` requests at once. */
  function Burst(r: Request, n: nat): seq<Request> { seq(n, _ => r) }

  ghost predicate BurstResult(reqs: seq<Request>, r: Request, n: nat, a: int, b: int) {
    var h, t := Run(reqs), Run(reqs + Burst(r, n));
    && LetThrough(t.log, KeyFor(r), a, b) == LetThrough(h.log, KeyFor(r), a, b) + n
    && !OpensWindow(h.hits, r) && !OpensWindow(t.hits, r)
    && t.hits[KeyFor(r)] == h.hits[KeyFor(r)].(count := h.hits[KeyFor(r)].count + n)
  }

  lemma RunSnoc(reqs: seq<Request>, r: Request)
    ensures Run(reqs + [r]) == Extend(Run(reqs), r)
  {
    hide Extend;
    assert (reqs + [r])[..|reqs|] == reqs;
  }

  lemma BurstSnoc(reqs: seq<Request>, r: Request, n: nat)
    ensures reqs + Burst(r, n + 1) == reqs + Burst(r, n) + [r]
  {
  }

  lemma BurstNext(reqs: seq<Request>, r: Request, n: nat, a: int, b: int)
    requires BurstResult(reqs, r, n, a, b) && a <= r.now <= b
    requires Run(reqs).hits[KeyFor(r)].count + n < RuleFor(r.pathname).max
    ensures BurstResult(reqs, r, n + 1, a, b)
  {
    hide Run, RuleFor, KeyFor, Count;
    var u := reqs + Burst(r, n);
    BurstSnoc(reqs, r, n);
    RunSnoc(u, r);
    CountExtend(Run(u), r, Within(KeyFor(r), a, b));
  }

  lemma {:induction false} BurstPasses(reqs: seq<Request>, r: Request, n: nat, a: int, b: int)
    requires var h := Run(reqs).hits; !OpensWindow(h, r) && h[KeyFor(r)].count + n <= RuleFor(r.pathname).max
    requires a <= r.now <= b
    ensures BurstResult(reqs, r, n, a, b)
  {
    hide Run, RuleFor, KeyFor, LetThrough;
    if n == 0 {
      assert reqs + Burst(r, 0) == reqs;
    } else {
      assert !OpensWindow(Run(reqs).hits, r);
      BurstPasses(reqs, r, n - 1, a, b);
      BurstNext(reqs, r, n - 1, a, b);
    }
  }

  /** A request opens a window at 0 and the rest of the window's limit follows in its last
      millisecond; one millisecond later the next window opens, with as many again. */
  function TwoWindows(ip: string, pathname: string): seq<Request> {
    var early, late := Request(ip, pathname, WINDOW_MS), Request(ip, pathname, WINDOW_MS + 1);
    var rest := if RuleFor(pathname).max >= 1 then RuleFor(pathname).max - 1 else 0;
    [Request(ip, pathname, 0)] + Burst(early, rest) + [late] + Burst(late, rest)
  }

  lemma TwoWindowsOrdered(ip: string, pathname: string)
    ensures TimesOrdered(TwoWindows(ip, pathname))
  {
    hide RuleFor;
  }

  lemma TwoWindowsLimited(ip: string, pathname: string)
    ensures LimitAtMost(TwoWindows(ip, pathname), KeyFor(Request(ip, pathname, 0)), RuleFor(pathname).max)
  {
    OneWindow(pathname);
    hide RuleFor, KeyFor;
    var reqs := TwoWindows(ip, pathname);
    assert forall i | 0 <= i < |reqs| :: reqs[i].pathname == pathname;
  }

  /** The bound is reached for every path: 39 requests in one closed minute to `/` and to what begins
      with `/auth`, and 599 to any other. */
  lemma SlidingBoundReached(ip: string, pathname: string)
    ensures var auth := |pathname| >= 5 && pathname[..5] == "/auth";
      var key := if auth then ip + ":" + "auth" else ip + ":" + "default";
      && TimesOrdered(TwoWindows(ip, pathname))
      && LetThrough(Run(TwoWindows(ip, pathname)).log, key, 1, 60_001) == if auth || pathname == "/" then 39 else 599
  {
    WindowsFilled(ip, pathname);
    hide Run, LetThrough, TimesOrdered, LimitAtMost, TwoWindows;
  }

  lemma WindowsFilled(ip: string, pathname: string)
    ensures var reqs, key := TwoWindows(ip, pathname), KeyFor(Request(ip, pathname, 0));
      && TimesOrdered(reqs) && LimitAtMost(reqs, key, RuleFor(pathname).max)
      && LetThrough(Run(reqs).log, key, 1, 1 + WINDOW_MS) == 2 * RuleFor(pathname).max - 1
  {
    hide Run, RuleFor, KeyFor, LetThrough, TimesOrdered, LimitAtMost;
    var max := RuleFor(pathname).max;
    var first, early := Request(ip, pathname, 0), Request(ip, pathname, WINDOW_MS);
    var late := Request(ip, pathname, WINDOW_MS + 1);
    TwoWindowsOrdered(ip, pathname);
    TwoWindowsLimited(ip, pathname);
    OneWindow(pathname);
    SameKey(first, early);
    SameKey(first, late);
    FirstOpens(first, early);
    BurstPasses([first], early, max - 1, 1, 1 + WINDOW_MS);
    var reqs := [first] + Burst(early, max - 1);
    LateOpens(reqs, late);
    BurstPasses(reqs + [late], late, max - 1, 1, 1 + WINDOW_MS);
    assert TwoWindows(ip, pathname) == reqs + [late] + Burst(late, max - 1);
  }

  lemma OneWindow(pathname: string)
    ensures RuleFor(pathname).windowMs == WINDOW_MS && RuleFor(pathname).max >= 1
  {
  }

  /** The first request of a run opens a window. */
  lemma FirstOpens(r: Request, later: Request)
    requires r.now == 0 && later == r.(now := WINDOW_MS)
    ensures var h := Run([r]);
      && LetThrough(h.log, KeyFor(r), 1, 1 + WINDOW_MS) == 0
      && KeyFor(r) in h.hits && h.hits[KeyFor(r)] == Entry(1, WINDOW_MS) && !OpensWindow(h.hits, later)
  {
    hide KeyFor;
    OneWindow(r.pathname);
    assert KeyFor(later) == KeyFor(r) by { SameKey(r, later); }
    assert [r][..0] == [];
    CountExtend(Run([]), r, Within(KeyFor(r), 1, 1 + WINDOW_MS));
  }

  lemma SameKey(r: Request, q: Request)
    requires r.ip == q.ip && r.pathname == q.pathname
    ensures KeyFor(r) == KeyFor(q)
  {
  }

  /** A request after the window has ended opens the next. */
  lemma LateOpens(reqs: seq<Request>, r: Request)
    requires r.now == WINDOW_MS + 1 && KeyFor(r) in Run(reqs).hits && Run(reqs).hits[KeyFor(r)].resetAt == WINDOW_MS
    ensures var h, t := Run(reqs), Run(reqs + [r]);
      && LetThrough(t.log, KeyFor(r), 1, 1 + WINDOW_MS) == LetThrough(h.log, KeyFor(r), 1, 1 + WINDOW_MS) + 1
      && KeyFor(r) in t.hits && t.hits[KeyFor(r)].count == 1 && !OpensWindow(t.hits, r)
  {
    hide Run, KeyFor, Count;
    OneWindow(r.pathname);
    RunSnoc(reqs, r);
    CountExtend(Run(reqs), r, Within(KeyFor(r), 1, 1 + WINDOW_MS));
  }

  /** Waiting exactly the `Retry-After` seconds helps unless the window ends on a whole second
      from now: the window still covers its last millisecond. */
  lemma RetryAfterHonoured(hits: Hits, r: Request)
    requires Respond(hits, r).TooManyRequests?
    ensures var after := hits[KeyFor(r) := NewEntry(hits, r)];
      var again := r.(now := r.now + 1000 * Respond(hits, r).retryAfter);
      Respond(after, again) == Next <==> (hits[KeyFor(r)].resetAt - r.now) % 1000 != 0
  {
    var d := hits[KeyFor(r)].resetAt - r.now;
    assert d < 1000 * CeilDiv1000(d) <==> d % 1000 != 0;
  }
}
