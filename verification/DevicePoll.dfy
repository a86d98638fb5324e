/** Polling the token endpoint in the device authorization grant (sections 3.2 and 3.5 of RFC 8628).

    Time is counted in nanoseconds. Sleeping takes at least the interval: `extra(k)` is what the k-th
    sleep takes beyond it, and `latency(k)` is how long the k-th request takes. */
module DevicePoll {
  const SECOND := 1_000_000_000
  const DEFAULT_INTERVAL := 5
  const SLOW_DOWN := 5 * SECOND

  datatype Reply = Granted(token: string) | Pending | SlowDown | OtherError

  datatype Outcome = Tokens(token: string) | Expired | Refused

  datatype DeviceStart = DeviceStart(expiresIn: int, interval: int)

  datatype Server = Server(reply: int -> Reply, extra: int -> nat, latency: int -> nat)

  /** Start replaces a missing interval, as section 3.2 asks. */
  method Start(expiresIn: int, interval: int) returns (start: DeviceStart)
    ensures start.interval > 0 && start.expiresIn == expiresIn && (interval > 0 ==> start.interval == interval)
    ensures interval <= 0 ==> start.interval == 5
  {
    start := DeviceStart(expiresIn, interval);
    if start.interval <= 0 {
      start := start.(interval := DEFAULT_INTERVAL);
    }
  }

  /** The interval slept before the k-th request (from 0): every slow_down before it added five seconds. */
  function Interval(start: DeviceStart, s: Server, k: nat): int {
    if k == 0 then start.interval * SECOND
    else Interval(start, s, k - 1) + (if s.reply(k - 1).SlowDown? then SLOW_DOWN else 0)
  }

  /** How many of the first k answers were slow_down. */
  function SlowDowns(s: Server, k: nat): set<int> {
    set j | 0 <= j < k && s.reply(j).SlowDown?
  }

  /** The interval before the k-th request is the one given at the start and five seconds for each slow_down
      before it; no other answer changes it. */
  lemma {:induction false} IntervalIs(start: DeviceStart, s: Server, k: nat)
    ensures Interval(start, s, k) == start.interval * 1_000_000_000 + |SlowDowns(s, k)| * 5_000_000_000
  {
    if k == 0 {
      assert SlowDowns(s, 0) == {};
    } else {
      IntervalIs(start, s, k - 1);
      assert SlowDowns(s, k) == SlowDowns(s, k - 1) + (if s.reply(k - 1).SlowDown? then {k - 1} else {});
    }
  }

  function Sum(f: int -> nat, n: nat): nat {
    if n == 0 then 0 else Sum(f, n - 1) + f(n - 1)
  }

  /** The intervals slept before the first m requests. */
  function Waits(start: DeviceStart, s: Server, m: nat): int {
    if m == 0 then 0 else Waits(start, s, m - 1) + Interval(start, s, m - 1)
  }

  /** When the k-th sleep ends, counted from the call. */
  function Wake(start: DeviceStart, s: Server, k: nat): int {
    (if k == 0 then 0 else Wake(start, s, k - 1) + s.latency(k - 1)) + Interval(start, s, k) + s.extra(k)
  }

  /** A sleep ends when all intervals up to it, what the sleeps took beyond them and the requests between them
      have passed. */
  lemma {:induction false} WakeIsSum(start: DeviceStart, s: Server, k: nat)
    ensures Wake(start, s, k) == Waits(start, s, k + 1) + Sum(s.extra, k + 1) + Sum(s.latency, k)
  {
    if k > 0 {
      WakeIsSum(start, s, k - 1);
    }
  }

  /** The k-th request is sent by the deadline. */
  predicate OnTime(start: DeviceStart, s: Server, k: nat) {
    Wake(start, s, k) <= start.expiresIn * SECOND
  }

  /** The k-th answer says to go on. */
  predicate GoesOn(s: Server, k: nat) {
    s.reply(k).Pending? || s.reply(k).SlowDown?
  }

  lemma {:induction false} IntervalNeverShrinks(start: DeviceStart, s: Server, j: nat, k: nat)
    requires j <= k
    ensures Interval(start, s, j) <= Interval(start, s, k)
    decreases k
  {
    if j < k {
      IntervalNeverShrinks(start, s, j, k - 1);
    }
  }

  lemma {:induction false} WakeAfterWaits(start: DeviceStart, s: Server, k: nat)
    ensures Waits(start, s, k + 1) <= Wake(start, s, k)
  {
    if k > 0 {
      WakeAfterWaits(start, s, k - 1);
    }
  }

  /** Polling ends after n requests: with the tokens or the refusal the last one brought, or because the
      next sleep runs past the deadline. Every request is sent by the deadline, and every answer but the
      last says to go on. */
  ghost predicate EndsAfter(start: DeviceStart, s: Server, n: nat, outcome: Outcome) {
    && (forall k :: 0 <= k < n ==> OnTime(start, s, k))
    && (forall k :: 0 <= k < n - 1 ==> GoesOn(s, k))
    && match outcome
       case Tokens(t) => n > 0 && s.reply(n - 1) == Granted(t)
       case Refused => n > 0 && s.reply(n - 1) == OtherError
       case Expired => !OnTime(start, s, n) && (n > 0 ==> GoesOn(s, n - 1))
  }

  /** When the k-th request is due, counted in nanoseconds from the call. */
  function DueAt(start: DeviceStart, s: Server, k: nat): int {
    Waits(start, s, k + 1) + Sum(s.extra, k + 1) + Sum(s.latency, k)
  }

  /** Polling gives up if and only if the next request would be due after the lifetime of the device code; it
      goes on after authorization_pending and slow_down only, and takes the first other answer. */
  lemma EndingMeans(start: DeviceStart, s: Server, n: nat, outcome: Outcome)
    ensures EndsAfter(start, s, n, outcome) <==>
            && (forall k :: 0 <= k < n ==> DueAt(start, s, k) <= start.expiresIn * 1_000_000_000)
            && (forall k :: 0 <= k < n - 1 ==> s.reply(k) == Pending || s.reply(k) == SlowDown)
            && (outcome.Expired? ==> DueAt(start, s, n) > start.expiresIn * 1_000_000_000
                                     && (n > 0 ==> s.reply(n - 1) == Pending || s.reply(n - 1) == SlowDown))
            && (outcome.Refused? ==> n > 0 && s.reply(n - 1) == OtherError)
            && (outcome.Tokens? ==> n > 0 && s.reply(n - 1) == Granted(outcome.token))
  {
    forall k: nat ensures OnTime(start, s, k) <==> DueAt(start, s, k) <= start.expiresIn * 1_000_000_000 {
      WakeIsSum(start, s, k);
    }
    assert forall k: nat :: GoesOn(s, k) <==> s.reply(k) == Pending || s.reply(k) == SlowDown;
  }

  /** It ends in one way only. */
  lemma OneEnding(start: DeviceStart, s: Server, m: nat, a: Outcome, n: nat, b: Outcome)
    requires EndsAfter(start, s, m, a) && EndsAfter(start, s, n, b)
    ensures m == n && a == b
  {
    NotLater(start, s, m, a, n, b);
    NotLater(start, s, n, b, m, a);
  }

  lemma NotLater(start: DeviceStart, s: Server, m: nat, a: Outcome, n: nat, b: Outcome)
    requires EndsAfter(start, s, m, a) && EndsAfter(start, s, n, b)
    ensures m >= n
  {
    assert m < n ==> OnTime(start, s, m);
    assert 0 < m < n ==> GoesOn(s, m - 1);
  }

  /** Poll always ends, as `EndsAfter` says. */
  method Poll(start: DeviceStart, s: Server) returns (outcome: Outcome)
    requires start.interval > 0
    ensures exists n: nat :: EndsAfter(start, s, n, outcome)
  {
    var deadline := start.expiresIn * SECOND;
    var interval := start.interval * SECOND;
    var now := 0;
    var n := 0;
    while true
      invariant n >= 0 && interval == Interval(start, s, n) && interval > 0
      invariant now == if n == 0 then 0 else Wake(start, s, n - 1) + s.latency(n - 1)
      invariant forall k :: 0 <= k < n ==> OnTime(start, s, k) && GoesOn(s, k)
      decreases deadline - now
    {
      now := now + interval + s.extra(n);
      assert now == Wake(start, s, n);
      if now > deadline {
        assert EndsAfter(start, s, n, Expired);
        return Expired;
      }
      now := now + s.latency(n);
      match s.reply(n) {
        case Granted(t) =>
          assert EndsAfter(start, s, n + 1, Tokens(t));
          return Tokens(t);
        case Pending =>
        case SlowDown => interval := interval + SLOW_DOWN;
        case OtherError =>
          assert EndsAfter(start, s, n + 1, Refused);
          return Refused;
      }
      n := n + 1;
    }
  }

  lemma {:induction false} WaitsAtLeast(start: DeviceStart, s: Server, m: nat)
    ensures m * (start.interval * SECOND) <= Waits(start, s, m)
  {
    if m > 0 {
      WaitsAtLeast(start, s, m - 1);
      IntervalNeverShrinks(start, s, 0, m - 1);
      assert m * (start.interval * SECOND) == (m - 1) * (start.interval * SECOND) + start.interval * SECOND;
    }
  }

  lemma {:induction false} IntervalWhenSlowed(start: DeviceStart, s: Server, k: nat)
    requires forall j :: 0 <= j < k ==> s.reply(j).SlowDown?
    ensures Interval(start, s, k) == start.interval * SECOND + k * SLOW_DOWN
  {
    if k > 0 { IntervalWhenSlowed(start, s, k - 1); }
  }

  function Triangle(m: nat): nat { if m == 0 then 0 else Triangle(m - 1) + (m - 1) }

  lemma {:induction false} TriangleClosed(m: nat)
    ensures 2 * Triangle(m) == m * (m - 1)
  {
    if m > 0 { TriangleClosed(m - 1); }
  }

  lemma {:induction false} WaitsWhenSlowed(start: DeviceStart, s: Server, m: nat)
    requires forall j :: 0 <= j < m - 1 ==> s.reply(j).SlowDown?
    ensures Waits(start, s, m) == m * (start.interval * SECOND) + SLOW_DOWN * Triangle(m)
  {
    if m > 0 {
      WaitsWhenSlowed(start, s, m - 1);
      IntervalWhenSlowed(start, s, m - 1);
      assert m * (start.interval * SECOND) == (m - 1) * (start.interval * SECOND) + start.interval * SECOND;
    }
  }

  lemma InSeconds(interval: int, m: nat, expiresIn: int)
    requires m * (interval * SECOND) <= expiresIn * SECOND
    ensures m * interval <= expiresIn
  {
    assert m * (interval * SECOND) == (m * interval) * SECOND;
  }

  lemma SlowedSeconds(interval: int, m: nat, expiresIn: int)
    requires m * (interval * SECOND) + SLOW_DOWN * Triangle(m) <= expiresIn * SECOND
    ensures 2 * (m * interval) + 5 * (m * (m - 1)) <= 2 * expiresIn
  {
    TriangleClosed(m);
    assert m * (interval * SECOND) == (m * interval) * SECOND;
  }

  /** A poll that sent m requests, the last one by the deadline, has slept its intervals within the
      lifetime of the device code, so m is at most ExpiresIn / Interval; and if every answer but the last
      was slow_down, the requests were spaced further and further apart. */
  lemma PollIsPaced(start: DeviceStart, s: Server, m: nat)
    requires m > 0 && OnTime(start, s, m - 1)
    ensures Waits(start, s, m) <= start.expiresIn * SECOND
    ensures m * start.interval <= start.expiresIn
    ensures (forall j :: 0 <= j < m - 1 ==> s.reply(j).SlowDown?) ==>
              2 * (m * start.interval) + 5 * (m * (m - 1)) <= 2 * start.expiresIn
  {
    WakeAfterWaits(start, s, m - 1);
    WaitsAtLeast(start, s, m);
    InSeconds(start.interval, m, start.expiresIn);
    if forall j :: 0 <= j < m - 1 ==> s.reply(j).SlowDown? {
      WaitsWhenSlowed(start, s, m);
      SlowedSeconds(start.interval, m, start.expiresIn);
    }
  }
}
