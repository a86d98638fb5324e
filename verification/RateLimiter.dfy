/** The per-IP fixed-window rate limiter: the class with its lazy sweep, a reference limiter that never
    deletes, and the bounds both keep over every history of calls. */
module RateLimiter {
  import opened Basics

  const SWEEP_ABOVE := 10_000

  datatype Window = Window(start: int, count: int)

  type Windows = map<string, Window>

  predicate Expired(w: Window, now: int, period: int) {
    now - w.start >= period
  }

  /** The hit itself: a missing or expired window restarts, a live one counts. */
  function Hit(ws: Windows, limit: int, period: int, ip: string, now: int): (Windows, bool) {
    if ip !in ws || Expired(ws[ip], now, period) then (ws[ip := Window(now, 1)], true)
    else (ws[ip := ws[ip].(count := ws[ip].count + 1)], ws[ip].count + 1 <= limit)
  }

  function Swept(ws: Windows, now: int, period: int): Windows {
    map k | k in ws && !Expired(ws[k], now, period) :: ws[k]
  }

  /** One call of allow: above the threshold the expired windows go first. */
  function Decide(ws: Windows, limit: int, period: int, ip: string, now: int): (Windows, bool) {
    Hit(if |ws| > SWEEP_ABOVE then Swept(ws, now, period) else ws, limit, period, ip, now)
  }

  class IpRateLimiter {
    var windows: Windows
    const limit: int
    const period: int

    constructor (limit: int, period: int)
      ensures windows == map[] && this.limit == limit && this.period == period
    {
      this.limit, this.period := limit, period;
      windows := map[];
    }

    method Sweep(now: int)
      modifies this
      ensures windows == Swept(old(windows), now, period)
      ensures forall k :: k in windows <==> k in old(windows) && now - old(windows)[k].start < period
      ensures forall k :: k in windows ==> windows[k] == old(windows)[k]
    {
      var pending := windows.Keys;
      while pending != {}
        invariant pending <= old(windows).Keys
        invariant windows == map k | k in old(windows) && (k in pending || !Expired(old(windows)[k], now, period)) :: old(windows)[k]
      {
        var k := AnyOf(pending);
        if now - windows[k].start >= period {
          windows := windows - {k};
        }
        pending := pending - {k};
      }
    }

    method Allow(ip: string, now: int) returns (ok: bool)
      modifies this
      ensures (windows, ok) == Decide(old(windows), limit, period, ip, now)
      ensures var was := old(windows); var live := ip in was && now - was[ip].start < period;
              && ip in windows && windows[ip] == (if live then Window(was[ip].start, was[ip].count + 1) else Window(now, 1))
              && (ok <==> live ==> was[ip].count < limit)
              && (forall k :: k != ip ==> (k in windows <==> k in was && (|was| <= 10_000 || now - was[k].start < period)))
              && (forall k :: k in windows && k != ip ==> windows[k] == was[k])
    {
      if |windows| > SWEEP_ABOVE {
        Sweep(now);
      }
      if ip !in windows || now - windows[ip].start >= period {
        windows := windows[ip := Window(now, 1)];
        return true;
      }
      var count := windows[ip].count + 1;
      windows := windows[ip := windows[ip].(count := count)];
      return count <= limit;
    }
  }

  // ---- histories ----

  datatype Call = Call(ip: string, at: int)

  predicate NonDecreasing(calls: seq<Call>) {
    forall i, j :: 0 <= i < j < |calls| ==> calls[i].at <= calls[j].at
  }

  /** The windows and the decisions after a history of calls, with the sweep or without. */
  function Replay(calls: seq<Call>, limit: int, period: int, sweeping: bool): (r: (Windows, seq<bool>))
    ensures |r.1| == |calls|
  {
    if calls == [] then (map[], [])
    else
      var last := calls[|calls| - 1];
      var (ws, oks) := Replay(calls[..|calls| - 1], limit, period, sweeping);
      var (ws', ok) := if sweeping then Decide(ws, limit, period, last.ip, last.at) else Hit(ws, limit, period, last.ip, last.at);
      (ws', oks + [ok])
  }

  /** What the swept map lacks has expired. */
  ghost predicate Agree(swept: Windows, all: Windows, now: int, period: int) {
    && (forall k :: k in swept ==> k in all && swept[k] == all[k])
    && (forall k :: k in all && k !in swept ==> Expired(all[k], now, period))
  }

  /** The i-th call of the history finds the map above the threshold and sweeps. */
  predicate Sweeps(calls: seq<Call>, limit: int, period: int, i: int)
    requires 0 <= i < |calls|
  {
    |Replay(calls[..i], limit, period, true).0| > SWEEP_ABOVE
  }

  /** No call carries a time before that of a sweep that ran before it. */
  ghost predicate Punctual(calls: seq<Call>, limit: int, period: int) {
    forall i, j :: 0 <= i < j < |calls| && Sweeps(calls, limit, period, i) ==> calls[i].at <= calls[j].at
  }

  ghost predicate SweptBy(calls: seq<Call>, limit: int, period: int, now: int) {
    forall i :: 0 <= i < |calls| && Sweeps(calls, limit, period, i) ==> calls[i].at <= now
  }

  lemma PrefixSweeps(calls: seq<Call>, limit: int, period: int, i: int)
    requires 0 <= i < |calls| - 1
    ensures Sweeps(calls[..|calls| - 1], limit, period, i) == Sweeps(calls, limit, period, i)
  {
    assert calls[..|calls| - 1][..i] == calls[..i];
  }

  lemma PrefixPunctual(calls: seq<Call>, limit: int, period: int, now: int)
    requires calls != [] && Punctual(calls, limit, period) && SweptBy(calls, limit, period, now)
    ensures var n := |calls| - 1;
            && Punctual(calls[..n], limit, period)
            && SweptBy(calls[..n], limit, period, calls[n].at) && SweptBy(calls[..n], limit, period, now)
            && (Sweeps(calls, limit, period, n) ==> calls[n].at <= now)
  {
    var n := |calls| - 1;
    forall i | 0 <= i < n ensures Sweeps(calls[..n], limit, period, i) == Sweeps(calls, limit, period, i) {
      PrefixSweeps(calls, limit, period, i);
    }
  }

  /** One call of the limiter and one of the limiter that never deletes, from maps that agree at the
      call's time and at a later one that no sweep is after. */
  lemma CallAgrees(swept: Windows, all: Windows, limit: int, period: int, ip: string, at: int, now: int)
    requires Agree(swept, all, at, period) && Agree(swept, all, now, period)
    requires |swept| > SWEEP_ABOVE ==> at <= now
    ensures Decide(swept, limit, period, ip, at).1 == Hit(all, limit, period, ip, at).1
    ensures Agree(Decide(swept, limit, period, ip, at).0, Hit(all, limit, period, ip, at).0, now, period)
  {}

  lemma {:induction false} ReplayAgrees(calls: seq<Call>, limit: int, period: int, now: int)
    requires Punctual(calls, limit, period) && SweptBy(calls, limit, period, now)
    ensures Agree(Replay(calls, limit, period, true).0, Replay(calls, limit, period, false).0, now, period)
    ensures Replay(calls, limit, period, true).1 == Replay(calls, limit, period, false).1
  {
    if calls != [] {
      var before, last := calls[..|calls| - 1], calls[|calls| - 1];
      PrefixPunctual(calls, limit, period, now);
      assert Sweeps(calls, limit, period, |calls| - 1) <==> |Replay(before, limit, period, true).0| > SWEEP_ABOVE;
      ReplayAgrees(before, limit, period, last.at);
      ReplayAgrees(before, limit, period, now);
      CallAgrees(Replay(before, limit, period, true).0, Replay(before, limit, period, false).0,
                 limit, period, last.ip, last.at, now);
    }
  }

  lemma {:induction false} LatestTime(calls: seq<Call>) returns (now: int)
    ensures forall i :: 0 <= i < |calls| ==> calls[i].at <= now
  {
    now := 0;
    if calls != [] {
      now := LatestTime(calls[..|calls| - 1]);
      now := Max(now, calls[|calls| - 1].at);
    }
  }

  /** The sweep is invisible: as long as no call carries a time before that of an earlier sweep, the
      limiter decides every call as the one that never deletes. */
  lemma SweepIsInvisible(calls: seq<Call>, limit: int, period: int)
    requires Punctual(calls, limit, period)
    ensures Replay(calls, limit, period, true).1 == Replay(calls, limit, period, false).1
  {
    var now := LatestTime(calls);
    ReplayAgrees(calls, limit, period, now);
  }

  /** Just after a sweep every other window is younger than the period. */
  lemma SweepLeavesOnlyLive(ws: Windows, limit: int, period: int, ip: string, now: int, k: string)
    requires |ws| > SWEEP_ABOVE && k in Decide(ws, limit, period, ip, now).0
    ensures var w := Decide(ws, limit, period, ip, now).0[k];
            now - w.start < period || (k == ip && w == Window(now, 1))
  {}

  // ---- what is admitted ----

  /** Admitted calls of `ip` with a time in [lo, hi). */
  function Admitted(calls: seq<Call>, oks: seq<bool>, ip: string, lo: int, hi: int): nat
    requires |calls| == |oks|
  {
    if calls == [] then 0
    else
      var n := |calls| - 1;
      Admitted(calls[..n], oks[..n], ip, lo, hi) + (if oks[n] && calls[n].ip == ip && lo <= calls[n].at < hi then 1 else 0)
  }

  function AdmittedIn(calls: seq<Call>, limit: int, period: int, ip: string, lo: int, hi: int): nat {
    Admitted(calls, Replay(calls, limit, period, false).1, ip, lo, hi)
  }

  /** What is admitted in the interval as long as the period that begins at `lo`. */
  function Burst(calls: seq<Call>, limit: int, period: int, ip: string, lo: int): nat {
    AdmittedIn(calls, limit, period, ip, lo, lo + period)
  }

  lemma AdmittedLast(calls: seq<Call>, limit: int, period: int, ip: string, lo: int, hi: int)
    requires calls != []
    ensures var last := calls[|calls| - 1]; var ok := Replay(calls, limit, period, false).1[|calls| - 1];
            AdmittedIn(calls, limit, period, ip, lo, hi) ==
            AdmittedIn(calls[..|calls| - 1], limit, period, ip, lo, hi)
            + (if ok && last.ip == ip && lo <= last.at < hi then 1 else 0)
  {
    var oks := Replay(calls, limit, period, false).1;
    assert oks[..|calls| - 1] == Replay(calls[..|calls| - 1], limit, period, false).1;
  }

  lemma {:induction false} EmptyInterval(calls: seq<Call>, limit: int, period: int, ip: string, lo: int, hi: int)
    requires hi <= lo
    ensures AdmittedIn(calls, limit, period, ip, lo, hi) == 0
  {
    if calls != [] {
      EmptyInterval(calls[..|calls| - 1], limit, period, ip, lo, hi);
      AdmittedLast(calls, limit, period, ip, lo, hi);
    }
  }

  lemma {:induction false} AdmittedSplit(calls: seq<Call>, limit: int, period: int, ip: string, lo: int, mid: int, hi: int)
    requires lo <= mid <= hi
    ensures AdmittedIn(calls, limit, period, ip, lo, hi) ==
            AdmittedIn(calls, limit, period, ip, lo, mid) + AdmittedIn(calls, limit, period, ip, mid, hi)
  {
    if calls != [] {
      AdmittedSplit(calls[..|calls| - 1], limit, period, ip, lo, mid, hi);
      AdmittedLast(calls, limit, period, ip, lo, hi);
      AdmittedLast(calls, limit, period, ip, lo, mid);
      AdmittedLast(calls, limit, period, ip, mid, hi);
    }
  }

  /** The budget of a window: even with a limit below one its first hit is admitted. */
  function Budget(limit: int): int { Max(1, limit) }

  /** The most an interval of one period can see: the end of one window and the start of the next, unless
      the period is too short for two windows to meet in it. */
  function MaxBurst(limit: int, period: int): int {
    if period <= 0 then 0 else if period == 1 then Budget(limit) else 2 * Budget(limit) - 1
  }

  /** What is known of one IP with current window `w`: every admitted call lies before the window's end;
      the window has admitted its first `Budget` hits, the first of them at its start; and what was
      admitted less than a period before its start is less than a budget. */
  ghost predicate WindowFacts(calls: seq<Call>, limit: int, period: int, ip: string, w: Window) {
    && 1 <= w.count
    && (forall lo, hi :: w.start + period <= lo ==> AdmittedIn(calls, limit, period, ip, lo, hi) == 0)
    && (forall hi :: AdmittedIn(calls, limit, period, ip, w.start, hi) <= Budget(limit))
    && AdmittedIn(calls, limit, period, ip, w.start, w.start + period) == Min(w.count, Budget(limit))
    && AdmittedIn(calls, limit, period, ip, w.start, w.start + 1) >= 1
    && (forall lo :: w.start - period < lo <= w.start ==> AdmittedIn(calls, limit, period, ip, lo, w.start) < Budget(limit))
  }

  ghost predicate IpFacts(calls: seq<Call>, limit: int, period: int, ip: string) {
    var ws := Replay(calls, limit, period, false).0;
    && (ip in ws ==> WindowFacts(calls, limit, period, ip, ws[ip]))
    && (ip !in ws ==> forall lo, hi :: AdmittedIn(calls, limit, period, ip, lo, hi) == 0)
    && (forall lo :: Burst(calls, limit, period, ip, lo) <= MaxBurst(limit, period))
  }

  /** A call of another IP changes nothing for this one. */
  lemma OtherIpKeepsFacts(calls: seq<Call>, limit: int, period: int, ip: string)
    requires calls != [] && calls[|calls| - 1].ip != ip && IpFacts(calls[..|calls| - 1], limit, period, ip)
    ensures IpFacts(calls, limit, period, ip)
  {
    forall lo, hi ensures AdmittedIn(calls, limit, period, ip, lo, hi) == AdmittedIn(calls[..|calls| - 1], limit, period, ip, lo, hi) {
      AdmittedLast(calls, limit, period, ip, lo, hi);
    }
    forall lo ensures Burst(calls, limit, period, ip, lo) == Burst(calls[..|calls| - 1], limit, period, ip, lo) {
      AdmittedLast(calls, limit, period, ip, lo, lo + period);
    }
  }

  /** Less than a period before a new window the old one had admitted its first hit already. */
  lemma JustBeforeNewWindow(before: seq<Call>, limit: int, period: int, ip: string, now: int, lo: int)
    requires IpFacts(before, limit, period, ip) && now - period < lo <= now
    requires var ws := Replay(before, limit, period, false).0; ip !in ws || Expired(ws[ip], now, period)
    ensures AdmittedIn(before, limit, period, ip, lo, now) < Budget(limit)
  {
    var ws := Replay(before, limit, period, false).0;
    if ip in ws {
      AdmittedSplit(before, limit, period, ip, ws[ip].start, ws[ip].start + 1, now);
      AdmittedSplit(before, limit, period, ip, ws[ip].start + 1, lo, now);
    }
  }

  /** The last call's share in what is admitted of its IP. */
  lemma LastShare(calls: seq<Call>, limit: int, period: int, ip: string)
    requires calls != [] && calls[|calls| - 1].ip == ip
    ensures var ok := Replay(calls, limit, period, false).1[|calls| - 1];
            forall lo, hi :: AdmittedIn(calls, limit, period, ip, lo, hi) ==
                             AdmittedIn(calls[..|calls| - 1], limit, period, ip, lo, hi)
                             + (if ok && lo <= calls[|calls| - 1].at < hi then 1 else 0)
  {
    var ok := Replay(calls, limit, period, false).1[|calls| - 1];
    forall lo, hi ensures AdmittedIn(calls, limit, period, ip, lo, hi) ==
                          AdmittedIn(calls[..|calls| - 1], limit, period, ip, lo, hi)
                          + (if ok && lo <= calls[|calls| - 1].at < hi then 1 else 0) {
      AdmittedLast(calls, limit, period, ip, lo, hi);
    }
  }

  ghost predicate StartsWindow(calls: seq<Call>, limit: int, period: int, ip: string) {
    calls != [] && calls[|calls| - 1].ip == ip && period > 0 && IpFacts(calls[..|calls| - 1], limit, period, ip)
    && var ws := Replay(calls[..|calls| - 1], limit, period, false).0;
       ip !in ws || Expired(ws[ip], calls[|calls| - 1].at, period)
  }

  /** A call that starts a window, given the facts of the calls before it. */
  lemma NewWindowFacts(calls: seq<Call>, limit: int, period: int, ip: string)
    requires StartsWindow(calls, limit, period, ip)
    ensures WindowFacts(calls, limit, period, ip, Window(calls[|calls| - 1].at, 1))
  {
    var before, now := calls[..|calls| - 1], calls[|calls| - 1].at;
    LastShare(calls, limit, period, ip);
    forall lo | now - period < lo <= now ensures AdmittedIn(before, limit, period, ip, lo, now) < Budget(limit) {
      JustBeforeNewWindow(before, limit, period, ip, now, lo);
    }
  }

  lemma NewWindowBurst(calls: seq<Call>, limit: int, period: int, ip: string, lo: int)
    requires StartsWindow(calls, limit, period, ip)
    ensures Burst(calls, limit, period, ip, lo) <= MaxBurst(limit, period)
  {
    var before, now := calls[..|calls| - 1], calls[|calls| - 1].at;
    AdmittedLast(calls, limit, period, ip, lo, lo + period);
    assert Burst(calls[..|calls| - 1], limit, period, ip, lo) <= MaxBurst(limit, period);
    if lo <= now < lo + period {
      JustBeforeNewWindow(before, limit, period, ip, now, lo);
      AdmittedSplit(before, limit, period, ip, lo, now, lo + period);
    }
  }

  ghost predicate CountsInWindow(calls: seq<Call>, limit: int, period: int, ip: string) {
    calls != [] && calls[|calls| - 1].ip == ip && period > 0 && IpFacts(calls[..|calls| - 1], limit, period, ip)
    && var ws := Replay(calls[..|calls| - 1], limit, period, false).0;
       ip in ws && !Expired(ws[ip], calls[|calls| - 1].at, period) && (ws[ip].start <= calls[|calls| - 1].at || limit <= 1)
  }

  /** A call that counts in a live window. */
  lemma SameWindowFacts(calls: seq<Call>, limit: int, period: int, ip: string)
    requires CountsInWindow(calls, limit, period, ip)
    ensures var w := Replay(calls[..|calls| - 1], limit, period, false).0[ip];
            WindowFacts(calls, limit, period, ip, w.(count := w.count + 1))
  {
    var before := calls[..|calls| - 1];
    var w := Replay(before, limit, period, false).0[ip];
    LastShare(calls, limit, period, ip);
    forall hi ensures AdmittedIn(calls, limit, period, ip, w.start, hi) <= Budget(limit) {
      WindowTotal(before, limit, period, ip, hi);
    }
  }

  lemma SameWindowBurst(calls: seq<Call>, limit: int, period: int, ip: string, lo: int)
    requires CountsInWindow(calls, limit, period, ip)
    ensures Burst(calls, limit, period, ip, lo) <= MaxBurst(limit, period)
  {
    var w := Replay(calls[..|calls| - 1], limit, period, false).0[ip];
    SameWindowFacts(calls, limit, period, ip);
    AdmittedLast(calls, limit, period, ip, lo, lo + period);
    assert Burst(calls[..|calls| - 1], limit, period, ip, lo) <= MaxBurst(limit, period);
    if limit > 1 && lo <= calls[|calls| - 1].at < lo + period {
      if lo <= w.start {
        AdmittedSplit(calls, limit, period, ip, lo, w.start, lo + period);
      } else {
        AdmittedSplit(calls, limit, period, ip, w.start, lo, lo + period);
      }
    }
  }

  /** From a window's start on, no more is admitted than inside the window. */
  lemma WindowTotal(calls: seq<Call>, limit: int, period: int, ip: string, hi: int)
    requires IpFacts(calls, limit, period, ip) && period > 0 && ip in Replay(calls, limit, period, false).0
    ensures var w := Replay(calls, limit, period, false).0[ip];
            AdmittedIn(calls, limit, period, ip, w.start, hi) <= Min(w.count, Budget(limit))
  {
    var w := Replay(calls, limit, period, false).0[ip];
    if hi >= w.start + period {
      AdmittedSplit(calls, limit, period, ip, w.start, w.start + period, hi);
    } else if hi >= w.start {
      AdmittedSplit(calls, limit, period, ip, w.start, hi, w.start + period);
    } else {
      EmptyInterval(calls, limit, period, ip, w.start, hi);
    }
  }

  /** If the i-th call counts in a window of its IP, it is not earlier than the window's start. */
  ghost predicate CountsAfterStart(calls: seq<Call>, limit: int, period: int, i: int)
    requires 0 <= i < |calls|
  {
    var ws := Replay(calls[..i], limit, period, false).0;
    calls[i].ip in ws && !Expired(ws[calls[i].ip], calls[i].at, period) ==> ws[calls[i].ip].start <= calls[i].at
  }

  /** No call of the IP that counts in a window is earlier than the window's start. A limit of one needs no
      order, because a call that counts in a window is refused then. */
  ghost predicate WindowOrder(calls: seq<Call>, limit: int, period: int, ip: string) {
    limit <= 1 || forall i :: 0 <= i < |calls| && calls[i].ip == ip ==> CountsAfterStart(calls, limit, period, i)
  }

  lemma PrefixWindowOrder(calls: seq<Call>, limit: int, period: int, ip: string)
    requires calls != [] && WindowOrder(calls, limit, period, ip)
    ensures WindowOrder(calls[..|calls| - 1], limit, period, ip)
  {
    var n := |calls| - 1;
    if limit > 1 {
      forall i | 0 <= i < n && calls[..n][i].ip == ip ensures CountsAfterStart(calls[..n], limit, period, i) {
        assert calls[..n][..i] == calls[..i];
        assert CountsAfterStart(calls, limit, period, i);
      }
    }
  }

  /** Windows start no later than the last call of an ordered history. */
  lemma {:induction false} StartsInPast(calls: seq<Call>, limit: int, period: int, ip: string)
    requires NonDecreasing(calls) && ip in Replay(calls, limit, period, false).0
    ensures calls != [] && Replay(calls, limit, period, false).0[ip].start <= calls[|calls| - 1].at
  {
    if ip in Replay(calls[..|calls| - 1], limit, period, false).0 {
      StartsInPast(calls[..|calls| - 1], limit, period, ip);
    }
  }

  /** Times that never decrease are orderly in both ways. */
  lemma NonDecreasingIsOrderly(calls: seq<Call>, limit: int, period: int, ip: string)
    requires NonDecreasing(calls)
    ensures Punctual(calls, limit, period) && WindowOrder(calls, limit, period, ip)
  {
    forall i | 0 <= i < |calls| ensures CountsAfterStart(calls, limit, period, i) {
      if calls[i].ip in Replay(calls[..i], limit, period, false).0 {
        StartsInPast(calls[..i], limit, period, calls[i].ip);
      }
    }
  }

  lemma {:induction false} AllFacts(calls: seq<Call>, limit: int, period: int, ip: string)
    requires WindowOrder(calls, limit, period, ip) && period > 0
    ensures IpFacts(calls, limit, period, ip)
  {
    if calls != [] {
      var before := calls[..|calls| - 1];
      PrefixWindowOrder(calls, limit, period, ip);
      AllFacts(before, limit, period, ip);
      var ws := Replay(before, limit, period, false).0;
      if calls[|calls| - 1].ip != ip {
        OtherIpKeepsFacts(calls, limit, period, ip);
      } else if ip !in ws || Expired(ws[ip], calls[|calls| - 1].at, period) {
        NewWindowFacts(calls, limit, period, ip);
        forall lo ensures Burst(calls, limit, period, ip, lo) <= MaxBurst(limit, period) {
          NewWindowBurst(calls, limit, period, ip, lo);
        }
      } else {
        assert limit > 1 ==> CountsAfterStart(calls, limit, period, |calls| - 1);
        SameWindowFacts(calls, limit, period, ip);
        forall lo ensures Burst(calls, limit, period, ip, lo) <= MaxBurst(limit, period) {
          SameWindowBurst(calls, limit, period, ip, lo);
        }
      }
    }
  }

  // ---- the bounds, for the limiter as it runs ----

  /** What the limiter as it runs admits in the interval of one period that begins at `lo`. */
  function Got(calls: seq<Call>, limit: int, period: int, ip: string, lo: int): nat {
    Admitted(calls, Replay(calls, limit, period, true).1, ip, lo, lo + period)
  }

  lemma GotIsBurst(calls: seq<Call>, limit: int, period: int, ip: string, lo: int)
    requires Punctual(calls, limit, period)
    ensures Got(calls, limit, period, ip, lo) == Burst(calls, limit, period, ip, lo)
  {
    SweepIsInvisible(calls, limit, period);
  }

  lemma SweptKeepsWindow(calls: seq<Call>, limit: int, period: int, ip: string)
    requires Punctual(calls, limit, period) && ip in Replay(calls, limit, period, true).0
    ensures var all := Replay(calls, limit, period, false).0; ip in all && all[ip] == Replay(calls, limit, period, true).0[ip]
  {
    var now := LatestTime(calls);
    ReplayAgrees(calls, limit, period, now);
  }

  lemma UnsweptBudget(calls: seq<Call>, limit: int, period: int, ip: string)
    requires WindowOrder(calls, limit, period, ip) && period > 0 && ip in Replay(calls, limit, period, false).0
    ensures var w := Replay(calls, limit, period, false).0[ip];
            Burst(calls, limit, period, ip, w.start) == Min(w.count, Budget(limit))
  {
    AllFacts(calls, limit, period, ip);
  }

  /** In every window an IP gets its first `limit` hits and no more. */
  lemma WindowBudget(calls: seq<Call>, limit: int, period: int, ip: string)
    requires Punctual(calls, limit, period) && WindowOrder(calls, limit, period, ip) && period > 0 && ip in Replay(calls, limit, period, true).0
    ensures var w := Replay(calls, limit, period, true).0[ip];
            Got(calls, limit, period, ip, w.start) == Min(w.count, Budget(limit))
  {
    SweptKeepsWindow(calls, limit, period, ip);
    UnsweptBudget(calls, limit, period, ip);
    GotIsBurst(calls, limit, period, ip, Replay(calls, limit, period, true).0[ip].start);
  }

  /** In every interval as long as the period an IP gets less than twice the limit, and within a period of
      one tick no more than the limit. */
  lemma BurstBound(calls: seq<Call>, limit: int, period: int, ip: string, lo: int)
    requires Punctual(calls, limit, period) && WindowOrder(calls, limit, period, ip)
    ensures Got(calls, limit, period, ip, lo) <= MaxBurst(limit, period)
  {
    GotIsBurst(calls, limit, period, ip, lo);
    if period > 0 {
      AllFacts(calls, limit, period, ip);
    } else {
      EmptyInterval(calls, limit, period, ip, lo, lo + period);
    }
  }

  lemma ReplayOneMore(calls: seq<Call>, limit: int, period: int, last: Call)
    ensures var (ws, oks) := Replay(calls, limit, period, true);
            Replay(calls + [last], limit, period, true)
            == (Decide(ws, limit, period, last.ip, last.at).0, oks + [Decide(ws, limit, period, last.ip, last.at).1])
  {
    assert (calls + [last])[..|calls|] == calls;
  }

  lemma AdmittedOneMore(calls: seq<Call>, oks: seq<bool>, ip: string, lo: int, hi: int, last: Call, ok: bool)
    requires |calls| == |oks|
    ensures Admitted(calls + [last], oks + [ok], ip, lo, hi)
            == Admitted(calls, oks, ip, lo, hi) + (if ok && last.ip == ip && lo <= last.at < hi then 1 else 0)
  {
    assert (calls + [last])[..|calls|] == calls;
    assert (oks + [ok])[..|oks|] == oks;
  }

  /** Only `ip` has called; it has window `w` and got `got` in the interval from `lo`. */
  ghost predicate Alone(calls: seq<Call>, limit: int, period: int, ip: string, lo: int, w: Window, got: int) {
    Replay(calls, limit, period, true).0 == map[ip := w] && Got(calls, limit, period, ip, lo) == got
  }

  lemma OneHit(calls: seq<Call>, limit: int, period: int, ip: string, lo: int, w: Window, got: int, at: int)
    requires Alone(calls, limit, period, ip, lo, w, got)
    requires Expired(w, at, period) || w.count < limit
    ensures Alone(calls + [Call(ip, at)], limit, period, ip, lo,
                  if Expired(w, at, period) then Window(at, 1) else w.(count := w.count + 1),
                  if lo <= at < lo + period then got + 1 else got)
  {
    var (ws, oks) := Replay(calls, limit, period, true);
    assert |ws| == 1;
    ReplayOneMore(calls, limit, period, Call(ip, at));
    AdmittedOneMore(calls, oks, ip, lo, lo + period, Call(ip, at), true);
  }

  lemma LiveHit(calls: seq<Call>, limit: int, period: int, ip: string, lo: int, w: Window, got: int, at: int, n: nat)
    requires Alone(calls, limit, period, ip, lo, w.(count := w.count + n), got + n) && lo <= at < lo + period
    requires !Expired(w, at, period) && w.count + n < limit
    ensures Alone(calls + [Call(ip, at)], limit, period, ip, lo, w.(count := w.count + (n + 1)), got + (n + 1))
  {
    OneHit(calls, limit, period, ip, lo, w.(count := w.count + n), got + n, at);
  }

  ghost predicate NoneAfter(calls: seq<Call>, at: int) {
    NonDecreasing(calls) && forall i :: 0 <= i < |calls| ==> calls[i].at <= at
  }

  lemma OneMoreInOrder(calls: seq<Call>, ip: string, at: int)
    requires NoneAfter(calls, at)
    ensures NoneAfter(calls + [Call(ip, at)], at)
  {}

  /** A live window admits hits until its count reaches the limit. */
  lemma HitsAdmitted(calls: seq<Call>, limit: int, period: int, ip: string, lo: int, w: Window, got: int, at: int, n: nat)
    returns (more: seq<Call>)
    requires Alone(calls, limit, period, ip, lo, w, got) && NoneAfter(calls, at) && lo <= at < lo + period
    requires !Expired(w, at, period) && w.count + n <= limit
    ensures Alone(more, limit, period, ip, lo, w.(count := w.count + n), got + n) && NoneAfter(more, at)
  {
    more := calls;
    var k := 0;
    while k < n
      invariant 0 <= k <= n && Alone(more, limit, period, ip, lo, w.(count := w.count + k), got + k)
      invariant NoneAfter(more, at)
    {
      LiveHit(more, limit, period, ip, lo, w, got, at, k);
      OneMoreInOrder(more, ip, at);
      more := more + [Call(ip, at)];
      k := k + 1;
    }
  }

  lemma FirstHit(limit: int, period: int, ip: string, lo: int)
    ensures Alone([] + [Call(ip, 0)], limit, period, ip, lo, Window(0, 1), if lo <= 0 < lo + period then 1 else 0)
  {
    ReplayOneMore([], limit, period, Call(ip, 0));
    AdmittedOneMore([], [], ip, lo, lo + period, Call(ip, 0), true);
  }

  /** Hits just before and just after the end of a window. */
  lemma TwoWindowsMeet(limit: int, period: int, ip: string) returns (calls: seq<Call>)
    requires limit >= 1 && period >= 2
    ensures NonDecreasing(calls) && Got(calls, limit, period, ip, period - 1) == 2 * limit - 1
  {
    FirstHit(limit, period, ip, period - 1);
    calls := HitsAdmitted([] + [Call(ip, 0)], limit, period, ip, period - 1, Window(0, 1), 0, period - 1, limit - 1);
    OneHit(calls, limit, period, ip, period - 1, Window(0, limit), limit - 1, period);
    OneMoreInOrder(calls, ip, period);
    calls := calls + [Call(ip, period)];
    calls := HitsAdmitted(calls, limit, period, ip, period - 1, Window(period, 1), limit, period, limit - 1);
  }

  lemma OneWindowFills(limit: int, period: int, ip: string) returns (calls: seq<Call>)
    requires period >= 1
    ensures NonDecreasing(calls) && Got(calls, limit, period, ip, 0) == Budget(limit)
  {
    FirstHit(limit, period, ip, 0);
    calls := [] + [Call(ip, 0)];
    if limit > 1 {
      calls := HitsAdmitted(calls, limit, period, ip, 0, Window(0, 1), 1, 0, limit - 1);
    }
  }

  /** The bound is exact: for every limit and period some history is admitted that often within a period. */
  lemma BurstBoundIsMet(limit: int, period: int, ip: string) returns (calls: seq<Call>, lo: int)
    ensures NonDecreasing(calls)
    ensures Got(calls, limit, period, ip, lo) == MaxBurst(limit, period)
  {
    calls, lo := [], 0;
    if period >= 2 && limit >= 1 {
      calls := TwoWindowsMeet(limit, period, ip);
      lo := period - 1;
    } else if period >= 1 {
      calls := OneWindowFills(limit, period, ip);
    }
  }

  // ---- calls out of order ----

  ghost predicate OnlyCalls(calls: seq<Call>, ip: string) {
    forall i :: 0 <= i < |calls| ==> calls[i].ip == ip
  }

  lemma {:induction false} OneIpNeverSweeps(calls: seq<Call>, limit: int, period: int, ip: string)
    requires OnlyCalls(calls, ip)
    ensures |Replay(calls, limit, period, true).0| <= 1 && Replay(calls, limit, period, true).0.Keys <= {ip}
    ensures Punctual(calls, limit, period)
  {
    if calls != [] {
      OneIpNeverSweeps(calls[..|calls| - 1], limit, period, ip);
    }
    forall i | 0 <= i < |calls| ensures !Sweeps(calls, limit, period, i) {
      OneIpNeverSweeps(calls[..i], limit, period, ip);
    }
  }

  /** A hit that starts a new window, and one at time 0 that counts in it. */
  lemma LateRound(calls: seq<Call>, limit: int, period: int, ip: string, w: Window, got: int, start: int)
    requires Alone(calls, limit, period, ip, 0, w, got) && limit >= 2 && start >= period >= 1 && Expired(w, start, period)
    ensures Alone((calls + [Call(ip, start)]) + [Call(ip, 0)], limit, period, ip, 0, Window(start, 2), got + 1)
  {
    OneHit(calls, limit, period, ip, 0, w, got, start);
    OneHit(calls + [Call(ip, start)], limit, period, ip, 0, Window(start, 1), got, 0);
  }

  /** Each further window, started a period later, admits one more hit that carries the time 0. */
  lemma {:induction false} LateHitsAddUp(limit: int, period: int, ip: string, n: nat) returns (calls: seq<Call>)
    requires limit >= 2 && period >= 1
    ensures OnlyCalls(calls, ip)
    ensures Alone(calls, limit, period, ip, 0, if n == 0 then Window(0, 1) else Window(n * period, 2), n + 1)
  {
    if n == 0 {
      FirstHit(limit, period, ip, 0);
      calls := [] + [Call(ip, 0)];
    } else {
      calls := LateHitsAddUp(limit, period, ip, n - 1);
      var w := if n == 1 then Window(0, 1) else Window((n - 1) * period, 2);
      var start := n * period;
      assert start == (n - 1) * period + period && start >= period;
      LateRound(calls, limit, period, ip, w, n, start);
      calls := (calls + [Call(ip, start)]) + [Call(ip, 0)];
    }
  }

  ghost predicate BoundHolds(limit: int, period: int, ip: string) {
    forall calls, lo :: Punctual(calls, limit, period) ==> Got(calls, limit, period, ip, lo) <= MaxBurst(limit, period)
  }

  /** Calls that get the lock out of the order of their times can exceed the bound by any number, because a
      call counts in a window that started after it. Without the order the bound holds for every history if
      and only if the limit is at most one. */
  lemma BoundNeedsOrderIff(limit: int, period: int, ip: string)
    requires period >= 1
    ensures BoundHolds(limit, period, ip) <==> limit <= 1
  {
    if limit <= 1 {
      forall calls, lo | Punctual(calls, limit, period)
        ensures Got(calls, limit, period, ip, lo) <= MaxBurst(limit, period)
      {
        BurstBound(calls, limit, period, ip, lo);
      }
    } else {
      var calls := LateHitsAddUp(limit, period, ip, 2 * limit);
      OneIpNeverSweeps(calls, limit, period, ip);
      assert Got(calls, limit, period, ip, 0) == 2 * limit + 1;
    }
  }
}
