/** Calls that carry a time before that of an earlier sweep. `allow` reads the clock before it takes the
    lock, so they happen, and the sweep can show in them: what it removed as expired may still be live at
    such a call's time. */
module LateCalls {
  import opened RateLimiter

  /** Hits of one IP at the given times, in the order in which they get the lock, with no sweep between. */
  function Hits(ws: Windows, limit: int, period: int, ip: string, ats: seq<int>): (r: (Windows, seq<bool>))
    ensures |r.1| == |ats|
  {
    if ats == [] then (ws, [])
    else
      var (before, oks) := Hits(ws, limit, period, ip, ats[..|ats| - 1]);
      var (after, ok) := Hit(before, limit, period, ip, ats[|ats| - 1]);
      (after, oks + [ok])
  }

  /** Whether the last of the hits is admitted. */
  function LastOk(ws: Windows, limit: int, period: int, ip: string, ats: seq<int>): bool
    requires ats != []
  {
    Hits(ws, limit, period, ip, ats).1[|ats| - 1]
  }

  /** The window that hits at these times lead to when there was none. */
  function WindowOf(ats: seq<int>, period: int): (w: Window)
    requires ats != []
    ensures 1 <= w.count <= |ats|
  {
    var now := ats[|ats| - 1];
    if |ats| == 1 then Window(now, 1)
    else
      var w := WindowOf(ats[..|ats| - 1], period);
      if Expired(w, now, period) then Window(now, 1) else w.(count := w.count + 1)
  }

  ghost predicate LiveAt(w: Window, period: int, ats: seq<int>) {
    forall i :: 0 <= i < |ats| ==> !Expired(w, ats[i], period)
  }

  ghost predicate NotBefore(ats: seq<int>, floor: int) {
    forall i :: 0 <= i < |ats| ==> floor <= ats[i]
  }

  /** A window that is live at all these times counts every hit. */
  lemma {:induction false} LiveCounts(ws: Windows, limit: int, period: int, ip: string, ats: seq<int>)
    requires ip in ws && LiveAt(ws[ip], period, ats)
    ensures Hits(ws, limit, period, ip, ats).0 == ws[ip := ws[ip].(count := ws[ip].count + |ats|)]
    ensures ats != [] ==> (LastOk(ws, limit, period, ip, ats) <==> ws[ip].count + |ats| <= limit)
  {
    if ats != [] {
      LiveCounts(ws, limit, period, ip, ats[..|ats| - 1]);
    }
  }

  /** Without a window the hits make one, which admits its first `Budget`. */
  lemma {:induction false} NoneStarts(ws: Windows, limit: int, period: int, ip: string, ats: seq<int>)
    requires ip !in ws && ats != []
    ensures Hits(ws, limit, period, ip, ats).0 == ws[ip := WindowOf(ats, period)]
    ensures LastOk(ws, limit, period, ip, ats) <==> WindowOf(ats, period).count <= Budget(limit)
  {
    if |ats| > 1 {
      NoneStarts(ws, limit, period, ip, ats[..|ats| - 1]);
    } else {
      assert ats[..0] == [];
    }
  }

  /** After a sweep at `sweepAt` that removed the window of an IP, the last of any number of late hits of
      that IP, at times at which the removed window is live, is decided differently exactly when the hits
      in the window they have made fit a budget of its own, and all of them with those before the sweep
      exceed the limit. */
  lemma LateCallSeesSweep(ws: Windows, limit: int, period: int, ip: string, sweepAt: int, ats: seq<int>)
    requires ip in ws && ws[ip].count >= 0 && Expired(ws[ip], sweepAt, period)
    requires ats != [] && LiveAt(ws[ip], period, ats)
    ensures LastOk(Swept(ws, sweepAt, period), limit, period, ip, ats) != LastOk(ws, limit, period, ip, ats)
            <==> WindowOf(ats, period).count <= Budget(limit) && limit < ws[ip].count + |ats|
  {
    NoneStarts(Swept(ws, sweepAt, period), limit, period, ip, ats);
    LiveCounts(ws, limit, period, ip, ats);
  }

  /** Late hits less than a period after the first of them share one window, so there the k-th is decided
      differently exactly when `k <= Budget(limit) && limit < count + k`. */
  lemma {:induction false} CloseHitsShareWindow(ats: seq<int>, period: int)
    requires ats != [] && forall i :: 0 <= i < |ats| ==> ats[i] - ats[0] < period
    ensures WindowOf(ats, period) == Window(ats[0], |ats|)
  {
    if |ats| > 1 {
      CloseHitsShareWindow(ats[..|ats| - 1], period);
    }
  }

  /** From a time on at which the removed window has expired, hits find the same with it and without it. */
  lemma {:induction false} ExpiredIsNone(without: Windows, ws: Windows, limit: int, period: int, ip: string, ats: seq<int>, floor: int)
    requires ip !in without && ip in ws && Expired(ws[ip], floor, period) && NotBefore(ats, floor)
    ensures Hits(without, limit, period, ip, ats).1 == Hits(ws, limit, period, ip, ats).1
    ensures var (a, b) := (Hits(without, limit, period, ip, ats).0, Hits(ws, limit, period, ip, ats).0);
            ats == [] || (ip in a && ip in b && a[ip] == b[ip])
  {
    if ats != [] {
      ExpiredIsNone(without, ws, limit, period, ip, ats[..|ats| - 1], floor);
    }
  }

  /** Every window of the limiter has been hit. */
  lemma {:induction false} WindowsAreHit(calls: seq<Call>, limit: int, period: int, sweeping: bool, ip: string)
    requires ip in Replay(calls, limit, period, sweeping).0
    ensures Replay(calls, limit, period, sweeping).0[ip].count >= 1
  {
    if calls != [] && ip in Replay(calls[..|calls| - 1], limit, period, sweeping).0 {
      WindowsAreHit(calls[..|calls| - 1], limit, period, sweeping, ip);
    }
  }

  ghost predicate NeverShows(ws: Windows, limit: int, period: int, ip: string, sweepAt: int, floor: int) {
    forall ats :: NotBefore(ats, floor) ==>
      Hits(Swept(ws, sweepAt, period), limit, period, ip, ats).1 == Hits(ws, limit, period, ip, ats).1
  }

  /** The removal of a window never shows in hits that carry no time before `floor`, whatever hits come, if
      and only if the window has expired at `floor`. */
  lemma SweepShowsIff(ws: Windows, limit: int, period: int, ip: string, sweepAt: int, floor: int)
    requires ip in ws && ws[ip].count >= 1 && Expired(ws[ip], sweepAt, period)
    ensures NeverShows(ws, limit, period, ip, sweepAt, floor) <==> Expired(ws[ip], floor, period)
  {
    var swept := Swept(ws, sweepAt, period);
    if Expired(ws[ip], floor, period) {
      forall ats | NotBefore(ats, floor)
        ensures Hits(swept, limit, period, ip, ats).1 == Hits(ws, limit, period, ip, ats).1
      {
        ExpiredIsNone(swept, ws, limit, period, ip, ats, floor);
      }
    } else {
      var ats := seq(Budget(limit), _ => floor);
      LateCallSeesSweep(ws, limit, period, ip, sweepAt, ats);
      assert NotBefore(ats, floor);
    }
  }

  // ---- a whole history in which it shows ----

  function Name(i: nat): (ip: string)
    ensures |ip| == i
  {
    seq(i, _ => 'x')
  }

  /** One hit each of n IPs, all at time 0. */
  function Crowd(n: nat): (calls: seq<Call>)
    ensures |calls| == n
  {
    if n == 0 then [] else Crowd(n - 1) + [Call(Name(n - 1), 0)]
  }

  ghost predicate CrowdHas(ws: Windows, n: nat) {
    && |ws| == n
    && (forall k :: k in ws ==> |k| < n && ws[k] == Window(0, 1))
    && (n > 0 ==> Name(0) in ws)
  }

  lemma ReplayStep(calls: seq<Call>, limit: int, period: int, last: Call, sweeping: bool)
    requires sweeping ==> |Replay(calls, limit, period, true).0| <= SWEEP_ABOVE
    ensures var (ws, oks) := Replay(calls, limit, period, sweeping);
            var (ws', ok) := Hit(ws, limit, period, last.ip, last.at);
            Replay(calls + [last], limit, period, sweeping) == (ws', oks + [ok])
  {
    assert (calls + [last])[..|calls|] == calls;
  }

  lemma OneMoreInCrowd(ws: Windows, n: nat, limit: int, period: int)
    requires CrowdHas(ws, n)
    ensures CrowdHas(Hit(ws, limit, period, Name(n), 0).0, n + 1)
  {
    assert Name(n) !in ws;
    assert Name(0) in Hit(ws, limit, period, Name(n), 0).0;
  }

  lemma {:induction false} CrowdFills(n: nat, limit: int, period: int, sweeping: bool)
    requires n <= SWEEP_ABOVE + 1
    ensures CrowdHas(Replay(Crowd(n), limit, period, sweeping).0, n)
  {
    if n > 0 {
      CrowdFills(n - 1, limit, period, sweeping);
      ReplayStep(Crowd(n - 1), limit, period, Call(Name(n - 1), 0), sweeping);
      OneMoreInCrowd(Replay(Crowd(n - 1), limit, period, sweeping).0, n - 1, limit, period);
    }
  }

  function CallsAt(ip: string, ats: seq<int>): (calls: seq<Call>)
    ensures |calls| == |ats|
  {
    seq(|ats|, i requires 0 <= i < |ats| => Call(ip, ats[i]))
  }

  lemma {:induction false} HitsTouchOneKey(ws: Windows, limit: int, period: int, ip: string, ats: seq<int>)
    ensures var ws' := Hits(ws, limit, period, ip, ats).0; |ws'| <= |ws| + (if ip in ws' && ip !in ws then 1 else 0)
  {
    if ats != [] {
      HitsTouchOneKey(ws, limit, period, ip, ats[..|ats| - 1]);
    }
  }

  lemma CallsAtSnoc(calls: seq<Call>, ip: string, ats: seq<int>)
    requires ats != []
    ensures var n := |ats| - 1; calls + CallsAt(ip, ats) == (calls + CallsAt(ip, ats[..n])) + [Call(ip, ats[n])]
  {
    assert CallsAt(ip, ats) == CallsAt(ip, ats[..|ats| - 1]) + [Call(ip, ats[|ats| - 1])];
  }

  /** Well below the threshold nothing is swept, and the limiter makes hits like the one that never does. */
  lemma {:induction false} ReplayHits(calls: seq<Call>, limit: int, period: int, ip: string, ats: seq<int>, sweeping: bool)
    requires sweeping ==> |Replay(calls, limit, period, true).0| < SWEEP_ABOVE
    ensures var (ws, oks) := Replay(calls, limit, period, sweeping);
            var (ws', more) := Hits(ws, limit, period, ip, ats);
            Replay(calls + CallsAt(ip, ats), limit, period, sweeping) == (ws', oks + more)
  {
    var (ws, oks) := Replay(calls, limit, period, sweeping);
    if ats == [] {
      assert calls + CallsAt(ip, ats) == calls && oks + [] == oks;
    } else {
      var before, last := ats[..|ats| - 1], ats[|ats| - 1];
      var (ws1, more) := Hits(ws, limit, period, ip, before);
      assert forall ok :: (oks + more) + [ok] == oks + (more + [ok]);
      ReplayHits(calls, limit, period, ip, before, sweeping);
      HitsTouchOneKey(ws, limit, period, ip, before);
      ReplayStep(calls + CallsAt(ip, before), limit, period, Call(ip, last), sweeping);
      CallsAtSnoc(calls, ip, ats);
    }
  }

  /** The crowd at time 0, and one of it again a period later: that call sweeps. */
  function Gathering(period: int): seq<Call> {
    Crowd(SWEEP_ABOVE + 1) + [Call(Name(1), period)]
  }

  lemma GatheringSweeps(limit: int, period: int)
    ensures Replay(Gathering(period), limit, period, true).0 == map[Name(1) := Window(period, 1)]
    ensures var ws := Replay(Gathering(period), limit, period, false).0; Name(0) in ws && ws[Name(0)] == Window(0, 1)
  {
    var calls := Crowd(SWEEP_ABOVE + 1);
    CrowdFills(SWEEP_ABOVE + 1, limit, period, true);
    CrowdFills(SWEEP_ABOVE + 1, limit, period, false);
    assert Gathering(period)[..|calls|] == calls;
    assert Swept(Replay(calls, limit, period, true).0, period, period) == map[];
  }

  /** For every limit and period the sweep shows in the decisions of some history: more IPs than the
      threshold, a call that sweeps, and late calls of one whose window was removed. */
  lemma LateHistory(limit: int, period: int) returns (calls: seq<Call>)
    ensures Replay(calls, limit, period, true).1 != Replay(calls, limit, period, false).1
  {
    var ats := seq(Budget(limit), _ => period - 1);
    GatheringSweeps(limit, period);
    ReplayHits(Gathering(period), limit, period, Name(0), ats, true);
    ReplayHits(Gathering(period), limit, period, Name(0), ats, false);
    calls := Gathering(period) + CallsAt(Name(0), ats);
    NoneStarts(Replay(Gathering(period), limit, period, true).0, limit, period, Name(0), ats);
    LiveCounts(Replay(Gathering(period), limit, period, false).0, limit, period, Name(0), ats);
    var last := |Gathering(period)| + |ats| - 1;
    assert Replay(calls, limit, period, true).1[last] != Replay(calls, limit, period, false).1[last];
  }
}
