/** The crash rate of the supervise loop across clean returns: exactly when it is bounded at all. */
module CrashRate {

  import opened Common
  import opened Supervisor
  import opened SupervisorProperties

  /** All crash times of a run. */
  function Crashes(log: seq<Event>): seq<real> {
    if log == [] then [] else Crashes(Init(log)) + (if Last(log).Crashed? then [Last(log).at] else [])
  }

  lemma CrashesSnoc(log: seq<Event>, e: Event)
    ensures Crashes(log + [e]) == Crashes(log) + (if e.Crashed? then [e.at] else [])
  {
    assert Init(log + [e]) == log;
  }

  /** No interval of one window holds more crashes than the limit, clean returns or not. */
  ghost predicate RateBoundedThroughout(log: seq<Event>, c: Config) {
    forall x: real :: Within(Crashes(log), x, c.window) <= Limit(c)
  }

  predicate Apart(times: seq<real>, gap: real) { forall i, j :: 0 <= i < j < |times| ==> times[j] >= times[i] + gap }

  predicate AllBefore(times: seq<real>, gap: real, bound: real) {
    forall i :: 0 <= i < |times| ==> times[i] + gap <= bound
  }

  predicate LogBefore(log: seq<Event>, gap: real, bound: real) {
    forall i :: 0 <= i < |log| && log[i].Crashed? ==> log[i].at + gap <= bound
  }

  lemma {:induction false} LogIsBefore(log: seq<Event>, gap: real, bound: real)
    requires LogBefore(log, gap, bound)
    ensures AllBefore(Crashes(log), gap, bound)
  {
    if log != [] {
      assert Last(log) == log[|log| - 1];
      assert LogBefore(Init(log), gap, bound);
      LogIsBefore(Init(log), gap, bound);
    }
  }

  lemma {:induction false} LogIsApart(log: seq<Event>, gap: real)
    requires CrashesApart(log, gap)
    ensures Apart(Crashes(log), gap)
  {
    if log != [] {
      var past, e := Init(log), Last(log);
      assert e == log[|log| - 1] && forall i :: 0 <= i < |past| ==> past[i] == log[i];
      LogIsApart(past, gap);
      if e.Crashed? {
        LogIsBefore(past, gap, e.at);
      }
    }
  }

  /** The length of a number of gaps. */
  function Gaps(n: nat, gap: real): real { n as real * gap }

  lemma {:induction false} ApartMany(times: seq<real>, gap: real, i: nat, j: nat)
    requires Apart(times, gap) && i <= j < |times|
    ensures times[j] >= times[i] + Gaps(j - i, gap)
    decreases j - i
  {
    if i < j {
      ApartMany(times, gap, i, j - 1);
      OneMoreTimes(j - 1 - i, gap);
    }
  }

  /** Times a gap apart: at most `n` of them fit into n gaps. */
  lemma {:induction false} ApartWithin(times: seq<real>, gap: real, x: real, length: real, n: nat)
    requires Apart(times, gap) && gap >= 0.0 && n >= 1 && length <= Gaps(n, gap)
    ensures Within(times, x, length) <= n
  {
    hide Gaps, Within;
    if |times| <= n {
      WithinAtMost(times, x, length);
    } else if !(x <= Last(times) < x + length) {
      ApartWithin(Init(times), gap, x, length, n);
      WithinLast(times, x, length);
    } else {
      var k := |times| - n;
      assert times == times[..k] + times[k..];
      WithinConcat(times[..k], times[k..], x, length);
      WithinAtMost(times[k..], x, length);
      forall i | 0 <= i < k ensures !(x <= times[i] < x + length) {
        ApartMany(times, gap, i, |times| - 1);
        MoreGaps(n, |times| - 1 - i, gap);
      }
      WithinNone(times[..k], x, length);
    }
  }

  lemma WithinLast(times: seq<real>, x: real, length: real)
    requires times != [] && !(x <= Last(times) < x + length)
    ensures Within(times, x, length) == Within(Init(times), x, length)
  {}

  lemma MoreGaps(n: nat, m: nat, gap: real)
    requires n <= m && gap >= 0.0
    ensures Gaps(n, gap) <= Gaps(m, gap)
  {}

  lemma {:induction false} WithinAll(times: seq<real>, x: real, length: real)
    requires forall i :: 0 <= i < |times| ==> x <= times[i] < x + length
    ensures Within(times, x, length) == |times|
  {
    if times != [] {
      WithinAll(Init(times), x, length);
    }
  }

  // ----- A threshold of at most one -----

  /** Every crash opens the breaker for a window, so the next one is a window away. */
  predicate OpensEveryTime(s: Run, c: Config) {
    && s.breaker.failures == [] && Apart(Crashes(s.log), c.window)
    && AllBefore(Crashes(s.log), c.window, Max(s.now, s.breaker.openUntil))
  }

  lemma SingleRecent(now: real, window: real)
    requires window >= 0.0
    ensures Recent([now], now, window) == [now]
  {
    assert Init([now]) == [];
  }

  lemma CrashOpens(s: Run, t: Turn, c: Config)
    requires OpensEveryTime(s, c) && c.threshold <= 1 && c.window >= 0.0 && s.now >= s.breaker.openUntil && Possible(t)
    ensures OpensEveryTime(Recover(s, t, c), c)
  {
    hide Recent, Crashes, Backoff.Delay;
    var n, r := s.now, Recover(s, t, c);
    assert [] + [n] == [n];
    SingleRecent(n, c.window);
    CrashesSnoc(s.log, Crashed(n));
    CrashesSnoc(s.log + [Crashed(n)], Opened(r.breaker.openUntil));
    assert Crashes(r.log) == Crashes(s.log) + [n];
  }

  lemma OpensStep(s: Run, t: Turn, c: Config)
    requires OpensEveryTime(s, c) && c.threshold <= 1 && c.window >= 0.0 && Possible(t)
    ensures OpensEveryTime(Step(s, t, c), c)
  {
    hide Recover, Crashes;
    if s.halted {
    } else if s.now < s.breaker.openUntil {
      CrashesSnoc(s.log, Paused(s.now));
    } else {
      var l := Launch(s, t);
      CrashesSnoc(s.log, Started(s.now));
      CrashesSnoc(l.log, Returned(l.now));
      if t.outcome == Crash {
        CrashOpens(l, t, c);
      }
    }
  }

  lemma {:induction false} OpensHolds(start: real, script: seq<Turn>, c: Config)
    requires AllPossible(script) && c.threshold <= 1 && c.window >= 0.0
    ensures OpensEveryTime(Execute(Begin(start), script, c), c)
  {
    hide Step;
    if script != [] {
      OpensHolds(start, Init(script), c);
      hide OpensEveryTime;
      OpensStep(Execute(Begin(start), Init(script), c), Last(script), c);
    }
  }

  lemma {:induction false} EmptyWindow(times: seq<real>, x: real, length: real)
    requires length <= 0.0
    ensures Within(times, x, length) == 0
  {
    WithinNone(times, x, length);
  }

  // ----- Crashes that alternate with clean returns -----

  lemma CrashThenReturnLog(s: Run, c: Config)
    requires c.threshold >= 2 && s.breaker == Breaker([], 0.0) && s.now >= 0.0 && !s.halted
    ensures Crashes(Step(Step(s, CRASH, c), CLEAN, c).log) == Crashes(s.log) + [s.now]
  {
    hide Backoff.Delay, Recent, Crashes;
    SmallRecent(s.now, c.window);
    var l := s.log + [Started(s.now)];
    var m := Step(s, CRASH, c);
    CrashesSnoc(s.log, Started(s.now));
    CrashesSnoc(l, Crashed(s.now));
    assert m.log == l + [Crashed(s.now)];
    if m.now >= m.breaker.openUntil {
      CrashesSnoc(m.log, Started(m.now));
      CrashesSnoc(m.log + [Started(m.now)], Returned(m.now));
    } else {
      CrashesSnoc(m.log, Paused(m.now));
    }
  }

  /** The k-th crash of such a run comes k base delays after the first. */
  lemma {:induction false} AlternatingCrashes(start: real, n: nat, c: Config)
    requires c.threshold >= 2 && start >= 0.0
    ensures var times := Crashes(Execute(Begin(start), CrashAndReturn(n), c).log);
      |times| == n && forall k: nat :: k < n ==> times[k] == start + k as real * Max(0.0, c.backoff.Delay(1, 0.0))
  {
    hide Backoff.Delay, Step;
    if n > 0 {
      AlternatingCrashes(start, n - 1, c);
      CleanReturnsHideCrashes(start, n - 1, c);
      ExecuteTwo(Begin(start), CrashAndReturn(n - 1), CRASH, CLEAN, c);
      MaxIsNatural(c.backoff.Delay(1, 0.0));
      OneMore(n, Max(0.0, c.backoff.Delay(1, 0.0)));
      CrashThenReturnLog(Execute(Begin(start), CrashAndReturn(n - 1), c), c);
    }
  }

  /** The shortest time between two crashes. */
  function BaseGap(c: Config): real { Min(c.backoff.maxDelay, c.backoff.base) }

  lemma FirstDelay(c: Config)
    requires c.backoff.Sane()
    ensures c.backoff.Delay(1, 0.0) == BaseGap(c) >= 0.0
  {
    DelayBounds(c.backoff, 1, 1, 0.0);
    assert Power(c.backoff.factor, 0) == 1.0;
  }

  lemma {:induction false} AllPossibleAlternating(n: nat)
    ensures AllPossible(CrashAndReturn(n))
  {
    if n > 0 {
      AllPossibleAlternating(n - 1);
    }
  }

  /** One crash more than the threshold, all within one window. */
  lemma TooManyCrashes(c: Config)
    requires c.backoff.Sane() && c.threshold >= 2 && c.window > Gaps(c.threshold, BaseGap(c))
    ensures AllPossible(CrashAndReturn(c.threshold + 1))
    ensures !RateBoundedThroughout(Execute(Begin(0.0), CrashAndReturn(c.threshold + 1), c).log, c)
  {
    hide Execute, CrashAndReturn, Backoff.Delay, Backoff.Sane;
    var n: nat := c.threshold + 1;
    var times := Crashes(Execute(Begin(0.0), CrashAndReturn(n), c).log);
    AllPossibleAlternating(n);
    FirstDelay(c);
    AlternatingCrashes(0.0, n, c);
    forall k: nat | k < n ensures 0.0 <= times[k] < 0.0 + c.window {
      MoreGaps(k, c.threshold, BaseGap(c));
      MoreGaps(0, k, BaseGap(c));
    }
    WithinAll(times, 0.0, c.window);
  }

  /**
   * For a backoff that never shrinks, the crash rate is bounded over all runs, across clean returns, if and only if
   * the threshold is at most one or as many base delays as the threshold fill the window.
   */
  lemma RateThroughoutIff(c: Config)
    requires c.backoff.Sane()
    ensures (forall start: real, script: seq<Turn> :: AllPossible(script) ==>
        RateBoundedThroughout(Execute(Begin(start), script, c).log, c)) <==>
      (c.threshold <= 1 || c.window <= Gaps(c.threshold, BaseGap(c)))
  {
    hide Execute, RateBoundedThroughout, CrashAndReturn, AllPossible, Backoff.Sane;
    if c.threshold <= 1 || c.window <= Gaps(c.threshold, BaseGap(c)) {
      forall start: real, script: seq<Turn> | AllPossible(script)
        ensures RateBoundedThroughout(Execute(Begin(start), script, c).log, c)
      {
        RateThroughoutHolds(start, script, c);
      }
    } else {
      TooManyCrashes(c);
    }
  }

  lemma RateThroughoutHolds(start: real, script: seq<Turn>, c: Config)
    requires c.backoff.Sane() && AllPossible(script)
    requires c.threshold <= 1 || c.window <= Gaps(c.threshold, BaseGap(c))
    ensures RateBoundedThroughout(Execute(Begin(start), script, c).log, c)
  {
    hide Execute, Crashes, Within, CrashesApart, AllPossible;
    var log := Execute(Begin(start), script, c).log;
    if c.threshold >= 2 {
      CrashesAreSpaced(start, script, c);
      LogIsApart(log, BaseGap(c));
      FirstDelay(c);
    } else if c.window >= 0.0 {
      OpensHolds(start, script, c);
    }
    forall x: real ensures Within(Crashes(log), x, c.window) <= Limit(c) {
      if c.threshold >= 2 {
        ApartWithin(Crashes(log), BaseGap(c), x, c.window, c.threshold);
      } else if c.window >= 0.0 {
        ApartWithin(Crashes(log), c.window, x, c.window, 1);
      } else {
        EmptyWindow(Crashes(log), x, c.window);
      }
    }
  }
}
