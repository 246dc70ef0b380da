/** What the restart loop guarantees over whole runs. */
module SupervisorProperties {

  import opened Common
  import opened Supervisor

  // ----- Reading the log -----

  /** Crash times since the last clean return. */
  function Streak(log: seq<Event>): seq<real> {
    if log == [] then []
    else if Last(log).Returned? then []
    else Streak(Init(log)) + (if Last(log).Crashed? then [Last(log).at] else [])
  }

  /** Crash times since the last clean return or opening of the breaker. */
  function Counted(log: seq<Event>): seq<real> {
    if log == [] then []
    else if Last(log).Returned? || Last(log).Opened? then []
    else Counted(Init(log)) + (if Last(log).Crashed? then [Last(log).at] else [])
  }

  /** How many times fall in the half-open interval of the given length that starts at `from`. */
  function Within(times: seq<real>, from: real, length: real): nat {
    if times == [] then 0
    else Within(Init(times), from, length) + (if from <= Last(times) < from + length then 1 else 0)
  }

  function Limit(c: Config): int { if c.threshold >= 1 then c.threshold else 1 }

  /** No interval of one window holds more crashes than the limit, at any moment of the run between clean returns. */
  ghost predicate RateBounded(log: seq<Event>, c: Config) {
    forall n: nat, x: real :: n <= |log| ==> Within(Streak(log[..n]), x, c.window) <= Limit(c)
  }

  /** Once the breaker has opened until some time, nothing is started before that time. */
  predicate NoStartWhileOpen(log: seq<Event>) {
    forall i, j :: 0 <= i < j < |log| && log[i].Opened? && log[j].Started? ==> log[j].at >= log[i].until
  }

  // ----- The invariant of the loop -----

  predicate Sorted(times: seq<real>) { forall i, j :: 0 <= i < j < |times| ==> times[i] <= times[j] }

  /** The streak splits into crashes that no longer count, all a full window before any possible next crash,
      and the failures still held by the breaker. */
  predicate StreakInv(s: Run, c: Config) { Splits(Streak(s.log), s.breaker, s.now, c) }

  predicate Splits(k: seq<real>, b: Breaker, now: real, c: Config) {
    var stale := |k| - |b.failures|;
    && Sorted(k) && (forall i :: 0 <= i < |k| ==> k[i] <= now)
    && 0 <= stale && k[stale..] == b.failures
    && |b.failures| < Limit(c)
    && (forall i :: 0 <= i < stale ==> k[i] + c.window <= Max(now, b.openUntil))
  }

  predicate OpenInv(s: Run) {
    && NoStartWhileOpen(s.log)
    && forall i :: 0 <= i < |s.log| && s.log[i].Opened? ==> s.log[i].until <= Max(s.now, s.breaker.openUntil)
  }

  lemma {:induction false} RecentIsSuffix(times: seq<real>, now: real, window: real)
    requires Sorted(times)
    ensures var r := Recent(times, now, window);
      && |r| <= |times| && times[|times| - |r|..] == r
      && forall i :: 0 <= i < |times| - |r| ==> times[i] + window < now
  {
    if times != [] {
      var past, last := Init(times), Last(times);
      RecentIsSuffix(past, now, window);
      if now - last > window {
        forall i | 0 <= i < |past| ensures now - past[i] > window {
          assert times[i] <= times[|times| - 1];
        }
        NoneRecent(past, now, window);
      } else {
        var r := Recent(past, now, window);
        assert Recent(times, now, window) == r + [last];
        assert times == past + [last];
        assert times[|past| - |r|..] == past[|past| - |r|..] + [last];
        hide Recent, Sorted;
      }
    }
  }

  lemma {:induction false} NoneRecent(times: seq<real>, now: real, window: real)
    requires forall i :: 0 <= i < |times| ==> now - times[i] > window
    ensures Recent(times, now, window) == []
  {
    if times != [] {
      NoneRecent(Init(times), now, window);
    }
  }

  lemma StreakOfCrash(log: seq<Event>, at: real, opening: seq<Event>)
    requires opening == [] || (|opening| == 1 && opening[0].Opened?)
    ensures Streak(log + [Crashed(at)] + opening) == Streak(log) + [at]
  {
    assert Init(log + [Crashed(at)]) == log;
    if opening != [] {
      assert Init(log + [Crashed(at)] + opening) == log + [Crashed(at)];
    } else {
      assert log + [Crashed(at)] + opening == log + [Crashed(at)];
    }
  }

  lemma StreakSnoc(log: seq<Event>, e: Event)
    ensures Streak(log + [e]) == if e.Returned? then [] else Streak(log) + (if e.Crashed? then [e.at] else [])
  {
    assert Init(log + [e]) == log;
  }

  /** A crash keeps the split: what drops out of the breaker is a window old, or waits out the open time. */
  lemma CrashKeepsStreak(s: Run, t: Turn, c: Config)
    requires StreakInv(s, c) && s.now >= s.breaker.openUntil && Possible(t)
    ensures StreakInv(Recover(s, t, c), c)
    ensures Streak(Recover(s, t, c).log) == Streak(s.log) + [s.now]
  {
    hide Recent, Backoff.Delay, Streak, Splits;
    var n, r := s.now, Recover(s, t, c);
    var recent := Recent(s.breaker.failures + [n], n, c.window);
    StreakOfCrash(s.log, n, if |recent| >= c.threshold then [Opened(r.breaker.openUntil)] else []);
    assert Streak(r.log) == Streak(s.log) + [n];
    SplitKept(Streak(s.log), s.breaker, n, r.now, c);
  }

  lemma SplitKept(k: seq<real>, b: Breaker, n: real, now: real, c: Config)
    requires Splits(k, b, n, c) && b.openUntil <= n <= now
    ensures Splits(k + [n], Failed(b, n, c.threshold, c.window), now, c)
  {
    hide Recent, Sorted;
    SplitAfterCrash(k, b.failures, n, c.window, n);
  }

  /** The failures the breaker keeps are still the end of the streak, and all others are a window old. */
  lemma SplitAfterCrash(k: seq<real>, fs: seq<real>, n: real, window: real, bound: real)
    requires Sorted(k) && (forall i :: 0 <= i < |k| ==> k[i] <= n) && |fs| <= |k| && k[|k| - |fs|..] == fs
    requires (forall i :: 0 <= i < |k| - |fs| ==> k[i] + window <= bound) && bound <= n
    ensures var recent, k' := Recent(fs + [n], n, window), k + [n];
      && Sorted(k') && |recent| <= |k'| && k'[|k'| - |recent|..] == recent
      && forall i :: 0 <= i < |k'| - |recent| ==> k'[i] + window <= n
  {
    hide Recent;
    var recent, k' := Recent(fs + [n], n, window), k + [n];
    SuffixSorted(k, fs, n);
    RecentIsSuffix(fs + [n], n, window);
    var stale, dropped := |k| - |fs|, |fs| + 1 - |recent|;
    assert k'[stale..] == fs + [n];
    assert k'[stale + dropped..] == (fs + [n])[dropped..];
    forall i | 0 <= i < stale + dropped ensures k'[i] + window <= n {
      if i >= stale {
        assert k'[i] == (fs + [n])[i - stale];
      }
    }
  }

  lemma SuffixSorted(k: seq<real>, fs: seq<real>, n: real)
    requires Sorted(k) && (forall i :: 0 <= i < |k| ==> k[i] <= n) && |fs| <= |k| && k[|k| - |fs|..] == fs
    ensures Sorted(fs + [n]) && Sorted(k + [n])
  {
    var stale := |k| - |fs|;
    forall i, j | 0 <= i < j < |fs| + 1 ensures (fs + [n])[i] <= (fs + [n])[j] {
      assert fs[i] == k[i + stale];
      if j < |fs| {
        assert fs[j] == k[j + stale];
      }
    }
  }

  lemma {:induction false} WithinConcat(a: seq<real>, b: seq<real>, from: real, length: real)
    ensures Within(a + b, from, length) == Within(a, from, length) + Within(b, from, length)
  {
    if b == [] {
      assert a + b == a;
    } else {
      assert Init(a + b) == a + Init(b);
      WithinConcat(a, Init(b), from, length);
    }
  }

  lemma {:induction false} WithinAtMost(a: seq<real>, from: real, length: real)
    ensures Within(a, from, length) <= |a|
  {
    if a != [] {
      WithinAtMost(Init(a), from, length);
    }
  }

  lemma {:induction false} WithinNone(a: seq<real>, from: real, length: real)
    requires forall i :: 0 <= i < |a| ==> !(from <= a[i] < from + length)
    ensures Within(a, from, length) == 0
  {
    if a != [] {
      WithinNone(Init(a), from, length);
    }
  }

  /** One more crash stays within the rate: an interval that reaches it has left the stale crashes behind. */
  lemma CrashWithinRate(s: Run, c: Config, x: real)
    requires StreakInv(s, c) && s.now >= s.breaker.openUntil
    requires Within(Streak(s.log), x, c.window) <= Limit(c)
    ensures Within(Streak(s.log) + [s.now], x, c.window) <= Limit(c)
  {
    hide Streak;
    var k, fs, n := Streak(s.log), s.breaker.failures, s.now;
    var stale := |k| - |fs|;
    WithinConcat(k, [n], x, c.window);
    if x <= n < x + c.window {
      assert k == k[..stale] + fs;
      WithinConcat(k[..stale], fs, x, c.window);
      WithinNone(k[..stale], x, c.window);
      WithinAtMost(fs, x, c.window);
      WithinAtMost([n], x, c.window);
    } else {
      WithinNone([n], x, c.window);
    }
  }

  ghost predicate Inv(s: Run, c: Config) { StreakInv(s, c) && OpenInv(s) && RateBounded(s.log, c) }

  lemma RateSnoc(log: seq<Event>, e: Event, c: Config)
    requires RateBounded(log, c)
    requires forall x: real :: Within(Streak(log + [e]), x, c.window) <= Limit(c)
    ensures RateBounded(log + [e], c)
  {
    hide Streak, Within;
    var r := log + [e];
    forall n: nat, x: real | n <= |r| ensures Within(Streak(r[..n]), x, c.window) <= Limit(c) {
      if n <= |log| {
        assert r[..n] == log[..n];
      } else {
        assert r[..n] == r;
      }
    }
  }

  lemma RateNow(log: seq<Event>, c: Config, x: real)
    requires RateBounded(log, c)
    ensures Within(Streak(log), x, c.window) <= Limit(c)
  {
    assert log[..|log|] == log;
  }

  /** Events that are no crash leave the rate as it was. */
  lemma RateOther(log: seq<Event>, e: Event, c: Config)
    requires RateBounded(log, c) && !e.Crashed?
    ensures RateBounded(log + [e], c)
  {
    StreakSnoc(log, e);
    hide Streak;
    forall x: real ensures Within(Streak(log + [e]), x, c.window) <= Limit(c) {
      RateNow(log, c, x);
      if e.Returned? {
        WithinNone([], x, c.window);
      } else {
        assert Streak(log) + [] == Streak(log);
      }
    }
    RateSnoc(log, e, c);
  }

  lemma OpenSnoc(log: seq<Event>, e: Event, bound: real)
    requires NoStartWhileOpen(log)
    requires forall i :: 0 <= i < |log| && log[i].Opened? ==> log[i].until <= bound
    requires e.Started? ==> e.at >= bound
    ensures NoStartWhileOpen(log + [e])
  {}

  lemma PauseKeeps(s: Run, t: Turn, c: Config)
    requires Inv(s, c) && Possible(t) && !s.halted && s.now < s.breaker.openUntil
    ensures Inv(Step(s, t, c), c)
  {
    hide RateBounded, Streak, NoStartWhileOpen, Within;
    RateOther(s.log, Paused(s.now), c);
    StreakSnoc(s.log, Paused(s.now));
    OpenSnoc(s.log, Paused(s.now), s.breaker.openUntil);
  }

  lemma LaunchKeeps(s: Run, t: Turn, c: Config)
    requires Inv(s, c) && Possible(t) && s.now >= s.breaker.openUntil
    ensures Inv(Launch(s, t), c)
  {
    hide RateBounded, Streak, NoStartWhileOpen, Within;
    RateOther(s.log, Started(s.now), c);
    StreakSnoc(s.log, Started(s.now));
    OpenSnoc(s.log, Started(s.now), s.now);
  }

  lemma ReturnKeeps(s: Run, c: Config)
    requires Inv(s, c) && s.now >= s.breaker.openUntil
    ensures Inv(s.(attempt := 0, breaker := s.breaker.(failures := []), log := s.log + [Returned(s.now)]), c)
  {
    hide RateBounded, Streak, NoStartWhileOpen, Within;
    RateOther(s.log, Returned(s.now), c);
    StreakSnoc(s.log, Returned(s.now));
    OpenSnoc(s.log, Returned(s.now), s.now);
  }

  lemma CrashKeeps(s: Run, t: Turn, c: Config)
    requires Inv(s, c) && Possible(t) && s.now >= s.breaker.openUntil
    ensures Inv(Recover(s, t, c), c)
  {
    hide RateBounded, Streak, Recent, Backoff.Delay, StreakInv, NoStartWhileOpen, Within;
    CrashKeepsStreak(s, t, c);
    var r, n := Recover(s, t, c), s.now;
    var log := s.log + [Crashed(n)];
    forall x: real ensures Within(Streak(log), x, c.window) <= Limit(c) {
      StreakSnoc(s.log, Crashed(n));
      RateNow(s.log, c, x);
      CrashWithinRate(s, c, x);
    }
    RateSnoc(s.log, Crashed(n), c);
    OpenSnoc(s.log, Crashed(n), n);
    if r.log != log {
      var o := Opened(r.breaker.openUntil);
      assert r.log == log + [o];
      RateOther(log, o, c);
      OpenSnoc(log, o, n);
    }
  }

  lemma StepKeeps(s: Run, t: Turn, c: Config)
    requires Inv(s, c) && Possible(t)
    ensures Inv(Step(s, t, c), c)
  {
    hide Inv, Recover;
    if s.halted {
    } else if s.now < s.breaker.openUntil {
      PauseKeeps(s, t, c);
    } else {
      LaunchKeeps(s, t, c);
      match t.outcome
      case Cancelled =>
        HaltKeeps(Launch(s, t), c);
      case CleanReturn => ReturnKeeps(Launch(s, t), c);
      case Crash => CrashKeeps(Launch(s, t), t, c);
    }
  }

  lemma HaltKeeps(s: Run, c: Config)
    requires Inv(s, c)
    ensures Inv(s.(halted := true), c)
  {}

  lemma EmptyRate(c: Config)
    ensures RateBounded([], c)
  {
    forall n: nat, x: real | n <= 0 ensures Within(Streak([][..n]), x, c.window) <= Limit(c) {
      WithinNone([], x, c.window);
    }
  }

  lemma StreakBegins(start: real, c: Config)
    ensures StreakInv(Begin(start), c)
  {
    assert Splits([], Breaker([], 0.0), start, c);
    hide Splits;
  }

  lemma InvBegins(start: real, c: Config)
    ensures Inv(Begin(start), c)
  {
    EmptyRate(c);
    StreakBegins(start, c);
    hide RateBounded, Within, StreakInv;
  }

  lemma {:induction false} InvHolds(start: real, script: seq<Turn>, c: Config)
    requires AllPossible(script)
    ensures Inv(Execute(Begin(start), script, c), c)
  {
    hide Inv, Step;
    if script == [] {
      InvBegins(start, c);
    } else {
      InvHolds(start, Init(script), c);
      StepKeeps(Execute(Begin(start), Init(script), c), Last(script), c);
    }
  }

  /** In every run, at every moment: between clean returns no window holds more crashes than the threshold,
      and nothing starts while the breaker is open. */
  lemma CrashRateBounded(start: real, script: seq<Turn>, c: Config)
    requires AllPossible(script)
    ensures var log := Execute(Begin(start), script, c).log; RateBounded(log, c) && NoStartWhileOpen(log)
  {
    InvHolds(start, script, c);
  }

  // ----- When the breaker opens -----

  /** The breaker opens at a crash exactly when the crashes of the last window, counted since the last clean
      return or opening, reach the threshold. */
  predicate OpensWhenDue(log: seq<Event>, c: Config) {
    forall i: nat :: i < |log| && log[i].Crashed? ==> DueAt(log, i, c)
  }

  predicate DueAt(log: seq<Event>, i: nat, c: Config)
    requires i < |log| && log[i].Crashed?
  {
    i + 1 < |log| && log[i + 1].Opened? <==>
    |Recent(Counted(log[..i]) + [log[i].at], log[i].at, c.window)| >= c.threshold
  }

  /** What the breaker holds and what the log counts stay the same set of recent crashes. */
  ghost predicate CountInv(s: Run, c: Config) {
    && OpensWhenDue(s.log, c)
    && forall n: real :: n >= s.now ==> Recent(s.breaker.failures, n, c.window) == Recent(Counted(s.log), n, c.window)
  }

  lemma CountedSnoc(log: seq<Event>, e: Event)
    ensures Counted(log + [e]) ==
      if e.Returned? || e.Opened? then [] else Counted(log) + (if e.Crashed? then [e.at] else [])
  {
    assert Init(log + [e]) == log;
  }

  lemma RecentSnoc(times: seq<real>, t: real, now: real, window: real)
    ensures Recent(times + [t], now, window) == Recent(times, now, window) + (if now - t <= window then [t] else [])
  {
    assert Init(times + [t]) == times;
  }

  /** Forgetting early what would be forgotten later changes nothing. */
  lemma {:induction false} RecentOfRecent(times: seq<real>, now: real, later: real, window: real)
    requires now <= later
    ensures Recent(Recent(times, now, window), later, window) == Recent(times, later, window)
  {
    if times != [] {
      RecentOfRecent(Init(times), now, later, window);
      if now - Last(times) <= window {
        RecentSnoc(Recent(Init(times), now, window), Last(times), later, window);
      } else {
        assert Recent(Init(times), now, window) + [] == Recent(Init(times), now, window);
      }
    }
  }

  /** What follows the log does not change a past crash, unless an opening is appended right behind it. */
  lemma DuePrefix(log: seq<Event>, more: seq<Event>, i: nat, c: Config)
    requires i < |log| && log[i].Crashed? && DueAt(log, i, c)
    requires i == |log| - 1 && more != [] ==> !more[0].Opened?
    ensures DueAt(log + more, i, c)
  {
    hide Recent, Counted;
    assert (log + more)[..i] == log[..i];
    if i + 1 < |log| {
      assert (log + more)[i + 1] == log[i + 1];
    }
  }

  lemma DueOther(log: seq<Event>, e: Event, c: Config)
    requires OpensWhenDue(log, c) && !e.Crashed? && !e.Opened?
    ensures OpensWhenDue(log + [e], c)
  {
    hide DueAt;
    var r := log + [e];
    forall i: nat | i < |r| && r[i].Crashed? ensures DueAt(r, i, c) {
      assert r[i] == log[i];
      DuePrefix(log, [e], i, c);
    }
  }

  lemma DueCrash(log: seq<Event>, n: real, opening: seq<Event>, c: Config)
    requires OpensWhenDue(log, c)
    requires opening == [] || (|opening| == 1 && opening[0].Opened?)
    requires opening != [] <==> |Recent(Counted(log) + [n], n, c.window)| >= c.threshold
    ensures OpensWhenDue(log + [Crashed(n)] + opening, c)
  {
    hide DueAt, Recent, Counted;
    var r := log + [Crashed(n)] + opening;
    forall i: nat | i < |r| && r[i].Crashed? ensures DueAt(r, i, c) {
      DueCrashAt(log, n, opening, i, c);
    }
  }

  lemma DueCrashAt(log: seq<Event>, n: real, opening: seq<Event>, i: nat, c: Config)
    requires OpensWhenDue(log, c)
    requires opening == [] || (|opening| == 1 && opening[0].Opened?)
    requires opening != [] <==> |Recent(Counted(log) + [n], n, c.window)| >= c.threshold
    requires i < |log| + 1 + |opening| && (log + [Crashed(n)] + opening)[i].Crashed?
    ensures DueAt(log + [Crashed(n)] + opening, i, c)
  {
    hide DueAt, Recent, Counted;
    if i < |log| {
      assert (log + [Crashed(n)] + opening)[i] == log[i];
      assert log + [Crashed(n)] + opening == log + ([Crashed(n)] + opening);
      DuePrefix(log, [Crashed(n)] + opening, i, c);
    } else {
      DueLast(log, n, opening, c);
    }
  }

  lemma DueLast(log: seq<Event>, n: real, opening: seq<Event>, c: Config)
    requires opening == [] || (|opening| == 1 && opening[0].Opened?)
    requires opening != [] <==> |Recent(Counted(log) + [n], n, c.window)| >= c.threshold
    ensures DueAt(log + [Crashed(n)] + opening, |log|, c)
  {
    hide Recent, Counted;
    var r := log + [Crashed(n)] + opening;
    assert r[..|log|] == log && r[|log|] == Crashed(n);
    assert opening != [] ==> r[|log| + 1] == opening[0];
  }

  lemma CountOther(s: Run, e: Event, now: real, c: Config)
    requires CountInv(s, c) && !e.Crashed? && !e.Opened? && !e.Returned? && now >= s.now
    ensures CountInv(s.(log := s.log + [e], now := now), c)
  {
    hide Recent, Counted, OpensWhenDue;
    DueOther(s.log, e, c);
    CountedSnoc(s.log, e);
    assert Counted(s.log) + [] == Counted(s.log);
  }

  lemma CountCrash(s: Run, t: Turn, c: Config)
    requires CountInv(s, c) && Possible(t)
    ensures CountInv(Recover(s, t, c), c)
  {
    hide Recent, Counted, OpensWhenDue, Backoff.Delay;
    var fs, n, k := s.breaker.failures, s.now, Counted(s.log);
    var r := Recover(s, t, c);
    var recent := Recent(fs + [n], n, c.window);
    var opening := if |recent| >= c.threshold then [Opened(r.breaker.openUntil)] else [];
    RecentSnoc(fs, n, n, c.window);
    RecentSnoc(k, n, n, c.window);
    assert recent == Recent(k + [n], n, c.window);
    DueCrash(s.log, n, opening, c);
    CountedSnoc(s.log, Crashed(n));
    forall m: real | m >= r.now ensures Recent(r.breaker.failures, m, c.window) == Recent(Counted(r.log), m, c.window) {
      if opening != [] {
        CountedSnoc(s.log + [Crashed(n)], opening[0]);
      } else {
        RecentOfRecent(fs + [n], n, m, c.window);
        RecentSnoc(fs, n, m, c.window);
        RecentSnoc(k, n, m, c.window);
        assert r.log == s.log + [Crashed(n)];
      }
    }
  }

  lemma CountReturn(s: Run, c: Config)
    requires CountInv(s, c)
    ensures CountInv(s.(attempt := 0, breaker := s.breaker.(failures := []), log := s.log + [Returned(s.now)]), c)
  {
    hide Recent, Counted, OpensWhenDue;
    DueOther(s.log, Returned(s.now), c);
    CountedSnoc(s.log, Returned(s.now));
  }

  lemma CountStep(s: Run, t: Turn, c: Config)
    requires CountInv(s, c) && Possible(t)
    ensures CountInv(Step(s, t, c), c)
  {
    hide Recover, Recent, Counted, OpensWhenDue;
    if s.halted {
    } else if s.now < s.breaker.openUntil {
      CountOther(s, Paused(s.now), Sleep(s.now, Pause(c), t.late), c);
    } else {
      CountOther(s, Started(s.now), s.now + t.run, c);
      match t.outcome
      case Cancelled =>
      case CleanReturn => CountReturn(Launch(s, t), c);
      case Crash => CountCrash(Launch(s, t), t, c);
    }
  }

  lemma {:induction false} CountHolds(start: real, script: seq<Turn>, c: Config)
    requires AllPossible(script)
    ensures CountInv(Execute(Begin(start), script, c), c)
  {
    if script == [] {
    } else {
      CountHolds(start, Init(script), c);
      hide CountInv;
      CountStep(Execute(Begin(start), Init(script), c), Last(script), c);
    }
  }

  lemma BreakerOpensWhenDue(start: real, script: seq<Turn>, c: Config)
    requires AllPossible(script)
    ensures OpensWhenDue(Execute(Begin(start), script, c).log, c)
  {
    CountHolds(start, script, c);
  }

  // ----- Spacing of crashes -----

  function CrashCount(log: seq<Event>): nat {
    if log == [] then 0 else CrashCount(Init(log)) + (if Last(log).Crashed? then 1 else 0)
  }

  predicate CrashesApart(log: seq<Event>, gap: real) {
    forall i, j :: 0 <= i < j < |log| && log[i].Crashed? && log[j].Crashed? ==> log[j].at >= log[i].at + gap
  }

  predicate PaceInv(s: Run, gap: real) {
    && CrashesApart(s.log, gap)
    && (!s.halted ==> forall i :: 0 <= i < |s.log| && s.log[i].Crashed? ==> s.log[i].at + gap <= s.now)
    && s.attempt == |Streak(s.log)| && s.restarts == CrashCount(s.log)
    && (s.state == RUNNING ==> s.now >= s.breaker.openUntil)
  }

  lemma PaceSnoc(log: seq<Event>, e: Event, gap: real)
    requires CrashesApart(log, gap)
    requires e.Crashed? ==> forall i :: 0 <= i < |log| && log[i].Crashed? ==> log[i].at + gap <= e.at
    ensures CrashesApart(log + [e], gap)
    ensures CrashCount(log + [e]) == CrashCount(log) + if e.Crashed? then 1 else 0
  {
    assert Init(log + [e]) == log;
  }

  lemma PaceCrash(s: Run, t: Turn, c: Config, gap: real)
    requires PaceInv(s, gap) && !s.halted && Possible(t)
    requires c.backoff.Sane() && gap == Min(c.backoff.maxDelay, c.backoff.base)
    ensures PaceInv(Recover(s, t, c), gap)
  {
    hide Recent, Backoff.Delay, Backoff.Raw, Streak, CrashCount, CrashesApart;
    var r, n := Recover(s, t, c), s.now;
    var log := s.log + [Crashed(n)];
    PaceSnoc(s.log, Crashed(n), gap);
    StreakSnoc(s.log, Crashed(n));
    DelayBounds(c.backoff, s.attempt + 1, s.attempt + 1, t.u);
    if r.log != log {
      var o := Opened(r.breaker.openUntil);
      assert r.log == log + [o];
      PaceSnoc(log, o, gap);
      StreakSnoc(log, o);
    }
  }

  lemma PaceOther(s: Run, e: Event, now: real, gap: real)
    requires PaceInv(s, gap) && now >= s.now && !e.Crashed? && !e.Returned?
    ensures PaceInv(s.(log := s.log + [e], now := now), gap)
  {
    hide Streak, CrashCount, CrashesApart;
    PaceSnoc(s.log, e, gap);
    StreakSnoc(s.log, e);
  }

  lemma PaceStep(s: Run, t: Turn, c: Config, gap: real)
    requires PaceInv(s, gap) && Possible(t) && c.backoff.Sane() && gap == Min(c.backoff.maxDelay, c.backoff.base)
    ensures PaceInv(Step(s, t, c), gap)
  {
    hide Recover, Streak, CrashCount, CrashesApart;
    if s.halted {
    } else if s.now < s.breaker.openUntil {
      PaceOther(s, Paused(s.now), Sleep(s.now, Pause(c), t.late), gap);
    } else {
      PaceOther(s, Started(s.now), s.now + t.run, gap);
      var l := Launch(s, t);
      match t.outcome
      case Cancelled =>
      case CleanReturn =>
        PaceSnoc(l.log, Returned(l.now), gap);
        StreakSnoc(l.log, Returned(l.now));
      case Crash => PaceCrash(l, t, c, gap);
    }
  }

  /** Crashes are at least the base delay apart, the backoff exponent counts the crashes since the last clean
      return, and a task reported as running has a closed breaker. */
  lemma {:induction false} CrashesAreSpaced(start: real, script: seq<Turn>, c: Config)
    requires AllPossible(script) && c.backoff.Sane()
    ensures PaceInv(Execute(Begin(start), script, c), Min(c.backoff.maxDelay, c.backoff.base))
  {
    if script == [] {
    } else {
      CrashesAreSpaced(start, Init(script), c);
      hide PaceInv;
      PaceStep(Execute(Begin(start), Init(script), c), Last(script), c, Min(c.backoff.maxDelay, c.backoff.base));
    }
  }

  // ----- Why clean returns matter -----

  const CRASH := Turn(0.0, Crash, 0.0, 0.0, false)
  const CLEAN := Turn(0.0, CleanReturn, 0.0, 0.0, false)

  /** `n` times a crash followed by a clean return, each run taking no time. */
  function CrashAndReturn(n: nat): seq<Turn> {
    if n == 0 then [] else CrashAndReturn(n - 1) + [CRASH, CLEAN]
  }

  lemma CrashThenReturn(s: Run, c: Config)
    requires c.threshold >= 2 && s.breaker == Breaker([], 0.0) && s.now >= 0.0 && !s.halted && s.attempt == 0
    ensures var r := Step(Step(s, CRASH, c), CLEAN, c);
      && r.restarts == s.restarts + 1 && r.attempt == 0 && !r.halted && r.breaker == Breaker([], 0.0)
      && r.now == s.now + Max(0.0, c.backoff.Delay(1, 0.0))
  {
    hide Backoff.Delay, Recent;
    SmallRecent(s.now, c.window);
  }

  lemma OneMore(n: nat, d: real)
    requires n > 0 && d >= 0.0
    ensures n as real * d == (n - 1) as real * d + d && (n - 1) as real * d >= 0.0
  {}

  lemma ExecuteTwo(s: Run, script: seq<Turn>, a: Turn, b: Turn, c: Config)
    ensures Execute(s, script + [a, b], c) == Step(Step(Execute(s, script, c), a, c), b, c)
  {
    hide Step;
    assert Init(script + [a, b]) == script + [a];
    assert Init(script + [a]) == script;
  }

  /** A task that returns cleanly after every crash never trips a breaker with a threshold above one: it keeps
      crashing at the base pace, so the bound on the crash rate does not extend across clean returns. */
  lemma {:induction false} CleanReturnsHideCrashes(start: real, n: nat, c: Config)
    requires c.threshold >= 2 && start >= 0.0
    ensures var s := Execute(Begin(start), CrashAndReturn(n), c);
      && s.restarts == n && s.attempt == 0 && !s.halted
      && s.breaker == Breaker([], 0.0)
      && s.now == start + n as real * Max(0.0, c.backoff.Delay(1, 0.0))
  {
    hide Backoff.Delay, Step;
    if n > 0 {
      CleanReturnsHideCrashes(start, n - 1, c);
      OneMore(n, Max(0.0, c.backoff.Delay(1, 0.0)));
      ExecuteTwo(Begin(start), CrashAndReturn(n - 1), CRASH, CLEAN, c);
      CrashThenReturn(Execute(Begin(start), CrashAndReturn(n - 1), c), c);
    }
  }

  lemma SmallRecent(now: real, window: real)
    ensures |Recent([] + [now], now, window)| <= 1
  {
    assert Init([] + [now]) == [];
  }

  // ----- Recovery -----

  /** Nothing but pauses since `s`. */
  predicate OnlyPaused(s: Run, r: Run) {
    |s.log| <= |r.log| && forall i :: |s.log| <= i < |r.log| ==> r.log[i].Paused?
  }

  lemma StartIsLogged(m: Run, t: Turn, c: Config)
    requires !m.halted && m.now >= m.breaker.openUntil
    ensures |Step(m, t, c).log| > |m.log| && Step(m, t, c).log[|m.log|] == Started(m.now)
  {
    hide Failed, Recent, Backoff.Delay;
  }

  lemma OnlyPausedStep(s: Run, m: Run, t: Turn, c: Config)
    requires !m.halted && s.log <= m.log <= Step(m, t, c).log && OnlyPaused(s, Step(m, t, c))
    ensures OnlyPaused(s, m) && m.now < m.breaker.openUntil
  {
    hide Step;
    if m.now >= m.breaker.openUntil {
      StartIsLogged(m, t, c);
    }
  }

  lemma PauseTurn(m: Run, t: Turn, c: Config)
    requires !m.halted && m.now < m.breaker.openUntil && Possible(t)
    ensures var r := Step(m, t, c);
      !r.halted && r.breaker == m.breaker && r.now >= m.now + Max(0.0, Pause(c))
  {}

  lemma LogGrowsByStep(m: Run, t: Turn, c: Config)
    ensures m.log <= Step(m, t, c).log
  {
    hide Failed, Recent, Backoff.Delay;
  }

  lemma {:induction false} LogGrows(s: Run, script: seq<Turn>, c: Config)
    ensures s.log <= Execute(s, script, c).log
  {
    hide Step;
    if script != [] {
      LogGrows(s, Init(script), c);
      LogGrowsByStep(Execute(s, Init(script), c), Last(script), c);
    }
  }

  /** While nothing has been started again, each turn waits at least one pause. */
  lemma {:induction false} PausesAddUp(s: Run, script: seq<Turn>, c: Config)
    requires !s.halted && AllPossible(script) && OnlyPaused(s, Execute(s, script, c))
    ensures var r := Execute(s, script, c);
      !r.halted && r.breaker == s.breaker && r.now >= s.now + |script| as real * Max(0.0, Pause(c))
  {
    hide Step, Max, Pause;
    if script != [] {
      var m, t := Execute(s, Init(script), c), Last(script);
      LogGrows(s, Init(script), c);
      LogGrowsByStep(m, t, c);
      PausesBefore(s, Init(script), t, c);
      PausesAddUp(s, Init(script), c);
      OnlyPausedStep(s, m, t, c);
      PauseTurn(m, t, c);
      MaxIsNatural(Pause(c));
      OneMore(|script|, Max(0.0, Pause(c)));
    }
  }

  lemma MaxIsNatural(x: real)
    ensures Max(0.0, x) >= 0.0
  {}

  lemma PausesBefore(s: Run, script: seq<Turn>, t: Turn, c: Config)
    requires OnlyPaused(s, Step(Execute(s, script, c), t, c))
    ensures OnlyPaused(s, Execute(s, script, c))
  {
    hide Step;
    LogGrows(s, script, c);
    LogGrowsByStep(Execute(s, script, c), t, c);
  }

  lemma StartsAfterPauses(s: Run, script: seq<Turn>, t: Turn, c: Config)
    requires !s.halted && AllPossible(script) && Possible(t)
    requires |script| as real * Max(0.0, Pause(c)) >= s.breaker.openUntil - s.now
    ensures !OnlyPaused(s, Execute(s, script + [t], c))
  {
    hide Step, Max, Pause;
    assert Init(script + [t]) == script;
    var m, r := Execute(s, script, c), Execute(s, script + [t], c);
    LogGrows(s, script, c);
    LogGrows(s, script + [t], c);
    if OnlyPaused(s, r) {
      PausesBefore(s, script, t, c);
      PausesAddUp(s, script, c);
      StartIsLogged(m, t, c);
    }
  }

  /** An open breaker keeps nothing down for good: once pauses of up to five seconds could cover what is left of the
      open time, one turn more has started it again. */
  lemma RestartsInTime(s: Run, script: seq<Turn>, t: Turn, c: Config)
    requires !s.halted && AllPossible(script) && Possible(t)
    requires |script| as real * Max(0.0, Min(c.backoff.maxDelay, 5.0)) >= s.breaker.openUntil - s.now
    ensures exists i :: |s.log| <= i < |Execute(s, script + [t], c).log| && !Execute(s, script + [t], c).log[i].Paused?
  {
    hide Execute, Max, Min;
    StartsAfterPauses(s, script, t, c);
    LogGrows(s, script + [t], c);
  }

  // ----- Halting -----

  /** The loop ends exactly with a cancellation of the running task, or with a crash after the supervisor was told to
      stop; neither is noticed while the breaker is open. */
  lemma HaltsIff(s: Run, t: Turn, c: Config)
    requires !s.halted
    ensures Step(s, t, c).halted <==>
      s.now >= s.breaker.openUntil && (t.outcome == Cancelled || (t.outcome == Crash && t.stopping))
  {
    hide Failed, Recent, Backoff.Delay;
  }

  /** And then for good. */
  lemma {:induction false} HaltedForGood(s: Run, script: seq<Turn>, c: Config)
    requires s.halted
    ensures Execute(s, script, c) == s
  {
    if script != [] {
      HaltedForGood(s, Init(script), c);
    }
  }

  /** Within a run that has not ended before it, the task is reported open-circuited, backing off or running by what
      its last turn was. */
  lemma StateShowsTurn(s: Run, t: Turn, c: Config)
    requires !s.halted
    ensures var r := Step(s, t, c);
      && (r.state == CIRCUIT_OPEN <==> s.now < s.breaker.openUntil)
      && (r.state == BACKOFF <==> s.now >= s.breaker.openUntil && t.outcome == Crash)
      && (r.state == RUNNING <==> s.now >= s.breaker.openUntil && t.outcome != Crash)
      && (s.now >= s.breaker.openUntil ==> r.heartbeat == s.now)
  {
    hide Failed, Recent, Backoff.Delay;
  }
}
