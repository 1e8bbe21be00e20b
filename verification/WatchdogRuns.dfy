/**
  Whole runs of the watchdog. A run starts from the state of a watchdog that never
  saved one; the state is saved whole after every tick, so stopping and starting the
  watchdog continues the same run.
 */
module WatchdogRuns {
  import opened Options
  import opened Watchdog

  /** The state after the first `n` ticks. */
  function StateAt(c: Config, t0: real, ticks: seq<Tick>, n: nat): State
    requires c.Valid() && n <= |ticks|
  {
    if n == 0 then Fresh(t0) else Ticked(c, StateAt(c, t0, ticks, n - 1), ticks[n - 1])
  }

  predicate RestartsAt(c: Config, t0: real, ticks: seq<Tick>, i: nat)
    requires c.Valid() && i < |ticks|
  {
    Decide(c, StateAt(c, t0, ticks, i), ticks[i]) == Restarted
  }

  /** When the restarts of the first `n` ticks took place. */
  function Log(c: Config, t0: real, ticks: seq<Tick>, n: nat): seq<real>
    requires c.Valid() && n <= |ticks|
  {
    if n == 0 then []
    else Log(c, t0, ticks, n - 1) + if RestartsAt(c, t0, ticks, n - 1) then [ticks[n - 1].now] else []
  }

  /** Past the grace period an escalation trims the history to the window. */
  predicate Trims(d: Decision) {
    d.WindowFull? || d.BackingOff? || d.NotRestarted? || d.Restarted?
  }

  predicate TrimsAt(c: Config, t0: real, ticks: seq<Tick>, i: nat)
    requires c.Valid() && i < |ticks|
  {
    Trims(Decide(c, StateAt(c, t0, ticks, i), ticks[i]))
  }

  /** None of the first `n` ticks trimmed the history at a reading later than `now`. */
  ghost predicate TrimmedBy(c: Config, t0: real, ticks: seq<Tick>, n: nat, now: real)
    requires c.Valid() && n <= |ticks|
  {
    forall k | 0 <= k < n && TrimsAt(c, t0, ticks, k) :: ticks[k].now <= now
  }

  /**
    No restart happens at a reading earlier than that of an earlier trimming: all that is
    asked of the clock.
   */
  ghost predicate RestartsInOrder(c: Config, t0: real, ticks: seq<Tick>)
    requires c.Valid()
  {
    forall i | 0 <= i < |ticks| && RestartsAt(c, t0, ticks, i) :: TrimmedBy(c, t0, ticks, i, ticks[i].now)
  }

  ghost predicate ClockNeverGoesBack(ticks: seq<Tick>) {
    forall i, j | 0 <= i <= j < |ticks| :: ticks[i].now <= ticks[j].now
  }

  /** A clock that never goes back is more than enough. */
  lemma SteadyClockIsEnough(c: Config, t0: real, ticks: seq<Tick>)
    requires c.Valid() && ClockNeverGoesBack(ticks)
    ensures RestartsInOrder(c, t0, ticks)
    ensures forall i | 0 <= i < |ticks| :: TrimmedBy(c, t0, ticks, i, ticks[i].now)
  {
    hide StateAt, Decide, ClockNeverGoesBack;
    forall i | 0 <= i < |ticks|
      ensures TrimmedBy(c, t0, ticks, i, ticks[i].now)
    {
      forall k | 0 <= k < i && TrimsAt(c, t0, ticks, k)
        ensures ticks[k].now <= ticks[i].now
      {
        NotEarlier(ticks, k, i);
      }
    }
  }

  // ----- what one tick does to each part of the state

  lemma OneMore(c: Config, t0: real, ticks: seq<Tick>, n: nat)
    requires c.Valid() && n < |ticks|
    ensures StateAt(c, t0, ticks, n + 1) == Ticked(c, StateAt(c, t0, ticks, n), ticks[n])
    ensures Log(c, t0, ticks, n + 1)
         == Log(c, t0, ticks, n) + if RestartsAt(c, t0, ticks, n) then [ticks[n].now] else []
  {
  }

  lemma TickTimes(c: Config, s: State, t: Tick)
    requires c.Valid()
    ensures var times, trimmed := Ticked(c, s, t).restartTimes, Recent(s.restartTimes, t.now - c.restartWindow);
      times == if Decide(c, s, t) == Restarted then trimmed + [t.now]
               else if Trims(Decide(c, s, t)) then trimmed
               else s.restartTimes
  {
    hide Recent, Backoff, ReasonOf;
  }

  lemma TickFailures(c: Config, s: State, t: Tick)
    requires c.Valid()
    ensures Ticked(c, s, t).consecutiveFailures ==
      if !Failed(t) || Decide(c, s, t) == Restarted then 0 else s.consecutiveFailures + 1
  {
    hide Recent, Backoff, ReasonOf;
  }

  lemma TickBackoff(c: Config, s: State, t: Tick)
    requires c.Valid()
    ensures var s' := Ticked(c, s, t);
      s'.backoffUntil ==
        if Succeeded(t) then None
        else if Decide(c, s, t) == Restarted then Some(t.now + Backoff(c, |s'.restartTimes|))
        else s.backoffUntil
  {
    hide Recent, Backoff, ReasonOf;
  }

  // ----- the window

  lemma {:induction false} RecentTwice(times: seq<real>, earlier: real, later: real)
    requires earlier <= later
    ensures Recent(Recent(times, earlier), later) == Recent(times, later)
  {
    if times != [] {
      RecentTwice(times[1..], earlier, later);
      RecentConcat(if times[0] >= earlier then [times[0]] else [], Recent(times[1..], earlier), later);
    }
  }

  /** Trimming and appending to a history that knows all that matters. */
  lemma StillComplete(times: seq<real>, log: seq<real>, added: seq<real>, earlier: real, cutoff: real)
    requires earlier <= cutoff && Recent(times, cutoff) == Recent(log, cutoff)
    ensures Recent(Recent(times, earlier) + added, cutoff) == Recent(log + added, cutoff)
  {
    RecentTwice(times, earlier, cutoff);
    RecentConcat(Recent(times, earlier), added, cutoff);
    RecentConcat(log, added, cutoff);
  }

  /** The trimmed history still knows every restart after a cutoff no trimming went beyond. */
  lemma {:induction false} HistoryIsComplete(c: Config, t0: real, ticks: seq<Tick>, n: nat, cutoff: real)
    requires c.Valid() && n <= |ticks| && TrimmedBy(c, t0, ticks, n, cutoff + c.restartWindow)
    ensures Recent(StateAt(c, t0, ticks, n).restartTimes, cutoff) == Recent(Log(c, t0, ticks, n), cutoff)
  {
    hide Ticked, Decide, Recent, StateAt, Log;
    if n == 0 {
      AtTheStart(c, t0, ticks);
    } else {
      var s, t := StateAt(c, t0, ticks, n - 1), ticks[n - 1];
      HistoryIsComplete(c, t0, ticks, n - 1, cutoff);
      OneMore(c, t0, ticks, n - 1);
      TickTimes(c, s, t);
      var added := if RestartsAt(c, t0, ticks, n - 1) then [t.now] else [];
      if TrimsAt(c, t0, ticks, n - 1) {
        StillComplete(s.restartTimes, Log(c, t0, ticks, n - 1), added, t.now - c.restartWindow, cutoff);
      }
      assert Log(c, t0, ticks, n - 1) + [] == Log(c, t0, ticks, n - 1);
      assert Recent(s.restartTimes, t.now - c.restartWindow) + [] == Recent(s.restartTimes, t.now - c.restartWindow);
    }
  }

  lemma AtTheStart(c: Config, t0: real, ticks: seq<Tick>)
    requires c.Valid()
    ensures StateAt(c, t0, ticks, 0) == Fresh(t0) && Log(c, t0, ticks, 0) == []
  {
  }

  lemma NotEarlier(ticks: seq<Tick>, i: nat, j: nat)
    requires ClockNeverGoesBack(ticks) && i <= j < |ticks|
    ensures ticks[i].now <= ticks[j].now
  {
  }

  /** How many of the times lie in the closed window. */
  function Within(times: seq<real>, from: real, to: real): nat {
    if times == [] then 0 else (if from <= times[0] <= to then 1 else 0) + Within(times[1..], from, to)
  }

  lemma {:induction false} WithinConcat(x: seq<real>, y: seq<real>, from: real, to: real)
    ensures Within(x + y, from, to) == Within(x, from, to) + Within(y, from, to)
  {
    if x == [] {
      assert x + y == y;
    } else {
      assert (x + y)[1..] == x[1..] + y;
      WithinConcat(x[1..], y, from, to);
    }
  }

  lemma {:induction false} WithinIsRecent(times: seq<real>, cutoff: real, from: real, to: real)
    requires cutoff <= from
    ensures Within(times, from, to) <= |Recent(times, cutoff)|
  {
    if times != [] {
      WithinIsRecent(times[1..], cutoff, from, to);
    }
  }

  lemma WithinOne(time: real, from: real, to: real)
    ensures Within([time], from, to) == (if from <= time <= to then 1 else 0)
    ensures Within([], from, to) == 0
  {
  }

  lemma RestartNeedsRoom(c: Config, s: State, t: Tick)
    requires c.Valid() && Decide(c, s, t) == Restarted
    ensures |Recent(s.restartTimes, t.now - c.restartWindow)| < c.maxRestartsInWindow
  {
  }

  /** No closed window of the configured length ever holds more restarts than allowed. */
  lemma {:induction false} WindowNeverOverfull(c: Config, t0: real, ticks: seq<Tick>, n: nat, from: real)
    requires c.Valid() && n <= |ticks| && RestartsInOrder(c, t0, ticks)
    ensures Within(Log(c, t0, ticks, n), from, from + c.restartWindow) <= c.maxRestartsInWindow
  {
    hide Decide, Ticked, Recent, Within, StateAt, Log, TrimsAt;
    if n == 0 {
      AtTheStart(c, t0, ticks);
      WithinOne(from, from, from + c.restartWindow);
    } else {
      OneMore(c, t0, ticks, n - 1);
      var to := from + c.restartWindow;
      var log, t := Log(c, t0, ticks, n - 1), ticks[n - 1];
      WindowNeverOverfull(c, t0, ticks, n - 1, from);
      WithinOne(t.now, from, to);
      assert log + [] == log;
      if RestartsAt(c, t0, ticks, n - 1) {
        WithinConcat(log, [t.now], from, to);
        if from <= t.now <= to {
          var cutoff := t.now - c.restartWindow;
          RestartNeedsRoom(c, StateAt(c, t0, ticks, n - 1), t);
          HistoryIsComplete(c, t0, ticks, n - 1, cutoff);
          WithinIsRecent(log, cutoff, from, to);
        }
      }
    }
  }

  // ----- the streak

  /** How many of the last of the first `n` ticks failed in a row, since the last restart. */
  function Streak(c: Config, t0: real, ticks: seq<Tick>, n: nat): (k: nat)
    requires c.Valid() && n <= |ticks|
    ensures k <= n
  {
    if n == 0 || !Failed(ticks[n - 1]) || RestartsAt(c, t0, ticks, n - 1) then 0
    else Streak(c, t0, ticks, n - 1) + 1
  }

  lemma {:induction false} StreakIsOfFailures(c: Config, t0: real, ticks: seq<Tick>, n: nat, j: nat)
    requires c.Valid() && n <= |ticks| && n - Streak(c, t0, ticks, n) <= j < n
    ensures Failed(ticks[j]) && !RestartsAt(c, t0, ticks, j)
  {
    hide RestartsAt;
    if j < n - 1 {
      StreakIsOfFailures(c, t0, ticks, n - 1, j);
    }
  }

  lemma {:induction false} FailuresAreTheStreak(c: Config, t0: real, ticks: seq<Tick>, n: nat)
    requires c.Valid() && n <= |ticks|
    ensures StateAt(c, t0, ticks, n).consecutiveFailures == Streak(c, t0, ticks, n)
  {
    hide Decide, Ticked;
    if n > 0 {
      FailuresAreTheStreak(c, t0, ticks, n - 1);
      TickFailures(c, StateAt(c, t0, ticks, n - 1), ticks[n - 1]);
    }
  }

  /**
    A restart is the last of at least as many failed probes in a row as configured,
    with no success, no maintenance and no other restart among them.
   */
  lemma RestartEndsAStreak(c: Config, t0: real, ticks: seq<Tick>, i: nat)
    requires c.Valid() && i < |ticks| && RestartsAt(c, t0, ticks, i)
    ensures c.failureThreshold <= i + 1
    ensures forall j | i + 1 - c.failureThreshold <= j <= i :: Failed(ticks[j]) && (j < i ==> !RestartsAt(c, t0, ticks, j))
  {
    hide StateAt;
    FailuresAreTheStreak(c, t0, ticks, i);
    var k := Streak(c, t0, ticks, i);
    assert c.failureThreshold <= k + 1;
    forall j | i + 1 - c.failureThreshold <= j < i
      ensures Failed(ticks[j]) && !RestartsAt(c, t0, ticks, j)
    {
      StreakIsOfFailures(c, t0, ticks, i, j);
    }
  }

  // ----- the backoff

  ghost predicate NoSuccessBetween(ticks: seq<Tick>, i: nat, j: nat)
    requires j <= |ticks|
  {
    forall k | i < k < j :: !Succeeded(ticks[k])
  }

  /** When the backoff after the restart of tick `i` ends: it doubles with every restart in the window. */
  function BackoffEnd(c: Config, t0: real, ticks: seq<Tick>, i: nat): real
    requires c.Valid() && i < |ticks|
  {
    var now := ticks[i].now;
    now + Backoff(c, |Recent(Log(c, t0, ticks, i + 1), now - c.restartWindow)|)
  }

  lemma BackoffStarts(c: Config, t0: real, ticks: seq<Tick>, i: nat)
    requires c.Valid() && i < |ticks| && RestartsInOrder(c, t0, ticks) && RestartsAt(c, t0, ticks, i)
    ensures StateAt(c, t0, ticks, i + 1).backoffUntil == Some(BackoffEnd(c, t0, ticks, i))
  {
    hide Ticked, Backoff, Recent, Log;
    var s, t := StateAt(c, t0, ticks, i), ticks[i];
    var cutoff := t.now - c.restartWindow;
    RestartFollowsFailure(c, s, t);
    TickTimes(c, s, t);
    TickBackoff(c, s, t);
    hide Decide;
    HistoryIsComplete(c, t0, ticks, i, cutoff);
    RecentConcat(Log(c, t0, ticks, i), [t.now], cutoff);
    RecentOne(t.now, cutoff);
    LogOneMore(c, t0, ticks, i);
  }

  lemma RestartFollowsFailure(c: Config, s: State, t: Tick)
    requires c.Valid() && Decide(c, s, t) == Restarted
    ensures Failed(t) && !Succeeded(t)
  {
  }

  lemma RecentOne(time: real, cutoff: real)
    requires time >= cutoff
    ensures Recent([time], cutoff) == [time]
  {
  }

  lemma LogOneMore(c: Config, t0: real, ticks: seq<Tick>, i: nat)
    requires c.Valid() && i < |ticks| && RestartsAt(c, t0, ticks, i)
    ensures Log(c, t0, ticks, i + 1) == Log(c, t0, ticks, i) + [ticks[i].now]
  {
  }

  /** Until a probe succeeds, the backoff on record is that of the last restart or of a later one. */
  lemma {:induction false} BackoffIsRemembered(c: Config, t0: real, ticks: seq<Tick>, i: nat, n: nat)
    requires c.Valid() && i < n <= |ticks| && RestartsInOrder(c, t0, ticks)
    requires RestartsAt(c, t0, ticks, i) && NoSuccessBetween(ticks, i, n)
    ensures var until := StateAt(c, t0, ticks, n).backoffUntil;
      until.Some? && until.value >= BackoffEnd(c, t0, ticks, i)
    decreases n
  {
    hide Ticked, BackoffEnd, StateAt, RestartsInOrder;
    if n == i + 1 {
      BackoffStarts(c, t0, ticks, i);
    } else {
      OneMore(c, t0, ticks, n - 1);
      BackoffIsRemembered(c, t0, ticks, i, n - 1);
      TickBackoff(c, StateAt(c, t0, ticks, n - 1), ticks[n - 1]);
    }
  }

  /** Two restarts with no success between them are at least the capped exponential backoff apart. */
  lemma RestartsKeepTheirDistance(c: Config, t0: real, ticks: seq<Tick>, i: nat, j: nat)
    requires c.Valid() && i < j < |ticks| && RestartsInOrder(c, t0, ticks)
    requires RestartsAt(c, t0, ticks, i) && RestartsAt(c, t0, ticks, j) && NoSuccessBetween(ticks, i, j)
    ensures ticks[j].now >= BackoffEnd(c, t0, ticks, i)
  {
    hide BackoffEnd, StateAt;
    BackoffIsRemembered(c, t0, ticks, i, j);
  }

  /** A backoff on record is that of a restart since the last success. */
  lemma {:induction false} BackoffHasAnOrigin(c: Config, t0: real, ticks: seq<Tick>, n: nat) returns (i: nat)
    requires c.Valid() && n <= |ticks| && RestartsInOrder(c, t0, ticks)
    requires StateAt(c, t0, ticks, n).backoffUntil.Some?
    ensures i < n && RestartsAt(c, t0, ticks, i) && NoSuccessBetween(ticks, i, n)
    ensures StateAt(c, t0, ticks, n).backoffUntil.value == BackoffEnd(c, t0, ticks, i)
  {
    hide BackoffEnd, StateAt, Ticked, Decide, RestartsInOrder;
    AtTheStart(c, t0, ticks);
    OneMore(c, t0, ticks, n - 1);
    TickBackoff(c, StateAt(c, t0, ticks, n - 1), ticks[n - 1]);
    if RestartsAt(c, t0, ticks, n - 1) {
      i := n - 1;
      BackoffStarts(c, t0, ticks, i);
    } else {
      i := BackoffHasAnOrigin(c, t0, ticks, n - 1);
    }
  }

  // ----- which orders of readings can overfill a window

  function Readings(ticks: seq<Tick>): (r: seq<real>)
    ensures |r| == |ticks|
  {
    seq(|ticks|, i requires 0 <= i < |ticks| => ticks[i].now)
  }

  /** How many restarts of the whole run lie in the window that begins at `from`. */
  function RestartsIn(c: Config, t0: real, ticks: seq<Tick>, from: real): nat
    requires c.Valid()
  {
    Within(Log(c, t0, ticks, |ticks|), from, from + c.restartWindow)
  }

  /** Some closed window of the configured length holds more restarts than allowed. */
  ghost predicate Overfull(c: Config, t0: real, ticks: seq<Tick>)
    requires c.Valid()
  {
    exists from :: RestartsIn(c, t0, ticks, from) > c.maxRestartsInWindow
  }

  /**
    Two readings within a window of each other, and between them one that is more than a
    window after the first; if the second is before the first, yet another one between them.
   */
  ghost predicate GoesBack(window: real, r: seq<real>, i: nat, k: nat, j: nat)
    requires i < k < j < |r|
  {
    && r[k] - window > r[i] && r[i] - window <= r[j] <= r[i] + window
    && (r[i] <= r[j] || j - i > 2)
  }

  ghost predicate CanOverfill(window: real, r: seq<real>) {
    exists i: nat, k: nat, j: nat | i < k < j < |r| :: GoesBack(window, r, i, k, j)
  }

  lemma TimesAreRestarts(c: Config, t0: real, ticks: seq<Tick>, n: nat, x: real) returns (i: nat)
    requires c.Valid() && n <= |ticks| && x in StateAt(c, t0, ticks, n).restartTimes
    ensures i < n && RestartsAt(c, t0, ticks, i) && ticks[i].now == x
  {
    hide Decide, Ticked, Recent;
    AtTheStart(c, t0, ticks);
    assert n > 0;
    var s := StateAt(c, t0, ticks, n - 1);
    TickTimes(c, s, ticks[n - 1]);
    RecentIsSome(s.restartTimes, ticks[n - 1].now - c.restartWindow);
    if x in s.restartTimes {
      i := TimesAreRestarts(c, t0, ticks, n - 1, x);
    } else {
      i := n - 1;
    }
  }

  lemma {:induction false} RecentIsSome(times: seq<real>, cutoff: real)
    ensures forall x | x in Recent(times, cutoff) :: x in times && x >= cutoff
  {
    if times != [] {
      RecentIsSome(times[1..], cutoff);
    }
  }

  lemma {:induction false} WithinRecent(times: seq<real>, cutoff: real, from: real, to: real)
    requires forall x | x in times && from <= x <= to :: x >= cutoff
    ensures Within(Recent(times, cutoff), from, to) == Within(times, from, to)
  {
    if times != [] {
      assert times[0] in times;
      forall x | x in times[1..] && from <= x <= to
        ensures x >= cutoff
      {
        assert x in times;
      }
      WithinRecent(times[1..], cutoff, from, to);
      WithinConcat([], Recent(times[1..], cutoff), from, to);
      WithinConcat(if times[0] >= cutoff then [times[0]] else [], Recent(times[1..], cutoff), from, to);
    }
  }

  /** Tick `k` trimmed away the restart of tick `i`, which lies in the window. */
  ghost predicate Lost(c: Config, t0: real, ticks: seq<Tick>, i: nat, k: nat, from: real, to: real)
    requires c.Valid() && i < k < |ticks|
  {
    && RestartsAt(c, t0, ticks, i) && TrimsAt(c, t0, ticks, k)
    && from <= ticks[i].now <= to && ticks[k].now - c.restartWindow > ticks[i].now
  }

  /** While no restart in the window was trimmed away, the history knows them all. */
  lemma {:induction false} WindowIsKnown(c: Config, t0: real, ticks: seq<Tick>, n: nat, from: real, to: real)
    requires c.Valid() && n <= |ticks|
    requires forall i: nat, k: nat | i < k < n :: !Lost(c, t0, ticks, i, k, from, to)
    ensures Within(StateAt(c, t0, ticks, n).restartTimes, from, to) == Within(Log(c, t0, ticks, n), from, to)
  {
    hide Decide, Ticked, Recent, Within, StateAt, Log;
    if n == 0 {
      AtTheStart(c, t0, ticks);
    } else {
      WindowIsKnown(c, t0, ticks, n - 1, from, to);
      OneMore(c, t0, ticks, n - 1);
      var s, t := StateAt(c, t0, ticks, n - 1), ticks[n - 1];
      TickTimes(c, s, t);
      assert Log(c, t0, ticks, n - 1) + [] == Log(c, t0, ticks, n - 1);
      if TrimsAt(c, t0, ticks, n - 1) {
        var cutoff := t.now - c.restartWindow;
        forall x | x in s.restartTimes && from <= x <= to
          ensures x >= cutoff
        {
          var i := TimesAreRestarts(c, t0, ticks, n - 1, x);
          assert !Lost(c, t0, ticks, i, n - 1, from, to);
        }
        WithinRecent(s.restartTimes, cutoff, from, to);
        WithinConcat(Recent(s.restartTimes, cutoff), [t.now], from, to);
        WithinConcat(Log(c, t0, ticks, n - 1), [t.now], from, to);
      }
    }
  }

  /** Until a probe succeeds, the deadline on record is not before the restart. */
  lemma {:induction false} DeadlineIsLater(c: Config, t0: real, ticks: seq<Tick>, i: nat, n: nat)
    requires c.Valid() && i < n <= |ticks| && RestartsAt(c, t0, ticks, i) && NoSuccessBetween(ticks, i, n)
    ensures var until := StateAt(c, t0, ticks, n).backoffUntil;
      until.Some? && until.value >= ticks[i].now
    decreases n
  {
    hide Ticked, StateAt;
    OneMore(c, t0, ticks, n - 1);
    var s := StateAt(c, t0, ticks, n - 1);
    TickBackoff(c, s, ticks[n - 1]);
    if n == i + 1 {
      RestartFollowsFailure(c, s, ticks[i]);
    } else {
      DeadlineIsLater(c, t0, ticks, i, n - 1);
    }
  }

  lemma RestartWaits(c: Config, s: State, t: Tick)
    requires c.Valid() && Decide(c, s, t) == Restarted && s.backoffUntil.Some?
    ensures t.now >= s.backoffUntil.value
  {
  }

  /** Restarts `i` and `j` in one window, and a trimming between them that lost the first. */
  lemma LossGoesBack(c: Config, t0: real, ticks: seq<Tick>, i: nat, k: nat, j: nat, from: real)
    requires c.Valid() && i < k < j < |ticks| && Lost(c, t0, ticks, i, k, from, from + c.restartWindow)
    requires RestartsAt(c, t0, ticks, j) && from <= ticks[j].now <= from + c.restartWindow
    ensures GoesBack(c.restartWindow, Readings(ticks), i, k, j)
  {
    hide StateAt, Ticked;
    TrimmingFails(c, StateAt(c, t0, ticks, k), ticks[k]);
    hide Decide;
    if ticks[j].now < ticks[i].now {
      if NoSuccessBetween(ticks, i, j) {
        DeadlineIsLater(c, t0, ticks, i, j);
        RestartWaits(c, StateAt(c, t0, ticks, j), ticks[j]);
        assert false;
      }
      var l :| i < l < j && Succeeded(ticks[l]);
      assert l != k;
    }
  }

  lemma TrimmingFails(c: Config, s: State, t: Tick)
    requires c.Valid() && Trims(Decide(c, s, t))
    ensures Failed(t)
  {
  }

  /** An overfull window has lost one of its restarts to a trimming. */
  lemma {:induction false} OverfullGoesBack(c: Config, t0: real, ticks: seq<Tick>, n: nat, from: real)
    requires c.Valid() && n <= |ticks|
    requires Within(Log(c, t0, ticks, n), from, from + c.restartWindow) > c.maxRestartsInWindow
    ensures CanOverfill(c.restartWindow, Readings(ticks))
  {
    hide Decide, Ticked, Recent, Within, StateAt, Log, Lost, GoesBack;
    var to := from + c.restartWindow;
    AtTheStart(c, t0, ticks);
    WithinOne(from, from, to);
    assert n > 0;
    var log, t, s := Log(c, t0, ticks, n - 1), ticks[n - 1], StateAt(c, t0, ticks, n - 1);
    OneMore(c, t0, ticks, n - 1);
    assert log + [] == log;
    if Within(log, from, to) > c.maxRestartsInWindow {
      OverfullGoesBack(c, t0, ticks, n - 1, from);
    } else {
      WithinConcat(log, [t.now], from, to);
      WithinOne(t.now, from, to);
      RestartNeedsRoom(c, s, t);
      WithinIsRecent(s.restartTimes, t.now - c.restartWindow, from, to);
      if forall i: nat, k: nat | i < k < n - 1 :: !Lost(c, t0, ticks, i, k, from, to) {
        WindowIsKnown(c, t0, ticks, n - 1, from, to);
        assert false;
      }
      var i: nat, k: nat :| i < k < n - 1 && Lost(c, t0, ticks, i, k, from, to);
      LossGoesBack(c, t0, ticks, i, k, n - 1, from);
    }
  }

  // ----- and such readings do overfill one

  function OneRestartIn(window: real): Config {
    Config(1, 0.0, 0.0, window, 1, 0.0)
  }

  function Probed(now: real, maintenance: bool, ok: bool, restartOk: bool): Tick {
    Tick(now, maintenance, ProbeResult(ok, None, false, None), AgentSnapshot(true, true), restartOk, now, now, now, now, now)
  }

  /** Restarts at `i` and `j`, a failing one at `k`, a success at `l`, maintenance elsewhere. */
  function StagedAt(r: seq<real>, i: nat, k: nat, j: nat, l: int, n: nat): (t: Tick)
    requires n < |r|
    ensures t.now == r[n]
  {
    if n == i || n == j then Probed(r[n], false, false, true)
    else if n == k then Probed(r[n], false, false, false)
    else if n == l then Probed(r[n], false, true, true)
    else Probed(r[n], true, false, true)
  }

  function Staged(r: seq<real>, i: nat, k: nat, j: nat, l: int): (ticks: seq<Tick>)
    ensures |ticks| == |r| && forall n | 0 <= n < |r| :: ticks[n] == StagedAt(r, i, k, j, l, n)
  {
    seq(|r|, n requires 0 <= n < |r| => StagedAt(r, i, k, j, l, n))
  }

  lemma NoBackoff(window: real, n: nat)
    requires window >= 0.0
    ensures OneRestartIn(window).Valid() && Backoff(OneRestartIn(window), n) == 0.0
  {
  }

  lemma QuietTick(window: real, s: State, now: real, restartOk: bool)
    requires window >= 0.0
    ensures var c, t := OneRestartIn(window), Probed(now, true, false, restartOk);
      && Decide(c, s, t) == InMaintenance
      && Ticked(c, s, t).restartTimes == s.restartTimes && Ticked(c, s, t).backoffUntil == s.backoffUntil
  {
    var c, t := OneRestartIn(window), Probed(now, true, false, restartOk);
    hide Ticked;
    TickTimes(c, s, t);
    TickBackoff(c, s, t);
  }

  lemma GoodTick(window: real, s: State, now: real, restartOk: bool)
    requires window >= 0.0
    ensures var c, t := OneRestartIn(window), Probed(now, false, true, restartOk);
      && Decide(c, s, t) == Healthy
      && Ticked(c, s, t).restartTimes == s.restartTimes && Ticked(c, s, t).backoffUntil == None
  {
    var c, t := OneRestartIn(window), Probed(now, false, true, restartOk);
    hide Ticked;
    TickTimes(c, s, t);
    TickBackoff(c, s, t);
  }

  lemma FailingDecision(window: real, s: State, now: real, restartOk: bool)
    requires window >= 0.0
    requires Recent(s.restartTimes, now - window) == [] && (s.backoffUntil.Some? ==> s.backoffUntil.value <= now)
    ensures Decide(OneRestartIn(window), s, Probed(now, false, false, restartOk)) == (if restartOk then Restarted else NotRestarted)
  {
    hide Recent;
  }

  lemma FailingTick(window: real, s: State, now: real, restartOk: bool)
    requires window >= 0.0
    requires Recent(s.restartTimes, now - window) == [] && (s.backoffUntil.Some? ==> s.backoffUntil.value <= now)
    ensures var c, t := OneRestartIn(window), Probed(now, false, false, restartOk);
      var s' := Ticked(c, s, t);
      && Decide(c, s, t) == (if restartOk then Restarted else NotRestarted)
      && s'.restartTimes == (if restartOk then [now] else [])
      && s'.backoffUntil == (if restartOk then Some(now) else s.backoffUntil)
  {
    var c, t := OneRestartIn(window), Probed(now, false, false, restartOk);
    hide Ticked, Decide, Recent, Backoff;
    FailingDecision(window, s, now, restartOk);
    TickTimes(c, s, t);
    TickBackoff(c, s, t);
    NoBackoff(window, |Ticked(c, s, t).restartTimes|);
  }

  lemma RecentOfOne(time: real, cutoff: real)
    ensures Recent([], cutoff) == [] && (time < cutoff ==> Recent([time], cutoff) == [])
  {
  }

  /** A place in a run where the staged ticks fit. */
  ghost predicate Stage(window: real, r: seq<real>, i: nat, k: nat, j: nat, l: int) {
    && window >= 0.0 && i < k < j < |r| && r[i] < r[k] - window && (r[i] <= r[j] || i < l < j)
    && l != k && i < l && !(j <= l < |r|)
  }

  function StagedLog(r: seq<real>, i: nat, j: nat, n: nat): seq<real>
    requires i < j < |r|
  {
    if n <= i then [] else if n <= j then [r[i]] else [r[i], r[j]]
  }

  function StagedTimes(r: seq<real>, i: nat, k: nat, n: nat): seq<real>
    requires i < |r|
  {
    if i < n <= k then [r[i]] else []
  }

  function StagedDeadline(r: seq<real>, i: nat, l: int, n: nat): Option<real>
    requires i < |r|
  {
    if n <= i || l < n then None else Some(r[i])
  }

  lemma StagedStep(window: real, r: seq<real>, i: nat, k: nat, j: nat, l: int, n: nat, s: State)
    requires Stage(window, r, i, k, j, l) && n < |r|
    requires n <= j ==> s.restartTimes == StagedTimes(r, i, k, n) && s.backoffUntil == StagedDeadline(r, i, l, n)
    ensures var c, t := OneRestartIn(window), StagedAt(r, i, k, j, l, n);
      && (Decide(c, s, t) == Restarted <==> n == i || n == j)
      && (n < j ==> Ticked(c, s, t).restartTimes == StagedTimes(r, i, k, n + 1))
      && (n < j ==> Ticked(c, s, t).backoffUntil == StagedDeadline(r, i, l, n + 1))
  {
    hide Decide, Ticked, Recent;
    if n == i || n == j {
      RecentOfOne(0.0, r[n] - window);
      FailingTick(window, s, r[n], true);
    } else if n == k {
      RecentOfOne(r[i], r[n] - window);
      FailingTick(window, s, r[n], false);
    } else if n == l {
      GoodTick(window, s, r[n], true);
    } else {
      QuietTick(window, s, r[n], true);
    }
  }

  /** How the staged run goes. */
  lemma {:induction false} StagedRun(window: real, t0: real, r: seq<real>, i: nat, k: nat, j: nat, l: int, n: nat)
    requires Stage(window, r, i, k, j, l) && n <= |r|
    ensures var c, ticks := OneRestartIn(window), Staged(r, i, k, j, l);
      var s := StateAt(c, t0, ticks, n);
      && Log(c, t0, ticks, n) == StagedLog(r, i, j, n)
      && (n <= j ==> s.restartTimes == StagedTimes(r, i, k, n) && s.backoffUntil == StagedDeadline(r, i, l, n))
  {
    hide Decide, Ticked, StateAt, Log, Staged, StagedAt, StagedTimes, StagedDeadline, StagedLog;
    var c, ticks := OneRestartIn(window), Staged(r, i, k, j, l);
    if n == 0 {
      AtTheStart(c, t0, ticks);
      StagedStart(r, i, k, j, l);
    } else {
      StagedRun(window, t0, r, i, k, j, l, n - 1);
      OneMore(c, t0, ticks, n - 1);
      StagedStep(window, r, i, k, j, l, n - 1, StateAt(c, t0, ticks, n - 1));
      StagedLogStep(window, r, i, k, j, l, n - 1);
    }
  }

  lemma StagedStart(r: seq<real>, i: nat, k: nat, j: nat, l: int)
    requires i < j < |r|
    ensures StagedTimes(r, i, k, 0) == [] && StagedDeadline(r, i, l, 0) == None && StagedLog(r, i, j, 0) == []
  {
  }

  lemma StagedLogStep(window: real, r: seq<real>, i: nat, k: nat, j: nat, l: int, n: nat)
    requires Stage(window, r, i, k, j, l) && n < |r|
    ensures StagedLog(r, i, j, n + 1) == StagedLog(r, i, j, n) + if n == i || n == j then [StagedAt(r, i, k, j, l, n).now] else []
  {
  }

  lemma StagedOverfills(window: real, t0: real, r: seq<real>, i: nat, k: nat, j: nat) returns (ticks: seq<Tick>)
    requires window >= 0.0 && i < k < j < |r| && GoesBack(window, r, i, k, j)
    ensures Readings(ticks) == r && Overfull(OneRestartIn(window), t0, ticks)
  {
    hide Log, Within, Staged, StagedAt;
    var l := if r[i] <= r[j] then |r| else if k == i + 1 then i + 2 else i + 1;
    ticks := Staged(r, i, k, j, l);
    forall n | 0 <= n < |r|
      ensures Readings(ticks)[n] == r[n]
    {
      assert ticks[n] == StagedAt(r, i, k, j, l, n);
    }
    StagedRun(window, t0, r, i, k, j, l, |r|);
    var from := if r[i] <= r[j] then r[i] else r[j];
    assert [r[i]] + [r[j]] == [r[i], r[j]];
    WithinConcat([r[i]], [r[j]], from, from + window);
    WithinOne(r[i], from, from + window);
    WithinOne(r[j], from, from + window);
    assert RestartsIn(OneRestartIn(window), t0, ticks, from) == 2;
  }

  /**
    Exactly which orders of readings can overfill a window of a given length, under some
    configuration and some outcomes of the probes and restarts.
   */
  lemma ReadingsCanOverfillIff(window: real, t0: real, r: seq<real>)
    requires window >= 0.0
    ensures CanOverfill(window, r) <==>
      exists c: Config, ticks :: c.Valid() && c.restartWindow == window && Readings(ticks) == r && Overfull(c, t0, ticks)
  {
    hide GoesBack, Readings, Within, Log;
    if i: nat, k: nat, j: nat :| i < k < j < |r| && GoesBack(window, r, i, k, j) {
      var ticks := StagedOverfills(window, t0, r, i, k, j);
      assert OneRestartIn(window).Valid();
    }
    if c: Config, ticks :| c.Valid() && c.restartWindow == window && Readings(ticks) == r && Overfull(c, t0, ticks) {
      var from :| RestartsIn(c, t0, ticks, from) > c.maxRestartsInWindow;
      OverfullGoesBack(c, t0, ticks, |ticks|, from);
    }
  }

  // ----- exactly when a tick restarts the agent

  /** Tick `i` fails as the last of a long enough streak. */
  predicate Escalates(c: Config, t0: real, ticks: seq<Tick>, i: nat)
    requires c.Valid() && i < |ticks|
  {
    Failed(ticks[i]) && Streak(c, t0, ticks, i) + 1 >= c.failureThreshold
  }

  /** The process is gone although launchd runs, so launchd is expected to bring it back. */
  predicate Gone(t: Tick) {
    !t.snapshot.processExists && t.snapshot.launchdRunning
  }

  /**
    When the process was first found gone: only an escalation looks, one that finds the
    process forgets it, and so does a success.
   */
  function GoneSince(c: Config, t0: real, ticks: seq<Tick>, n: nat): Option<real>
    requires c.Valid() && n <= |ticks|
  {
    if n == 0 then None
    else
      var before, t := GoneSince(c, t0, ticks, n - 1), ticks[n - 1];
      if Succeeded(t) then None
      else if !Escalates(c, t0, ticks, n - 1) then before
      else if !Gone(t) then None
      else if before.Some? then before
      else Some(t.now)
  }

  lemma TickMissing(c: Config, s: State, t: Tick)
    requires c.Valid()
    ensures Ticked(c, s, t).processMissingSince ==
      if Succeeded(t) then None
      else if Failed(t) && s.consecutiveFailures + 1 >= c.failureThreshold then MissingSince(s, t)
      else s.processMissingSince
  {
    hide Recent, Backoff, ReasonOf;
  }

  /** The stored reading is that of the run. */
  lemma {:induction false} MissingSinceIsTheRuns(c: Config, t0: real, ticks: seq<Tick>, n: nat)
    requires c.Valid() && n <= |ticks|
    ensures StateAt(c, t0, ticks, n).processMissingSince == GoneSince(c, t0, ticks, n)
  {
    hide Decide, Ticked, Streak;
    if n > 0 {
      MissingSinceIsTheRuns(c, t0, ticks, n - 1);
      FailuresAreTheStreak(c, t0, ticks, n - 1);
      TickMissing(c, StateAt(c, t0, ticks, n - 1), ticks[n - 1]);
    }
  }

  /** Tick `i` finds the process gone, and not for the whole grace period yet. */
  predicate ComingBack(c: Config, t0: real, ticks: seq<Tick>, i: nat)
    requires c.Valid() && i < |ticks|
  {
    var since := GoneSince(c, t0, ticks, i);
    Gone(ticks[i]) && (since.Some? ==> ticks[i].now - since.value < c.keepaliveGrace)
      && (since.None? ==> 0.0 < c.keepaliveGrace)
  }

  /** Every backoff of a restart since the last success is over. */
  ghost predicate BackoffsOver(c: Config, t0: real, ticks: seq<Tick>, i: nat)
    requires c.Valid() && i < |ticks|
  {
    forall j: nat | j < i && RestartsAt(c, t0, ticks, j) && NoSuccessBetween(ticks, j, i) ::
      ticks[i].now >= BackoffEnd(c, t0, ticks, j)
  }

  lemma BackoffsOverIff(c: Config, t0: real, ticks: seq<Tick>, i: nat)
    requires c.Valid() && i < |ticks| && RestartsInOrder(c, t0, ticks)
    ensures var until := StateAt(c, t0, ticks, i).backoffUntil;
      BackoffsOver(c, t0, ticks, i) <==> until.None? || ticks[i].now >= until.value
  {
    hide BackoffEnd, StateAt, RestartsAt;
    var until := StateAt(c, t0, ticks, i).backoffUntil;
    if until.Some? {
      var j := BackoffHasAnOrigin(c, t0, ticks, i);
    }
    forall j: nat | j < i && RestartsAt(c, t0, ticks, j) && NoSuccessBetween(ticks, j, i)
      ensures until.Some? && until.value >= BackoffEnd(c, t0, ticks, j)
    {
      BackoffIsRemembered(c, t0, ticks, j, i);
    }
  }

  /**
    In terms of the run alone: a tick restarts the agent exactly when its probe fails as
    the last of a long enough streak, launchd is not about to bring the agent back, the
    window has room, all backoffs since the last success are over, and the restart works.
   */
  lemma RestartsExactlyWhen(c: Config, t0: real, ticks: seq<Tick>, i: nat)
    requires c.Valid() && i < |ticks|
    requires RestartsInOrder(c, t0, ticks) && TrimmedBy(c, t0, ticks, i, ticks[i].now)
    ensures RestartsAt(c, t0, ticks, i) <==>
      && Escalates(c, t0, ticks, i)
      && !ComingBack(c, t0, ticks, i)
      && |Recent(Log(c, t0, ticks, i), ticks[i].now - c.restartWindow)| < c.maxRestartsInWindow
      && BackoffsOver(c, t0, ticks, i) && ticks[i].restartOk
  {
    hide StateAt, Log, Streak, BackoffsOver, Recent, GoneSince;
    FailuresAreTheStreak(c, t0, ticks, i);
    MissingSinceIsTheRuns(c, t0, ticks, i);
    HistoryIsComplete(c, t0, ticks, i, ticks[i].now - c.restartWindow);
    BackoffsOverIff(c, t0, ticks, i);
  }
}
