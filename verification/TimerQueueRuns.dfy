/**
  What runs of the timer queue do, told from their steps alone: which timer every callback
  belongs to, when it was due, and that no timer goes missing.
 */
module TimerQueueRuns {
  import opened Options
  import opened Sequences
  import opened TimerQueueModel

  /** How many timers the first `n` steps add; the next one gets this number. */
  function AddsIn(steps: seq<Step>, n: nat): nat
    requires n <= |steps|
  {
    if n == 0 then 0 else AddsIn(steps, n - 1) + (if steps[n - 1].Add? then 1 else 0)
  }

  function CallTimes(steps: seq<Step>, n: nat): seq<int>
    requires n <= |steps|
  {
    if n == 0 then [] else CallTimes(steps, n - 1) + (if steps[n - 1].Call? then [steps[n - 1].now] else [])
  }

  function TimesOf(log: seq<Run>): (r: seq<int>)
    ensures |r| == |log| && forall i :: 0 <= i < |log| ==> r[i] == log[i].time
  {
    seq(|log|, i requires 0 <= i < |log| => log[i].time)
  }

  /** Step `i` adds timer number `u`. */
  predicate Adds(steps: seq<Step>, i: nat, u: nat)
    requires i < |steps|
  {
    steps[i].Add? && AddsIn(steps, i) == u
  }

  /** Step `m` restarts timer `u`, a repeating one, so that it is due its interval later. */
  predicate Restarts(steps: seq<Step>, states: seq<State>, m: nat, u: nat, due: int)
    requires m < |steps| < |states|
  {
    && steps[m].Reset? && AtReset(states[m])
    && var t := states[m].info[states[m].phase.batch[states[m].phase.done].ptr];
       t.uid == u && t.repeat && 0.0 <= t.interval * 1000000.0 - (due - steps[m].now) as real < 1.0
  }

  ghost predicate AddedFor(steps: seq<Step>, n: nat, u: nat, due: int)
    requires n <= |steps|
  {
    exists i :: 0 <= i < n && Adds(steps, i, u) && steps[i].when == due
  }

  ghost predicate RestartedFor(steps: seq<Step>, states: seq<State>, n: nat, u: nat, due: int)
    requires n <= |steps| < |states|
  {
    exists m :: 0 <= m < n && Restarts(steps, states, m, u, due)
  }

  ghost predicate HasRun(s: State, u: nat) {
    exists r :: r in s.log && r.uid == u
  }

  /** Step `i` adds this timer at `p`, with its interval. */
  predicate AddsAs(steps: seq<Step>, i: nat, t: Timer, p: nat)
    requires i < |steps|
  {
    Adds(steps, i, t.uid) && steps[i].ptr == p && steps[i].interval == t.interval
  }

  /** The timer at `p` was added there. */
  ghost predicate Known(steps: seq<Step>, s: State, n: nat, p: nat)
    requires n <= |steps| && p in s.info
  {
    exists i :: 0 <= i < n && AddsAs(steps, i, s.info[p], p)
  }

  /** Its stored expiration is the one it was added for, until its first run, and then one
      that a restart gave it. */
  ghost predicate DueOk(steps: seq<Step>, states: seq<State>, n: nat, s: State, p: nat)
    requires n <= |steps| < |states| && p in s.info
  {
    || AddedFor(steps, n, s.info[p].uid, s.info[p].expiration)
    || (HasRun(s, s.info[p].uid) && RestartedFor(steps, states, n, s.info[p].uid, s.info[p].expiration))
  }

  ghost predicate TimersOk(steps: seq<Step>, states: seq<State>, n: nat)
    requires n <= |steps| < |states|
  {
    var s := states[n];
    && s.nextUid == AddsIn(steps, n)
    && forall p :: p in s.info ==> Known(steps, s, n, p) && DueOk(steps, states, n, s, p)
  }

  // ---- a timer is reset only after it ran ----

  ghost predicate BatchCalled(s: State) {
    match s.phase
    case Idle => true
    case Reading(_) => true
    case Calling(b, d) =>
      forall k :: 0 <= k < d && k < |b| ==> b[k].ptr in s.info && HasRun(s, s.info[b[k].ptr].uid)
    case Resetting(b, d) =>
      forall k :: d <= k < |b| ==> b[k].ptr in s.info && HasRun(s, s.info[b[k].ptr].uid)
  }

  lemma RunsStay(s: State, n: State, u: nat)
    requires HasRun(s, u) && s.log <= n.log
    ensures HasRun(n, u)
  {
    var r :| r in s.log && r.uid == u;
    assert r in n.log;
  }

  lemma CallKeepsCalled(s: State, now: int)
    requires KeysOk(s) && BatchCalled(s) && Enabled(s, Call(now))
    ensures BatchCalled(Next(s, Call(now)))
  {
    hide KeysOk, HasRun;
    var n := Next(s, Call(now));
    var b, d := s.phase.batch, s.phase.done;
    assert n.log[|s.log|] in n.log;
    NewRun(s, now);
    forall k | 0 <= k < d + 1 && k < |b| ensures b[k].ptr in n.info && HasRun(n, n.info[b[k].ptr].uid) {
      if k < d { RunsStay(s, n, s.info[b[k].ptr].uid); }
    }
  }

  lemma NewRun(s: State, now: int)
    requires Enabled(s, Call(now))
    ensures HasRun(Next(s, Call(now)), s.info[s.phase.batch[s.phase.done].ptr].uid)
  {
    var n := Next(s, Call(now));
    assert n.log[|s.log|] in n.log;
  }

  lemma ResetKeepsCalled(s: State, now: int, later: int)
    requires KeysOk(s) && BatchCalled(s) && Enabled(s, Reset(now, later))
    ensures BatchCalled(ResetOne(s, now, later))
  {
    hide Insert, Delta, Sorted, HasRun, KeysOk;
    NextToReset(s);
    var n := ResetOne(s, now, later);
    var b, d := s.phase.batch, s.phase.done;
    forall k | d + 1 <= k < |b| ensures b[k].ptr in n.info && HasRun(n, n.info[b[k].ptr].uid) {
      assert b[k] in b[d + 1..];
      RunsStay(s, n, s.info[b[k].ptr].uid);
    }
  }

  lemma AddKeepsCalled(s: State, ptr: nat, when: int, interval: real, now: int)
    requires BatchCalled(s) && Enabled(s, Add(ptr, when, interval, now))
    ensures BatchCalled(Added(s, ptr, when, interval, now))
  {
    hide Insert, HasRun;
    var n := Added(s, ptr, when, interval, now);
    if s.phase.Calling? {
      var b, d := s.phase.batch, s.phase.done;
      forall k | 0 <= k < d && k < |b| ensures b[k].ptr in n.info && HasRun(n, n.info[b[k].ptr].uid) {
        RunsStay(s, n, s.info[b[k].ptr].uid);
      }
    }
  }

  lemma StepKeepsCalled(s: State, step: Step)
    requires KeysOk(s) && BatchCalled(s) && Enabled(s, step)
    ensures BatchCalled(Next(s, step))
  {
    hide KeysOk, HasRun, Added, ResetOne, ExpiredCount;
    match step
    case Add(ptr, when, interval, now) => AddKeepsCalled(s, ptr, when, interval, now);
    case Call(now) => CallKeepsCalled(s, now);
    case Reset(now, later) => ResetKeepsCalled(s, now, later);
    case EndCalls =>
      var b := s.phase.batch;
      forall k | 0 <= k < |b| ensures HasRun(Next(s, step), s.info[b[k].ptr].uid) {
        RunsStay(s, Next(s, step), s.info[b[k].ptr].uid);
      }
    case Fire(_) => SameCalled(s, Next(s, step));
    case _ =>
  }

  lemma SameCalled(s: State, n: State)
    requires BatchCalled(s) && n.phase == s.phase && n.info == s.info && n.log == s.log
    ensures BatchCalled(n)
  {
    assert forall u :: HasRun(n, u) <==> HasRun(s, u);
  }

  lemma {:induction false} RunKeepsCalled(clock: int, steps: seq<Step>, states: seq<State>, n: nat)
    requires IsRun(clock, steps, states) && n <= |steps|
    ensures BatchCalled(states[n])
  {
    hide KeysOk, InfoOk, LogOk, Enabled, Next;
    if n > 0 {
      RunKeepsCalled(clock, steps, states, n - 1);
      RunKeeps(clock, steps, states, n - 1);
      StepKeepsCalled(states[n - 1], steps[n - 1]);
    }
  }

  // ---- where timers come from ----

  /** What a step other than Add and Reset leaves. */
  lemma OtherSteps(s: State, step: Step)
    requires Enabled(s, step) && !step.Add? && !step.Reset?
    ensures var n := Next(s, step); n.info == s.info && n.nextUid == s.nextUid && s.log <= n.log
  {
    hide ExpiredCount;
  }

  lemma StaysOk(steps: seq<Step>, states: seq<State>, n: nat, s: State, t: State, p: nat)
    requires n < |steps| < |states| && p in s.info && p in t.info && t.info[p] == s.info[p] && s.log <= t.log
    requires Known(steps, s, n, p) && DueOk(steps, states, n, s, p)
    ensures Known(steps, t, n + 1, p) && DueOk(steps, states, n + 1, t, p)
  {
    var i :| 0 <= i < n && AddsAs(steps, i, s.info[p], p);
    if HasRun(s, s.info[p].uid) { RunsStay(s, t, s.info[p].uid); }
  }

  lemma AddTraces(steps: seq<Step>, states: seq<State>, n: nat)
    requires n < |steps| < |states| && TimersOk(steps, states, n)
    requires steps[n].Add? && Enabled(states[n], steps[n]) && states[n + 1] == Next(states[n], steps[n])
    ensures TimersOk(steps, states, n + 1)
  {
    hide Insert, Known, DueOk;
    var s, t, ptr := states[n], states[n + 1], steps[n].ptr;
    forall p | p in t.info ensures Known(steps, t, n + 1, p) && DueOk(steps, states, n + 1, t, p) {
      if p == ptr {
        NewIsKnown(steps, states, n);
      } else {
        StaysOk(steps, states, n, s, t, p);
      }
    }
  }

  lemma NewIsKnown(steps: seq<Step>, states: seq<State>, n: nat)
    requires n < |steps| < |states| && states[n].nextUid == AddsIn(steps, n)
    requires steps[n].Add? && Enabled(states[n], steps[n]) && states[n + 1] == Next(states[n], steps[n])
    ensures var t, p := states[n + 1], steps[n].ptr;
      p in t.info && Known(steps, t, n + 1, p) && DueOk(steps, states, n + 1, t, p)
  {
    hide Insert;
    var t, p := states[n + 1], steps[n].ptr;
    assert AddsAs(steps, n, t.info[p], p);
  }

  lemma ResetTraces(steps: seq<Step>, states: seq<State>, n: nat)
    requires n < |steps| < |states| && TimersOk(steps, states, n) && KeysOk(states[n]) && BatchCalled(states[n])
    requires steps[n].Reset? && Enabled(states[n], steps[n]) && states[n + 1] == Next(states[n], steps[n])
    ensures TimersOk(steps, states, n + 1)
  {
    hide Insert, Known, DueOk, KeysOk, Delta, HasRun, Sorted;
    var s, t := states[n], states[n + 1];
    var e := s.phase.batch[s.phase.done];
    forall p | p in t.info ensures Known(steps, t, n + 1, p) && DueOk(steps, states, n + 1, t, p) {
      if p == e.ptr {
        RestartIsKnown(steps, states, n);
      } else {
        StaysOk(steps, states, n, s, t, p);
      }
    }
  }

  lemma RestartIsKnown(steps: seq<Step>, states: seq<State>, n: nat)
    requires n < |steps| < |states| && TimersOk(steps, states, n) && BatchCalled(states[n])
    requires steps[n].Reset? && Enabled(states[n], steps[n]) && states[n + 1] == Next(states[n], steps[n])
    requires states[n].phase.batch[states[n].phase.done].ptr in states[n + 1].info
    ensures var t, p := states[n + 1], states[n].phase.batch[states[n].phase.done].ptr;
      Known(steps, t, n + 1, p) && DueOk(steps, states, n + 1, t, p)
  {
    hide Insert, Delta;
    var s, t := states[n], states[n + 1];
    var p := s.phase.batch[s.phase.done].ptr;
    assert Known(steps, s, n, p);
    var i :| 0 <= i < n && AddsAs(steps, i, s.info[p], p);
    DeltaIsMicroseconds(s.info[p].interval);
    assert t.info[p].uid == s.info[p].uid && t.info[p].interval == s.info[p].interval && t.log == s.log;
    assert AddsAs(steps, i, t.info[p], p);
    assert Restarts(steps, states, n, t.info[p].uid, t.info[p].expiration);
    RunsStay(s, t, s.info[p].uid);
  }

  lemma {:induction false} RunKeepsTraces(clock: int, steps: seq<Step>, states: seq<State>, n: nat)
    requires IsRun(clock, steps, states) && n <= |steps|
    ensures TimersOk(steps, states, n)
  {
    hide KeysOk, InfoOk, LogOk, Enabled, Next, Known, DueOk, BatchCalled;
    if n > 0 {
      RunKeepsTraces(clock, steps, states, n - 1);
      var s, t, step := states[n - 1], states[n], steps[n - 1];
      if step.Add? {
        AddTraces(steps, states, n - 1);
      } else if step.Reset? {
        RunKeeps(clock, steps, states, n - 1);
        RunKeepsCalled(clock, steps, states, n - 1);
        ResetTraces(steps, states, n - 1);
      } else {
        OtherSteps(s, step);
        forall p | p in t.info ensures Known(steps, t, n, p) && DueOk(steps, states, n, t, p) {
          StaysOk(steps, states, n - 1, s, t, p);
        }
      }
    }
  }

  // ---- what callbacks are ----

  /** Timer `u` was added to be due at `due`, or restarted to be; and not before it was added for. */
  ghost predicate DueFrom(steps: seq<Step>, states: seq<State>, n: nat, u: nat, due: int)
    requires n <= |steps| < |states|
  {
    AddedFor(steps, n, u, due) || RestartedFor(steps, states, n, u, due)
  }

  ghost predicate RunOk(steps: seq<Step>, states: seq<State>, n: nat, r: Run)
    requires n <= |steps| < |states|
  {
    && DueFrom(steps, states, n, r.uid, r.due)
    && exists i :: 0 <= i < n && Adds(steps, i, r.uid) && steps[i].interval == r.interval
  }

  lemma RunStaysOk(steps: seq<Step>, states: seq<State>, n: nat, r: Run)
    requires n < |steps| < |states| && RunOk(steps, states, n, r)
    ensures RunOk(steps, states, n + 1, r)
  {
  }

  lemma CallIsOk(steps: seq<Step>, states: seq<State>, n: nat)
    requires n < |steps| < |states| && TimersOk(steps, states, n)
    requires steps[n].Call? && Enabled(states[n], steps[n]) && states[n + 1] == Next(states[n], steps[n])
    ensures states[n + 1].log != [] && RunOk(steps, states, n + 1, states[n + 1].log[|states[n].log|])
  {
    var s := states[n];
    var p := s.phase.batch[s.phase.done].ptr;
    assert Known(steps, s, n, p) && DueOk(steps, states, n, s, p);
    var i :| 0 <= i < n && AddsAs(steps, i, s.info[p], p);
  }

  lemma LogStep(s: State, step: Step)
    requires Enabled(s, step)
    ensures Next(s, step).log == if step.Call? then s.log + [Next(s, step).log[|s.log|]] else s.log
    ensures step.Call? ==> Next(s, step).log[|s.log|].time == step.now
  {
    hide Insert, ExpiredCount;
  }

  /** In every run: there is one run for each call, at its time; each is of a timer that was
      added, with its interval, and was due when that was added for or restarted for. */
  lemma {:induction false} CallbacksAreOfTimers(clock: int, steps: seq<Step>, states: seq<State>, n: nat)
    requires IsRun(clock, steps, states) && n <= |steps|
    ensures TimesOf(states[n].log) == CallTimes(steps, n)
    ensures forall k :: 0 <= k < |states[n].log| ==> RunOk(steps, states, n, states[n].log[k])
  {
    hide KeysOk, InfoOk, LogOk, Enabled, Next, TimersOk, RunOk;
    if n > 0 {
      CallbacksAreOfTimers(clock, steps, states, n - 1);
      LogStep(states[n - 1], steps[n - 1]);
      var was, now := states[n - 1].log, states[n].log;
      forall k | 0 <= k < |now| ensures RunOk(steps, states, n, now[k]) {
        if k < |was| {
          RunStaysOk(steps, states, n - 1, was[k]);
        } else {
          RunKeepsTraces(clock, steps, states, n - 1);
          CallIsOk(steps, states, n - 1);
        }
      }
      assert TimesOf(now) == TimesOf(was) + (if steps[n - 1].Call? then [steps[n - 1].now] else []);
    }
  }

  /** Timer number `u`, from the Add at step `i`, is still there, or it was to run once and did. */
  ghost predicate Accounted(steps: seq<Step>, s: State, i: nat)
    requires i < |steps| && steps[i].Add?
  {
    var u := AddsIn(steps, i);
    || (steps[i].ptr in s.info && s.info[steps[i].ptr].uid == u)
    || (!(steps[i].interval > 0.0) && HasRun(s, u))
  }

  lemma {:induction false} AddsGrow(steps: seq<Step>, i: nat, j: nat)
    requires i < j <= |steps| && steps[i].Add?
    ensures AddsIn(steps, i) < AddsIn(steps, j)
  {
    if i + 1 < j { AddsNeverShrink(steps, i + 1, j); }
  }

  lemma {:induction false} AddsNeverShrink(steps: seq<Step>, i: nat, j: nat)
    requires i <= j <= |steps|
    ensures AddsIn(steps, i) <= AddsIn(steps, j)
  {
    if i < j { AddsNeverShrink(steps, i, j - 1); }
  }

  /** The interval that a known timer was added with. */
  lemma IntervalOf(steps: seq<Step>, states: seq<State>, n: nat, i: nat)
    requires i < n <= |steps| < |states| && TimersOk(steps, states, n) && InfoOk(states[n]) && steps[i].Add?
    requires steps[i].ptr in states[n].info && states[n].info[steps[i].ptr].uid == AddsIn(steps, i)
    ensures states[n].info[steps[i].ptr].repeat <==> steps[i].interval > 0.0
  {
    var s, p := states[n], steps[i].ptr;
    assert Known(steps, s, n, p);
    var j :| 0 <= j < n && AddsAs(steps, j, s.info[p], p);
    if i < j { AddsGrow(steps, i, j); } else if j < i { AddsGrow(steps, j, i); }
  }

  lemma ResetAccounts(steps: seq<Step>, states: seq<State>, n: nat, i: nat)
    requires i < n < |steps| < |states| && TimersOk(steps, states, n) && KeysOk(states[n]) && InfoOk(states[n])
    requires BatchCalled(states[n]) && steps[i].Add? && Accounted(steps, states[n], i)
    requires steps[n].Reset? && Enabled(states[n], steps[n]) && states[n + 1] == Next(states[n], steps[n])
    ensures Accounted(steps, states[n + 1], i)
  {
    hide Insert, Delta, KeysOk, InfoOk, TimersOk, HasRun;
    var s, t := states[n], states[n + 1];
    var p, q := steps[i].ptr, s.phase.batch[s.phase.done].ptr;
    assert t.log == s.log;
    if p in s.info && s.info[p].uid == AddsIn(steps, i) {
      IntervalOf(steps, states, n, i);
      if p == q { RunsStay(s, t, s.info[p].uid); }
    } else {
      RunsStay(s, t, AddsIn(steps, i));
    }
  }

  /** In every run: no timer goes missing. Whatever was added is still there, unless it was
      to run once and has run. */
  lemma {:induction false} NoTimerIsDropped(clock: int, steps: seq<Step>, states: seq<State>, i: nat, n: nat)
    requires IsRun(clock, steps, states) && i < n <= |steps| && steps[i].Add?
    ensures Accounted(steps, states[n], i)
  {
    hide KeysOk, InfoOk, LogOk, Enabled, Next, TimersOk, HasRun, BatchCalled;
    if n == i + 1 {
      RunKeepsTraces(clock, steps, states, i);
      AddAccounts(steps, states, i);
    } else {
      NoTimerIsDropped(clock, steps, states, i, n - 1);
      RunKeeps(clock, steps, states, n - 1);
      RunKeepsTraces(clock, steps, states, n - 1);
      RunKeepsCalled(clock, steps, states, n - 1);
      if steps[n - 1].Reset? {
        ResetAccounts(steps, states, n - 1, i);
      } else {
        OtherAccounts(steps, states[n - 1], steps[n - 1], i);
      }
    }
  }

  lemma AddAccounts(steps: seq<Step>, states: seq<State>, n: nat)
    requires n < |steps| < |states| && TimersOk(steps, states, n)
    requires steps[n].Add? && Enabled(states[n], steps[n]) && states[n + 1] == Next(states[n], steps[n])
    ensures Accounted(steps, states[n + 1], n)
  {
    hide Insert;
  }

  lemma OtherAccounts(steps: seq<Step>, s: State, step: Step, i: nat)
    requires i < |steps| && steps[i].Add? && Accounted(steps, s, i) && Enabled(s, step) && !step.Reset?
    ensures Accounted(steps, Next(s, step), i)
  {
    hide Insert, ExpiredCount, HasRun;
    var n, u := Next(s, step), AddsIn(steps, i);
    LogStep(s, step);
    if HasRun(s, u) { RunsStay(s, n, u); }
  }

  /** In every run, between handlers: a timer that runs once and is still set has not run, and
      a timer that has not run is set for the time it was added for. */
  lemma SetTimers(clock: int, steps: seq<Step>, states: seq<State>, n: nat, p: nat)
    requires IsRun(clock, steps, states) && n <= |steps| && states[n].phase == Idle && p in states[n].info
    ensures EntryOf(states[n], p) in states[n].timers
    ensures !states[n].info[p].repeat ==> !HasRun(states[n], states[n].info[p].uid)
    ensures !HasRun(states[n], states[n].info[p].uid) ==>
              AddedFor(steps, n, states[n].info[p].uid, states[n].info[p].expiration)
  {
    hide Sorted, Known;
    RunKeeps(clock, steps, states, n);
    RunKeepsTraces(clock, steps, states, n);
    var s := states[n];
    assert Owned(s, EntryOf(s, p));
    assert DueOk(steps, states, n, s, p);
    if !s.info[p].repeat { OneShotIsUnrun(s, p); }
  }

  lemma OneShotIsUnrun(s: State, p: nat)
    requires LogOk(s) && p in s.info && EntryOf(s, p) in s.timers && !s.info[p].repeat
    ensures !HasRun(s, s.info[p].uid)
  {
    forall r | r in s.log ensures r.uid != s.info[p].uid {
      assert ReadyFor(r, s.info[p]);
    }
  }
}
