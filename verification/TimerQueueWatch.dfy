/**
  Whether the timerfd watches the earliest timer.  It does in every run whose new timers
  are not already in the past when they are added; one microsecond in the past can be
  enough for a timer to be forgotten.
 */
module TimerQueueWatch {
  import opened Options
  import opened TimerQueueModel

  /** The timerfd will go off at the earliest expiration, or 100 microseconds after it was
      armed if that is later. */
  predicate ArmedOk(s: State) {
    && s.timers != [] && s.armed.Some?
    && var first := s.timers[0].when;
       s.armed.value == if first < s.armTime + 100 then s.armTime + 100 else first
  }

  /** The timerfd has gone off for the earliest timer, and its handler is still to come. */
  predicate Due(s: State) {
    s.timers != [] && s.armed.None? && (s.fired || s.reported) && s.timers[0].when <= s.clock
  }

  predicate Covered(s: State) {
    s.timers == [] || ArmedOk(s) || Due(s)
  }

  /** Outside the rounds that re-arm, the earliest timer is always covered. */
  predicate Watched(s: State) {
    match s.phase
    case Idle => Covered(s)
    case Reading(now) => s.timers == [] || s.timers[0].when <= now || ArmedOk(s)
    case Calling(batch, _) => batch == [] ==> Covered(s)
    case Resetting(batch, done) => batch == [] || done > 0 ==> Covered(s)
  }

  // ---- a schedule under which nothing is forgotten ----

  /** The timerfd goes off after `handleRead` read the clock and before it reads the
      timerfd, for a timer that is later than the clock it read. */
  predicate Overtakes(s: State, step: Step) {
    step.Fire? && s.phase.Reading? && s.timers != [] && s.phase.now < s.timers[0].when
  }

  lemma StepKeepsWatch(s: State, step: Step)
    requires Watched(s) && Enabled(s, step) && !Overtakes(s, step)
    ensures Watched(Next(s, step))
  {
    hide Sorted, KeysOk;
    match step
    case Add(ptr, when, interval, now) => InsertHead(s.timers, Entry(when, ptr));
    case Reset(now, later) =>
    case _ =>
  }

  lemma InsertHead(s: seq<Entry>, e: Entry)
    ensures Insert(s, e) != []
    ensures Insert(s, e)[0].when == if ChangesEarliest(s, e.when) then e.when else s[0].when
  {
  }

  lemma {:induction false} RunKeepsWatch(clock: int, steps: seq<Step>, states: seq<State>, n: nat)
    requires IsRun(clock, steps, states) && n <= |steps|
    requires forall i :: 0 <= i < n ==> !Overtakes(states[i], steps[i])
    ensures Watched(states[n])
  {
    hide KeysOk, InfoOk, LogOk, Enabled, Next, Watched, Overtakes;
    if n == 0 {
      StartIsWatched(clock);
    } else {
      RunKeepsWatch(clock, steps, states, n - 1);
      StepKeepsWatch(states[n - 1], steps[n - 1]);
    }
  }

  /** In every run in which the timerfd never overtakes its handler: whenever no batch is
      being handled and a timer is set, the timerfd is armed for the earliest one, or has
      gone off for it. */
  lemma ArmedUnlessOvertaken(clock: int, steps: seq<Step>, states: seq<State>, n: nat)
    requires IsRun(clock, steps, states) && n <= |steps|
    requires forall i :: 0 <= i < n ==> !Overtakes(states[i], steps[i])
    requires states[n].phase == Idle && states[n].timers != []
    ensures ArmedOk(states[n]) || Due(states[n])
  {
    RunKeepsWatch(clock, steps, states, n);
  }

  // ---- what callers have to see to ----

  /** A reported firing waits for its handler, and the new timer becomes the earliest. */
  predicate Displaces(s: State, step: Step) {
    step.Add? && s.phase == Idle && s.reported && ChangesEarliest(s.timers, step.when)
  }

  /** Between two handlers: the timerfd has gone off for a timer that is due, or it is
      armed for the earliest timer, or there is none and it is disarmed. */
  predicate Resting(s: State) {
    if s.fired || s.reported then s.armed.None? && s.timers != [] && s.timers[0].when <= s.clock
    else if s.timers == [] then s.armed.None?
    else ArmedOk(s)
  }

  predicate Quiet(s: State) {
    s.timers == [] ==> s.armed.None? && !s.fired
  }

  /** The timerfd is never armed for nobody, so a handler always finds a timer due. */
  predicate Fine(s: State) {
    match s.phase
    case Idle => Resting(s)
    case Reading(now) => s.armed.None? && !s.reported && s.timers != [] && s.timers[0].when <= now
    case Calling(batch, _) => batch != [] && !s.reported && Quiet(s)
    case Resetting(batch, done) => batch != [] && !s.reported && if done == 0 then Quiet(s) else Resting(s)
  }

  lemma AddKeepsFine(s: State, ptr: nat, when: int, interval: real, now: int)
    requires Fine(s) && Enabled(s, Add(ptr, when, interval, now)) && !Displaces(s, Add(ptr, when, interval, now))
    ensures Fine(Added(s, ptr, when, interval, now))
  {
    hide Insert;
    InsertHead(s.timers, Entry(when, ptr));
  }

  lemma ResetKeepsFine(s: State, now: int, later: int)
    requires Fine(s) && Enabled(s, Reset(now, later))
    ensures Fine(ResetOne(s, now, later))
  {
    hide Insert, Delta;
    var e := s.phase.batch[s.phase.done];
    InsertHead(s.timers, Entry(Restarted(s.info[e.ptr], now).expiration, e.ptr));
  }

  lemma StepKeepsFine(s: State, step: Step)
    requires Fine(s) && Enabled(s, step) && !Displaces(s, step)
    ensures Fine(Next(s, step)) && !Overtakes(s, step)
  {
    hide Added, ResetOne;
    match step
    case Add(ptr, when, interval, now) => AddKeepsFine(s, ptr, when, interval, now);
    case Reset(now, later) => ResetKeepsFine(s, now, later);
    case _ =>
  }

  lemma {:induction false} RunKeepsFine(clock: int, steps: seq<Step>, states: seq<State>, n: nat)
    requires IsRun(clock, steps, states) && n <= |steps|
    requires forall i :: 0 <= i < n ==> !Displaces(states[i], steps[i])
    ensures Fine(states[n])
    ensures forall i :: 0 <= i < n ==> !Overtakes(states[i], steps[i])
  {
    hide Enabled, Next, Displaces, Overtakes;
    if n == 0 {
      StartIsWatched(clock);
    } else {
      RunKeepsFine(clock, steps, states, n - 1);
      StepKeepsFine(states[n - 1], steps[n - 1]);
    }
  }

  /** In every run in which no timer is put in front while a reported firing waits for its
      handler: whenever no batch is being handled and a timer is set, the timerfd is armed
      for the earliest one, or has gone off for it; and the batch is never empty. */
  lemma TimerfdIsArmed(clock: int, steps: seq<Step>, states: seq<State>, n: nat)
    requires IsRun(clock, steps, states) && n <= |steps|
    requires forall i :: 0 <= i < n ==> !Displaces(states[i], steps[i])
    ensures states[n].phase == Idle && states[n].timers != [] ==> ArmedOk(states[n]) || Due(states[n])
    ensures states[n].phase.Calling? ==> states[n].phase.batch != []
    ensures states[n].timers != [] ==>
              var e := states[n].timers[0];
              e.ptr in states[n].info && states[n].info[e.ptr].expiration == e.when
  {
    RunKeepsFine(clock, steps, states, n);
    RunKeeps(clock, steps, states, n);
    if states[n].timers != [] {
      assert Owned(states[n], states[n].timers[0]);
    }
  }

  /** No timer is more than `lag` microseconds in the past when it is added. */
  predicate AddedInTime(steps: seq<Step>, lag: int) {
    forall i :: 0 <= i < |steps| && steps[i].Add? ==> steps[i].now - steps[i].when <= lag
  }

  lemma InTimeIsNoDisplacement(s: State, step: Step)
    requires Fine(s) && Enabled(s, step) && (step.Add? ==> step.now <= step.when)
    ensures !Displaces(s, step)
  {
  }

  lemma {:induction false} InTimeKeepsFine(clock: int, steps: seq<Step>, states: seq<State>, n: nat)
    requires IsRun(clock, steps, states) && n <= |steps| && AddedInTime(steps, 0)
    ensures Fine(states[n])
  {
    hide Enabled, Next, Displaces, Overtakes, Fine;
    if n == 0 {
      StartIsWatched(clock);
    } else {
      InTimeKeepsFine(clock, steps, states, n - 1);
      InTimeIsNoDisplacement(states[n - 1], steps[n - 1]);
      StepKeepsFine(states[n - 1], steps[n - 1]);
    }
  }

  lemma StartIsWatched(clock: int)
    ensures Fine(Start(clock)) && Watched(Start(clock))
  {
  }

  /** Whenever no batch is being handled, the earliest timer is watched. */
  predicate NoneForgotten(states: seq<State>) {
    forall s: State :: s in states && s.phase == Idle ==> Covered(s)
  }

  /** The exact bound: no run forgets a timer if its timers are at most `lag` microseconds
      in the past when they are added, if and only if that is not in the past at all. */
  lemma NoneForgottenIff(lag: int)
    ensures (forall clock, steps, states: seq<State> ::
               IsRun(clock, steps, states) && AddedInTime(steps, lag) ==> NoneForgotten(states)) <==> lag <= 0
  {
    if lag <= 0 {
      forall clock, steps, states: seq<State> | IsRun(clock, steps, states) && AddedInTime(steps, lag)
        ensures NoneForgotten(states)
      {
        forall s: State | s in states && s.phase == Idle ensures Covered(s) {
          var n :| 0 <= n < |states| && states[n] == s;
          InTimeKeepsFine(clock, steps, states, n);
        }
      }
    } else {
      TimerCanBeLost();
      var s: State :| Reaches(0, s) && Lost(s);
      var steps, states :| IsRun(0, steps, states) && AddedInTime(steps, 1) && states[|steps|] == s;
      assert s in states && !Covered(s);
    }
  }

  // ---- when a timer is left unwatched ----

  /** Once the timerfd has gone off and its handler reads the clock at `now`, the earliest
      timer is left unwatched exactly when its time has not come, for then the batch is
      empty and nothing re-arms.  So the timerfd must not go off early. */
  lemma EarlyFiringLosesTimer(s: State, now: int)
    requires KeysOk(s) && s.timers != [] && s.armed.None?
    requires s.reported && s.phase == Idle && now >= s.clock
    ensures var b := Next(Next(s, ReadClock(now)), TakeExpired);
      (b.phase.batch == [] && !Covered(b)) <==> now < s.timers[0].when
  {
    hide Sorted;
  }

  /** And if it goes off while its handler runs, between the two reads, the earliest timer
      is left unwatched exactly when it is later than the clock that was read. */
  lemma OvertakingLosesTimer(s: State, now: int)
    requires KeysOk(s) && s.phase.Reading? && s.timers != [] && Enabled(s, Fire(now))
    ensures var b := Next(Next(s, Fire(now)), TakeExpired);
      (b.phase.batch == [] && !Covered(b)) <==> Overtakes(s, Fire(now))
  {
    hide Sorted;
  }

  lemma OneMoreStep(clock: int, steps: seq<Step>, states: seq<State>, step: Step)
    requires IsRun(clock, steps, states) && Enabled(states[|steps|], step)
    ensures IsRun(clock, steps + [step], states + [Next(states[|steps|], step)])
  {
    hide Enabled, Next;
  }

  /** Some run reaches `s`, and its timers are at most a microsecond in the past when added. */
  ghost predicate Reaches(clock: int, s: State) {
    exists steps, states :: IsRun(clock, steps, states) && AddedInTime(steps, 1) && states[|steps|] == s
  }

  lemma ThenStep(clock: int, s: State, step: Step)
    requires Reaches(clock, s) && Enabled(s, step) && (step.Add? ==> step.now - step.when <= 1)
    ensures Reaches(clock, Next(s, step))
  {
    hide Enabled, Next, Start;
    var steps, states :| IsRun(clock, steps, states) && AddedInTime(steps, 1) && states[|steps|] == s;
    OneMoreStep(clock, steps, states, step);
    assert AddedInTime(steps + [step], 1);
    assert (states + [Next(s, step)])[|steps + [step]|] == Next(s, step);
  }

  lemma AtStart(clock: int)
    ensures Reaches(clock, Start(clock))
  {
    var none: seq<Step> := [];
    assert IsRun(clock, none, [Start(clock)]) && AddedInTime(none, 1) && [Start(clock)][|none|] == Start(clock);
  }

  function OneShot(uid: nat, when: int): Timer {
    Timer(uid, when, 0.0, false)
  }

  predicate NothingPending(s: State) {
    !s.fired && !s.reported
  }

  /** Timer 1 is due and reported; before its handler runs, timer 2 is added in front of it. */
  lemma AddedBetween() returns (s: State)
    ensures Reaches(0, s) && s.phase == Idle && s.clock == 100 && s.armed == Some(200) && !s.fired && s.reported
    ensures s.timers == [Entry(99, 2), Entry(100, 1)] && s.info == map[1 := OneShot(0, 100), 2 := OneShot(1, 99)]
  {
    hide Reaches;
    AtStart(0);
    s := Start(0);
    ThenStep(0, s, Add(1, 100, 0.0, 0));
    s := Next(s, Add(1, 100, 0.0, 0));
    ThenStep(0, s, Fire(100));
    s := Next(s, Fire(100));
    ThenStep(0, s, Report);
    s := Next(s, Report);
    ThenStep(0, s, Add(2, 99, 0.0, 100));
    s := Next(s, Add(2, 99, 0.0, 100));
  }

  lemma BothCalled() returns (s: State)
    ensures Reaches(0, s) && s.phase == Resetting([Entry(99, 2), Entry(100, 1)], 0)
    ensures s.timers == [] && s.info == map[1 := OneShot(0, 100), 2 := OneShot(1, 99)]
    ensures s.clock == 100 && s.armed == Some(200) && NothingPending(s)
  {
    hide Reaches, Insert;
    s := AddedBetween();
    ThenStep(0, s, ReadClock(100));
    s := Next(s, ReadClock(100));
    ThenStep(0, s, TakeExpired);
    s := Next(s, TakeExpired);
    assert s.phase == Calling([Entry(99, 2), Entry(100, 1)], 0);
    ThenStep(0, s, Call(100));
    s := Next(s, Call(100));
    ThenStep(0, s, Call(100));
    s := Next(s, Call(100));
    ThenStep(0, s, EndCalls);
    s := Next(s, EndCalls);
  }

  /** The handler takes both timers, and the timerfd stays armed for nobody. */
  lemma LeftArmed() returns (s: State)
    ensures Reaches(0, s) && s.phase == Idle && s.clock == 100 && s.armed == Some(200) && NothingPending(s)
    ensures s.timers == [] && s.info == map[]
  {
    hide Reaches, Insert, ExpiredCount;
    s := BothCalled();
    ThenStep(0, s, Reset(100, 100));
    s := Next(s, Reset(100, 100));
    ThenStep(0, s, Reset(100, 100));
    s := Next(s, Reset(100, 100));
    assert s.info == map[];
    ThenStep(0, s, EndReset);
    s := Next(s, EndReset);
  }

  /** It goes off for nobody, and before the handler runs a timer is added. */
  lemma AddedBehind() returns (s: State)
    ensures Reaches(0, s) && s.phase == Idle && s.timers == [Entry(400, 3)] && s.clock == 200
    ensures s.armed == Some(400) && !s.fired && s.reported
  {
    hide Reaches, ExpiredCount;
    s := LeftArmed();
    ThenStep(0, s, Fire(200));
    s := Next(s, Fire(200));
    ThenStep(0, s, Report);
    s := Next(s, Report);
    ThenStep(0, s, Add(3, 400, 0.0, 200));
    s := Next(s, Add(3, 400, 0.0, 200));
  }

  /** A timer is set and its time has come, but nothing is armed or pending for it. */
  predicate Lost(s: State) {
    && s.phase == Idle && s.timers != [] && s.timers[0].when <= s.clock
    && s.armed.None? && NothingPending(s)
  }

  /** Some run loses a timer, though only one timer is in the past when it is added, and
      only by a microsecond. */
  lemma TimerCanBeLost()
    ensures exists s: State :: Reaches(0, s) && Lost(s)
  {
    hide Reaches, Insert;
    var s := AddedBehind();
    ThenStep(0, s, ReadClock(200));
    s := Next(s, ReadClock(200));
    ThenStep(0, s, Fire(400));
    s := Next(s, Fire(400));
    ThenStep(0, s, TakeExpired);
    s := Next(s, TakeExpired);
    ThenStep(0, s, EndCalls);
    s := Next(s, EndCalls);
    ThenStep(0, s, EndReset);
    s := Next(s, EndReset);
    assert Lost(s);
  }
}
