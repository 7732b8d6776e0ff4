/**
  The timer queue as the program keeps it: timer objects that `Restart` overwrites, and
  a queue whose ordered set is updated in place.  Every method is proved to be the step
  of `TimerQueueModel` it stands for.
 */
module TimerQueueObject {
  import opened Options
  import opened TimerQueueModel
  import opened TimerQueueWatch
  import opened Sequences

  const UINTPTR_MAX := 0xFFFF_FFFF_FFFF_FFFF

  /** No object lies at the highest address. */
  type Address = p: nat | p < UINTPTR_MAX

  class Timer {
    const ptr: Address
    const interval: real
    const repeat: bool
    ghost const uid: nat
    var expiration: int

    ghost function Value(): (t: TimerQueueModel.Timer)
      reads this
    {
      TimerQueueModel.Timer(uid, expiration, interval, repeat)
    }

    constructor (ptr: Address, ghost uid: nat, when: int, interval: real)
      ensures this.ptr == ptr && Value() == TimerQueueModel.Timer(uid, when, interval, interval > 0.0)
    {
      this.ptr, this.uid, this.interval, this.repeat := ptr, uid, interval, interval > 0.0;
      expiration := when;
    }

    method Restart(now: int)
      modifies this
      ensures Value() == Restarted(old(Value()), now)
    {
      if repeat {
        expiration := now + Delta(interval);
      } else {
        expiration := 0;
      }
    }
  }

  /** An element of the ordered set as the program stores it. */
  type Pair = (int, Timer)

  function Key(e: Pair): Entry {
    Entry(e.0, e.1.ptr)
  }

  function Keys(s: seq<Pair>): (r: seq<Entry>)
    ensures |r| == |s| && forall i :: 0 <= i < |s| ==> r[i] == Key(s[i])
  {
    seq(|s|, i requires 0 <= i < |s| => Key(s[i]))
  }

  lemma KeysSplit(s: seq<Pair>, n: nat)
    requires n <= |s|
    ensures Keys(s[..n]) == Keys(s)[..n] && Keys(s[n..]) == Keys(s)[n..]
  {
  }

  lemma KeysInserted(s: seq<Pair>, i: nat, e: Pair)
    requires i <= |s|
    ensures Keys(s[..i] + [e] + s[i..]) == Keys(s)[..i] + [Key(e)] + Keys(s)[i..]
  {
  }

  /** Where the ordered set puts a new element. */
  lemma {:induction false} InsertAt(s: seq<Entry>, e: Entry, i: nat)
    requires i <= |s| && (forall k :: 0 <= k < i ==> !Before(e, s[k])) && (i < |s| ==> Before(e, s[i]))
    ensures Insert(s, e) == s[..i] + [e] + s[i..]
  {
    if i == 0 {
      assert s[..0] + [e] + s[0..] == [e] + s;
    } else {
      InsertAt(s[1..], e, i - 1);
      assert !Before(e, s[0]);
      assert [s[0]] + (s[1..][..i - 1] + [e] + s[1..][i - 1..]) == s[..i] + [e] + s[i..];
    }
  }

  class TimerQueue {
    var timers: seq<Pair>
    var expired: seq<Pair>  // the batch that handleRead holds
    ghost var live: map<nat, Timer>
    ghost var armed: Option<int>
    ghost var armTime: int
    ghost var fired: bool
    ghost var reported: bool
    ghost var clock: int
    ghost var phase: Phase
    ghost var log: seq<Run>
    ghost var nextUid: nat

    ghost function View(): State
      reads this, live.Values
    {
      State(Keys(timers), map p | p in live :: live[p].Value(), armed, armTime, fired, reported,
            clock, phase, log, nextUid)
    }

    /** The address names its object, and no pointer still in use is dangling. */
    ghost predicate Valid()
      reads this
    {
      && (forall p :: p in live ==> live[p].ptr == p)
      && (forall e :: e in timers ==> e.1.ptr in live && live[e.1.ptr] == e.1)
      && match phase {
           case Idle => true
           case Reading(now) => true
           case Calling(batch, done) => batch == Keys(expired) && AllLive(expired)
           case Resetting(batch, done) => batch == Keys(expired) && done <= |expired| && AllLive(expired[done..])
         }
    }

    ghost predicate AllLive(s: seq<Pair>)
      reads this
    {
      forall e :: e in s ==> e.1.ptr in live && live[e.1.ptr] == e.1
    }

    lemma FieldsOfView()
      ensures View().phase == phase && View().clock == clock && View().info.Keys == live.Keys
      ensures |View().timers| == |timers|
    {
    }

    constructor (now: int)
      ensures Valid() && View() == Start(now)
    {
      timers, expired := [], [];
      live, armed, armTime, fired, reported := map[], None, now, false, false;
      clock, phase, log, nextUid := now, Idle, [], 0;
    }

    /** Puts the timer in its place; says whether it is now the earliest. */
    method Insert(t: Timer) returns (earliestChanged: bool)
      modifies this`timers
      ensures View() == old(View()).(timers := TimerQueueModel.Insert(old(View()).timers, Entry(t.expiration, t.ptr)))
      ensures var s := old(View()).timers; earliestChanged <==> s == [] || t.expiration < s[0].when
      ensures forall e :: e in timers <==> e in old(timers) || e == (t.expiration, t)
    {
      hide TimerQueueModel.Insert;
      earliestChanged := |timers| == 0 || t.expiration < timers[0].0;
      var e := (t.expiration, t);
      var i := 0;
      while i < |timers| && !Before(Key(e), Key(timers[i]))
        invariant i <= |timers|
        invariant forall k :: 0 <= k < i ==> !Before(Key(e), Key(timers[k]))
      {
        i := i + 1;
      }
      InsertAt(Keys(timers), Key(e), i);
      SplitMembers(timers, i);
      KeysInserted(timers, i, e);
      timers := timers[..i] + [e] + timers[i..];
    }

    /** The kernel's side: a zero time disarms. */
    method TimerfdSettime(seconds: nat, nanoseconds: nat, now: int)
      modifies this`armed, this`armTime, this`fired, this`clock
      ensures old(Valid()) ==> Valid()
      ensures View() == old(View()).(armTime := now, fired := false, clock := now,
          armed := if seconds == 0 && nanoseconds == 0 then None
                   else Some(now + seconds * 1000000 + nanoseconds / 1000))
    {
      armed := if seconds == 0 && nanoseconds == 0 then None else Some(now + seconds * 1000000 + nanoseconds / 1000);
      armTime, fired, clock := now, false, now;
    }

    /** Arms the timerfd, through whole seconds and nanoseconds. */
    method ResetTimerfd(expiration: int, now: int)
      modifies this`armed, this`armTime, this`fired, this`clock
      ensures old(Valid()) ==> Valid()
      ensures View() == Armed(old(View()), expiration, now)
    {
      hide Keys;
      var microSecondDif := expiration - now;
      if microSecondDif < 100 {
        microSecondDif := 100;
      }
      TimespecIsDelay(expiration, now);
      var (seconds, nanoseconds) := Timespec(microSecondDif);
      TimerfdSettime(seconds, nanoseconds, now);
    }

    /** A timer object at a free address. */
    method NewTimer(ptr: Address, when: int, interval: real, now: int) returns (timer: Timer)
      requires Valid() && ptr !in live && !phase.Resetting?
      modifies this`live, this`nextUid, this`clock
      ensures Valid() && fresh(timer) && ptr in live && live[ptr] == timer
      ensures timer.ptr == ptr && timer.expiration == when
      ensures View() == old(View()).(nextUid := old(nextUid) + 1, clock := now,
          info := old(View()).info[ptr := TimerQueueModel.Timer(old(nextUid), when, interval, interval > 0.0)])
    {
      hide Keys;
      timer := new Timer(ptr, nextUid, when, interval);
      live := live[ptr := timer];
      nextUid, clock := nextUid + 1, now;
      assert View().info == old(View()).info[ptr := timer.Value()];
    }

    /** A new timer joins the set, and the timerfd follows if it is the earliest. */
    method AddTimerInLoop(ptr: Address, when: int, interval: real, now: int)
      requires Valid() && Enabled(View(), Add(ptr, when, interval, now))
      modifies this
      ensures Valid() && View() == Next(old(View()), Add(ptr, when, interval, now))
    {
      hide Keys, TimerQueueModel.Insert;
      FieldsOfView();
      var timer := NewTimer(ptr, when, interval, now);
      var earliestChanged := Insert(timer);
      if earliestChanged {
        ResetTimerfd(timer.expiration, now);
      }
    }

    /** The first element not below the sentry (now, UINTPTR_MAX) is the first that has not expired. */
    method LowerBound(now: int) returns (end: nat)
      ensures end <= |timers| && end == ExpiredCount(Keys(timers), now)
    {
      var sentry := Entry(now, UINTPTR_MAX);
      end := 0;
      while end < |timers| && Before(Key(timers[end]), sentry)
        invariant end <= |timers|
        invariant forall i :: 0 <= i < end ==> timers[i].0 <= now
      {
        end := end + 1;
      }
      CountIs(Keys(timers), now, end);
    }

    /** Takes the expired entries out of the set. */
    method GetExpired(now: int)
      modifies this`timers, this`expired
      ensures expired + timers == old(timers)
      ensures var n := ExpiredCount(old(View()).timers, now);
        Keys(expired) == old(View()).timers[..n] && View() == old(View()).(timers := old(View()).timers[n..])
    {
      hide ExpiredCount, Keys;
      var end := LowerBound(now);
      KeysSplit(timers, end);
      expired, timers := timers[..end], timers[end..];
    }

    /** `handleRead` reads the clock, */
    method ReadClock(now: int)
      requires Valid() && Enabled(View(), Step.ReadClock(now))
      modifies this`phase, this`reported, this`clock
      ensures Valid() && View() == Next(old(View()), Step.ReadClock(now))
    {
      phase, reported, clock := Reading(now), false, now;
    }

    /** and then the timerfd, and takes out what had expired at the time it read. */
    method TakeExpired(now: int)
      requires Valid() && phase == Reading(now)
      modifies this
      ensures Valid() && View() == Next(old(View()), Step.TakeExpired)
      ensures forall e :: e in expired ==> e in old(timers)
    {
      hide Keys, ExpiredCount, View;
      FieldsOfView();
      ReadTimerFd();
      GetExpired(now);
      assert forall e :: e in old(timers) <==> e in expired || e in timers;
      StartCalling();
    }

    method ReadTimerFd()
      modifies this`fired
      ensures View() == old(View()).(fired := false) && (old(Valid()) ==> Valid())
    {
      fired := false;
    }

    ghost method StartCalling()
      modifies this`phase
      ensures phase == Calling(Keys(expired), 0)
      ensures View() == old(View()).(phase := phase)
    {
      phase := Calling(Keys(expired), 0);
    }

    /** One callback of the batch. */
    method RunCallback(now: int)
      requires Valid() && Enabled(View(), Call(now))
      modifies this
      ensures Valid() && View() == Next(old(View()), Call(now)) && expired == old(expired)
    {
      ghost var timer := expired[phase.done].1;
      assert expired[phase.done] in expired;
      log := log + [Run(timer.uid, now, timer.expiration, timer.interval, timer.repeat)];
      phase, clock := Calling(phase.batch, phase.done + 1), now;
    }

    ghost method EndOfCalls()
      requires Valid() && Enabled(View(), EndCalls)
      modifies this`phase
      ensures Valid() && View() == Next(old(View()), EndCalls)
    {
      phase := Resetting(phase.batch, 0);
      assert expired[0..] == expired;
    }

    ghost method EndOfReset()
      requires Valid() && Enabled(View(), EndReset)
      modifies this`phase
      ensures Valid() && View() == Next(old(View()), EndReset)
    {
      phase := Idle;
    }

    /** The next of the batch, which is in no other place. */
    lemma AtNext(it: Pair)
      requires Valid() && KeysOk(View()) && AtReset(View()) && it == expired[phase.done]
      ensures it.1.ptr in live && live[it.1.ptr] == it.1 && Key(it) == View().phase.batch[phase.done]
      ensures forall e :: e in timers || e in expired[phase.done + 1..] ==> e.1.ptr != it.1.ptr
    {
      hide Sorted;
      NextToReset(View());
      var b, d := View().phase.batch, phase.done;
      assert it in expired[d..];
      forall e | e in timers || e in expired[d + 1..] ensures e.1.ptr != it.1.ptr {
        if e in timers {
          var i :| 0 <= i < |timers| && timers[i] == e;
          assert View().timers[i] == Key(e);
        } else {
          var i :| 0 <= i < |expired[d + 1..]| && expired[d + 1..][i] == e;
          assert b[d + 1..][i] == Key(e);
        }
      }
    }

    ghost method Advance(now: int)
      requires Valid() && phase.Resetting? && phase.done < |expired|
      modifies this`clock, this`phase
      ensures Valid() && phase == Resetting(old(phase).batch, old(phase).done + 1)
      ensures View() == old(View()).(clock := now, phase := phase)
    {
      clock, phase := now, Resetting(phase.batch, phase.done + 1);
      assert forall e :: e in expired[phase.done..] ==> e in expired[old(phase).done..];
    }

    /** Deletes the timer object: nothing in use may still point to it. */
    method Delete(timer: Timer)
      requires Valid() && phase.Resetting? && timer.ptr in live
      requires forall e :: e in timers || e in expired[phase.done..] ==> e.1.ptr != timer.ptr
      modifies this`live
      ensures Valid() && View() == old(View()).(info := old(View()).info - {timer.ptr})
    {
      hide Keys;
      live := live - {timer.ptr};
      assert View().info == old(View()).info - {timer.ptr};
    }

    method RestartLive(timer: Timer, now: int)
      requires Valid() && timer.ptr in live && live[timer.ptr] == timer
      modifies timer
      ensures Valid() && timer.ptr in View().info && timer.Value() == Restarted(old(timer.Value()), now)
      ensures View() == old(View()).(info := old(View()).info[timer.ptr := timer.Value()])
    {
      hide Keys;
      timer.Restart(now);
      assert forall p :: p in live && p != timer.ptr ==> live[p] != timer;
      assert View().info == old(View()).info[timer.ptr := timer.Value()];
    }

    /** The timer of `it` is restarted and put back, or deleted. */
    method PutBackOrDelete(it: Pair, now: int)
      requires Valid() && KeysOk(View()) && AtReset(View()) && it == expired[phase.done]
      modifies this`timers, this`live, this`clock, this`phase, it.1
      ensures Valid() && View() == PutBackOrDeleted(old(View()), now)
    {
      hide Keys, KeysOk, TimerQueueModel.Insert;
      AtNext(it);
      var timer := it.1;
      assert View().info[timer.ptr] == timer.Value();
      hide View;
      if timer.repeat {
        RestartLive(timer, now);
        var _ := Insert(timer);
        Advance(now);
      } else {
        Advance(now);
        Delete(timer);
      }
    }

    /** One round of `reset`: the timerfd follows the timer that is now the first. */
    method ResetRound(it: Pair, now: int, later: int)
      requires Valid() && KeysOk(View()) && InfoOk(View()) && Enabled(View(), Step.Reset(now, later))
      requires it == expired[phase.done]
      modifies this, it.1
      ensures Valid() && View() == Next(old(View()), Step.Reset(now, later))
      ensures expired == old(expired)
    {
      hide *;
      ghost var s := View();
      RoundIs(s, now, later);
      PutBackOrDelete(it, now);
      FieldsOfView();
      if |timers| != 0 {
        FirstIs();
        ResetTimerfd(timers[0].1.expiration, later);
      }
    }

    /** The loop of `reset`, with what the clock reads in each round: it takes the steps of
        the model one by one, until nothing of the batch is left. */
    method Reset(readings: seq<(int, int)>) returns (ghost states: seq<State>)
      requires Valid() && KeysOk(View()) && InfoOk(View())
      requires phase.Resetting? && phase.done == 0 && |readings| == |expired|
      requires Monotone(clock, readings)
      modifies this, set e | e in expired :: e.1
      ensures Valid() && |states| == |readings| + 1 && states[0] == old(View())
      ensures forall i :: 0 <= i < |readings| ==>
                Enabled(states[i], ResetAt(readings[i])) && states[i + 1] == Next(states[i], ResetAt(readings[i]))
      ensures Enabled(states[|readings|], EndReset) && View() == Next(states[|readings|], EndReset)
    {
      hide KeysOk, InfoOk, Valid, View, Next, Keys, Enabled;
      FieldsOfView();
      states := [View()];
      for i := 0 to |expired|
        invariant Valid() && KeysOk(View()) && InfoOk(View()) && expired == old(expired)
        invariant phase.Resetting? && phase.done == i
        invariant i < |readings| ==> clock <= readings[i].0
        invariant |states| == i + 1 && states[0] == old(View()) && states[i] == View()
        invariant forall k :: 0 <= k < i ==>
                    Enabled(states[k], ResetAt(readings[k])) && states[k + 1] == Next(states[k], ResetAt(readings[k]))
      {
        RoundAllowed(readings, i);
        FieldsOfView();
        ghost var s := View();
        ResetRound(expired[i], readings[i].0, readings[i].1);
        RoundDone(s, readings, i);
        FieldsOfView();
        states := states + [View()];
      }
      ResetOver();
      EndOfReset();
    }

    lemma BatchIs()
      requires Valid() && phase.Calling?
      ensures |phase.batch| == |expired|
    {
    }

    /** The loop over the batch: `calls[i]` is when callback i runs. */
    method RunCallbacks(calls: seq<int>)
      requires Valid() && Invariant(View()) && Fine(View())
      requires phase.Calling? && phase.done == 0 && |calls| == |expired| && Rising(clock, calls)
      modifies this
      ensures Valid() && Invariant(View()) && Fine(View()) && Enabled(View(), EndCalls) && expired == old(expired)
      ensures var s := old(View());
        && CanRun(s, |calls|)
        && View() == s.(log := s.log + Runs(s, calls), phase := phase, clock := Last(s.clock, calls))
    {
      hide Valid, View, Invariant, Fine, Next, Keys, Enabled;
      FieldsOfView();
      BatchIs();
      ghost var s := View();
      AllCanRun(s);
      for i := 0 to |calls|
        invariant Valid() && Invariant(View()) && Fine(View()) && expired == old(expired)
        invariant phase == Calling(s.phase.batch, i) && CanRun(s, |calls|)
        invariant View() == s.(log := s.log + Runs(s, calls[..i]), phase := phase, clock := Last(s.clock, calls[..i]))
      {
        FieldsOfView();
        CallIs(s, View(), calls, i);
        RunCallback(calls[i]);
        FieldsOfView();
      }
      assert calls[..|calls|] == calls;
      CallsOver(View());
    }

    /** The whole handler, with callbacks that add no timer: it runs what was due at `now`, in
        order, puts back or deletes each, and leaves the queue fit for the next firing. */
    method HandleRead(now: int, calls: seq<int>, readings: seq<(int, int)>)
      requires Valid() && Invariant(View()) && Fine(View()) && Enabled(View(), Step.ReadClock(now))
      requires |calls| == |readings| == ExpiredCount(View().timers, now)
      requires Rising(now, calls) && Monotone(Last(now, calls), readings)
      modifies this, set e | e in timers :: e.1
      ensures Valid() && Invariant(View()) && Fine(View()) && phase == Idle
      ensures var s := BatchStart(old(View()), now);
        CanRun(s, |calls|) && View().log == old(View()).log + Runs(s, calls)
    {
      hide Valid, View, Invariant, Fine, Keys, Enabled, ExpiredCount;
      ghost var s := View();
      HandlerStarts(s, now);
      ReadClock(now);
      FieldsOfView();
      TakeExpired(now);
      FieldsOfView();
      BatchIs();
      RunCallbacks(calls);
      FieldsOfView();
      CallsKeep(View());
      EndOfCalls();
      FieldsOfView();
      ghost var states := Reset(readings);
      ResetKeeps(states, readings);
      FieldsOfView();
    }

    lemma RoundAllowed(readings: seq<(int, int)>, i: nat)
      requires Valid() && KeysOk(View()) && phase.Resetting? && phase.done == i < |expired| == |readings|
      requires clock <= readings[i].0 && (exists c :: Monotone(c, readings))
      ensures Enabled(View(), ResetAt(readings[i]))
    {
      NextToReset(View());
    }

    lemma ResetOver()
      requires Valid() && KeysOk(View()) && phase.Resetting? && phase.done == |expired|
      ensures Enabled(View(), EndReset)
    {
    }

    lemma FirstIs()
      requires Valid() && timers != []
      ensures View().timers != [] && View().timers[0].ptr in View().info
      ensures View().timers[0] == Key(timers[0])
      ensures View().info[View().timers[0].ptr].expiration == timers[0].1.expiration
    {
      assert timers[0] in timers;
    }
  }

  /** The state in which the batch of a handler that reads the clock at `now` starts to run. */
  function BatchStart(s: State, now: int): State {
    Taken(s.(phase := Reading(now), reported := false, clock := now), now)
  }

  predicate Rising(clock: int, calls: seq<int>) {
    && (calls != [] ==> clock <= calls[0])
    && forall i :: 0 < i < |calls| ==> calls[i - 1] <= calls[i]
  }

  function Last(clock: int, calls: seq<int>): int {
    if calls == [] then clock else calls[|calls| - 1]
  }

  /** The first `n` entries of the batch of `s` have their timers. */
  predicate CanRun(s: State, n: nat) {
    s.phase.Calling? && n <= |s.phase.batch| && forall i :: 0 <= i < n ==> s.phase.batch[i].ptr in s.info
  }

  /** The runs of the first callbacks of the batch, at these times. */
  function Runs(s: State, calls: seq<int>): seq<Run>
    requires CanRun(s, |calls|)
  {
    if calls == [] then []
    else
      var n := |calls| - 1;
      var t := s.info[s.phase.batch[n].ptr];
      Runs(s, calls[..n]) + [Run(t.uid, calls[n], t.expiration, t.interval, t.repeat)]
  }

  lemma AllCanRun(s: State)
    requires Invariant(s) && s.phase.Calling?
    ensures CanRun(s, |s.phase.batch|)
    ensures Runs(s, []) == []
  {
    assert forall i :: 0 <= i < |s.phase.batch| ==> Owned(s, s.phase.batch[i]);
  }

  /** One more callback. */
  lemma CallIs(s: State, v: State, calls: seq<int>, i: nat)
    requires Invariant(v) && Fine(v) && i < |calls| && CanRun(s, |calls|) && Rising(s.clock, calls)
    requires v == s.(log := s.log + Runs(s, calls[..i]), phase := Calling(s.phase.batch, i),
                     clock := Last(s.clock, calls[..i]))
    ensures Enabled(v, Call(calls[i]))
    ensures var n := Next(v, Call(calls[i]));
      && Invariant(n) && Fine(n)
      && n == s.(log := s.log + Runs(s, calls[..i + 1]), phase := Calling(s.phase.batch, i + 1),
                 clock := Last(s.clock, calls[..i + 1]))
  {
    hide KeysOk, InfoOk, LogOk, ArmedOk;
    StepKeepsKeys(v, Call(calls[i]));
    StepKeepsLog(v, Call(calls[i]));
    StepKeepsFine(v, Call(calls[i]));
    assert calls[..i + 1][..i] == calls[..i];
  }

  lemma CallsOver(s: State)
    requires s.phase.Calling? && s.phase.done == |s.phase.batch|
    ensures Enabled(s, EndCalls)
  {
  }

  lemma StepKeepsAll(s: State, step: Step)
    requires Invariant(s) && Fine(s) && Enabled(s, step) && !Displaces(s, step)
    ensures Invariant(Next(s, step)) && Fine(Next(s, step))
  {
    hide KeysOk, InfoOk, LogOk, Fine, Next, Enabled, Displaces;
    StepKeepsKeys(s, step);
    StepKeepsLog(s, step);
    StepKeepsFine(s, step);
  }

  lemma HandlerStarts(s: State, now: int)
    requires Invariant(s) && Fine(s) && Enabled(s, Step.ReadClock(now))
    ensures var r := Next(s, Step.ReadClock(now)); Invariant(r) && Fine(r) && Enabled(r, Step.TakeExpired)
    ensures var t := BatchStart(s, now);
      && t == Next(Next(s, Step.ReadClock(now)), Step.TakeExpired)
      && Invariant(t) && Fine(t) && t.clock == now && t.phase.Calling? && t.phase.done == 0
      && |t.phase.batch| == ExpiredCount(s.timers, now) && t.log == s.log
  {
    hide Invariant, Fine;
    StepKeepsAll(s, Step.ReadClock(now));
    StepKeepsAll(Next(s, Step.ReadClock(now)), Step.TakeExpired);
  }

  lemma CallsKeep(s: State)
    requires Invariant(s) && Fine(s) && Enabled(s, EndCalls)
    ensures Invariant(Next(s, EndCalls)) && Fine(Next(s, EndCalls))
    ensures Next(s, EndCalls).phase.Resetting? && Next(s, EndCalls).phase.done == 0
    ensures KeysOk(Next(s, EndCalls)) && InfoOk(Next(s, EndCalls))
  {
    hide Fine, KeysOk, InfoOk, LogOk;
    StepKeepsAll(s, EndCalls);
  }

  lemma {:induction false} RoundsKeep(states: seq<State>, readings: seq<(int, int)>, n: nat)
    requires |states| == |readings| + 1 && n <= |readings| && Invariant(states[0]) && Fine(states[0])
    requires forall i :: 0 <= i < |readings| ==>
               Enabled(states[i], ResetAt(readings[i])) && states[i + 1] == Next(states[i], ResetAt(readings[i]))
    ensures Invariant(states[n]) && Fine(states[n]) && states[n].log == states[0].log
  {
    hide Invariant, Fine, Enabled, Next;
    if n > 0 {
      RoundsKeep(states, readings, n - 1);
      RoundKeepsLog(states[n - 1], ResetAt(readings[n - 1]));
    }
  }

  lemma RoundKeepsLog(s: State, step: Step)
    requires Invariant(s) && Fine(s) && Enabled(s, step) && step.Reset?
    ensures Invariant(Next(s, step)) && Fine(Next(s, step)) && Next(s, step).log == s.log
  {
    hide Invariant, Fine;
    StepKeepsAll(s, step);
  }

  lemma ResetKeeps(states: seq<State>, readings: seq<(int, int)>)
    requires |states| == |readings| + 1 && Invariant(states[0]) && Fine(states[0])
    requires forall i :: 0 <= i < |readings| ==>
               Enabled(states[i], ResetAt(readings[i])) && states[i + 1] == Next(states[i], ResetAt(readings[i]))
    requires Enabled(states[|readings|], EndReset)
    ensures var n := Next(states[|readings|], EndReset);
      Invariant(n) && Fine(n) && n.phase == Idle && n.log == states[0].log
  {
    hide Invariant, Fine;
    RoundsKeep(states, readings, |readings|);
    StepKeepsAll(states[|readings|], EndReset);
  }

  /** The clock never goes back from `clock` on. */
  predicate Monotone(clock: int, readings: seq<(int, int)>) {
    && (forall i :: 0 <= i < |readings| ==> readings[i].0 <= readings[i].1)
    && (forall i :: 0 < i < |readings| ==> readings[i - 1].1 <= readings[i].0)
    && (readings != [] ==> clock <= readings[0].0)
  }

  function ResetAt(reading: (int, int)): Step {
    Step.Reset(reading.0, reading.1)
  }

  lemma RoundDone(s: State, readings: seq<(int, int)>, i: nat)
    requires KeysOk(s) && InfoOk(s) && i < |readings| && Enabled(s, ResetAt(readings[i]))
    requires exists c :: Monotone(c, readings)
    ensures var n := Next(s, ResetAt(readings[i]));
      KeysOk(n) && InfoOk(n) && n.phase == Resetting(s.phase.batch, s.phase.done + 1)
      && (i + 1 < |readings| ==> n.clock <= readings[i + 1].0)
  {
    hide KeysOk, InfoOk, Insert, Delta;
    StepKeepsKeys(s, ResetAt(readings[i]));
  }

  /** When a round re-arms, the first key agrees with its timer. */
  lemma RoundIs(s: State, now: int, later: int)
    requires KeysOk(s) && Enabled(s, Step.Reset(now, later))
    ensures AtReset(s)
    ensures var u := PutBackOrDeleted(s, now);
      && (u.timers == [] ==> Next(s, Step.Reset(now, later)) == u)
      && (u.timers != [] ==>
            && u.timers[0].ptr in u.info
            && Next(s, Step.Reset(now, later)) == Armed(u, u.info[u.timers[0].ptr].expiration, later))
  {
    hide Sorted, Insert;
    ResetKeepsKeys(s, now, later);
    var u, n := PutBackOrDeleted(s, now), ResetOne(s, now, later);
    if u.timers != [] {
      assert n.timers == u.timers && n.info == u.info;
      assert Owned(n, n.timers[0]);
    }
  }

  lemma {:induction false} CountIs(s: seq<Entry>, now: int, n: nat)
    requires n <= |s| && (forall i :: 0 <= i < n ==> s[i].when <= now) && (n < |s| ==> s[n].when > now)
    ensures ExpiredCount(s, now) == n
  {
    if n > 0 {
      CountIs(s[1..], now, n - 1);
    }
  }
}
