/**
  The task queue and wakeup protocol of the event loop, as a labelled step system.
  Foreign threads push under the mutex and write the eventfd afterwards, in two
  steps; the owner thread polls, drains the eventfd, swaps the queue and runs it.
 */
module EventLoopModel {
  import opened Options

  type Functor(==, !new)
  type Thread(==, !new)

  /** Where the owner thread is. */
  datatype Pc =
    | Starting              // about to enter the loop: quit_ is reset next
    | Testing               // while (!quit_)
    | Polling               // blocked in poll
    | Handling(wake: bool)  // poll has returned; wake: the eventfd was reported readable
    | Swapping              // doPendingFunctors, before the swap
    | Running               // doPendingFunctors, running the batch
    | Stopped

  datatype State = State(
    pc: Pc,
    pending: seq<Functor>,      // pendingFunctors_
    batch: seq<Functor>,        // what is left of the swapped-out vector
    calling: bool,              // callingPendingFunctors_
    quit: bool,                 // quit_
    eventfd: nat,               // the counter behind wakeupFd_
    wakers: set<Thread>,        // foreign threads between their push or quit_ write and wakeup()
    ownerMustWake: bool,        // the owner is between its push and wakeup()
    ran: seq<Functor>,          // history: functors run so far
    queued: seq<Functor>,       // history: functors queued so far
    asked: bool)                // history: quit() was called

  datatype Step =
    | ForeignPush(t: Thread, f: Functor)
    | ForeignQuit(t: Thread)
    | ForeignWake(t: Thread)
    | OwnerPush(f: Functor)
    | OwnerQuit
    | OwnerWake
    | Start
    | Test
    | PollReturn(wake: bool)
    | HandleRead
    | EndHandling
    | Swap
    | RunOne
    | EndBatch

  /** Callbacks of the owner run while channels are handled and while the batch runs. */
  predicate OwnerInCallback(s: State) {
    !s.ownerMustWake && (s.pc.Handling? || s.pc == Running)
  }

  predicate Enabled(s: State, step: Step) {
    match step
    case ForeignPush(t, _) => t !in s.wakers
    case ForeignQuit(t) => t !in s.wakers
    case ForeignWake(t) => t in s.wakers
    case OwnerPush(_) => OwnerInCallback(s)
    case OwnerQuit => OwnerInCallback(s)
    case OwnerWake => s.ownerMustWake
    case Start => s.pc == Starting
    case Test => s.pc == Testing
    case PollReturn(wake) => s.pc == Polling && (wake ==> s.eventfd > 0)
    case HandleRead => s.pc == Handling(true)
    case EndHandling => s.pc == Handling(false)
    case Swap => s.pc == Swapping
    case RunOne => s.pc == Running && !s.ownerMustWake && s.batch != []
    case EndBatch => s.pc == Running && !s.ownerMustWake && s.batch == []
  }

  function Next(s: State, step: Step): State
    requires Enabled(s, step)
  {
    match step
    case ForeignPush(t, f) => s.(pending := s.pending + [f], queued := s.queued + [f], wakers := s.wakers + {t})
    case ForeignQuit(t) => s.(quit := true, asked := true, wakers := s.wakers + {t})
    case ForeignWake(t) => s.(eventfd := s.eventfd + 1, wakers := s.wakers - {t})
    case OwnerPush(f) => s.(pending := s.pending + [f], queued := s.queued + [f], ownerMustWake := s.calling)
    case OwnerQuit => s.(quit := true, asked := true)
    case OwnerWake => s.(eventfd := s.eventfd + 1, ownerMustWake := false)
    case Start => s.(pc := Testing, quit := false)
    case Test => s.(pc := if s.quit then Stopped else Polling)
    case PollReturn(wake) => s.(pc := Handling(wake))
    case HandleRead => s.(pc := Handling(false), eventfd := 0)
    case EndHandling => s.(pc := Swapping)
    case Swap => s.(pc := Running, calling := true, batch := s.pending, pending := [])
    case RunOne => s.(ran := s.ran + [s.batch[0]], batch := s.batch[1..])
    case EndBatch => s.(pc := Testing, calling := false)
  }

  function Exec(s: State, steps: seq<Step>): Option<State>
    decreases |steps|
  {
    if steps == [] then Some(s)
    else if Enabled(s, steps[0]) then Exec(Next(s, steps[0]), steps[1..])
    else None
  }

  ghost predicate Reaches(s: State, t: State) {
    exists steps :: Exec(s, steps) == Some(t)
  }

  /** A wakeup has been written, or a thread is on its way to writing it. */
  predicate Covered(s: State) {
    s.eventfd > 0 || s.wakers != {}
  }

  /** The owner is blocked with queued work or a stop request that nobody will announce. */
  predicate LostWork(s: State) {
    s.pc == Polling && s.pending != [] && !Covered(s)
  }

  predicate LostQuit(s: State) {
    s.pc == Polling && s.asked && !Covered(s)
  }

  /** What the loop is entered with: nothing swapped out, nothing running. */
  predicate AtEntry(s: State) {
    && s.pc == Starting && s.batch == [] && !s.calling && !s.ownerMustWake
    && s.queued == s.ran + s.pending
  }

  // ---- invariants ----

  /** Bookkeeping that needs no assumption on how the loop was entered. */
  predicate Ordered(s: State) {
    && s.ran + s.batch + s.pending == s.queued
    && (s.calling <==> s.pc == Running)
    && (s.pc != Running ==> s.batch == [] && !s.ownerMustWake)
  }

  /** Work pushed since the last swap is announced, unless a swap is still to come
      before the next poll. */
  predicate WorkAnnounced(s: State) {
    (s.pending != [] && !s.pc.Handling? && s.pc != Swapping && s.pc != Stopped)
    ==> Covered(s) || s.ownerMustWake
  }

  /** Nobody asked to stop, or quit_ says so and a blocked owner will be told. */
  predicate QuitAnnounced(s: State) {
    && (s.asked ==> s.quit && s.pc != Starting)
    && (s.pc == Polling && s.quit ==> Covered(s))
  }

  /** A stop request that the loop's own reset of quit_ will erase. */
  predicate TooEarly(s: State, step: Step) {
    step.ForeignQuit? && s.pc == Starting
  }

  lemma StepKeepsOrder(s: State, step: Step)
    requires Ordered(s) && Enabled(s, step)
    ensures Ordered(Next(s, step))
    ensures WorkAnnounced(s) ==> WorkAnnounced(Next(s, step))
    ensures QuitAnnounced(s) && !TooEarly(s, step) ==> QuitAnnounced(Next(s, step))
  {
    var n := Next(s, step);
    match step
    case ForeignPush(t, f) =>
      assert t in n.wakers;
      assert s.ran + s.batch + (s.pending + [f]) == s.ran + s.batch + s.pending + [f];
    case ForeignQuit(t) => assert t in n.wakers;
    case OwnerPush(f) =>
      assert s.ran + s.batch + (s.pending + [f]) == s.ran + s.batch + s.pending + [f];
    case RunOne =>
      assert s.ran + [s.batch[0]] + s.batch[1..] == s.ran + s.batch;
    case _ =>
  }

  /** No other thread calls `quit` before the loop has reset quit_. */
  predicate QuitsInTime(steps: seq<Step>)
    decreases |steps|
  {
    steps == [] || steps[0] == Start || (!steps[0].ForeignQuit? && QuitsInTime(steps[1..]))
  }

  /** Every run keeps the order of the queue, and keeps announcing. */
  lemma {:induction false} RunKeepsOrder(s: State, steps: seq<Step>)
    requires Ordered(s) && Exec(s, steps).Some?
    ensures var t := Exec(s, steps).value;
      && Ordered(t)
      && (WorkAnnounced(s) ==> WorkAnnounced(t))
      && (QuitAnnounced(s) && (s.pc != Starting || QuitsInTime(steps)) ==> QuitAnnounced(t))
    decreases |steps|
  {
    hide Enabled, Next, Ordered, WorkAnnounced, QuitAnnounced;
    if steps != [] {
      StepKeepsOrder(s, steps[0]);
      if s.pc != Starting || steps[0] == Start { NeverBackToStart(s, steps[0]); }
      RunKeepsOrder(Next(s, steps[0]), steps[1..]);
    }
  }

  lemma NeverBackToStart(s: State, step: Step)
    requires Enabled(s, step) && (s.pc != Starting || step == Start)
    ensures Next(s, step).pc != Starting
  {
  }

  // ---- theorems ----

  /** Functors run in push order, each at most once: what has run is a prefix of
      what was queued, and the rest is still waiting, in order. */
  lemma FunctorsRunInOrder(s: State, t: State)
    requires AtEntry(s) && Reaches(s, t)
    ensures t.ran + t.batch + t.pending == t.queued
    ensures t.ran <= t.queued
  {
    var steps :| Exec(s, steps) == Some(t);
    RunKeepsOrder(s, steps);
    assert t.ran + (t.batch + t.pending) == t.queued;
  }

  lemma BatchStep(s: State, step: Step)
    requires Ordered(s) && s.pc == Running && Enabled(s, step)
    ensures var n := Next(s, step);
      if step == EndBatch then n.pc == Testing && n.ran == s.ran + s.batch
      else n.pc == Running && n.ran + n.batch == s.ran + s.batch
  {
    if step == RunOne {
      assert s.ran + [s.batch[0]] + s.batch[1..] == s.ran + s.batch;
    }
    assert s.batch == [] ==> s.ran + s.batch == s.ran;
  }

  /** While a batch is being run, no functor leaves or enters it otherwise. */
  lemma {:induction false} BatchRuns(s: State, steps: seq<Step>)
    requires Ordered(s) && s.pc == Running && Exec(s, steps).Some?
    requires forall i :: 0 <= i < |steps| ==> steps[i] != Test
    ensures var t := Exec(s, steps).value;
      (t.pc == Running && t.ran + t.batch == s.ran + s.batch)
      || (t.pc == Testing && t.ran == s.ran + s.batch)
    decreases |steps|
  {
    hide Enabled, Next, Ordered;
    if steps != [] {
      var n := Next(s, steps[0]);
      StepKeepsOrder(s, steps[0]);
      BatchStep(s, steps[0]);
      if steps[0] == EndBatch {
        IdleKeepsRan(n, steps[1..]);
      } else {
        BatchRuns(n, steps[1..]);
      }
    }
  }

  lemma {:induction false} IdleKeepsRan(s: State, steps: seq<Step>)
    requires Ordered(s) && s.pc == Testing && Exec(s, steps).Some?
    requires forall i :: 0 <= i < |steps| ==> steps[i] != Test
    ensures Exec(s, steps).value.ran == s.ran && Exec(s, steps).value.pc == Testing
    decreases |steps|
  {
    if steps != [] {
      StepKeepsOrder(s, steps[0]);
      IdleKeepsRan(Next(s, steps[0]), steps[1..]);
    }
  }

  /** Whatever waits at a swap has run when the loop next tests quit_; what is pushed
      in the meantime, by functors or by other threads, has not. */
  lemma SwappedWorkRunsInSameIteration(s: State, steps: seq<Step>)
    requires Ordered(s) && s.pc == Swapping && Exec(s, [Swap] + steps).Some?
    requires forall i :: 0 <= i < |steps| ==> steps[i] != Test
    requires Exec(s, [Swap] + steps).value.pc == Testing
    ensures Exec(s, [Swap] + steps).value.ran == s.ran + s.pending
  {
    assert ([Swap] + steps)[1..] == steps;
    StepKeepsOrder(s, Swap);
    BatchRuns(Next(s, Swap), steps);
  }

  /** No wakeup for queued work is lost in any run exactly when the work queued
      before the loop was entered had been announced. */
  lemma NoWorkIsLostIff(s: State)
    requires AtEntry(s)
    ensures (forall t :: Reaches(s, t) ==> !LostWork(t)) <==> (s.pending == [] || Covered(s))
  {
    if s.pending == [] || Covered(s) {
      forall t | Reaches(s, t) ensures !LostWork(t) {
        var steps :| Exec(s, steps) == Some(t);
        RunKeepsOrder(s, steps);
      }
    } else {
      assert Exec(s, []) == Some(s);
      ThenStep(s, s, Start);
      ThenStep(s, Next(s, Start), Test);
      assert LostWork(Next(Next(s, Start), Test));
    }
  }

  lemma {:induction false} ExecAppend(s: State, a: seq<Step>, b: seq<Step>)
    requires Exec(s, a).Some?
    ensures Exec(s, a + b) == Exec(Exec(s, a).value, b)
    decreases |a|
  {
    if a == [] {
      assert a + b == b;
    } else {
      assert (a + b)[1..] == a[1..] + b;
      ExecAppend(Next(s, a[0]), a[1..], b);
    }
  }

  lemma ExecOneMore(s: State, steps: seq<Step>, step: Step)
    requires Exec(s, steps).Some? && Enabled(Exec(s, steps).value, step)
    ensures Exec(s, steps + [step]) == Some(Next(Exec(s, steps).value, step))
  {
    ExecAppend(s, steps, [step]);
    assert [step][1..] == [];
  }

  lemma ThenStep(s: State, t: State, step: Step)
    requires Reaches(s, t) && Enabled(t, step)
    ensures Reaches(s, Next(t, step))
  {
    var steps :| Exec(s, steps) == Some(t);
    ExecOneMore(s, steps, step);
  }

  /** Every thread on its way to a wakeup can get there. */
  lemma {:induction false} AllWake(s: State, t: State) returns (u: State)
    requires Reaches(s, t)
    ensures Reaches(s, u) && u == t.(eventfd := u.eventfd, wakers := {})
    decreases t.wakers
  {
    if t.wakers == {} {
      u := t;
    } else {
      var w :| w in t.wakers;
      ThenStep(s, t, ForeignWake(w));
      u := AllWake(s, Next(t, ForeignWake(w)));
    }
  }

  lemma {:induction false} BatchFinishes(s: State, t: State) returns (u: State)
    requires Reaches(s, t) && t.pc == Running && !t.ownerMustWake
    ensures Reaches(s, u) && u == t.(ran := t.ran + t.batch, batch := [], pc := Testing, calling := false)
    decreases |t.batch|
  {
    if t.batch == [] {
      ThenStep(s, t, EndBatch);
      u := Next(t, EndBatch);
      assert t.ran + t.batch == t.ran;
    } else {
      ThenStep(s, t, RunOne);
      u := BatchFinishes(s, Next(t, RunOne));
      assert t.ran + [t.batch[0]] + t.batch[1..] == t.ran + t.batch;
    }
  }

  /** A written wakeup is enough: from a blocked owner with a positive counter, the
      owner's own steps run everything that was queued and empty the counter. */
  lemma WakeupRunsTheQueue(s: State, t: State)
    requires Reaches(s, t) && Ordered(t) && t.pc == Polling && t.eventfd > 0
    ensures Reaches(s, t.(pc := Testing, ran := t.ran + t.pending, pending := [], eventfd := 0))
  {
    ThenStep(s, t, PollReturn(true));
    var a := Next(t, PollReturn(true));
    ThenStep(s, a, HandleRead);
    var b := Next(a, HandleRead);
    ThenStep(s, b, EndHandling);
    var c := Next(b, EndHandling);
    ThenStep(s, c, Swap);
    var u := BatchFinishes(s, Next(c, Swap));
    assert u == t.(pc := Testing, ran := t.ran + t.pending, pending := [], eventfd := 0);
  }

  /** With quit_ reset after a stop request, the loop goes on to block in poll, and nobody
      is left to tell it. */
  lemma ForgottenQuit(u: State) returns (steps: seq<Step>)
    requires Ordered(u) && u.pc == Testing && u.asked && !u.quit
    ensures Exec(u, steps).Some? && LostQuit(Exec(u, steps).value)
  {
    assert Exec(u, []) == Some(u);
    RunKeepsOrder(u, []);
    var a := AllWake(u, u);
    ThenStep(u, a, Test);
    var b := Next(a, Test);
    if b.eventfd == 0 {
      steps :| Exec(u, steps) == Some(b);
    } else {
      WakeupRunsTheQueue(u, b);
      var c := b.(pc := Testing, ran := b.ran + b.pending, pending := [], eventfd := 0);
      ThenStep(u, c, Test);
      steps :| Exec(u, steps) == Some(Next(c, Test));
    }
  }

  lemma LosingSteps(t: State) returns (more: seq<Step>)
    requires Ordered(t) && t.pc == Starting && t.asked
    ensures Exec(t, more).Some? && LostQuit(Exec(t, more).value) && QuitsInTime(more)
  {
    StepKeepsOrder(t, Start);
    var rest := ForgottenQuit(Next(t, Start));
    more := [Start] + rest;
    assert more[1..] == rest;
  }

  /** The run ends with a stop request that nobody will announce. */
  predicate LosesQuit(s: State, steps: seq<Step>) {
    Exec(s, steps).Some? && LostQuit(Exec(s, steps).value)
  }

  /** No stop request is lost in any run exactly when none is made before line 63 resets
      quit_: neither before the loop was entered nor, with `early`, by another thread
      while it is being entered. */
  lemma NoQuitIsLostIff(s: State, early: bool, t: Thread)
    requires AtEntry(s) && t !in s.wakers
    ensures (forall steps :: early || QuitsInTime(steps) ==> !LosesQuit(s, steps)) <==> !s.asked && !early
  {
    if s.asked {
      var more := LosingSteps(s);
      assert LosesQuit(s, more);
    } else if early {
      var n := Next(s, ForeignQuit(t));
      StepKeepsOrder(s, ForeignQuit(t));
      var more := LosingSteps(n);
      var steps := [ForeignQuit(t)] + more;
      assert steps[1..] == more;
      assert LosesQuit(s, steps);
    } else {
      forall steps | QuitsInTime(steps) ensures !LosesQuit(s, steps) {
        if LosesQuit(s, steps) { RunKeepsOrder(s, steps); }
      }
    }
  }
}
