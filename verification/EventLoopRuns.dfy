/**
  What runs of the event loop do, told from their steps alone: which functors were pushed,
  how many ran, whether a stop request is standing, and when the loop ends.
 */
module EventLoopRuns {
  import opened Options
  import opened EventLoopModel

  function PushedByStep(step: Step): seq<Functor> {
    match step
    case ForeignPush(_, f) => [f]
    case OwnerPush(f) => [f]
    case _ => []
  }

  /** The functors that these steps push, in order. */
  function PushedBy(steps: seq<Step>): seq<Functor> {
    if steps == [] then [] else PushedByStep(steps[0]) + PushedBy(steps[1..])
  }

  function RunsIn(steps: seq<Step>): nat {
    if steps == [] then 0 else (if steps[0] == RunOne then 1 else 0) + RunsIn(steps[1..])
  }

  predicate Asks(step: Step) {
    step.ForeignQuit? || step == OwnerQuit
  }

  /** Whether a stop request is standing after these steps: one that no Start came after. */
  predicate Standing(before: bool, steps: seq<Step>)
    decreases |steps|
  {
    if steps == [] then before
    else Standing(if steps[0] == Start then false else before || Asks(steps[0]), steps[1..])
  }

  lemma WhatAStepDoes(s: State, step: Step)
    requires Enabled(s, step)
    ensures var n := Next(s, step);
      && n.queued == s.queued + PushedByStep(step)
      && |n.ran| == |s.ran| + (if step == RunOne then 1 else 0)
      && n.quit == if step == Start then false else s.quit || Asks(step)
  {
    assert s.queued + [] == s.queued;
  }

  lemma Behind(a: seq<Functor>, b: seq<Functor>, c: seq<Functor>)
    ensures (a + b) + c == a + (b + c) && a + [] == a
  {
  }

  lemma {:induction false} WhatStepsDo(s: State, steps: seq<Step>)
    requires Exec(s, steps).Some?
    ensures var t := Exec(s, steps).value;
      && t.queued == s.queued + PushedBy(steps)
      && |t.ran| == |s.ran| + RunsIn(steps)
      && t.quit == Standing(s.quit, steps)
    decreases |steps|
  {
    hide Enabled, Next, PushedByStep, Asks;
    if steps != [] {
      WhatAStepDoes(s, steps[0]);
      WhatStepsDo(Next(s, steps[0]), steps[1..]);
      Behind(s.queued, PushedByStep(steps[0]), PushedBy(steps[1..]));
    } else {
      Behind(s.queued, [], []);
    }
  }

  /** In every run: what has run, what is left of the batch and what is queued are, end to
      end, what was queued at the entry and everything pushed since, in order; and as many
      functors have run as there were steps that run one. */
  lemma PushedRunInOrder(s: State, steps: seq<Step>)
    requires AtEntry(s) && Exec(s, steps).Some?
    ensures var t := Exec(s, steps).value;
      && t.ran + t.batch + t.pending == s.ran + s.pending + PushedBy(steps)
      && t.ran <= s.ran + s.pending + PushedBy(steps)
      && |t.ran| == |s.ran| + RunsIn(steps)
  {
    hide Exec, PushedBy, RunsIn, Standing;
    WhatStepsDo(s, steps);
    assert Ordered(s) by { Behind(s.ran, [], s.pending); }
    RunKeepsOrder(s, steps);
    var t := Exec(s, steps).value;
    Behind(t.ran, t.batch, t.pending);
  }

  // ---- stopping ----

  predicate Leaving(s: State) {
    s.quit && !s.ownerMustWake && s.pc in {Testing, Stopped}
  }

  lemma {:induction false} LeavesForGood(s: State, steps: seq<Step>)
    requires Leaving(s) && Exec(s, steps).Some?
    ensures Leaving(Exec(s, steps).value) && Exec(s, steps).value.ran == s.ran
    decreases |steps|
  {
    if steps != [] {
      LeavesForGood(Next(s, steps[0]), steps[1..]);
    }
  }

  /** A stop request that stands when the loop tests it ends the loop: no functor runs any
      more, whatever is queued and whoever writes a wakeup. */
  lemma StopRequestStops(s: State, before: seq<Step>, after: seq<Step>)
    requires AtEntry(s) && Exec(s, before).Some? && Exec(s, before + after).Some?
    requires Exec(s, before).value.pc == Testing && Standing(s.quit, before)
    ensures var t := Exec(s, before + after).value;
      t.pc in {Testing, Stopped} && t.ran == Exec(s, before).value.ran && RunsIn(after) == 0
    ensures Test in after ==> Exec(s, before + after).value.pc == Stopped
  {
    hide Enabled, Next, Exec, PushedBy, PushedByStep, RunsIn, Asks;
    var m := Exec(s, before).value;
    ExecAppend(s, before, after);
    WhatStepsDo(s, before);
    RunKeepsOrder(s, before);
    LeavesForGood(m, after);
    WhatStepsDo(m, after);
    if Test in after { TestStops(m, after); }
  }

  lemma {:induction false} TestStops(s: State, steps: seq<Step>)
    requires Leaving(s) && Exec(s, steps).Some? && (Test in steps || s.pc == Stopped)
    ensures Exec(s, steps).value.pc == Stopped
    decreases |steps|
  {
    if steps != [] {
      TestStops(Next(s, steps[0]), steps[1..]);
    }
  }

  lemma {:induction false} StoppedWasAsked(s: State, steps: seq<Step>)
    requires Exec(s, steps).Some? && (s.pc == Stopped ==> s.quit)
    ensures Exec(s, steps).value.pc == Stopped ==> Exec(s, steps).value.quit
    decreases |steps|
  {
    if steps != [] {
      StoppedWasAsked(Next(s, steps[0]), steps[1..]);
    }
  }

  /** And nothing else ends it. */
  lemma OnlyAStopRequestStops(s: State, steps: seq<Step>)
    requires AtEntry(s) && Exec(s, steps).Some? && Exec(s, steps).value.pc == Stopped
    ensures Standing(s.quit, steps)
  {
    WhatStepsDo(s, steps);
    StoppedWasAsked(s, steps);
  }

  // ---- the owner's own wakeups ----

  function OwnerWakes(steps: seq<Step>): nat {
    if steps == [] then 0 else (if steps[0] == OwnerWake then 1 else 0) + OwnerWakes(steps[1..])
  }

  /** The owner's pushes while a batch runs. */
  function PushesInBatch(s: State, steps: seq<Step>): nat
    requires Exec(s, steps).Some?
    decreases |steps|
  {
    if steps == [] then 0
    else (if steps[0].OwnerPush? && s.pc == Running then 1 else 0) + PushesInBatch(Next(s, steps[0]), steps[1..])
  }

  /** The owner wakes itself once for every push it makes while a batch runs, and for no other. */
  lemma {:induction false} OwnerWakesForBatch(s: State, steps: seq<Step>)
    requires Ordered(s) && Exec(s, steps).Some?
    ensures OwnerWakes(steps) + (if Exec(s, steps).value.ownerMustWake then 1 else 0)
         == PushesInBatch(s, steps) + (if s.ownerMustWake then 1 else 0)
    decreases |steps|
  {
    if steps != [] {
      StepKeepsOrder(s, steps[0]);
      OwnerWakesForBatch(Next(s, steps[0]), steps[1..]);
    }
  }
}
