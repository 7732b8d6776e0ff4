/**
  The event loop as the program keeps it: one object whose queue, flags and eventfd
  counter are written in place.  Each method is one atomic section, proved to be the
  step of `EventLoopModel` it stands for; `DoPendingFunctors` is the whole owner-side
  pass over a batch.
 */
module EventLoopObject {
  import opened Options
  import opened EventLoopModel

  /** What happens while a functor runs: it queues another one, or another thread is in the
      middle of `queueInLoop` or `quit`. */
  datatype Act = Own(cb: Functor) | Other(step: Step)

  predicate ByOther(step: Step) {
    step.ForeignPush? || step.ForeignQuit? || step.ForeignWake?
  }

  predicate Possible(s: State, act: Act) {
    match act
    case Own(_) => OwnerInCallback(s) && s.calling
    case Other(step) => ByOther(step) && Enabled(s, step)
  }

  /** A functor's own call has its wakeup with it; another thread's steps come as they come. */
  function Acted(s: State, act: Act): State
    requires Possible(s, act)
  {
    match act
    case Own(cb) => Next(Next(s, OwnerPush(cb)), OwnerWake)
    case Other(step) => Next(s, step)
  }

  predicate AllPossible(s: State, acts: seq<Act>)
    decreases |acts|
  {
    acts == [] || (Possible(s, acts[0]) && AllPossible(Acted(s, acts[0]), acts[1..]))
  }

  function AfterActs(s: State, acts: seq<Act>): State
    requires AllPossible(s, acts)
    decreases |acts|
  {
    if acts == [] then s else AfterActs(Acted(s, acts[0]), acts[1..])
  }

  /** The next functor of the batch runs, and these things happen meanwhile. */
  function AfterFunctor(s: State, acts: seq<Act>): State
    requires s.pc == Running && !s.ownerMustWake && s.batch != [] && AllPossible(Next(s, RunOne), acts)
  {
    AfterActs(Next(s, RunOne), acts)
  }

  /** The batch of `s` can run with these things happening, position by position. */
  predicate BatchPossible(s: State, acts: seq<seq<Act>>)
    decreases |acts|
  {
    && s.pc == Running && s.calling && !s.ownerMustWake && |acts| == |s.batch|
    && (acts != [] ==> AllPossible(Next(s, RunOne), acts[0]) && BatchPossible(AfterFunctor(s, acts[0]), acts[1..]))
  }

  function AfterBatch(s: State, acts: seq<seq<Act>>): State
    requires BatchPossible(s, acts)
    decreases |acts|
  {
    if acts == [] then s else AfterBatch(AfterFunctor(s, acts[0]), acts[1..])
  }

  /** What is queued meanwhile. */
  function Pushed(acts: seq<Act>): seq<Functor> {
    if acts == [] then []
    else
      (match acts[0]
       case Own(cb) => [cb]
       case Other(step) => if step.ForeignPush? then [step.f] else []) + Pushed(acts[1..])
  }

  function AllPushed(acts: seq<seq<Act>>): seq<Functor> {
    if acts == [] then [] else Pushed(acts[0]) + AllPushed(acts[1..])
  }

  class EventLoop {
    var pendingFunctors: seq<Functor>
    var callingPendingFunctors: bool
    var quit: bool
    var eventfd: nat
    ghost var pc: Pc
    ghost var batch: seq<Functor>
    ghost var wakers: set<Thread>
    ghost var ownerMustWake: bool
    ghost var ran: seq<Functor>
    ghost var queued: seq<Functor>
    ghost var asked: bool

    ghost function View(): State
      reads this
    {
      State(pc, pendingFunctors, batch, callingPendingFunctors, quit, eventfd,
            wakers, ownerMustWake, ran, queued, asked)
    }

    constructor ()
      ensures AtEntry(View()) && !Covered(View()) && queued == [] && !asked
    {
      pendingFunctors, callingPendingFunctors, quit, eventfd := [], false, false, 0;
      pc, batch, wakers, ownerMustWake := Starting, [], {}, false;
      ran, queued, asked := [], [], false;
    }

    /** The locked push, and whether a wakeup has to follow. `caller` is None for the owner. */
    method QueueInLoop(caller: Option<Thread>, cb: Functor) returns (mustWake: bool)
      requires Enabled(View(), if caller.Some? then ForeignPush(caller.value, cb) else OwnerPush(cb))
      modifies this
      ensures View() == Next(old(View()), if caller.Some? then ForeignPush(caller.value, cb) else OwnerPush(cb))
      ensures mustWake <==> Enabled(View(), if caller.Some? then ForeignWake(caller.value) else OwnerWake)
    {
      pendingFunctors := pendingFunctors + [cb];
      queued := queued + [cb];
      mustWake := caller.Some? || callingPendingFunctors;
      match caller {
        case Some(t) => wakers := wakers + {t};
        case None => ownerMustWake := mustWake;
      }
    }

    method Wakeup(caller: Option<Thread>)
      requires Enabled(View(), if caller.Some? then ForeignWake(caller.value) else OwnerWake)
      modifies this
      ensures View() == Next(old(View()), if caller.Some? then ForeignWake(caller.value) else OwnerWake)
    {
      eventfd := eventfd + 1;
      match caller {
        case Some(t) => wakers := wakers - {t};
        case None => ownerMustWake := false;
      }
    }

    /** Sets the flag; only a foreign caller has to wake the owner. */
    method Quit(caller: Option<Thread>) returns (mustWake: bool)
      requires Enabled(View(), if caller.Some? then ForeignQuit(caller.value) else OwnerQuit)
      modifies this
      ensures View() == Next(old(View()), if caller.Some? then ForeignQuit(caller.value) else OwnerQuit)
      ensures mustWake == caller.Some?
    {
      quit := true;
      asked := true;
      mustWake := caller.Some?;
      match caller {
        case Some(t) => wakers := wakers + {t};
        case None =>
      }
    }

    /** Reading the eventfd resets its counter. */
    method HandleRead()
      requires Enabled(View(), Step.HandleRead)
      modifies this
      ensures View() == Next(old(View()), Step.HandleRead)
    {
      eventfd := 0;
      pc := Handling(false);
    }

    method Start()
      requires Enabled(View(), Step.Start)
      modifies this
      ensures View() == Next(old(View()), Step.Start)
    {
      quit := false;
      pc := Testing;
    }

    /** One thing that happens while a functor runs. */
    method Do(act: Act, ghost start: State)
      requires Reaches(start, View()) && Possible(View(), act)
      modifies this
      ensures Reaches(start, View()) && View() == Acted(old(View()), act)
    {
      hide Reaches;
      ghost var before := View();
      match act {
        case Own(cb) =>
          var mustWake := QueueInLoop(None, cb);
          ThenStep(start, before, OwnerPush(cb));
          ghost var pushed := View();
          if mustWake {
            Wakeup(None);
            ThenStep(start, pushed, OwnerWake);
          }
        case Other(step) =>
          ThenStep(start, before, step);
          match step {
            case ForeignPush(t, f) => var _ := QueueInLoop(Some(t), f);
            case ForeignQuit(t) => var _ := Quit(Some(t));
            case ForeignWake(t) => Wakeup(Some(t));
          }
      }
    }

    /** Everything that happens while one functor runs. */
    method DoAll(acts: seq<Act>, ghost start: State)
      requires Reaches(start, View()) && AllPossible(View(), acts)
      modifies this
      ensures Reaches(start, View()) && View() == AfterActs(old(View()), acts)
    {
      hide Reaches, Possible, Acted;
      ghost var first := View();
      for i := 0 to |acts|
        invariant Reaches(start, View())
        invariant AllPossible(View(), acts[i..])
        invariant AfterActs(View(), acts[i..]) == AfterActs(first, acts)
      {
        assert acts[i..][0] == acts[i] && acts[i..][1..] == acts[i + 1..];
        Do(acts[i], start);
      }
    }

    /** The next functor of the batch, and what happens while it runs. */
    method RunNext(acts: seq<Act>, ghost start: State)
      requires Reaches(start, View())
      requires pc == Running && !ownerMustWake && batch != [] && AllPossible(Next(View(), RunOne), acts)
      modifies this
      ensures Reaches(start, View()) && View() == AfterFunctor(old(View()), acts)
    {
      hide Reaches, AllPossible, AfterActs;
      ghost var before := View();
      ran, batch := ran + [batch[0]], batch[1..];
      ThenStep(start, before, RunOne);
      DoAll(acts, start);
    }

    /** The loop over the batch. */
    method RunBatch(acts: seq<seq<Act>>, ghost start: State)
      requires Reaches(start, View()) && BatchPossible(View(), acts)
      modifies this
      ensures Reaches(start, View()) && View() == AfterBatch(old(View()), acts)
    {
      hide Reaches, Next, AllPossible, AfterFunctor;
      ghost var first := View();
      for i := 0 to |acts|
        invariant Reaches(start, View()) && BatchPossible(View(), acts[i..])
        invariant AfterBatch(View(), acts[i..]) == AfterBatch(first, acts)
      {
        assert acts[i..][0] == acts[i] && acts[i..][1..] == acts[i + 1..];
        RunNext(acts[i], start);
      }
    }

    /** Runs a batch; `acts[i]` is what happens while functor i of it runs: calls of its own,
        and steps of other threads between their pushes, their quit and their wakeups.  All
        that was pending runs, in order; what is queued meanwhile stays pending, in order, and
        some wakeup for it is written or on its way. */
    method DoPendingFunctors(acts: seq<seq<Act>>)
      requires pc == Swapping && Ordered(View()) && BatchPossible(Next(View(), Swap), acts)
      modifies this
      ensures Reaches(old(View()), View())
      ensures var done := AfterBatch(Next(old(View()), Swap), acts);
        Enabled(done, EndBatch) && View() == Next(done, EndBatch)
      ensures pc == Testing && ran == old(ran) + old(pendingFunctors)
      ensures pendingFunctors == AllPushed(acts)
      ensures pendingFunctors == [] || Covered(View())
    {
      hide Reaches, Next, BatchPossible, AfterBatch;
      ghost var start := View();
      Stays(start);
      var functors := SwapFunctors();
      ThenStep(start, start, Swap);
      SwapIs(start);
      BatchEffect(View(), acts);
      RunBatch(acts, start);
      ghost var done := View();
      EndFunctors();
      ThenStep(start, done, EndBatch);
      Announced(start, View());
    }

    /** The locked swap: the queue becomes the batch. */
    method SwapFunctors() returns (functors: seq<Functor>)
      requires Enabled(View(), Swap)
      modifies this`pendingFunctors, this`callingPendingFunctors, this`pc, this`batch
      ensures View() == Next(old(View()), Swap)
      ensures functors == batch == old(pendingFunctors) && pendingFunctors == []
      ensures callingPendingFunctors && pc == Running
    {
      callingPendingFunctors := true;
      functors := pendingFunctors;
      pendingFunctors := [];
      pc, batch := Running, functors;
    }

    method EndFunctors()
      requires Enabled(View(), EndBatch)
      modifies this`callingPendingFunctors, this`pc
      ensures View() == Next(old(View()), EndBatch) && pc == Testing
      ensures ran == old(ran) && pendingFunctors == old(pendingFunctors)
    {
      callingPendingFunctors := false;
      pc := Testing;
    }

    static lemma Stays(s: State)
      ensures Reaches(s, s)
    {
      assert Exec(s, []) == Some(s);
    }

    static lemma SwapIs(s: State)
      requires Ordered(s) && s.pc == Swapping
      ensures var n := Next(s, Swap); n.ran == s.ran && n.pending == [] && n.batch == s.pending
    {
    }

    static lemma Announced(s: State, t: State)
      requires Reaches(s, t) && Ordered(s) && s.pc == Swapping && t.pc == Testing
      ensures t.pending == [] || Covered(t)
    {
      var steps :| Exec(s, steps) == Some(t);
      RunKeepsOrder(s, steps);
    }
  }

  lemma ActEffect(s: State, act: Act)
    requires Possible(s, act)
    ensures var n := Acted(s, act);
      n.pc == s.pc && n.batch == s.batch && n.ran == s.ran && n.pending == s.pending + Pushed([act])
  {
    assert [act][1..] == [];
  }

  lemma {:induction false} ActsEffect(s: State, acts: seq<Act>)
    requires AllPossible(s, acts)
    ensures var n := AfterActs(s, acts);
      n.pc == s.pc && n.batch == s.batch && n.ran == s.ran && n.pending == s.pending + Pushed(acts)
    decreases |acts|
  {
    hide Possible, Acted;
    if acts != [] {
      ActEffect(s, acts[0]);
      ActsEffect(Acted(s, acts[0]), acts[1..]);
      assert [acts[0]][0] == acts[0] && [acts[0]][1..] == [];
      assert Pushed(acts) == Pushed([acts[0]]) + Pushed(acts[1..]);
    }
  }

  lemma FunctorEffect(s: State, acts: seq<Act>)
    requires s.pc == Running && !s.ownerMustWake && s.batch != [] && AllPossible(Next(s, RunOne), acts)
    ensures var n := AfterFunctor(s, acts);
      && n.pc == Running && n.batch == s.batch[1..] && n.ran == s.ran + [s.batch[0]]
      && n.pending == s.pending + Pushed(acts)
  {
    ActsEffect(Next(s, RunOne), acts);
  }

  /** A batch runs whole and in order; what is pushed meanwhile is pending behind the rest. */
  lemma {:induction false} BatchEffect(s: State, acts: seq<seq<Act>>)
    requires BatchPossible(s, acts)
    ensures var n := AfterBatch(s, acts);
      && n.pc == Running && n.batch == [] && !n.ownerMustWake
      && n.ran == s.ran + s.batch && n.pending == s.pending + AllPushed(acts)
    decreases |acts|
  {
    hide Next, AllPossible, AfterFunctor;
    if acts != [] {
      var m := AfterFunctor(s, acts[0]);
      FunctorEffect(s, acts[0]);
      BatchEffect(m, acts[1..]);
      assert s.ran + s.batch == s.ran + [s.batch[0]] + s.batch[1..];
      assert s.pending + AllPushed(acts) == s.pending + Pushed(acts[0]) + AllPushed(acts[1..]);
    } else {
      assert s.ran + s.batch == s.ran && s.pending + AllPushed(acts) == s.pending;
    }
  }
}
