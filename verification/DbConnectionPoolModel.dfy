/**
  The blocking connection pool as a step system.  Every critical section is one step:
  a caller's first test of the queue, a waiter's test after it got the mutex back, and
  the push with its notify_one when a handle is released or a check has thrown.
 */
module DbConnectionPoolModel {
  import opened Sequences

  type Conn(==, !new)
  type Thread(==, !new)
  type Handle(==, !new)

  datatype State = State(
    queue: seq<Conn>,             // connections_
    initialized: bool,
    blocked: set<Thread>,         // waiting on cv_
    notified: set<Thread>,        // woken, but not yet back under the mutex
    checking: map<Thread, Conn>,  // popped, being pinged outside the lock
    failing: set<Thread>,         // of these, those whose shared_ptr could not be made
    handles: map<Handle, Conn>,   // returned to callers and not yet released
    all: set<Conn>)               // every connection created

  datatype Wake = Nobody | Somebody(thread: Thread)

  datatype Step =
    | Init(created: seq<Conn>, completes: bool)  // completes: no constructor threw
    | Enter(t: Thread)
    | Resume(t: Thread)
    | SpuriousWakeup(t: Thread)
    | CheckPasses(t: Thread, h: Handle)
    | CheckThrows(t: Thread, wake: Wake)
    | MakeFails(t: Thread, wake: Wake)  // the shared_ptr constructor throws and runs the deleter
    | Release(h: Handle, wake: Wake)

  /** notify_one wakes some blocked thread, if there is one. */
  predicate MayWake(s: State, wake: Wake) {
    match wake
    case Nobody => s.blocked == {}
    case Somebody(t) => t in s.blocked
  }

  ghost predicate Enabled(s: State, step: Step) {
    match step
    case Init(created, _) => Distinct(created) && forall c :: c in created ==> c !in s.all
    case Enter(t) => t !in s.blocked && t !in s.notified && t !in s.checking
    case Resume(t) => t in s.notified
    case SpuriousWakeup(t) => t in s.blocked
    case CheckPasses(t, h) => t in s.checking && t !in s.failing && h !in s.handles
    case MakeFails(t, wake) => t in s.checking && t !in s.failing && MayWake(s, wake)
    case CheckThrows(t, wake) => t in s.checking && MayWake(s, wake)
    case Release(h, wake) => h in s.handles && MayWake(s, wake)
  }

  /** The loop test of getConnection under the mutex, for a thread that is in no set:
      wait, throw, or take the front connection. */
  function Test(s: State, t: Thread): State {
    if s.queue == [] then
      if !s.initialized then s else s.(blocked := s.blocked + {t})
    else
      s.(queue := s.queue[1..], checking := s.checking[t := s.queue[0]])
  }

  function PushAndNotify(s: State, c: Conn, wake: Wake): State {
    var q := s.(queue := s.queue + [c]);
    match wake
    case Nobody => q
    case Somebody(t) => q.(blocked := s.blocked - {t}, notified := s.notified + {t})
  }

  ghost function Next(s: State, step: Step): State
    requires Enabled(s, step)
  {
    match step
    case Init(created, completes) =>
      if s.initialized then s
      else s.(queue := s.queue + created, initialized := completes, all := s.all + set c | c in created)
    case Enter(t) => Test(s, t)
    case Resume(t) => Test(s.(notified := s.notified - {t}), t)
    case SpuriousWakeup(t) => s.(blocked := s.blocked - {t}, notified := s.notified + {t})
    case CheckPasses(t, h) => s.(checking := s.checking - {t}, handles := s.handles[h := s.checking[t]])
    case CheckThrows(t, wake) =>
      PushAndNotify(s.(checking := s.checking - {t}, failing := s.failing - {t}), s.checking[t], wake)
    case MakeFails(t, wake) => PushAndNotify(s.(failing := s.failing + {t}), s.checking[t], wake)
    case Release(h, wake) => PushAndNotify(s.(handles := s.handles - {h}), s.handles[h], wake)
  }

  ghost const FRESH: State := State([], false, {}, {}, map[], {}, map[], {})

  // ---- where a connection is ----

  datatype Place = Queued(index: nat) | Checked(t: Thread) | Held(h: Handle)

  predicate At(s: State, p: Place, c: Conn) {
    match p
    case Queued(i) => i < |s.queue| && s.queue[i] == c
    case Checked(t) => t in s.checking && s.checking[t] == c
    case Held(h) => h in s.handles && s.handles[h] == c
  }

  /** Every connection is in exactly one place, and nothing else is anywhere. */
  ghost predicate OnePlaceEach(s: State) {
    && (forall c :: c in s.all ==> exists p :: At(s, p, c))
    && (forall p, c :: At(s, p, c) ==> c in s.all)
    && (forall p, q, c :: At(s, p, c) && At(s, q, c) ==> p == q)
  }

  /** No wakeup is owed: while a caller waits, as many are on their way to the mutex as
      there are connections to take. */
  ghost predicate NoLostWakeup(s: State) {
    s.blocked != {} ==> |s.notified| >= |s.queue|
  }

  /** What the waiters need; it holds whether or not shared_ptrs can be made. */
  ghost predicate WaitersOk(s: State) {
    && NoLostWakeup(s)
    && (s.blocked + s.notified != {} ==> s.initialized)
    && s.blocked !! s.notified
    && (forall t :: t in s.checking ==> t !in s.blocked && t !in s.notified)
  }

  ghost predicate Invariant(s: State) {
    OnePlaceEach(s) && s.failing == {} && WaitersOk(s)
  }

  /** Where the connection that is at `p` now was before a pop. */
  lemma PopKeepsPlaces(s: State, t: Thread)
    requires OnePlaceEach(s) && s.queue != [] && t !in s.checking
    ensures OnePlaceEach(Test(s, t))
  {
    var n := Test(s, t);
    forall c | c in n.all ensures exists p :: At(n, p, c) {
      var p: Place :| At(s, p, c);
      if p == Queued(0) {
        assert At(n, Checked(t), c);
      } else if p.Queued? {
        assert At(n, Queued(p.index - 1), c);
      } else {
        assert At(n, p, c);
      }
    }
    forall p, c | At(n, p, c) ensures At(s, BeforePop(p, t), c) {
    }
    forall p, q, c | At(n, p, c) && At(n, q, c) ensures p == q {
      assert At(s, BeforePop(p, t), c) && At(s, BeforePop(q, t), c);
    }
  }

  function BeforePop(p: Place, t: Thread): Place {
    match p
    case Queued(i) => Queued(i + 1)
    case Checked(u) => if u == t then Queued(0) else p
    case Held(_) => p
  }

  /** A connection goes from place `from`, which is no queue position, to the queue's end. */
  lemma PushKeepsPlaces(s: State, n: State, from: Place, c: Conn)
    requires OnePlaceEach(s) && !from.Queued? && At(s, from, c)
    requires n.all == s.all && n.queue == s.queue + [c]
    requires forall p: Place, d :: !p.Queued? ==> (At(n, p, d) <==> At(s, p, d) && p != from)
    ensures OnePlaceEach(n)
  {
    forall d | d in n.all ensures exists p :: At(n, p, d) {
      var p: Place :| At(s, p, d);
      if p == from {
        assert At(n, Queued(|s.queue|), d);
      } else {
        assert At(n, p, d);
      }
    }
    forall p, d | At(n, p, d) ensures At(s, if p == Queued(|s.queue|) then from else p, d) {
    }
    forall p, q, d | At(n, p, d) && At(n, q, d) ensures p == q {
      assert At(s, if p == Queued(|s.queue|) then from else p, d);
      assert At(s, if q == Queued(|s.queue|) then from else q, d);
    }
  }

  lemma ThrowKeepsPlaces(s: State, t: Thread, wake: Wake)
    requires OnePlaceEach(s) && Enabled(s, CheckThrows(t, wake))
    ensures OnePlaceEach(Next(s, CheckThrows(t, wake)))
  {
    hide OnePlaceEach;
    PushKeepsPlaces(s, Next(s, CheckThrows(t, wake)), Checked(t), s.checking[t]);
  }

  lemma ReleaseKeepsPlaces(s: State, h: Handle, wake: Wake)
    requires OnePlaceEach(s) && Enabled(s, Release(h, wake))
    ensures OnePlaceEach(Next(s, Release(h, wake)))
  {
    hide OnePlaceEach;
    PushKeepsPlaces(s, Next(s, Release(h, wake)), Held(h), s.handles[h]);
  }

  lemma PassKeepsPlaces(s: State, t: Thread, h: Handle)
    requires OnePlaceEach(s) && t in s.checking && t !in s.failing && h !in s.handles
    ensures OnePlaceEach(Next(s, CheckPasses(t, h)))
  {
    var n := Next(s, CheckPasses(t, h));
    forall c | c in n.all ensures exists p :: At(n, p, c) {
      var p: Place :| At(s, p, c);
      assert At(n, if p == Checked(t) then Held(h) else p, c);
    }
    forall p, c | At(n, p, c) ensures At(s, if p == Held(h) then Checked(t) else p, c) {
    }
    forall p, q, c | At(n, p, c) && At(n, q, c) ensures p == q {
      assert At(s, if p == Held(h) then Checked(t) else p, c);
      assert At(s, if q == Held(h) then Checked(t) else q, c);
    }
  }

  lemma InitKeepsPlaces(s: State, created: seq<Conn>, completes: bool)
    requires OnePlaceEach(s) && Enabled(s, Init(created, completes)) && !s.initialized
    ensures OnePlaceEach(Next(s, Init(created, completes)))
  {
    var n := Next(s, Init(created, completes));
    forall c | c in n.all ensures exists p :: At(n, p, c) {
      if c in s.all {
        var p: Place :| At(s, p, c);
        assert At(n, p, c);
      } else {
        var i :| 0 <= i < |created| && created[i] == c;
        assert At(n, Queued(|s.queue| + i), c);
      }
    }
    forall p: Place, c | At(n, p, c)
      ensures c in n.all
      ensures At(s, p, c) || (p.Queued? && p.index >= |s.queue| && c in created && c == created[p.index - |s.queue|])
    {
      assert At(s, p, c) || c in created;
    }
    forall p, q, c | At(n, p, c) && At(n, q, c) ensures p == q {
    }
  }

  /** Every step keeps every connection in exactly one place, if a shared_ptr can be made. */
  lemma StepKeepsPlaces(s: State, step: Step)
    requires Invariant(s) && Enabled(s, step) && !step.MakeFails?
    ensures OnePlaceEach(Next(s, step)) && Next(s, step).failing == {}
  {
    hide OnePlaceEach, Distinct, NoLostWakeup, At;
    var n := Next(s, step);
    match step
    case Init(created, completes) =>
      if !s.initialized { InitKeepsPlaces(s, created, completes); }
    case Enter(t) =>
      if s.queue != [] { PopKeepsPlaces(s, t); } else { SamePlaces(s, n); }
    case Resume(t) =>
      var m := s.(notified := s.notified - {t});
      SamePlaces(s, m);
      if s.queue != [] { PopKeepsPlaces(m, t); } else { SamePlaces(s, n); }
    case SpuriousWakeup(t) => SamePlaces(s, n);
    case CheckPasses(t, h) => PassKeepsPlaces(s, t, h);
    case CheckThrows(t, wake) => ThrowKeepsPlaces(s, t, wake);
    case Release(h, wake) => ReleaseKeepsPlaces(s, h, wake);
  }

  lemma SamePlaces(s: State, n: State)
    requires OnePlaceEach(s)
    requires n.queue == s.queue && n.checking == s.checking && n.handles == s.handles && n.all == s.all
    ensures OnePlaceEach(n)
  {
    assert forall p, c :: At(n, p, c) <==> At(s, p, c);
  }

  /** Every step keeps the waiters' count, even when a new caller takes a connection
      before a notified one does, or a thread wakes for no reason. */
  lemma StepKeepsWakeups(s: State, step: Step)
    requires WaitersOk(s) && Enabled(s, step)
    ensures WaitersOk(Next(s, step))
  {
  }

  lemma StepKeeps(s: State, step: Step)
    requires Invariant(s) && Enabled(s, step) && !step.MakeFails?
    ensures Invariant(Next(s, step))
  {
    StepKeepsPlaces(s, step);
    StepKeepsWakeups(s, step);
  }

  // ---- runs ----

  ghost predicate IsRun(steps: seq<Step>, states: seq<State>) {
    && |states| == |steps| + 1
    && states[0] == FRESH
    && forall i :: 0 <= i < |steps| ==> Enabled(states[i], steps[i]) && states[i + 1] == Next(states[i], steps[i])
  }

  lemma {:induction false} RunKeepsWaiters(steps: seq<Step>, states: seq<State>, n: nat)
    requires IsRun(steps, states) && n <= |steps|
    ensures WaitersOk(states[n])
  {
    hide WaitersOk, OnePlaceEach, Enabled, Next;
    if n == 0 {
      FreshIsFine();
    } else {
      RunKeepsWaiters(steps, states, n - 1);
      StepKeepsWakeups(states[n - 1], steps[n - 1]);
    }
  }

  lemma {:induction false} RunKeeps(steps: seq<Step>, states: seq<State>, n: nat)
    requires IsRun(steps, states) && n <= |steps|
    requires forall i :: 0 <= i < n ==> !steps[i].MakeFails?
    ensures Invariant(states[n])
  {
    hide WaitersOk, OnePlaceEach, Enabled, Next;
    if n == 0 {
      FreshIsFine();
    } else {
      RunKeeps(steps, states, n - 1);
      StepKeeps(states[n - 1], steps[n - 1]);
    }
  }

  lemma FreshIsFine()
    ensures Invariant(FRESH)
  {
  }

  /** No two handles, no two checks, and no handle and check share a connection. */
  ghost predicate NoneShared(s: State) {
    && (forall g, h :: g in s.handles && h in s.handles && g != h ==> s.handles[g] != s.handles[h])
    && (forall t, h :: t in s.checking && h in s.handles ==> s.checking[t] != s.handles[h])
    && (forall t, u :: t in s.checking && u in s.checking && t != u ==> s.checking[t] != s.checking[u])
  }

  /** Every connection created is still somewhere. */
  ghost predicate NoneLost(s: State) {
    forall c :: c in s.all <==> c in s.queue || c in s.checking.Values || c in s.handles.Values
  }

  lemma OnePlaceMeans(s: State)
    requires OnePlaceEach(s)
    ensures NoneShared(s) && NoneLost(s)
  {
    forall g, h | g in s.handles && h in s.handles && s.handles[g] == s.handles[h] ensures g == h {
      assert At(s, Held(g), s.handles[g]) && At(s, Held(h), s.handles[g]);
    }
    forall t, h | t in s.checking && h in s.handles ensures s.checking[t] != s.handles[h] {
      assert At(s, Checked(t), s.checking[t]) && At(s, Held(h), s.handles[h]);
    }
    forall t, u | t in s.checking && u in s.checking && s.checking[t] == s.checking[u] ensures t == u {
      assert At(s, Checked(t), s.checking[t]) && At(s, Checked(u), s.checking[t]);
    }
    forall c ensures c in s.all <==> c in s.queue || c in s.checking.Values || c in s.handles.Values {
      if c in s.all { var p: Place :| At(s, p, c); }
      if c in s.queue { var i :| 0 <= i < |s.queue| && s.queue[i] == c; assert At(s, Queued(i), c); }
      if c in s.checking.Values { var t :| t in s.checking && s.checking[t] == c; assert At(s, Checked(t), c); }
      if c in s.handles.Values { var h :| h in s.handles && s.handles[h] == c; assert At(s, Held(h), c); }
    }
  }

  /** In every run in which the handles can be made: nothing is shared and nothing is lost. */
  lemma NoSharingNoLoss(steps: seq<Step>, states: seq<State>, n: nat)
    requires IsRun(steps, states) && n <= |steps|
    requires forall i :: 0 <= i < n ==> !steps[i].MakeFails?
    ensures NoneShared(states[n]) && NoneLost(states[n])
  {
    hide OnePlaceEach, NoneShared, NoneLost;
    RunKeeps(steps, states, n);
    OnePlaceMeans(states[n]);
  }

  ghost predicate Reaches(mayFail: bool, s: State) {
    exists steps: seq<Step>, states: seq<State> ::
      && IsRun(steps, states) && states[|steps|] == s
      && (mayFail || forall i :: 0 <= i < |steps| ==> !steps[i].MakeFails?)
  }

  lemma AtFresh()
    ensures Reaches(true, FRESH)
  {
    var none: seq<Step> := [];
    assert IsRun(none, [FRESH]) && [FRESH][|none|] == FRESH;
  }

  lemma ThenStep(s: State, step: Step)
    requires Reaches(true, s) && Enabled(s, step)
    ensures Reaches(true, Next(s, step))
  {
    hide Enabled, Next;
    var steps, states :| IsRun(steps, states) && states[|steps|] == s;
    assert IsRun(steps + [step], states + [Next(s, step)]);
    assert (states + [Next(s, step)])[|steps + [step]|] == Next(s, step);
  }

  /** One connection, whose handle cannot be made: it is in the queue twice. */
  lemma QueuedTwice(c: Conn, t: Thread) returns (s: State)
    ensures Reaches(true, s)
    ensures s.queue == [c, c] && s.checking == map[] && s.blocked == {} && s.notified == {}
  {
    hide Reaches;
    AtFresh();
    s := FRESH;
    ThenStep(s, Init([c], true));
    s := Next(s, Init([c], true));
    ThenStep(s, Enter(t));
    s := Next(s, Enter(t));
    ThenStep(s, MakeFails(t, Nobody));
    s := Next(s, MakeFails(t, Nobody));
    ThenStep(s, CheckThrows(t, Nobody));
    s := Next(s, CheckThrows(t, Nobody));
  }

  /** Two callers can end up with one connection if, and only if, making a handle can fail:
      the failing constructor runs the deleter, and the catch block pushes once more. */
  lemma NoneSharedIff(mayFail: bool, c: Conn, t: Thread, u: Thread)
    requires t != u
    ensures (forall s :: Reaches(mayFail, s) ==> NoneShared(s)) <==> !mayFail
  {
    if mayFail {
      var s := QueuedTwice(c, t);
      ThenStep(s, Enter(t));
      s := Next(s, Enter(t));
      ThenStep(s, Enter(u));
      s := Next(s, Enter(u));
      assert s.checking[t] == s.checking[u];
    } else {
      hide NoneShared, NoneLost;
      forall s | Reaches(mayFail, s) ensures NoneShared(s) {
        var steps: seq<Step>, states: seq<State> :| IsRun(steps, states) && states[|steps|] == s
          && (mayFail || forall i :: 0 <= i < |steps| ==> !steps[i].MakeFails?);
        NoSharingNoLoss(steps, states, |steps|);
      }
    }
  }

  // ---- what the steps alone tell ----

  /** Step `i` fills the pool. */
  predicate Fills(steps: seq<Step>, i: nat)
    requires i < |steps|
  {
    steps[i].Init? && steps[i].completes
  }

  ghost predicate Filled(steps: seq<Step>, n: nat)
    requires n <= |steps|
  {
    exists i :: 0 <= i < n && Fills(steps, i)
  }

  ghost function SetOf(conns: seq<Conn>): set<Conn> {
    set c | c in conns
  }

  /** The connections that initialisations made before one of them had filled the pool. */
  ghost function Created(steps: seq<Step>, n: nat): set<Conn>
    requires n <= |steps|
  {
    if n == 0 then {}
    else
      Created(steps, n - 1) +
      (if steps[n - 1].Init? && !Filled(steps, n - 1) then SetOf(steps[n - 1].created) else {})
  }

  lemma StepInitialises(s: State, step: Step)
    requires Enabled(s, step)
    ensures var n := Next(s, step);
      && (n.initialized <==> s.initialized || (step.Init? && step.completes))
      && n.all == s.all + if step.Init? && !s.initialized then SetOf(step.created) else {}
  {
  }

  /** In every run: the pool counts as initialised exactly when some initialisation went
      through, and has exactly the connections made up to then. */
  lemma {:induction false} InitialisedIff(steps: seq<Step>, states: seq<State>, n: nat)
    requires IsRun(steps, states) && n <= |steps|
    ensures states[n].initialized <==> exists i :: 0 <= i < n && Fills(steps, i)
    ensures states[n].all == Created(steps, n)
  {
    hide Enabled, Next;
    if n > 0 {
      InitialisedIff(steps, states, n - 1);
      StepInitialises(states[n - 1], steps[n - 1]);
      assert steps[n - 1].Init? && steps[n - 1].completes ==> Fills(steps, n - 1);
    }
  }

  /** A caller that tests the queue under the mutex takes the front connection if there is
      one, waits if the pool is merely empty, and else leaves everything as it was. */
  lemma TestIs(s: State, step: Step)
    requires WaitersOk(s) && Enabled(s, step) && (step.Enter? || step.Resume?)
    ensures var t, n := step.t, Next(s, step);
      && (t in n.checking <==> s.queue != []) && (t in n.blocked <==> s.queue == [] && s.initialized)
      && t !in n.notified
      && (s.queue != [] ==> n.checking[t] == s.queue[0] && n.queue == s.queue[1..])
      && (s.queue == [] ==> n.queue == [] && n.checking == s.checking)
      && n.handles == s.handles && n.initialized == s.initialized
  {
  }

  // ---- first in, first out ----

  /** The connection that a caller takes from the pool in this step, as it then holds it. */
  function TakenBy(s: State, step: Step, n: State): seq<Conn> {
    if (step.Enter? || step.Resume?) && step.t !in s.checking && step.t in n.checking
    then [n.checking[step.t]] else []
  }

  /** The connections that come into the pool: new ones, and those given back. */
  function PutBy(s: State, step: Step): seq<Conn> {
    match step
    case Init(created, _) => if s.initialized then [] else created
    case CheckThrows(t, _) => if t in s.checking then [s.checking[t]] else []
    case MakeFails(t, _) => if t in s.checking then [s.checking[t]] else []
    case Release(h, _) => if h in s.handles then [s.handles[h]] else []
    case _ => []
  }

  function AllTaken(steps: seq<Step>, states: seq<State>, n: nat): seq<Conn>
    requires n <= |steps| < |states|
  {
    if n == 0 then [] else AllTaken(steps, states, n - 1) + TakenBy(states[n - 1], steps[n - 1], states[n])
  }

  function AllPut(steps: seq<Step>, states: seq<State>, n: nat): seq<Conn>
    requires n <= |steps| < |states|
  {
    if n == 0 then [] else AllPut(steps, states, n - 1) + PutBy(states[n - 1], steps[n - 1])
  }

  lemma StepQueues(s: State, step: Step)
    requires WaitersOk(s) && Enabled(s, step)
    ensures TakenBy(s, step, Next(s, step)) + Next(s, step).queue == s.queue + PutBy(s, step)
  {
  }

  /** In every run: connections are taken in the order in which they came in, each as often
      as it came in, and those that came in and were not taken yet are the queue. */
  lemma {:induction false} FirstInFirstOut(steps: seq<Step>, states: seq<State>, n: nat)
    requires IsRun(steps, states) && n <= |steps|
    ensures AllTaken(steps, states, n) + states[n].queue == AllPut(steps, states, n)
  {
    hide Enabled, Next, TakenBy, PutBy, WaitersOk;
    if n > 0 {
      FirstInFirstOut(steps, states, n - 1);
      RunKeepsWaiters(steps, states, n - 1);
      StepQueues(states[n - 1], steps[n - 1]);
      var a, b := AllTaken(steps, states, n - 1), TakenBy(states[n - 1], steps[n - 1], states[n]);
      assert (a + b) + states[n].queue == a + (b + states[n].queue);
      assert a + (states[n - 1].queue + PutBy(states[n - 1], steps[n - 1]))
          == (a + states[n - 1].queue) + PutBy(states[n - 1], steps[n - 1]);
    }
  }

  // ---- what a failing handle does for good ----

  /** Some connection is in two places. */
  ghost predicate Doubled(s: State) {
    exists p: Place, q: Place, c :: p != q && At(s, p, c) && At(s, q, c)
  }

  predicate Pops(s: State, step: Step) {
    (step.Enter? || step.Resume?) && s.queue != []
  }

  /** Where a step takes what is at `p`. */
  function After(s: State, step: Step, p: Place): Place {
    match p
    case Queued(i) => if !Pops(s, step) then p else if i == 0 then Checked(step.t) else Queued(i - 1)
    case Checked(t) =>
      if step.CheckPasses? && step.t == t then Held(step.h)
      else if step.CheckThrows? && step.t == t then Queued(|s.queue|)
      else p
    case Held(h) => if step.Release? && step.h == h then Queued(|s.queue|) else p
  }

  lemma AfterIsThere(s: State, step: Step, p: Place, c: Conn)
    requires WaitersOk(s) && Enabled(s, step) && At(s, p, c)
    ensures At(Next(s, step), After(s, step, p), c)
  {
    hide NoLostWakeup, MayWake;
    if Pops(s, step) {
      PopMoves(s, step, p, c);
    }
  }

  lemma PopMoves(s: State, step: Step, p: Place, c: Conn)
    requires WaitersOk(s) && Enabled(s, step) && At(s, p, c) && Pops(s, step)
    ensures At(Next(s, step), After(s, step, p), c)
  {
    hide NoLostWakeup;
  }

  lemma AfterIsInjective(s: State, step: Step, p: Place, q: Place, c: Conn)
    requires WaitersOk(s) && Enabled(s, step) && At(s, p, c) && At(s, q, c) && p != q
    ensures After(s, step, p) != After(s, step, q)
  {
  }

  lemma StaysDoubled(s: State, step: Step)
    requires WaitersOk(s) && Enabled(s, step) && Doubled(s)
    ensures Doubled(Next(s, step))
  {
    var p: Place, q: Place, c :| p != q && At(s, p, c) && At(s, q, c);
    AfterIsThere(s, step, p, c);
    AfterIsThere(s, step, q, c);
    AfterIsInjective(s, step, p, q, c);
  }

  lemma FailureDoubles(s: State, t: Thread, wake: Wake)
    requires Enabled(s, MakeFails(t, wake))
    ensures Doubled(Next(s, MakeFails(t, wake)))
  {
    var n := Next(s, MakeFails(t, wake));
    assert At(n, Checked(t), s.checking[t]) && At(n, Queued(|s.queue|), s.checking[t]);
  }

  lemma {:induction false} DoubledForGood(steps: seq<Step>, states: seq<State>, m: nat, n: nat)
    requires IsRun(steps, states) && m < n <= |steps| && steps[m].MakeFails?
    ensures Doubled(states[n])
  {
    hide Enabled, Next, Doubled, WaitersOk;
    if n == m + 1 {
      FailureDoubles(states[m], steps[m].t, steps[m].wake);
    } else {
      DoubledForGood(steps, states, m, n - 1);
      RunKeepsWaiters(steps, states, n - 1);
      StaysDoubled(states[n - 1], steps[n - 1]);
    }
  }

  /** In every run, at every point: each connection is in exactly one place if and only if
      no handle has failed to be made so far. */
  lemma OnePlaceEachIff(steps: seq<Step>, states: seq<State>, n: nat)
    requires IsRun(steps, states) && n <= |steps|
    ensures OnePlaceEach(states[n]) <==> forall i :: 0 <= i < n ==> !steps[i].MakeFails?
  {
    hide Enabled, Next, WaitersOk, At;
    if forall i :: 0 <= i < n ==> !steps[i].MakeFails? {
      RunKeeps(steps, states, n);
    } else {
      var m :| 0 <= m < n && steps[m].MakeFails?;
      DoubledForGood(steps, states, m, n);
    }
  }

  /** In every run: while a caller waits and a connection is free, some notified caller
      can resume, and takes the connection at the front when it does. */
  lemma WaitersAreServed(steps: seq<Step>, states: seq<State>, n: nat) returns (t: Thread)
    requires IsRun(steps, states) && n <= |steps|
    requires states[n].blocked != {} && states[n].queue != []
    ensures t in states[n].notified && Enabled(states[n], Resume(t))
    ensures var m := Next(states[n], Resume(t));
      t in m.checking && m.checking[t] == states[n].queue[0] && |m.queue| == |states[n].queue| - 1
  {
    RunKeepsWaiters(steps, states, n);
    t :| t in states[n].notified;
  }
}
