/**
  A connection's two byte streams as a step system.  Everything runs in the loop
  thread except `shutdown`, which another thread may call: it changes the state at once
  and queues the rest.  What the kernel answers is part of each step.
 */
module TcpConnectionModel {

  datatype Conn = Disconnected | Connecting | Connected | Disconnecting

  /** The outcome of one write system call. */
  datatype Written = Wrote(n: nat) | WouldBlock | Broken | OtherError

  /** Callbacks handed to the loop's queue. */
  datatype Event = WriteComplete | HighWater(bytes: nat)

  /** One call of `send`: what it was given, and whether the connection took it. */
  datatype Attempt = Attempt(data: seq<char>, taken: bool)

  datatype State = State(
    conn: Conn,
    writing: bool,            // the channel's write interest
    out: seq<char>,           // readable bytes of outputBuffer_
    input: seq<char>,         // readable bytes of inputBuffer_
    onComplete: bool,         // writeCompleteCallback_ is set
    onHighWater: bool,        // highWaterMarkCallback_ is set
    highWaterMark: nat,
    queued: bool,             // another thread's shutdownInLoop is in the loop's queue
    busy: bool,               // history: was writing when another thread shut down
    kernel: seq<char>,        // history: the bytes the kernel accepted
    halfCloses: nat,          // history: how often shutdownWrite was called
    sends: seq<Attempt>,      // history
    received: seq<char>,      // history: the bytes read from the socket
    delivered: seq<char>,     // history: the bytes the message callback took
    events: seq<Event>)       // history

  function Start(onComplete: bool, onHighWater: bool, highWaterMark: nat): State {
    State(Connecting, false, [], [], onComplete, onHighWater, highWaterMark, false, false, [], 0, [], [], [], [])
  }

  /** The bytes of all sends the connection took, in order. */
  function Taken(sends: seq<Attempt>): seq<char> {
    if sends == [] then []
    else Taken(sends[..|sends| - 1]) +
         (if sends[|sends| - 1].taken then sends[|sends| - 1].data else [])
  }

  /** `send` writes at once when nothing is waiting to be written. */
  predicate Direct(s: State) {
    !s.writing && s.out == []
  }

  function AcceptedOf(s: State, r: Written): nat {
    if Direct(s) && r.Wrote? then r.n else 0
  }

  predicate Faulted(s: State, r: Written) {
    Direct(s) && r.Broken?
  }

  /** The mark is reached by this send, and was not before. */
  predicate CrossesMark(s: State, remaining: nat) {
    |s.out| < s.highWaterMark <= |s.out| + remaining
  }

  function EventIf(c: bool, e: Event): seq<Event> {
    if c then [e] else []
  }

  /** The write system call, when there is one. */
  function WriteNow(s: State, data: seq<char>, r: Written): State
    requires AcceptedOf(s, r) <= |data|
  {
    s.(kernel := s.kernel + data[..AcceptedOf(s, r)],
       sends := s.sends + [Attempt(data, !Faulted(s, r))],
       events := s.events + EventIf(Direct(s) && r == Wrote(|data|) && s.onComplete, WriteComplete))
  }

  function KeepRest(s: State, rest: seq<char>): State {
    s.(out := s.out + rest, writing := true,
       events := s.events + EventIf(CrossesMark(s, |rest|) && s.onHighWater, HighWater(|s.out| + |rest|)))
  }

  function SendInLoop(s: State, data: seq<char>, r: Written): State
    requires AcceptedOf(s, r) <= |data|
  {
    var w, rest := WriteNow(s, data, r), data[AcceptedOf(s, r)..];
    if Faulted(s, r) || rest == [] then w else KeepRest(w, rest)
  }

  function ShutdownInLoop(s: State): State {
    if s.writing then s else s.(halfCloses := s.halfCloses + 1)
  }

  /** The socket is writable. */
  function HandleWrite(s: State, r: Written): State
    requires r.Wrote? ==> r.n <= |s.out|
  {
    if !s.writing || !r.Wrote? || r.n == 0 then s
    else
      var w := s.(kernel := s.kernel + s.out[..r.n], out := s.out[r.n..]);
      if w.out != [] then w
      else
        var d := w.(writing := false, events := s.events + EventIf(s.onComplete, WriteComplete));
        if s.conn == Disconnecting then ShutdownInLoop(d) else d
  }

  function HandleClose(s: State): State {
    s.(conn := Disconnected, writing := false)
  }

  /** The socket is readable: `None` is a failed read, no bytes the end of the stream.
      The message callback takes `eats` bytes. */
  datatype ReadResult = Failed | Got(bytes: seq<char>)

  function HandleRead(s: State, r: ReadResult, eats: nat): State
    requires r.Got? ==> eats <= |s.input| + |r.bytes|
  {
    match r
    case Failed => s
    case Got(bytes) =>
      if bytes == [] then HandleClose(s)
      else
        var all := s.input + bytes;
        s.(received := s.received + bytes, input := all[eats..], delivered := s.delivered + all[..eats])
  }

  datatype Step =
    | ConnectEstablished
    | Send(data: seq<char>, r: Written)
    | Writable(r: Written)
    | Readable(result: ReadResult, eats: nat)
    | Shutdown         // called in the loop thread
    | ForeignShutdown  // called in another thread
    | RunQueued        // the loop runs what ForeignShutdown queued
    | Close
    | ConnectDestroyed

  predicate Enabled(s: State, step: Step) {
    match step
    case ConnectEstablished => s.conn == Connecting
    case Send(data, r) => s.conn == Connected ==> AcceptedOf(s, r) <= |data|
    case Writable(r) => r.Wrote? ==> r.n <= |s.out|
    case Readable(result, eats) => s.conn != Connecting && (result.Got? ==> eats <= |s.input| + |result.bytes|)
    case Shutdown => true
    case ForeignShutdown => true
    case RunQueued => s.queued
    case Close => s.conn != Connecting
    case ConnectDestroyed => true
  }

  function Next(s: State, step: Step): State
    requires Enabled(s, step)
  {
    match step
    case ConnectEstablished => s.(conn := Connected)
    case Send(data, r) =>
      if s.conn == Connected then SendInLoop(s, data, r) else s.(sends := s.sends + [Attempt(data, false)])
    case Writable(r) => HandleWrite(s, r)
    case Readable(result, eats) => HandleRead(s, result, eats)
    case Shutdown => if s.conn == Connected then ShutdownInLoop(s.(conn := Disconnecting)) else s
    case ForeignShutdown =>
      if s.conn == Connected then s.(conn := Disconnecting, queued := true, busy := s.writing) else s
    case RunQueued => ShutdownInLoop(s.(queued := false))
    case Close => HandleClose(s)
    case ConnectDestroyed =>
      if s.conn == Connected then HandleClose(s) else s
  }

  // ---- what every step keeps ----

  /** What the kernel accepted and what still waits are, end to end, what was taken. */
  ghost predicate Conserved(s: State) {
    && s.kernel + s.out == Taken(s.sends)
    && s.delivered + s.input == s.received
  }

  /** The write interest is set exactly while bytes wait. */
  predicate InterestMatches(s: State) {
    if s.conn == Disconnected then !s.writing else s.writing <==> s.out != []
  }

  /** The writing half is closed once the state asks for it and the last byte is out: not
      before, and not never.  Another thread's shutdown has its turn in the queue left. */
  predicate HalfCloseOk(s: State) {
    match s.conn
    case Connecting => s.halfCloses == 0 && !s.queued && s.out == [] && s.kernel == []
    case Connected => s.halfCloses == 0 && !s.queued
    case Disconnecting =>
      if s.queued then
        s.halfCloses == (if s.busy && s.out == [] then 1 else 0) && (s.busy || s.out == [])
      else
        (s.halfCloses > 0 <==> s.out == []) && s.halfCloses <= 2
    case Disconnected => s.halfCloses + (if s.queued then 1 else 0) <= 2
  }

  ghost predicate Invariant(s: State) {
    Conserved(s) && InterestMatches(s) && HalfCloseOk(s)
  }

  lemma TakenOneMore(sends: seq<Attempt>, a: Attempt)
    ensures Taken(sends + [a]) == Taken(sends) + (if a.taken then a.data else [])
  {
    assert (sends + [a])[..|sends|] == sends;
  }

  /** Bytes that move from the front of one queue to the end of the other stay in order. */
  lemma Moves(a: seq<char>, b: seq<char>, n: nat)
    requires n <= |b|
    ensures (a + b[..n]) + b[n..] == a + b
  {
  }

  lemma SendConserves(s: State, data: seq<char>, r: Written)
    requires Conserved(s) && AcceptedOf(s, r) <= |data|
    ensures Conserved(SendInLoop(s, data, r))
  {
    hide Taken;
    TakenOneMore(s.sends, Attempt(data, !Faulted(s, r)));
    var n, t := AcceptedOf(s, r), SendInLoop(s, data, r);
    if Faulted(s, r) {
      assert t.kernel == s.kernel && t.out == s.out;
    } else if Direct(s) {
      Moves(s.kernel, data, n);
      assert s.kernel + s.out == s.kernel;
      assert t.out == data[n..];
    } else {
      assert t.kernel == s.kernel && t.out == s.out + data;
      assert s.kernel + (s.out + data) == (s.kernel + s.out) + data;
    }
  }

  lemma WriteConserves(s: State, r: Written)
    requires Conserved(s) && (r.Wrote? ==> r.n <= |s.out|)
    ensures Conserved(HandleWrite(s, r))
  {
    hide Taken;
    if r.Wrote? {
      Moves(s.kernel, s.out, r.n);
    }
  }

  lemma ReadConserves(s: State, r: ReadResult, eats: nat)
    requires Conserved(s) && (r.Got? ==> eats <= |s.input| + |r.bytes|)
    ensures Conserved(HandleRead(s, r, eats))
  {
    hide Taken;
    if r.Got? {
      Moves(s.delivered, s.input + r.bytes, eats);
      assert s.delivered + (s.input + r.bytes) == (s.delivered + s.input) + r.bytes;
    }
  }

  lemma StepConserves(s: State, step: Step)
    requires Conserved(s) && Enabled(s, step)
    ensures Conserved(Next(s, step))
  {
    hide Taken, SendInLoop, HandleWrite, HandleRead;
    match step
    case Send(data, r) =>
      if s.conn == Connected {
        SendConserves(s, data, r);
      } else {
        TakenOneMore(s.sends, Attempt(data, false));
      }
    case Writable(r) => WriteConserves(s, r);
    case Readable(result, eats) => ReadConserves(s, result, eats);
    case _ =>
  }

  lemma SendKeepsInterest(s: State, data: seq<char>, r: Written)
    requires InterestMatches(s) && s.conn == Connected && AcceptedOf(s, r) <= |data|
    ensures InterestMatches(SendInLoop(s, data, r))
  {
    hide Taken, EventIf, CrossesMark;
    var rest := data[AcceptedOf(s, r)..];
    assert rest != [] ==> |s.out + rest| > 0;
  }

  lemma StepKeepsInterest(s: State, step: Step)
    requires InterestMatches(s) && Enabled(s, step)
    ensures InterestMatches(Next(s, step))
  {
    hide Taken, EventIf, CrossesMark, SendInLoop;
    if step.Send? && s.conn == Connected {
      SendKeepsInterest(s, step.data, step.r);
    }
  }

  lemma SendKeepsRest(s: State, data: seq<char>, r: Written)
    requires AcceptedOf(s, r) <= |data|
    ensures var n := SendInLoop(s, data, r);
      n.conn == s.conn && n.busy == s.busy && n.queued == s.queued && n.halfCloses == s.halfCloses
  {
  }

  lemma StepKeepsHalfClose(s: State, step: Step)
    requires InterestMatches(s) && HalfCloseOk(s) && Enabled(s, step)
    ensures HalfCloseOk(Next(s, step))
  {
    hide Taken, EventIf, SendInLoop;
    if step.Send? && s.conn == Connected {
      SendKeepsRest(s, step.data, step.r);
    }
  }

  lemma StepKeeps(s: State, step: Step)
    requires Invariant(s) && Enabled(s, step)
    ensures Invariant(Next(s, step))
  {
    hide Conserved, InterestMatches, HalfCloseOk, Next, Enabled;
    StepConserves(s, step);
    StepKeepsInterest(s, step);
    StepKeepsHalfClose(s, step);
  }

  // ---- single steps ----

  /** The step after which the half-close count is higher comes with every taken byte accepted. */
  lemma HalfCloseAfterDrain(s: State, step: Step)
    requires Invariant(s) && Enabled(s, step) && s.conn != Disconnected
    requires Next(s, step).halfCloses > s.halfCloses
    ensures var n := Next(s, step); n.conn == Disconnecting && n.out == [] && n.kernel == Taken(n.sends)
  {
    hide Taken;
    StepKeeps(s, step);
    var n := Next(s, step);
    assert n.kernel + n.out == n.kernel;
  }

  /** Another thread's shutdown closes twice exactly when it came while bytes were waiting
      and the last of them went out before its turn in the queue. */
  lemma SecondHalfCloseIff(s: State)
    requires Invariant(s) && Enabled(s, RunQueued) && s.conn != Disconnected
    ensures Next(s, RunQueued).halfCloses == 2 <==> s.busy && s.out == []
    ensures Next(s, RunQueued).halfCloses > 0 <==> Next(s, RunQueued).out == []
  {
    StepKeeps(s, RunQueued);
  }

  /** A step takes the buffer from below the high-water mark to the mark or above. */
  predicate Rises(s: State, n: State) {
    |s.out| < s.highWaterMark <= |n.out|
  }

  /** Waiting bytes ran out, or a send went out whole at once. */
  predicate Completes(s: State, step: Step, n: State) {
    || (s.out != [] && n.out == [])
    || (step.Send? && s.conn == Connected && Direct(s) && step.r == Wrote(|step.data|))
  }

  function Announced(s: State, step: Step, n: State): seq<Event> {
    if s.onHighWater && Rises(s, n) then [HighWater(|n.out|)]
    else if s.onComplete && Completes(s, step, n) then [WriteComplete]
    else []
  }

  lemma SendAnnounces(s: State, data: seq<char>, r: Written)
    requires InterestMatches(s) && s.conn == Connected && AcceptedOf(s, r) <= |data|
    ensures var n := SendInLoop(s, data, r); n.events == s.events + Announced(s, Send(data, r), n)
  {
    var n := SendInLoop(s, data, r);
    var rest := data[AcceptedOf(s, r)..];
    assert s.events + [] == s.events;
    if Faulted(s, r) {
      assert n.out == s.out == [];
    } else if rest == [] {
      assert n.out == s.out;
    } else {
      assert |n.out| == |s.out| + |rest|;
    }
  }

  /** The callbacks a step queues: high water exactly when the buffer rises to the mark,
      with its new length; write complete exactly when everything has gone out. */
  lemma CallbacksIff(s: State, step: Step)
    requires Invariant(s) && Enabled(s, step)
    ensures Next(s, step).events == s.events + Announced(s, step, Next(s, step))
  {
    hide Conserved, SendInLoop;
    assert s.events + [] == s.events;
    if step.Send? && s.conn == Connected {
      SendAnnounces(s, step.data, step.r);
    }
  }

  /** What the kernel accepted it keeps. */
  lemma KernelOnlyGrows(s: State, step: Step)
    requires Enabled(s, step)
    ensures s.kernel <= Next(s, step).kernel
  {
    match step
    case Send(data, r) =>
      if s.conn == Connected {
        assert Next(s, step).kernel == s.kernel + data[..AcceptedOf(s, r)];
      }
    case Writable(r) =>
      if r.Wrote? {
        assert Next(s, step).kernel in {s.kernel, s.kernel + s.out[..r.n]};
      }
    case _ =>
      assert Next(s, step).kernel == s.kernel;
  }

  /** No byte can be taken or written any more. */
  predicate Over(s: State) {
    s.conn == Disconnected || (s.conn == Disconnecting && s.out == [] && !s.writing)
  }

  lemma OverStays(s: State, step: Step)
    requires Over(s) && (s.conn == Disconnected ==> !s.writing) && Enabled(s, step)
    ensures var n := Next(s, step);
      Over(n) && (n.conn == Disconnected ==> !n.writing) && n.kernel == s.kernel && Taken(n.sends) == Taken(s.sends)
  {
    hide Taken;
    if step.Send? {
      TakenOneMore(s.sends, Attempt(step.data, false));
    }
  }

  // ---- runs ----

  ghost predicate IsRun(start: State, steps: seq<Step>, states: seq<State>) {
    && |states| == |steps| + 1
    && states[0] == start
    && forall i :: 0 <= i < |steps| ==> Enabled(states[i], steps[i]) && states[i + 1] == Next(states[i], steps[i])
  }

  predicate IsStart(s: State) {
    s == Start(s.onComplete, s.onHighWater, s.highWaterMark)
  }

  lemma {:induction false} RunKeeps(start: State, steps: seq<Step>, states: seq<State>, n: nat)
    requires IsStart(start) && IsRun(start, steps, states) && n <= |steps|
    ensures Invariant(states[n])
  {
    hide Conserved, Enabled, Next;
    if n == 0 {
      StartIsFine(start);
    } else {
      RunKeeps(start, steps, states, n - 1);
      StepKeeps(states[n - 1], steps[n - 1]);
    }
  }

  lemma StartIsFine(start: State)
    requires IsStart(start)
    ensures Invariant(start)
  {
  }

  /** In every run: what the kernel accepted and what waits are the taken sends end to end;
      while connected the write interest is set exactly while bytes wait. */
  lemma NothingLostOrReordered(start: State, steps: seq<Step>, states: seq<State>, n: nat)
    requires IsStart(start) && IsRun(start, steps, states) && n <= |steps|
    ensures states[n].kernel + states[n].out == Taken(states[n].sends)
    ensures states[n].delivered + states[n].input == states[n].received
    ensures states[n].conn != Disconnected ==> (states[n].writing <==> states[n].out != [])
  {
    hide Taken;
    RunKeeps(start, steps, states, n);
  }

  lemma {:induction false} OverForGood(start: State, steps: seq<Step>, states: seq<State>, m: nat, n: nat)
    requires IsStart(start) && IsRun(start, steps, states) && m <= n <= |steps| && Over(states[m])
    ensures Over(states[n]) && states[n].kernel == states[m].kernel && Taken(states[n].sends) == Taken(states[m].sends)
  {
    hide Taken, Next, Enabled, Conserved;
    if m < n {
      OverForGood(start, steps, states, m, n - 1);
      RunKeeps(start, steps, states, n - 1);
      OverStays(states[n - 1], steps[n - 1]);
    }
  }

  /** In every run: once the writing half was closed on a live connection, the kernel has
      all that was ever taken, and nothing is taken or written afterwards. */
  lemma NoWriteAfterHalfClose(start: State, steps: seq<Step>, states: seq<State>, m: nat, n: nat)
    requires IsStart(start) && IsRun(start, steps, states) && m <= n <= |steps|
    requires states[m].halfCloses > 0 && states[m].conn != Disconnected
    ensures states[m].out == [] && states[n].kernel == states[m].kernel == Taken(states[n].sends)
  {
    hide Taken;
    RunKeeps(start, steps, states, m);
    assert states[m].kernel + states[m].out == states[m].kernel;
    OverForGood(start, steps, states, m, n);
  }

  lemma InLoopCloses(s: State, step: Step)
    requires Invariant(s) && Enabled(s, step) && step != ForeignShutdown && s.halfCloses <= 1 && !s.queued
    ensures Next(s, step).halfCloses <= 1 && !Next(s, step).queued
  {
    hide Conserved, EventIf, SendInLoop;
    if step.Send? && s.conn == Connected {
      SendKeepsRest(s, step.data, step.r);
    }
  }

  /** In every run of the loop thread alone the writing half is closed at most once. */
  lemma {:induction false} HalfCloseAtMostOnce(start: State, steps: seq<Step>, states: seq<State>, n: nat)
    requires IsStart(start) && IsRun(start, steps, states) && n <= |steps|
    requires ForeignShutdown !in steps[..n]
    ensures states[n].halfCloses <= 1 && !states[n].queued
  {
    hide Conserved, Taken, Next, Enabled;
    if n > 0 {
      assert steps[..n][..n - 1] == steps[..n - 1] && steps[..n][n - 1] == steps[n - 1];
      HalfCloseAtMostOnce(start, steps, states, n - 1);
      RunKeeps(start, steps, states, n - 1);
      InLoopCloses(states[n - 1], steps[n - 1]);
    }
  }

  /** In every run: a connection that shuts down and has nothing left to write has closed
      its writing half, or another thread's shutdown is about to. */
  lemma HalfCloseIsNotForgotten(start: State, steps: seq<Step>, states: seq<State>, n: nat)
    requires IsStart(start) && IsRun(start, steps, states) && n <= |steps|
    requires states[n].conn == Disconnecting && states[n].out == []
    ensures states[n].halfCloses > 0 || states[n].queued
  {
    RunKeeps(start, steps, states, n);
  }

  // ---- another thread's shutdown, over runs ----

  /** Another thread's shutdown takes effect. */
  predicate Asks(s: State, step: Step) {
    step == ForeignShutdown && s.conn == Connected
  }

  /** What it queued gets its turn with nothing left to write. */
  predicate TurnAfterDrain(s: State, step: Step) {
    step == RunQueued && s.out == []
  }

  /** `busy` remembers whether bytes were waiting at the one shutdown that took effect. */
  ghost predicate Remembers(steps: seq<Step>, states: seq<State>, n: nat)
    requires n <= |steps| < |states|
  {
    && (states[n].conn in {Connecting, Connected} ==> forall i :: 0 <= i < n ==> !Asks(states[i], steps[i]))
    && (forall i :: 0 <= i < n && Asks(states[i], steps[i]) ==> (states[n].busy <==> states[i].out != []))
    && (states[n].queued ==> exists i :: 0 <= i < n && Asks(states[i], steps[i]))
  }

  /** What one step does to what a shutdown needs to know. */
  lemma ShutdownFields(s: State, step: Step)
    requires HalfCloseOk(s) && InterestMatches(s) && Enabled(s, step)
    requires s.conn != Disconnected
    ensures var n := Next(s, step);
      if Asks(s, step) then n.conn == Disconnecting && n.queued && (n.busy <==> s.out != [])
      else
        n.busy == s.busy && (n.queued ==> s.queued)
        && (s.conn == Disconnecting ==> n.conn !in {Connecting, Connected})
  {
    hide SendInLoop, Taken;
    if step.Send? && s.conn == Connected {
      SendKeepsRest(s, step.data, step.r);
    }
  }

  lemma SecondStep(s: State, step: Step)
    requires Invariant(s) && Enabled(s, step) && s.conn != Disconnected && Next(s, step).conn != Disconnected
    ensures Next(s, step).halfCloses == 2 <==> s.halfCloses == 2 || (TurnAfterDrain(s, step) && s.busy)
  {
    hide SendInLoop, Conserved;
    if step.Send? && s.conn == Connected {
      SendKeepsRest(s, step.data, step.r);
    }
  }

  lemma {:induction false} AliveBefore(start: State, steps: seq<Step>, states: seq<State>, m: nat, n: nat)
    requires IsRun(start, steps, states) && m <= n <= |steps| && states[n].conn != Disconnected
    ensures states[m].conn != Disconnected
  {
    hide Next, Enabled;
    if m < n {
      AliveStep(states[n - 1], steps[n - 1]);
      AliveBefore(start, steps, states, m, n - 1);
    }
  }

  lemma AliveStep(s: State, step: Step)
    requires Enabled(s, step) && Next(s, step).conn != Disconnected
    ensures s.conn != Disconnected
  {
  }

  lemma {:induction false} RunRemembers(start: State, steps: seq<Step>, states: seq<State>, n: nat)
    requires IsStart(start) && IsRun(start, steps, states) && n <= |steps| && states[n].conn != Disconnected
    ensures Remembers(steps, states, n)
  {
    hide Conserved, Next, Enabled, Taken;
    if n > 0 {
      AliveBefore(start, steps, states, n - 1, n);
      RunKeeps(start, steps, states, n - 1);
      ShutdownFields(states[n - 1], steps[n - 1]);
      RunRemembers(start, steps, states, n - 1);
    }
  }

  lemma {:induction false} TwiceByTurn(start: State, steps: seq<Step>, states: seq<State>, n: nat)
    requires IsStart(start) && IsRun(start, steps, states) && n <= |steps| && states[n].conn != Disconnected
    ensures states[n].halfCloses == 2 <==>
              exists j :: 0 <= j < n && TurnAfterDrain(states[j], steps[j]) && states[j].busy
  {
    hide Conserved, Next, Enabled, Taken;
    if n > 0 {
      AliveBefore(start, steps, states, n - 1, n);
      RunKeeps(start, steps, states, n - 1);
      SecondStep(states[n - 1], steps[n - 1]);
      TwiceByTurn(start, steps, states, n - 1);
    }
  }

  /** In every run: a live connection has closed its writing half twice if and only if
      another thread shut it down while bytes were waiting, and what that queued got its
      turn with nothing left to write. */
  lemma TwiceIff(start: State, steps: seq<Step>, states: seq<State>, n: nat)
    requires IsStart(start) && IsRun(start, steps, states) && n <= |steps| && states[n].conn != Disconnected
    ensures states[n].halfCloses <= 2
    ensures states[n].halfCloses == 2 <==>
              exists i, j :: 0 <= i < j < n && Asks(states[i], steps[i]) && states[i].out != []
                             && TurnAfterDrain(states[j], steps[j])
  {
    hide Conserved, Next, Taken;
    RunKeeps(start, steps, states, n);
    TwiceByTurn(start, steps, states, n);
    forall j | 0 <= j < n && TurnAfterDrain(states[j], steps[j])
      ensures states[j].busy <==> exists i :: 0 <= i < j && Asks(states[i], steps[i]) && states[i].out != []
    {
      AliveBefore(start, steps, states, j, n);
      RunRemembers(start, steps, states, j);
    }
  }

  ghost predicate Reaches(start: State, s: State) {
    exists steps, states :: IsRun(start, steps, states) && states[|steps|] == s
  }

  lemma AtStart(start: State)
    ensures Reaches(start, start)
  {
    var none: seq<Step> := [];
    assert IsRun(start, none, [start]) && [start][|none|] == start;
  }

  lemma ThenStep(start: State, s: State, step: Step)
    requires Reaches(start, s) && Enabled(s, step)
    ensures Reaches(start, Next(s, step))
  {
    hide Enabled, Next;
    var steps, states :| IsRun(start, steps, states) && states[|steps|] == s;
    assert IsRun(start, steps + [step], states + [Next(s, step)]);
    assert (states + [Next(s, step)])[|steps + [step]|] == Next(s, step);
  }

  /** A byte waits, and another thread shuts down. */
  lemma ShutDownWhileWaiting(start: State, c: char) returns (s: State)
    requires IsStart(start)
    ensures Reaches(start, s) && s.conn == Disconnecting && s.queued && s.out == [c] && s.writing && s.halfCloses == 0
  {
    hide Reaches;
    AtStart(start);
    ThenStep(start, start, ConnectEstablished);
    s := Next(start, ConnectEstablished);
    ThenStep(start, s, Send([c], WouldBlock));
    s := Next(s, Send([c], WouldBlock));
    ThenStep(start, s, ForeignShutdown);
    s := Next(s, ForeignShutdown);
  }

  /** It happens: the byte goes out, which half-closes, and the queued shutdown finds
      nothing left to write. */
  lemma HalfClosedTwice(start: State, c: char)
    requires IsStart(start)
    ensures exists s: State :: Reaches(start, s) && s.conn == Disconnecting && s.halfCloses == 2
  {
    hide Reaches;
    var s := ShutDownWhileWaiting(start, c);
    ThenStep(start, s, Writable(Wrote(1)));
    s := Next(s, Writable(Wrote(1)));
    assert s.out == [] && s.halfCloses == 1;
    ThenStep(start, s, RunQueued);
    s := Next(s, RunQueued);
  }
}
