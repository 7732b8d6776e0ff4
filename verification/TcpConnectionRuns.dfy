/**
  What runs of a connection do, told from their steps alone: which bytes have to reach the
  kernel, how many have, what was read, and which state the connection is in.
 */
module TcpConnectionRuns {
  import opened TcpConnectionModel

  /** The bytes a send commits the connection to: all of them while it is connected, unless
      they are written at once and the peer is gone. */
  function Committed(s: State, step: Step): seq<char> {
    if step.Send? && s.conn == Connected && !(s.out == [] && step.r == Broken) then step.data else []
  }

  /** How many bytes the kernel took: of a send when nothing waits, or of what waits. */
  function Written(s: State, step: Step): nat {
    match step
    case Send(_, r) => if s.conn == Connected && s.out == [] && r.Wrote? then r.n else 0
    case Writable(r) => if s.conn != Disconnected && s.out != [] && r.Wrote? then r.n else 0
    case _ => 0
  }

  function Read(step: Step): seq<char> {
    if step.Readable? && step.result.Got? then step.result.bytes else []
  }

  function Eaten(step: Step): nat {
    if Read(step) != [] then step.eats else 0
  }

  function AllCommitted(steps: seq<Step>, states: seq<State>, n: nat): seq<char>
    requires n <= |steps| <= |states|
  {
    if n == 0 then [] else AllCommitted(steps, states, n - 1) + Committed(states[n - 1], steps[n - 1])
  }

  function AllWritten(steps: seq<Step>, states: seq<State>, n: nat): nat
    requires n <= |steps| <= |states|
  {
    if n == 0 then 0 else AllWritten(steps, states, n - 1) + Written(states[n - 1], steps[n - 1])
  }

  function AllRead(steps: seq<Step>, n: nat): seq<char>
    requires n <= |steps|
  {
    if n == 0 then [] else AllRead(steps, n - 1) + Read(steps[n - 1])
  }

  function AllEaten(steps: seq<Step>, n: nat): nat
    requires n <= |steps|
  {
    if n == 0 then 0 else AllEaten(steps, n - 1) + Eaten(steps[n - 1])
  }

  lemma DirectSendMoves(s: State, data: seq<char>, r: Written)
    requires s.out == [] && !s.writing && (r.Wrote? ==> r.n <= |data|)
    ensures var n := SendInLoop(s, data, r);
      && n.kernel + n.out == s.kernel + (if r == Broken then [] else data)
      && |n.kernel| == |s.kernel| + (if r.Wrote? then r.n else 0)
  {
    hide EventIf, CrossesMark;
    var k, n := AcceptedOf(s, r), SendInLoop(s, data, r);
    Moves(s.kernel, data, k);
    assert n.kernel == s.kernel + data[..k];
    if r == Broken {
      assert n.out == [] && n.kernel + n.out == s.kernel == s.kernel + [];
    } else {
      assert n.out == data[k..];
    }
  }

  lemma QueuedSendMoves(s: State, data: seq<char>, r: Written)
    requires s.out != [] && s.writing
    ensures var n := SendInLoop(s, data, r); n.kernel == s.kernel && n.out == s.out + data
  {
    hide EventIf, CrossesMark;
    assert s.kernel + data[..0] == s.kernel && data[0..] == data;
    if data == [] { assert s.out + data == s.out; }
  }

  lemma SendMoves(s: State, data: seq<char>, r: Written)
    requires InterestMatches(s) && s.conn == Connected && AcceptedOf(s, r) <= |data|
    ensures var n := SendInLoop(s, data, r);
      && n.kernel + n.out == (s.kernel + s.out) + Committed(s, Send(data, r))
      && |n.kernel| == |s.kernel| + Written(s, Send(data, r))
  {
    hide SendInLoop;
    if s.out == [] {
      DirectSendMoves(s, data, r);
      assert s.kernel + s.out == s.kernel;
    } else {
      QueuedSendMoves(s, data, r);
      assert s.kernel + (s.out + data) == (s.kernel + s.out) + data;
    }
  }

  lemma WriteMoves(s: State, r: Written)
    requires InterestMatches(s) && (r.Wrote? ==> r.n <= |s.out|)
    ensures var n := HandleWrite(s, r);
      n.kernel + n.out == s.kernel + s.out && |n.kernel| == |s.kernel| + Written(s, Writable(r))
  {
    hide EventIf;
    if r.Wrote? { Moves(s.kernel, s.out, r.n); }
  }

  lemma StepMoves(s: State, step: Step)
    requires InterestMatches(s) && Enabled(s, step)
    ensures var n := Next(s, step);
      && n.kernel + n.out == (s.kernel + s.out) + Committed(s, step)
      && |n.kernel| == |s.kernel| + Written(s, step)
  {
    hide SendInLoop, HandleWrite;
    assert (s.kernel + s.out) + [] == s.kernel + s.out;
    match step
    case Send(data, r) => if s.conn == Connected { SendMoves(s, data, r); }
    case Writable(r) => WriteMoves(s, r);
    case _ =>
  }

  lemma SendingReadsNothing(s: State, data: seq<char>, r: Written)
    requires AcceptedOf(s, r) <= |data|
    ensures var n := SendInLoop(s, data, r);
      n.received == s.received && n.delivered == s.delivered && n.conn == s.conn
  {
    hide EventIf, CrossesMark, Faulted, AcceptedOf, Direct;
    var w := WriteNow(s, data, r);
    assert w.received == s.received && w.delivered == s.delivered && w.conn == s.conn;
  }

  lemma WritingReadsNothing(s: State, r: Written)
    requires r.Wrote? ==> r.n <= |s.out|
    ensures var n := HandleWrite(s, r);
      n.received == s.received && n.delivered == s.delivered && n.conn == s.conn
  {
  }

  lemma StepReads(s: State, step: Step)
    requires Enabled(s, step)
    ensures var n := Next(s, step);
      && n.received == s.received + Read(step)
      && |n.delivered| == |s.delivered| + Eaten(step)
  {
    hide SendInLoop, HandleWrite;
    assert s.received + [] == s.received;
    match step
    case Send(data, r) => if s.conn == Connected { SendingReadsNothing(s, data, r); }
    case Writable(r) => WritingReadsNothing(s, r);
    case _ =>
  }

  /** In every run: what the kernel took and what waits are, end to end, the data of the
      sends that have to be sent; the kernel took as many bytes as its answers say; and what
      the message callback took and what waits for it are all bytes read, in order. */
  lemma {:induction false} StreamsAre(start: State, steps: seq<Step>, states: seq<State>, n: nat)
    requires IsStart(start) && IsRun(start, steps, states) && n <= |steps|
    ensures states[n].kernel + states[n].out == AllCommitted(steps, states, n)
    ensures |states[n].kernel| == AllWritten(steps, states, n)
    ensures states[n].delivered + states[n].input == AllRead(steps, n)
    ensures |states[n].delivered| == AllEaten(steps, n)
  {
    hide Next, Enabled, Taken, Committed, Written, Read, Eaten, InterestMatches, HalfCloseOk;
    NothingLostOrReordered(start, steps, states, n);
    if n > 0 {
      StreamsAre(start, steps, states, n - 1);
      NothingLostOrReordered(start, steps, states, n - 1);
      RunKeeps(start, steps, states, n - 1);
      StepMoves(states[n - 1], steps[n - 1]);
      StepReads(states[n - 1], steps[n - 1]);
    }
  }

  // ---- the connection's state ----

  /** The peer closed, or the connection hung up. */
  predicate Closes(step: Step) {
    step == Close || (step.Readable? && step.result == Got([]))
  }

  predicate Leaves(step: Step) {
    Closes(step) || step == Shutdown || step == ForeignShutdown || step == ConnectDestroyed
  }

  predicate Cuts(s: State, step: Step) {
    Closes(step) || (step == ConnectDestroyed && s.conn == Connected)
  }

  lemma StepConn(s: State, step: Step)
    requires Enabled(s, step)
    ensures var c := Next(s, step).conn;
      && (c == Connected <==> step == ConnectEstablished || (s.conn == Connected && !Leaves(step)))
      && (c == Disconnected <==> s.conn == Disconnected || Cuts(s, step))
      && (c == Connecting <==> s.conn == Connecting && step != ConnectEstablished)
  {
    hide SendInLoop, HandleWrite;
    match step
    case Send(data, r) => if s.conn == Connected { SendingReadsNothing(s, data, r); }
    case Writable(r) => WritingReadsNothing(s, r);
    case _ =>
  }

  /** The end of the stream disconnects, with no write interest left. */
  lemma EndOfStream(s: State, eats: nat)
    requires Enabled(s, Readable(Got([]), eats))
    ensures var n := Next(s, Readable(Got([]), eats));
      n.conn == Disconnected && !n.writing && n.kernel == s.kernel && n.out == s.out
  {
  }

  /** Established at `i`, and nothing since that leaves that state. */
  ghost predicate OpenSince(steps: seq<Step>, i: nat, n: nat)
    requires i < n <= |steps|
  {
    steps[i] == ConnectEstablished && forall j :: i < j < n ==> !Leaves(steps[j])
  }

  /** In every run: connected means established and not left since; disconnected means that
      the stream ended, the connection hung up, or it was destroyed while connected;
      disconnecting is everything else that was established. */
  lemma {:induction false} ConnIs(start: State, steps: seq<Step>, states: seq<State>, n: nat)
    requires IsStart(start) && IsRun(start, steps, states) && n <= |steps|
    ensures states[n].conn == Connected <==> exists i :: 0 <= i < n && OpenSince(steps, i, n)
    ensures states[n].conn == Disconnected <==> exists j :: 0 <= j < n && Cuts(states[j], steps[j])
    ensures states[n].conn == Connecting <==> forall i :: 0 <= i < n ==> steps[i] != ConnectEstablished
  {
    hide Next, Enabled, Leaves, Cuts;
    if n > 0 {
      ConnIs(start, steps, states, n - 1);
      StepConn(states[n - 1], steps[n - 1]);
      if states[n - 1].conn == Connected && !Leaves(steps[n - 1]) {
        var i :| 0 <= i < n - 1 && OpenSince(steps, i, n - 1);
        assert OpenSince(steps, i, n);
      }
      if steps[n - 1] == ConnectEstablished {
        assert OpenSince(steps, n - 1, n);
      }
      forall i | 0 <= i < n - 1 && OpenSince(steps, i, n) ensures states[n].conn == Connected {
        assert OpenSince(steps, i, n - 1);
      }
    }
  }
}
