/**
  The connection as the program keeps it: its state, the channel's write interest and
  two buffers, updated in place by the handlers.  Every handler is proved to be the step
  of `TcpConnectionModel` it stands for, with the real buffers in place of byte queues.
 */
module TcpConnectionObject {
  import opened TcpConnectionModel
  import opened TcpConnectionRuns
  import opened Buffers

  class TcpConnection {
    var state: Conn
    var writing: bool
    const inputBuffer: Buffer
    const outputBuffer: Buffer
    const onComplete: bool
    const onHighWater: bool
    const highWaterMark: nat
    var shutdownQueued: bool
    ghost var busy: bool
    ghost var kernel: seq<char>
    ghost var halfCloses: nat
    ghost var sends: seq<Attempt>
    ghost var received: seq<char>
    ghost var delivered: seq<char>
    ghost var events: seq<Event>

    ghost function Repr(): set<object>
      reads this, inputBuffer, outputBuffer
    {
      {this, inputBuffer, inputBuffer.buffer, outputBuffer, outputBuffer.buffer}
    }

    ghost predicate Valid()
      reads this, inputBuffer, outputBuffer
    {
      && inputBuffer.Valid() && outputBuffer.Valid()
      && inputBuffer != outputBuffer && inputBuffer.buffer != outputBuffer.buffer
    }

    ghost function View(): State
      requires Valid()
      reads this, inputBuffer, inputBuffer.buffer, outputBuffer, outputBuffer.buffer
    {
      State(state, writing, outputBuffer.Contents(), inputBuffer.Contents(), onComplete, onHighWater, highWaterMark,
            shutdownQueued, busy, kernel, halfCloses, sends, received, delivered, events)
    }

    constructor (onComplete: bool, onHighWater: bool, highWaterMark: nat)
      ensures Valid() && fresh(Repr()) && View() == Start(onComplete, onHighWater, highWaterMark)
    {
      this.onComplete, this.onHighWater, this.highWaterMark := onComplete, onHighWater, highWaterMark;
      state, writing, shutdownQueued := Connecting, false, false;
      busy, kernel, halfCloses, sends, received, delivered, events := false, [], 0, [], [], [], [];
      inputBuffer := new Buffer();
      outputBuffer := new Buffer();
    }

    method ConnectEstablished()
      requires Valid() && Enabled(View(), Step.ConnectEstablished)
      modifies this`state
      ensures Valid() && View() == Next(old(View()), Step.ConnectEstablished)
    {
      state := Connected;
    }

    method Send(data: seq<char>, r: Written)
      requires Valid() && Enabled(View(), Step.Send(data, r))
      modifies Repr()
      ensures Valid() && fresh(Repr() - old(Repr()))
      ensures View() == Next(old(View()), Step.Send(data, r))
    {
      if state == Connected {
        SendInLoop(data, r);
      } else {
        sends := sends + [Attempt(data, false)];
      }
    }

    /** The write system call, when nothing waits to be written. */
    method WriteNow(data: seq<char>, r: Written) returns (nwrote: nat, faultError: bool)
      requires Valid() && AcceptedOf(View(), r) <= |data|
      modifies this`kernel, this`sends, this`events
      ensures Valid() && View() == TcpConnectionModel.WriteNow(old(View()), data, r)
      ensures nwrote == AcceptedOf(old(View()), r) && (faultError <==> Faulted(old(View()), r))
    {
      nwrote, faultError := 0, false;
      if !writing && outputBuffer.ReadableBytes() == 0 {
        match r {
          case Wrote(n) =>
            nwrote := n;
            if |data| - nwrote == 0 && onComplete {
              events := events + [WriteComplete];
            }
          case WouldBlock =>
          case OtherError =>
          case Broken => faultError := true;
        }
      }
      kernel, sends := kernel + data[..nwrote], sends + [Attempt(data, !faultError)];
    }

    /** What was not written waits in the output buffer for the socket to be writable. */
    method KeepRest(rest: seq<char>)
      requires Valid()
      modifies this`writing, this`events, outputBuffer, outputBuffer.buffer
      ensures Valid() && fresh(Repr() - old(Repr()))
      ensures View() == TcpConnectionModel.KeepRest(old(View()), rest)
    {
      var oldlen := outputBuffer.ReadableBytes();
      if oldlen + |rest| >= highWaterMark && oldlen < highWaterMark && onHighWater {
        events := events + [HighWater(oldlen + |rest|)];
      }
      outputBuffer.Append(rest);
      if !writing {
        writing := true;
      }
    }

    method SendInLoop(data: seq<char>, r: Written)
      requires Valid() && AcceptedOf(View(), r) <= |data|
      modifies Repr()
      ensures Valid() && fresh(Repr() - old(Repr()))
      ensures View() == TcpConnectionModel.SendInLoop(old(View()), data, r)
    {
      var nwrote, faultError := WriteNow(data, r);
      if !faultError && |data| - nwrote > 0 {
        KeepRest(data[nwrote..]);
      }
    }

    /** In the loop thread the second half runs at once; another thread queues it. */
    method Shutdown(inLoopThread: bool)
      requires Valid()
      modifies this`state, this`halfCloses, this`shutdownQueued, this`busy
      ensures Valid()
      ensures View() == Next(old(View()), if inLoopThread then Step.Shutdown else ForeignShutdown)
    {
      if state == Connected {
        state := Disconnecting;
        if inLoopThread {
          ShutdownInLoop();
        } else {
          shutdownQueued, busy := true, writing;
        }
      }
    }

    method ShutdownInLoop()
      requires Valid()
      modifies this`halfCloses
      ensures Valid() && View() == TcpConnectionModel.ShutdownInLoop(old(View()))
    {
      if !writing {
        halfCloses := halfCloses + 1;
      }
    }

    /** The loop runs what another thread's shutdown queued. */
    method RunQueuedShutdown()
      requires Valid() && Enabled(View(), RunQueued)
      modifies this`halfCloses, this`shutdownQueued
      ensures Valid() && View() == Next(old(View()), RunQueued)
    {
      shutdownQueued := false;
      ShutdownInLoop();
    }

    /** One write of waiting bytes; says whether any went out. */
    method WriteSome(r: Written) returns (wrote: bool)
      requires Valid() && (r.Wrote? ==> r.n <= |View().out|)
      modifies this`kernel, outputBuffer`readerIndex, outputBuffer`writerIndex
      ensures Valid() && wrote == (r.Wrote? && r.n > 0)
      ensures View() == if wrote then old(View()).(kernel := old(View()).kernel + old(View()).out[..r.n],
                                                   out := old(View()).out[r.n..])
                        else old(View())
    {
      wrote := r.Wrote? && r.n > 0;
      if wrote {
        ghost var bytes := outputBuffer.WriteFd(r.n);
        kernel := kernel + bytes;
        outputBuffer.Retrieve(r.n);
      }
    }

    method HandleWrite(r: Written)
      requires Valid() && Enabled(View(), Writable(r))
      modifies this`writing, this`kernel, this`halfCloses, this`events
      modifies outputBuffer`readerIndex, outputBuffer`writerIndex
      ensures Valid() && View() == Next(old(View()), Writable(r))
    {
      if writing {
        var wrote := WriteSome(r);
        if wrote && outputBuffer.ReadableBytes() == 0 {
          writing := false;
          if onComplete {
            events := events + [WriteComplete];
          }
          if state == Disconnecting {
            ShutdownInLoop();
          }
        }
      }
    }

    /** Reads into the input buffer and lets the message callback take `eats` bytes. */
    method HandleRead(result: ReadResult, eats: nat) returns (message: string)
      requires Valid() && Enabled(View(), Readable(result, eats))
      requires result.Got? ==> |result.bytes| <= ReadLimit(inputBuffer.WritableBytes())
      modifies this, inputBuffer, inputBuffer.buffer
      ensures Valid() && fresh(Repr() - old(Repr()))
      ensures View() == Next(old(View()), Readable(result, eats))
      ensures message == View().delivered[|old(View()).delivered|..]
    {
      message := "";
      var bytes := if result.Got? then result.bytes else [];
      var n := inputBuffer.ReadFd(bytes, result.Failed?);
      if n > 0 {
        received := received + bytes;
        message := inputBuffer.RetrieveAsString(eats);
        delivered := delivered + message;
      } else if n == 0 {
        HandleClose();
      }
    }

    method HandleClose()
      requires Valid()
      modifies this`state, this`writing
      ensures Valid() && View() == TcpConnectionModel.HandleClose(old(View()))
    {
      state := Disconnected;
      writing := false;
    }

    method ConnectDestroyed()
      requires Valid()
      modifies this`state, this`writing
      ensures Valid() && View() == Next(old(View()), Step.ConnectDestroyed)
    {
      if state == Connected {
        state := Disconnected;
        writing := false;
      }
    }

    /** Whatever happens next, its handler runs. */
    method Handle(step: Step)
      requires Valid() && Enabled(View(), step) && ReadFits(step)
      modifies Repr()
      ensures Valid() && fresh(Repr() - old(Repr()))
      ensures View() == Next(old(View()), step)
    {
      hide Next;
      match step {
        case ConnectEstablished => ConnectEstablished();
        case Send(data, r) => Send(data, r);
        case Writable(r) => HandleWrite(r);
        case Readable(result, eats) =>
          ReadLimitBounds(inputBuffer.WritableBytes());
          var _ := HandleRead(result, eats);
        case Shutdown => Shutdown(true);
        case ForeignShutdown => Shutdown(false);
        case RunQueued => RunQueuedShutdown();
        case Close => Close();
        case ConnectDestroyed => ConnectDestroyed();
      }
    }

    method Close()
      requires Valid() && Enabled(View(), Step.Close)
      modifies this`state, this`writing
      ensures Valid() && View() == Next(old(View()), Step.Close)
    {
      HandleClose();
    }
  }

  /** A read brings no more than one call can take in, whatever room the buffer has. */
  predicate ReadFits(step: Step) {
    step.Readable? && step.result.Got? ==> |step.result.bytes| <= EXTRA_SIZE
  }

  /** A whole life: the object follows any run of the model, so that the theorems on runs
      are theorems on what the peer receives from it. */
  method Live(onComplete: bool, onHighWater: bool, highWaterMark: nat, steps: seq<Step>, ghost states: seq<State>)
    returns (connection: TcpConnection)
    requires IsRun(Start(onComplete, onHighWater, highWaterMark), steps, states)
    requires forall i :: 0 <= i < |steps| ==> ReadFits(steps[i])
    ensures fresh(connection) && connection.Valid() && connection.View() == states[|steps|]
    ensures connection.View().kernel + connection.View().out == AllCommitted(steps, states, |steps|)
    ensures |connection.View().kernel| == AllWritten(steps, states, |steps|)
  {
    hide Next, Enabled, Taken, ReadFits, AllCommitted, AllWritten;
    connection := new TcpConnection(onComplete, onHighWater, highWaterMark);
    for i := 0 to |steps|
      invariant connection.Valid() && connection.View() == states[i]
      invariant fresh(connection.Repr())
    {
      connection.Handle(steps[i]);
    }
    StreamsAre(Start(onComplete, onHighWater, highWaterMark), steps, states, |steps|);
  }
}
