/**
  The double-buffered log as the program keeps it: buffer objects that are moved from
  owner to owner.  Each method is one step of `AsyncLoggingModel` on their contents.
 */
module AsyncLoggingObject {
  import opened Options
  import opened Sequences
  import opened AsyncLoggingModel
  import opened FixedBuffers

  ghost function Text(b: FixedBuffer?): Option<string>
    requires b != null ==> b.Valid()
    reads if b == null then {} else {b, b.data}
  {
    if b == null then None else Some(b.Contents())
  }

  ghost function Texts(bs: seq<FixedBuffer>): (ts: seq<string>)
    requires forall b :: b in bs ==> b.Valid()
    reads bs, set b | b in bs :: b.data
    ensures |ts| == |bs| && forall i :: 0 <= i < |bs| ==> ts[i] == bs[i].Contents()
  {
    if bs == [] then [] else Texts(bs[..|bs| - 1]) + [bs[|bs| - 1].Contents()]
  }

  class AsyncLogging {
    const capacity: nat
    var currentBuffer: FixedBuffer?
    var nextBuffer: FixedBuffer?
    var buffers: seq<FixedBuffer>
    var newBuffer1: FixedBuffer?
    var newBuffer2: FixedBuffer?
    var buffersToWrite: seq<FixedBuffer>
    var output: string
    ghost var written: nat
    ghost var phase: Phase
    ghost var accepted: string
    /** Every buffer made so far. */
    ghost var made: set<FixedBuffer>

    ghost predicate Made(b: FixedBuffer?)
      reads `made
    {
      b != null ==> b in made
    }

    /** All buffers made so far, with their arrays. */
    ghost function Repr(): set<object>
      reads `made
    {
      made + set b | b in made :: b.data
    }

    ghost predicate BuffersValid()
      reads `made, made
    {
      && (forall b :: b in made ==> b.Valid() && b.data.Length == capacity)
      && (forall b, c :: b in made && c in made && b != c ==> b.data != c.data)
    }

    ghost predicate Queued(b: FixedBuffer)
      reads `currentBuffer, `nextBuffer, `newBuffer1, `newBuffer2
    {
      b != currentBuffer && b != nextBuffer && b != newBuffer1 && b != newBuffer2
    }

    /** No two of the variables, and no two positions of the vectors, hold the same buffer. */
    ghost predicate OneOwner()
      reads `currentBuffer, `nextBuffer, `newBuffer1, `newBuffer2, `buffers, `buffersToWrite
    {
      && Distinct(buffers) && Distinct(buffersToWrite)
      && (forall b :: b in buffers ==> b !in buffersToWrite && Queued(b))
      && (forall b :: b in buffersToWrite ==> Queued(b))
      && (currentBuffer != null ==>
            currentBuffer != nextBuffer && currentBuffer != newBuffer1 && currentBuffer != newBuffer2)
      && (nextBuffer != null ==> nextBuffer != newBuffer1 && nextBuffer != newBuffer2)
      && (newBuffer1 != null ==> newBuffer1 != newBuffer2)
    }

    ghost predicate Valid()
      reads this, made
    {
      && BuffersValid() && OneOwner()
      && currentBuffer != null
      && Made(currentBuffer) && Made(nextBuffer) && Made(newBuffer1) && Made(newBuffer2)
      && (forall b :: b in buffers ==> b in made) && (forall b :: b in buffersToWrite ==> b in made)
    }

    ghost function View(): State
      requires Valid()
      reads this, made, set b | b in made :: b.data
    {
      State(capacity, currentBuffer.Contents(), Text(nextBuffer), Texts(buffers),
            Text(newBuffer1), Text(newBuffer2), Texts(buffersToWrite), written, phase, output, accepted)
    }

    constructor (capacity: nat := LARGE_BUFFER_SIZE)
      ensures Valid() && View() == Start(capacity)
    {
      this.capacity := capacity;
      var b := new FixedBuffer(capacity);
      var c := new FixedBuffer(capacity);
      var d := new FixedBuffer(capacity);
      var e := new FixedBuffer(capacity);
      currentBuffer, nextBuffer, newBuffer1, newBuffer2 := b, c, d, e;
      buffers, buffersToWrite, output := [], [], "";
      written, phase, accepted := 0, Waiting, "";
      made := {b, c, d, e};
    }

    /** The front end's critical section. */
    method Append(line: string)
      requires Valid() && Enabled(View(), Step.Append(line))
      modifies this, currentBuffer, currentBuffer.data
      ensures Valid() && View() == Next(old(View()), Step.Append(line))
      ensures old(Repr()) <= Repr() && fresh(Repr() - old(Repr()))
    {
      hide Valid, Texts, Text;
      CurrentIsFine();
      if currentBuffer.Avail() > |line| {
        StoreLine(line);
      } else {
        Rotate();
      }
    }

    lemma CurrentIsFine()
      requires Valid()
      ensures currentBuffer != null && currentBuffer.Valid() && View().current == currentBuffer.Contents()
      ensures currentBuffer.Avail() == capacity - |View().current|
      ensures View().capacity == capacity
    {
    }

    method StoreLine(line: string)
      requires Valid() && currentBuffer.Avail() > |line|
      modifies `accepted, currentBuffer, currentBuffer.data
      ensures Valid()
      ensures var s := old(View()); View() == s.(current := s.current + line, accepted := s.accepted + line)
    {
      hide Texts;
      assert forall b :: b in buffers ==> b != currentBuffer && b.data != currentBuffer.data;
      assert forall b :: b in buffersToWrite ==> b != currentBuffer && b.data != currentBuffer.data;
      currentBuffer.Append(line);
      accepted := accepted + line;
    }

    /** A buffer that no variable and no vector holds. */
    ghost predicate Free(b: FixedBuffer)
      reads `made, `currentBuffer, `nextBuffer, `newBuffer1, `newBuffer2, `buffers, `buffersToWrite
    {
      b in made && Queued(b) && b !in buffers && b !in buffersToWrite
    }

    /** `buffers_.push_back(std::move(currentBuffer_))`, and `b` is the current one. */
    method PushCurrent(b: FixedBuffer)
      requires Valid() && Free(b)
      modifies `buffers, `currentBuffer
      ensures Valid()
      ensures var s := old(View()); View() == s.(buffers := s.buffers + [s.current], current := b.Contents())
      ensures currentBuffer == b
    {
      hide Texts, Distinct;
      TextsOneMore(buffers, currentBuffer);
      DistinctOneMore<FixedBuffer>(buffers, currentBuffer);
      buffers := buffers + [currentBuffer];
      currentBuffer := b;
    }

    method TakeNext() returns (b: FixedBuffer)
      requires Valid() && nextBuffer != null
      modifies `nextBuffer
      ensures Valid() && Free(b) && Some(b.Contents()) == old(View()).next
      ensures View() == old(View()).(next := None)
      ensures b == old(nextBuffer)
    {
      b := nextBuffer;
      nextBuffer := null;
    }

    method TakeSpare1() returns (b: FixedBuffer)
      requires Valid() && newBuffer1 != null
      modifies `newBuffer1
      ensures Valid() && Free(b) && Some(b.Contents()) == old(View()).spare1
      ensures View() == old(View()).(spare1 := None)
    {
      b := newBuffer1;
      newBuffer1 := null;
    }

    method MakeBuffer() returns (b: FixedBuffer)
      requires Valid()
      modifies `made
      ensures Valid() && Free(b) && b.Contents() == "" && View() == old(View())
      ensures old(Repr()) <= Repr() && fresh(Repr() - old(Repr()))
    {
      hide Distinct, Texts;
      b := new FixedBuffer(capacity);
      made := made + {b};
    }

    /** The full buffer joins the filled ones; the one standing by, or a new one, replaces it. */
    method Rotate()
      requires Valid()
      modifies this
      ensures Valid()
      ensures var s := old(View());
        View() == s.(buffers := s.buffers + [s.current], next := None,
                     current := if s.next.Some? then s.next.value else "")
      ensures old(nextBuffer) != null ==> currentBuffer == old(nextBuffer) && made == old(made)
      ensures old(Repr()) <= Repr() && fresh(Repr() - old(Repr()))
    {
      hide Valid, Texts, Text;
      Counts();
      var b;
      if nextBuffer != null {
        b := TakeNext();
      } else {
        b := MakeBuffer();
      }
      PushCurrent(b);
    }

    static lemma TextsOneMore(bs: seq<FixedBuffer>, b: FixedBuffer)
      requires b.Valid() && forall c :: c in bs ==> c.Valid()
      ensures Texts(bs + [b]) == Texts(bs) + [b.Contents()]
    {
      assert (bs + [b])[..|bs|] == bs;
    }

    /** The back end's critical section, after its wait. */
    method SwapOut()
      requires Valid() && Enabled(View(), Step.SwapOut)
      modifies this
      ensures Valid() && View() == Next(old(View()), Step.SwapOut) && Repr() == old(Repr())
    {
      hide Valid, Texts, Text;
      Counts();
      var b := TakeSpare1();
      PushCurrent(b);
      Counts();
      if nextBuffer == null {
        RefillNext();
      }
      SwapVectors();
    }

    method RefillNext()
      requires Valid() && nextBuffer == null
      modifies `nextBuffer, `newBuffer2
      ensures Valid()
      ensures var s := old(View()); View() == s.(next := s.spare2, spare2 := None)
    {
      hide Texts;
      nextBuffer := newBuffer2;
      newBuffer2 := null;
    }

    /** `buffersToWrite.swap(buffers_)`: the back end now owns the filled buffers. */
    method SwapVectors()
      requires Valid()
      modifies `buffers, `buffersToWrite, `written, `phase
      ensures Valid()
      ensures var s := old(View());
        View() == s.(toWrite := s.buffers, buffers := s.toWrite, written := 0, phase := Writing)
    {
      hide Texts;
      buffersToWrite, buffers := buffers, buffersToWrite;
      written, phase := 0, Writing;
    }

    /** Writes swapped-out buffer `i`, the next one, to the file, outside the lock. */
    method WriteOne(i: nat)
      requires Valid() && Enabled(View(), Step.WriteOne) && i == written
      modifies `output, `written
      ensures Valid() && View() == Next(old(View()), Step.WriteOne)
    {
      hide OneOwner, Texts;
      var b := buffersToWrite[i];
      output := output + b.data[..b.size];
      written := written + 1;
    }

    method EndWriting()
      requires Valid() && Enabled(View(), Step.EndWriting)
      modifies `phase
      ensures Valid() && View() == Next(old(View()), Step.EndWriting)
    {
      phase := Recycling;
    }

    /** Keeps two of the written buffers, emptied, as the next spares; drops the rest. */
    method Recycle()
      requires Valid() && Enabled(View(), Step.Recycle)
      modifies this, made
      ensures Valid() && View() == Next(old(View()), Step.Recycle) && Repr() == old(Repr())
    {
      hide Valid, Texts, Text;
      Counts();
      CutToTwo();
      if newBuffer1 == null {
        Counts();
        var b := TakeBack();
        SetSpare1(b);
      }
      if newBuffer2 == null {
        Counts();
        var b := TakeBack();
        SetSpare2(b);
      }
      Forget();
    }

    lemma Counts()
      requires Valid()
      ensures View().next.None? <==> nextBuffer == null
      ensures View().spare1.None? <==> newBuffer1 == null
      ensures View().spare2.None? <==> newBuffer2 == null
      ensures |View().toWrite| == |buffersToWrite|
    {
    }

    method CutToTwo()
      requires Valid()
      modifies `buffersToWrite
      ensures Valid() && View() == old(View()).(toWrite := Kept(old(View())))
    {
      if |buffersToWrite| > 2 {
        TextsFront(buffersToWrite, 2);
        buffersToWrite := buffersToWrite[..2];
      }
    }

    static lemma {:induction false} TextsFront(bs: seq<FixedBuffer>, n: nat)
      requires n <= |bs| && forall b :: b in bs ==> b.Valid()
      ensures Texts(bs[..n]) == Texts(bs)[..n]
    {
    }

    /** `back()`, `pop_back()` and `reset()` on the written buffers. */
    method TakeBack() returns (b: FixedBuffer)
      requires Valid() && buffersToWrite != []
      modifies `buffersToWrite, made
      ensures Valid() && Free(b) && b.Contents() == ""
      ensures var s := old(View()); View() == s.(toWrite := s.toWrite[..|s.toWrite| - 1])
    {
      hide Texts;
      var n := |buffersToWrite| - 1;
      b := buffersToWrite[n];
      TextsFront(buffersToWrite, n);
      buffersToWrite := buffersToWrite[..n];
      b.Reset();
    }

    method SetSpare1(b: FixedBuffer)
      requires Valid() && newBuffer1 == null && Free(b) && b.Contents() == ""
      modifies `newBuffer1
      ensures Valid() && View() == old(View()).(spare1 := Some(""))
    {
      newBuffer1 := b;
    }

    method SetSpare2(b: FixedBuffer)
      requires Valid() && newBuffer2 == null && Free(b) && b.Contents() == ""
      modifies `newBuffer2
      ensures Valid() && View() == old(View()).(spare2 := Some(""))
    {
      newBuffer2 := b;
    }

    /** `clear()`, and round the loop again. */
    method Forget()
      requires Valid()
      modifies `buffersToWrite, `written, `phase
      ensures Valid() && View() == old(View()).(toWrite := [], written := 0, phase := Waiting)
    {
      hide Texts, Text;
      buffersToWrite := [];
      written, phase := 0, Waiting;
      NoTexts();
    }

    static lemma NoTexts()
      ensures Texts([]) == []
    {
    }

    lemma FieldsOfView()
      requires Valid()
      ensures View().written == written && View().phase == phase && View().log == output
      ensures |View().toWrite| == |buffersToWrite| && |View().buffers| == |buffers|
    {
    }

    /** Lines that the front end appends one after the other. */
    method AppendAll(lines: seq<string>)
      requires Valid() && Invariant(View())
      modifies this, Repr()
      ensures Valid() && Invariant(View())
      ensures old(Repr()) <= Repr() && fresh(Repr() - old(Repr()))
      ensures View().phase == old(View()).phase && View().toWrite == old(View()).toWrite
      ensures View().written == old(View()).written && View().log == old(View()).log
    {
      hide Valid, StreamKept, BuffersOk, Texts, Text, OneOwner, BuffersValid;
      ghost var s := View();
      for i := 0 to |lines|
        invariant Valid() && Invariant(View())
        invariant old(Repr()) <= Repr() && fresh(Repr() - old(Repr()))
        invariant View().phase == s.phase && View().toWrite == s.toWrite
        invariant View().written == s.written && View().log == s.log
      {
        CurrentIsMade();
        AppendIsEnabled(View(), lines[i]);
        StepKeeps(View(), Step.Append(lines[i]));
        Append(lines[i]);
      }
    }

    lemma CurrentIsMade()
      requires Valid()
      ensures currentBuffer in Repr() && currentBuffer.data in Repr()
    {
    }

    /** Buffer `i` is written, and the front end appends these lines. */
    method WriteAndAppend(i: nat, lines: seq<string>)
      requires Valid() && Invariant(View()) && phase == Writing && written == i < |buffersToWrite|
      modifies this, Repr()
      ensures Valid() && Invariant(View())
      ensures old(Repr()) <= Repr() && fresh(Repr() - old(Repr()))
      ensures View().phase == Writing && View().toWrite == old(View()).toWrite && View().written == i + 1
      ensures i < |View().toWrite| && View().log == old(View()).log + View().toWrite[i]
    {
      hide Valid, View, Invariant, Texts, Text, OneOwner, BuffersValid, Next, Enabled;
      FieldsOfView();
      WriteOneIs(View(), i);
      WriteOne(i);
      AppendAll(lines);
    }

    /** The round ends: what was written is recycled. */
    method FinishRound()
      requires Valid() && Invariant(View()) && phase == Writing && written == |buffersToWrite|
      modifies this, Repr()
      ensures Valid() && Invariant(View()) && View().phase == Waiting
      ensures View().log == old(View()).log && Repr() == old(Repr())
    {
      hide Valid, Invariant, Texts, Text, OneOwner, BuffersValid, Next, Enabled;
      FieldsOfView();
      EndIs(View());
      EndWriting();
      Recycle();
    }

    /** The loop that writes the filled buffers. */
    method WriteAll(lines: seq<seq<string>>)
      requires Valid() && Invariant(View()) && phase == Writing && written == 0 && |lines| == |buffersToWrite|
      modifies this, Repr()
      ensures Valid() && Invariant(View()) && phase == Writing && written == |buffersToWrite|
      ensures old(Repr()) <= Repr() && fresh(Repr() - old(Repr()))
      ensures output == Written(old(output), old(View()).toWrite, |old(View()).toWrite|)
    {
      hide Valid, View, Invariant, Written, Concat, Texts, Text, OneOwner, BuffersValid, Next, Enabled;
      FieldsOfView();
      ghost var filled, log := View().toWrite, output;
      NoneWritten(log, filled);
      ghost var now := log;
      for i := 0 to |lines|
        invariant Valid() && Invariant(View())
        invariant old(Repr()) <= Repr() && fresh(Repr() - old(Repr()))
        invariant View().phase == Writing && View().toWrite == filled && View().written == i
        invariant View().log == now && now == Written(log, filled, i)
      {
        FieldsOfView();
        WriteAndAppend(i, lines[i]);
        WrittenNext(log, filled, i);
        now := now + filled[i];
      }
      FieldsOfView();
    }

    /** One round of the back end: everything that was filled goes to the file, in order,
        whatever the front end appends in between (`lines[i]` after buffer i is written),
        and the round ends with both spares in place. */
    method BackEndRound(lines: seq<seq<string>>)
      requires Valid() && Invariant(View()) && phase == Waiting && |lines| == |buffers| + 1
      modifies this, Repr()
      ensures Valid() && Invariant(View()) && phase == Waiting
      ensures old(Repr()) <= Repr() && fresh(Repr() - old(Repr()))
      ensures output == old(output) + Concat(old(View()).buffers + [old(View()).current])
    {
      hide Valid, View, Invariant, Written, Concat, Texts, Text, OneOwner, BuffersValid, Next, Enabled;
      ghost var s := View();
      FieldsOfView();
      SwapOutIs(s);
      SwapOut();
      FieldsOfView();
      WriteAll(lines);
      AllWritten(s.log, s.buffers + [s.current]);
      FieldsOfView();
      FinishRound();
      FieldsOfView();
    }
  }

  lemma AppendIsEnabled(s: State, line: string)
    requires Invariant(s)
    ensures Enabled(s, Step.Append(line))
  {
  }

  lemma SwapOutIs(s: State)
    requires Invariant(s) && s.phase == Waiting
    ensures Enabled(s, Step.SwapOut)
    ensures var n := Next(s, Step.SwapOut);
      && Invariant(n) && n.phase == Writing && n.toWrite == s.buffers + [s.current] && n.written == 0
      && n.log == s.log
  {
    hide StreamKept;
    StepKeeps(s, Step.SwapOut);
  }

  lemma WriteOneIs(s: State, i: nat)
    requires Invariant(s) && s.phase == Writing && s.written == i < |s.toWrite|
    ensures Enabled(s, Step.WriteOne)
    ensures var n := Next(s, Step.WriteOne);
      && Invariant(n) && n.phase == Writing && n.toWrite == s.toWrite && n.written == i + 1
      && n.log == s.log + s.toWrite[i]
  {
    hide StreamKept;
    StepKeeps(s, Step.WriteOne);
  }

  /** The log with the first `i` of these buffers written behind it. */
  function Written(log: string, ss: seq<string>, i: nat): string
    requires i <= |ss|
  {
    log + Concat(ss[..i])
  }

  lemma NoneWritten(log: string, ss: seq<string>)
    ensures Written(log, ss, 0) == log
  {
  }

  lemma WrittenNext(log: string, ss: seq<string>, i: nat)
    requires i < |ss|
    ensures Written(log, ss, i) + ss[i] == Written(log, ss, i + 1)
  {
    assert ss[..i + 1] == ss[..i] + [ss[i]];
    ConcatAppend(ss[..i], [ss[i]]);
    ConcatOne(ss[i]);
  }

  lemma AllWritten(log: string, ss: seq<string>)
    ensures Written(log, ss, |ss|) == log + Concat(ss)
  {
    assert ss[..|ss|] == ss;
  }

  lemma EndIs(s: State)
    requires Invariant(s) && s.phase == Writing && s.written == |s.toWrite|
    ensures Enabled(s, Step.EndWriting) && Enabled(Next(s, Step.EndWriting), Step.Recycle)
    ensures var n := Next(Next(s, Step.EndWriting), Step.Recycle);
      Invariant(n) && n.phase == Waiting && n.log == s.log
  {
    hide StreamKept;
    StepKeeps(s, Step.EndWriting);
    BackEndProceeds(Next(s, Step.EndWriting));
    StepKeeps(Next(s, Step.EndWriting), Step.Recycle);
  }
}
