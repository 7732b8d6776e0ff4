/**
  The double-buffered log as a step system on buffer contents.  Front-end threads
  append under the mutex; the back end swaps the filled buffers out under the same
  mutex, writes them without it, and keeps two of them as the next spares.
 */
module AsyncLoggingModel {
  import opened Options

  /** Where the back-end thread is. */
  datatype Phase = Waiting | Writing | Recycling

  datatype State = State(
    capacity: nat,             // of every buffer
    current: string,           // contents of currentBuffer_
    next: Option<string>,      // nextBuffer_, when it is not null
    buffers: seq<string>,      // buffers_
    spare1: Option<string>,    // newbuffer1
    spare2: Option<string>,    // newbuffer2
    toWrite: seq<string>,      // buffersToWrite
    written: nat,              // how many of them are in the log
    phase: Phase,
    log: string,               // what the log file was given
    accepted: string)          // history: the lines stored, end to end

  datatype Step =
    | Append(line: string)
    | SwapOut
    | WriteOne
    | EndWriting
    | Recycle

  /** The branch that stores a line: more room is left than the line needs. */
  predicate Stores(s: State, line: string) {
    s.capacity - |s.current| > |line|
  }

  predicate Enabled(s: State, step: Step) {
    match step
    case Append(_) => |s.current| <= s.capacity
    case SwapOut => s.phase == Waiting && s.spare1.Some? && s.toWrite == []
    case WriteOne => s.phase == Writing && s.written < |s.toWrite|
    case EndWriting => s.phase == Writing && s.written == |s.toWrite|
    case Recycle => s.phase == Recycling && SparesAvailable(s)
  }

  /** `back()` and `pop_back()` find a buffer each time they are called. */
  predicate SparesAvailable(s: State) {
    Missing(s) <= |Kept(s)|
  }

  function Missing(s: State): nat {
    (if s.spare1.None? then 1 else 0) + (if s.spare2.None? then 1 else 0)
  }

  /** `buffersToWrite` after it was cut down to two. */
  function Kept(s: State): seq<string> {
    if |s.toWrite| > 2 then s.toWrite[..2] else s.toWrite
  }

  function Next(s: State, step: Step): State
    requires Enabled(s, step)
  {
    match step
    case Append(line) =>
      if Stores(s, line) then s.(current := s.current + line, accepted := s.accepted + line)
      else if s.next.Some? then s.(buffers := s.buffers + [s.current], current := s.next.value, next := None)
      else s.(buffers := s.buffers + [s.current], current := "")
    case SwapOut =>
      var filled := s.(toWrite := s.buffers + [s.current], buffers := [], written := 0,
                       current := s.spare1.value, spare1 := None, phase := Writing);
      if s.next.None? then filled.(next := s.spare2, spare2 := None) else filled
    case WriteOne => s.(log := s.log + s.toWrite[s.written], written := s.written + 1)
    case EndWriting => s.(phase := Recycling)
    case Recycle =>
      s.(spare1 := if s.spare1.None? then Some("") else s.spare1,
         spare2 := if s.spare2.None? then Some("") else s.spare2,
         toWrite := [], written := 0, phase := Waiting)
  }

  function Start(capacity: nat): State {
    State(capacity, "", Some(""), [], Some(""), Some(""), [], 0, Waiting, "", "")
  }

  function Concat(ss: seq<string>): string {
    if ss == [] then "" else ss[0] + Concat(ss[1..])
  }

  lemma {:induction false} ConcatAppend(a: seq<string>, b: seq<string>)
    ensures Concat(a + b) == Concat(a) + Concat(b)
  {
    if a == [] {
      assert a + b == b;
    } else {
      assert (a + b)[1..] == a[1..] + b;
      ConcatAppend(a[1..], b);
    }
  }

  lemma ConcatOne(s: string)
    ensures Concat([s]) == s
  {
    assert [s][1..] == [];
  }

  /** The characters accepted but not yet in the log, in order. */
  function InFlight(s: State): string
    requires s.written <= |s.toWrite|
  {
    Concat(s.toWrite[s.written..]) + Concat(s.buffers) + s.current
  }

  /** Nothing stored is lost, repeated or reordered. */
  predicate StreamKept(s: State) {
    && s.written <= |s.toWrite|
    && s.log + InFlight(s) == s.accepted
  }

  /** The current buffer is not full; what stands by is empty; and whenever a spare is
      missing there is a buffer to take its place. */
  predicate BuffersOk(s: State) {
    && |s.current| <= s.capacity
    && (s.next.Some? ==> s.next.value == "")
    && (s.spare1.Some? ==> s.spare1.value == "")
    && (s.spare2.Some? ==> s.spare2.value == "")
    && (s.next.None? ==> s.buffers != [])
    && match s.phase
       case Waiting => s.spare1.Some? && s.spare2.Some? && s.toWrite == [] && s.written == 0
       case _ =>
         && s.spare1.None? && Missing(s) <= |s.toWrite|
         && (s.phase == Recycling ==> s.written == |s.toWrite|)
  }

  predicate Invariant(s: State) {
    StreamKept(s) && BuffersOk(s)
  }

  lemma AppendKeepsStream(s: State, line: string)
    requires Invariant(s)
    ensures StreamKept(Next(s, Append(line)))
  {
    var n := Next(s, Append(line));
    if Stores(s, line) {
      assert s.log + InFlight(s) + line == n.log + InFlight(n);
    } else {
      ConcatAppend(s.buffers, [s.current]);
      ConcatOne(s.current);
      assert n.current == "";
      assert InFlight(n) == InFlight(s);
    }
  }

  lemma SwapKeepsStream(s: State)
    requires Invariant(s) && Enabled(s, SwapOut)
    ensures StreamKept(Next(s, SwapOut))
  {
    var n := Next(s, SwapOut);
    ConcatAppend(s.buffers, [s.current]);
    ConcatOne(s.current);
    assert s.toWrite[s.written..] == [] && n.toWrite[0..] == n.toWrite;
    assert InFlight(n) == Concat(n.toWrite) == InFlight(s);
  }

  lemma WriteKeepsStream(s: State)
    requires Invariant(s) && Enabled(s, WriteOne)
    ensures StreamKept(Next(s, WriteOne))
  {
    var n := Next(s, WriteOne);
    assert s.toWrite[s.written..][1..] == n.toWrite[n.written..];
    assert n.log + InFlight(n) == s.log + InFlight(s);
  }

  lemma RecycleKeepsStream(s: State)
    requires Invariant(s) && Enabled(s, Recycle)
    ensures StreamKept(Next(s, Recycle))
  {
    assert s.toWrite[s.written..] == [];
  }

  /** Every step keeps the stream and the buffers, whatever its order. */
  lemma StepKeeps(s: State, step: Step)
    requires Invariant(s) && Enabled(s, step)
    ensures Invariant(Next(s, step))
  {
    match step
    case Append(line) => AppendKeepsStream(s, line);
    case SwapOut => SwapKeepsStream(s);
    case WriteOne => WriteKeepsStream(s);
    case EndWriting =>
    case Recycle => RecycleKeepsStream(s);
  }

  /** The back end is never stuck: a spare is there at every swap, and recycling never
      takes the last element of an empty vector. */
  lemma BackEndProceeds(s: State)
    requires Invariant(s)
    ensures match s.phase
            case Waiting => Enabled(s, SwapOut)
            case Writing => Enabled(s, WriteOne) || Enabled(s, EndWriting)
            case Recycling => Enabled(s, Recycle)
  {
  }

  // ---- runs ----

  ghost predicate IsRun(capacity: nat, steps: seq<Step>, states: seq<State>) {
    && |states| == |steps| + 1
    && states[0] == Start(capacity)
    && forall i :: 0 <= i < |steps| ==> Enabled(states[i], steps[i]) && states[i + 1] == Next(states[i], steps[i])
  }

  /** The lines of a run that took the storing branch, end to end. */
  function Stored(steps: seq<Step>, states: seq<State>, n: nat): string
    requires n <= |steps| <= |states|
  {
    if n == 0 then ""
    else
      var step := steps[n - 1];
      Stored(steps, states, n - 1) + (if step.Append? && Stores(states[n - 1], step.line) then step.line else "")
  }

  /** For any interleaving of front end and back end, the log followed by what is still
      in buffers is exactly the stored lines in the order they were appended. */
  lemma {:induction false} LogIsPrefixOfStored(capacity: nat, steps: seq<Step>, states: seq<State>, n: nat)
    requires IsRun(capacity, steps, states) && n <= |steps|
    ensures Invariant(states[n])
    ensures states[n].log + InFlight(states[n]) == Stored(steps, states, n)
    ensures states[n].log <= Stored(steps, states, n)
  {
    hide Invariant, StreamKept, BuffersOk, Stores, Concat;
    AcceptedIsStored(capacity, steps, states, n);
    if n == 0 {
      StartIsFine(capacity);
    } else {
      LogIsPrefixOfStored(capacity, steps, states, n - 1);
      StepKeeps(states[n - 1], steps[n - 1]);
    }
    KeptMeansPrefix(states[n]);
  }

  lemma KeptMeansPrefix(s: State)
    requires Invariant(s)
    ensures s.written <= |s.toWrite| && s.log + InFlight(s) == s.accepted && s.log <= s.accepted
  {
  }

  lemma StartIsFine(capacity: nat)
    ensures Invariant(Start(capacity))
  {
  }

  lemma {:induction false} AcceptedIsStored(capacity: nat, steps: seq<Step>, states: seq<State>, n: nat)
    requires IsRun(capacity, steps, states) && n <= |steps|
    ensures states[n].accepted == Stored(steps, states, n)
  {
    if n != 0 {
      AcceptedIsStored(capacity, steps, states, n - 1);
      assert Stored(steps, states, n - 1) + "" == Stored(steps, states, n - 1);
    }
  }

  /** A line reaches the stream if and only if more room is left than it needs: the line
      that rotates the buffers is itself not stored. */
  lemma LineKeptIff(s: State, line: string)
    requires Invariant(s) && line != ""
    ensures Next(s, Append(line)).accepted == s.accepted + line <==> s.capacity - |s.current| > |line|
    ensures s.capacity - |s.current| <= |line| ==>
              var n := Next(s, Append(line));
              && n.accepted == s.accepted && n.current == "" && n.next.None?
              && n.buffers == s.buffers + [s.current]
  {
  }

  /** Every line handed to `append`, end to end. */
  function Appended(steps: seq<Step>, n: nat): string
    requires n <= |steps|
  {
    if n == 0 then ""
    else Appended(steps, n - 1) + (if steps[n - 1].Append? then steps[n - 1].line else "")
  }

  /** A line handed over at step `i` is missing from the stream. */
  predicate Drops(s: State, step: Step) {
    step.Append? && step.line != "" && !Stores(s, step.line)
  }

  lemma {:induction false} StoredIsShorter(steps: seq<Step>, states: seq<State>, n: nat)
    requires n <= |steps| <= |states|
    ensures |Stored(steps, states, n)| <= |Appended(steps, n)|
    ensures |Stored(steps, states, n)| == |Appended(steps, n)| ==>
              forall i :: 0 <= i < n ==> !Drops(states[i], steps[i])
  {
    if n > 0 {
      StoredIsShorter(steps, states, n - 1);
    }
  }

  lemma {:induction false} StoredIsAll(steps: seq<Step>, states: seq<State>, n: nat)
    requires n <= |steps| <= |states|
    requires forall i :: 0 <= i < n ==> !Drops(states[i], steps[i])
    ensures Stored(steps, states, n) == Appended(steps, n)
  {
    if n > 0 {
      StoredIsAll(steps, states, n - 1);
      assert Stored(steps, states, n - 1) + "" == Stored(steps, states, n - 1);
    }
  }

  /** In every run: the log with what is still in buffers is all that was ever appended,
      if and only if every non-empty line found more room left than it needs. */
  lemma NothingDroppedIff(capacity: nat, steps: seq<Step>, states: seq<State>, n: nat)
    requires IsRun(capacity, steps, states) && n <= |steps|
    ensures states[n].written <= |states[n].toWrite|
    ensures states[n].log + InFlight(states[n]) == Appended(steps, n) <==>
              forall i :: 0 <= i < n && steps[i].Append? && steps[i].line != "" ==>
                states[i].capacity - |states[i].current| > |steps[i].line|
  {
    hide InFlight, Concat;
    LogIsPrefixOfStored(capacity, steps, states, n);
    StoredIsShorter(steps, states, n);
    if forall i :: 0 <= i < n ==> !Drops(states[i], steps[i]) {
      StoredIsAll(steps, states, n);
    }
  }

  /** It happens to a line that an empty buffer would hold: after a line that leaves room
      for one character, a line of one character is dropped. */
  lemma LineIsDropped(capacity: nat, line: string, c: char)
    requires |line| + 1 == capacity >= 2
    ensures exists steps, states: seq<State> ::
              && IsRun(capacity, steps, states) && |steps| == 2
              && Appended(steps, 2) == line + [c] && states[2].accepted == line
              && Stores(Start(capacity), [c])
  {
    var steps := [Append(line), Append([c])];
    var s := Start(capacity);
    var t := Next(s, steps[0]);
    assert t.current == line;
    var u := Next(t, steps[1]);
    var states := [s, t, u];
    assert Appended(steps, 1) == Appended(steps, 0) + line == line;
    assert IsRun(capacity, steps, states);
  }
}
