/**
  The timer queue as a step system: an ordered set of timers, one timerfd that is
  re-armed by hand, and a clock that never goes back.  Times are microseconds.
 */
module TimerQueueModel {
  import opened Options
  import opened Sequences

  /** A timer object; `uid` tells apart timers that get the same address one after the other. */
  datatype Timer = Timer(uid: nat, expiration: int, interval: real, repeat: bool)

  /** An element of the ordered set: an expiration and a timer's address. */
  datatype Entry = Entry(when: int, ptr: nat)

  /** One run of a callback. */
  datatype Run = Run(uid: nat, time: int, due: int, interval: real, repeat: bool)

  datatype Phase =
    | Idle
    | Reading(now: int)                        // handleRead has read the clock, not yet the timerfd
    | Calling(batch: seq<Entry>, done: nat)    // callbacks of the expired timers run
    | Resetting(batch: seq<Entry>, done: nat)  // restarted or deleted one by one

  datatype State = State(
    timers: seq<Entry>,
    info: map<nat, Timer>,  // the timer objects, by address
    armed: Option<int>,     // the deadline of the timerfd
    armTime: int,           // history: when it was armed last
    fired: bool,            // the timerfd is readable
    reported: bool,         // poll has reported it, handleRead is still to come
    clock: int,             // no time read so far is later
    phase: Phase,
    log: seq<Run>,          // history
    nextUid: nat)

  /** The order of std::set<std::pair<Timestamp, Timer*>>. */
  predicate Before(a: Entry, b: Entry) {
    a.when < b.when || (a.when == b.when && a.ptr < b.ptr)
  }

  ghost predicate Sorted(s: seq<Entry>) {
    forall i, j :: 0 <= i < j < |s| ==> Before(s[i], s[j])
  }

  /** `interval` seconds in whole microseconds, truncated. */
  function Delta(interval: real): int {
    (interval * 1000000.0).Floor
  }

  /** It is the interval in microseconds, cut off below one. */
  lemma DeltaIsMicroseconds(interval: real)
    ensures Delta(interval) as real <= interval * 1000000.0 < Delta(interval) as real + 1.0
  {
  }

  /** Whole seconds are that many seconds of the timerfd. */
  lemma DeltaOfSeconds(seconds: nat)
    ensures Delta(seconds as real) == 1000000 * seconds
    ensures Timespec(Delta(seconds as real)) == (seconds, 0)
  {
    assert (seconds as real) * 1000000.0 == (1000000 * seconds) as real;
  }

  function Insert(s: seq<Entry>, e: Entry): seq<Entry> {
    if s == [] then [e]
    else if Before(e, s[0]) then [e] + s
    else [s[0]] + Insert(s[1..], e)
  }

  /** The earliest timer changes when the set is empty or `when` is strictly earlier. */
  predicate ChangesEarliest(s: seq<Entry>, when: int) {
    s == [] || when < s[0].when
  }

  /** `resetTimerfd` read the clock at `now`: never sooner than 100 microseconds. */
  function Armed(s: State, expiration: int, now: int): State {
    s.(armed := Some(now + (if expiration - now < 100 then 100 else expiration - now)),
       armTime := now, fired := false, clock := now)
  }

  /** The whole seconds and nanoseconds that go into the itimerspec. */
  function Timespec(micros: int): (int, int)
    requires micros >= 0
  {
    (micros / 1000000, micros % 1000000 * 1000)
  }

  function Added(s: State, ptr: nat, when: int, interval: real, now: int): State {
    var t := s.(timers := Insert(s.timers, Entry(when, ptr)),
                info := s.info[ptr := Timer(s.nextUid, when, interval, interval > 0.0)],
                clock := now, nextUid := s.nextUid + 1);
    if ChangesEarliest(s.timers, when) then Armed(t, when, now) else t
  }

  /** How many entries at the front have `when <= now`. */
  function ExpiredCount(s: seq<Entry>, now: int): (n: nat)
    ensures n <= |s|
    ensures forall i :: 0 <= i < n ==> s[i].when <= now
    ensures n < |s| ==> s[n].when > now
  {
    if s == [] || s[0].when > now then 0 else 1 + ExpiredCount(s[1..], now)
  }

  /** Reading the timerfd clears it; the expired entries leave the set as a batch. */
  function Taken(s: State, now: int): State {
    var n := ExpiredCount(s.timers, now);
    s.(timers := s.timers[n..], phase := Calling(s.timers[..n], 0), fired := false)
  }

  /** `Timer::restart` at `now`, for a repeating timer. */
  function Restarted(t: Timer, now: int): Timer {
    t.(expiration := if t.repeat then now + Delta(t.interval) else 0)
  }

  predicate AtReset(s: State) {
    s.phase.Resetting? && s.phase.done < |s.phase.batch| && s.phase.batch[s.phase.done].ptr in s.info
  }

  /** The next timer of the batch is restarted and put back, or deleted. */
  function PutBackOrDeleted(s: State, now: int): State
    requires AtReset(s)
  {
    var p := s.phase.batch[s.phase.done].ptr;
    var r := Restarted(s.info[p], now);
    (if r.repeat
     then s.(info := s.info[p := r], timers := Insert(s.timers, Entry(r.expiration, p)))
     else s.(info := s.info - {p})).(phase := Resetting(s.phase.batch, s.phase.done + 1), clock := now)
  }

  /** One round of the loop in `reset`: the clock is read at `now` for the restart and
      at `later` for the timerfd. */
  function ResetOne(s: State, now: int, later: int): State
    requires AtReset(s)
  {
    var u := PutBackOrDeleted(s, now);
    if u.timers == [] then u else Armed(u, u.timers[0].when, later)
  }

  datatype Step =
    | Add(ptr: nat, when: int, interval: real, now: int)
    | Fire(now: int)
    | Report
    | ReadClock(now: int)
    | TakeExpired
    | Call(now: int)
    | EndCalls
    | Reset(now: int, later: int)
    | EndReset

  ghost predicate Enabled(s: State, step: Step) {
    match step
    case Add(ptr, _, _, now) => ptr !in s.info && now >= s.clock && !s.phase.Resetting? && !s.phase.Reading?
    case Fire(now) => s.armed.Some? && now >= s.clock && now >= s.armed.value
    case Report => s.fired && s.phase == Idle
    case ReadClock(now) => s.reported && s.phase == Idle && now >= s.clock
    case TakeExpired => s.phase.Reading?
    case Call(now) => s.phase.Calling? && s.phase.done < |s.phase.batch| && now >= s.clock
        && s.phase.batch[s.phase.done].ptr in s.info
    case EndCalls => s.phase.Calling? && s.phase.done == |s.phase.batch|
    case Reset(now, later) => AtReset(s) && s.clock <= now <= later
    case EndReset => s.phase.Resetting? && s.phase.done == |s.phase.batch|
  }

  ghost function Next(s: State, step: Step): State
    requires Enabled(s, step)
  {
    match step
    case Add(ptr, when, interval, now) => Added(s, ptr, when, interval, now)
    case Fire(now) => s.(armed := None, fired := true, clock := now)
    case Report => s.(reported := true)
    case ReadClock(now) => s.(phase := Reading(now), reported := false, clock := now)
    case TakeExpired => Taken(s, s.phase.now)
    case Call(now) =>
      var t := s.info[s.phase.batch[s.phase.done].ptr];
      s.(log := s.log + [Run(t.uid, now, t.expiration, t.interval, t.repeat)],
         phase := Calling(s.phase.batch, s.phase.done + 1), clock := now)
    case EndCalls => s.(phase := Resetting(s.phase.batch, 0))
    case Reset(now, later) => ResetOne(s, now, later)
    case EndReset => s.(phase := Idle)
  }

  function Start(clock: int): State {
    State([], map[], None, clock, false, false, clock, Idle, [], 0)
  }

  // ---- the ordered set ----

  lemma {:induction false} InsertFacts(s: seq<Entry>, e: Entry)
    requires Sorted(s) && e !in s
    ensures Sorted(Insert(s, e))
    ensures forall x :: x in Insert(s, e) <==> x in s || x == e
    ensures Insert(s, e)[0] == if s == [] || Before(e, s[0]) then e else s[0]
  {
    if s != [] && !Before(e, s[0]) {
      assert s[0] in s;
      InsertFacts(s[1..], e);
      var r := Insert(s[1..], e);
      assert forall i :: 0 <= i < |r| ==> r[i] in r;
      assert forall i :: 1 <= i < |s| ==> s[i] in s[1..] && Before(s[0], s[i]);
      assert forall x :: x in r ==> Before(s[0], x);
    } else {
      assert forall i :: 0 < i < |s| ==> Before(s[0], s[i]);
    }
  }

  /** A batch is exactly the entries whose time has come, in their order; what stays is
      exactly the rest. */
  lemma BatchIsExpired(s: seq<Entry>, now: int)
    requires Sorted(s)
    ensures var n := ExpiredCount(s, now);
      && s[..n] + s[n..] == s && Sorted(s[..n]) && Sorted(s[n..])
      && (forall e :: e in s[..n] <==> e in s && e.when <= now)
      && (forall e :: e in s[n..] <==> e in s && e.when > now)
  {
    var n := ExpiredCount(s, now);
    SplitMembers(s, n);
    forall i | n <= i < |s| ensures s[i].when > now {
      assert n == i || Before(s[n], s[i]);
    }
  }

  // ---- the timerfd ----

  /** The itimerspec is never zero, so arming never disarms, and it loses nothing. */
  lemma TimespecIsDelay(expiration: int, now: int)
    ensures var delay := if expiration - now < 100 then 100 else expiration - now;
      && Timespec(delay) != (0, 0)
      && Timespec(delay).0 * 1000000000 + Timespec(delay).1 == delay * 1000
      && 0 <= Timespec(delay).1 < 1000000000
  {
  }

  // ---- the timers ----

  /** The swapped-out entries whose timers are neither back in the set nor deleted. */
  function Batch(s: State): seq<Entry> {
    match s.phase
    case Idle => []
    case Reading(_) => []
    case Calling(batch, _) => batch
    case Resetting(batch, done) => if done <= |batch| then batch[done..] else []
  }

  predicate PhaseOk(s: State) {
    match s.phase
    case Idle => true
    case Reading(now) => now <= s.clock && !s.reported
    case Calling(batch, done) => done <= |batch|
    case Resetting(batch, done) => done <= |batch|
  }

  function EntryOf(s: State, p: nat): Entry
    requires p in s.info
  {
    Entry(s.info[p].expiration, p)
  }

  ghost predicate Owned(s: State, e: Entry) {
    e in s.timers || e in Batch(s)
  }

  /** Set key and stored expiration agree, and every timer object has one owner: the
      ordered set or the batch. */
  ghost predicate KeysOk(s: State) {
    && PhaseOk(s)
    && Sorted(s.timers) && Sorted(Batch(s))
    && (forall e :: Owned(s, e) ==> e.ptr in s.info && e == EntryOf(s, e.ptr))
    && (forall p :: p in s.info ==> Owned(s, EntryOf(s, p)))
    && (forall e :: e in Batch(s) ==> e !in s.timers && e.when <= s.clock)
  }

  ghost predicate InfoOk(s: State) {
    && (forall p :: p in s.info ==> s.info[p].uid < s.nextUid && (s.info[p].repeat <==> s.info[p].interval > 0.0))
    && (forall p, q :: p in s.info && q in s.info && s.info[p].uid == s.info[q].uid ==> p == q)
  }

  lemma AddKeepsKeys(s: State, ptr: nat, when: int, interval: real, now: int)
    requires KeysOk(s) && InfoOk(s) && Enabled(s, Add(ptr, when, interval, now))
    ensures KeysOk(Added(s, ptr, when, interval, now))
  {
    hide Sorted, InfoOk;
    var e, n := Entry(when, ptr), Added(s, ptr, when, interval, now);
    assert Owned(s, e) ==> ptr in s.info;
    InsertFacts(s.timers, e);
    forall x | Owned(n, x) ensures x.ptr in n.info && x == EntryOf(n, x.ptr) {
      assert Owned(s, x) || x == e;
    }
    forall p | p in n.info ensures Owned(n, EntryOf(n, p)) {
      assert p != ptr ==> Owned(s, EntryOf(s, p)) && EntryOf(n, p) == EntryOf(s, p);
    }
  }

  lemma AddKeepsInfo(s: State, ptr: nat, when: int, interval: real, now: int)
    requires InfoOk(s) && Enabled(s, Add(ptr, when, interval, now))
    ensures InfoOk(Added(s, ptr, when, interval, now))
  {
    hide Insert, Delta;
    var n := Added(s, ptr, when, interval, now);
    assert forall p :: p in n.info && p != ptr ==> n.info[p] == s.info[p];
  }

  lemma ResetKeepsInfo(s: State, now: int, later: int)
    requires InfoOk(s) && Enabled(s, Reset(now, later))
    ensures InfoOk(ResetOne(s, now, later))
  {
    hide Insert, Delta;
    var n := ResetOne(s, now, later);
    assert forall p :: p in n.info ==> (p in s.info && n.info[p].(expiration := 0) == s.info[p].(expiration := 0));
  }

  lemma StepKeepsInfo(s: State, step: Step)
    requires InfoOk(s) && Enabled(s, step)
    ensures InfoOk(Next(s, step))
  {
    hide Added, ResetOne, ExpiredCount;
    match step
    case Add(ptr, when, interval, now) => AddKeepsInfo(s, ptr, when, interval, now);
    case Reset(now, later) => ResetKeepsInfo(s, now, later);
    case _ =>
      assert Next(s, step).info == s.info && Next(s, step).nextUid == s.nextUid;
  }

  lemma TakeKeepsOwners(s: State, now: int)
    requires KeysOk(s) && s.phase == Reading(now)
    ensures var n := Taken(s, now);
      Sorted(n.timers) && Sorted(Batch(n)) && PhaseOk(n) && (forall x :: Owned(n, x) <==> Owned(s, x))
      && (forall x :: x in Batch(n) ==> x !in n.timers && x.when <= now)
  {
    hide Sorted, ExpiredCount;
    BatchIsExpired(s.timers, now);
    SplitMembers(s.timers, ExpiredCount(s.timers, now));
  }

  lemma TakeKeepsKeys(s: State, now: int)
    requires KeysOk(s) && s.phase == Reading(now)
    ensures KeysOk(Taken(s, now))
  {
    hide Sorted, ExpiredCount, Batch;
    TakeKeepsOwners(s, now);
    var n := Taken(s, now);
    assert n.info == s.info;
    forall p | p in n.info ensures Owned(n, EntryOf(n, p)) {
      assert Owned(s, EntryOf(s, p));
    }
  }

  /** The timer at the front of what is left to reset is in no other place. */
  lemma NextToReset(s: State)
    requires KeysOk(s) && s.phase.Resetting? && s.phase.done < |s.phase.batch|
    ensures var e := s.phase.batch[s.phase.done];
      && e.ptr in s.info && e == EntryOf(s, e.ptr) && e.when <= s.clock
      && Batch(s) == [e] + s.phase.batch[s.phase.done + 1..]
      && (forall x :: x in s.timers || x in s.phase.batch[s.phase.done + 1..] ==> x.ptr != e.ptr)
  {
    var e := s.phase.batch[s.phase.done];
    var rest := s.phase.batch[s.phase.done + 1..];
    assert Batch(s)[0] == e && Batch(s)[1..] == rest;
    assert Owned(s, e);
    forall x | x in s.timers || x in rest ensures x.ptr != e.ptr {
      assert Owned(s, x);
      if x in rest {
        var i :| 0 <= i < |rest| && rest[i] == x;
        assert Before(Batch(s)[0], Batch(s)[i + 1]);
      }
    }
  }

  /** What a round of `reset` puts back for the timer of `e`. */
  predicate PutBack(s: State, e: Entry, now: int, x: Entry)
    requires e.ptr in s.info
  {
    s.info[e.ptr].repeat && x == Entry(now + Delta(s.info[e.ptr].interval), e.ptr)
  }

  /** What a round takes out of the batch. */
  lemma ResetBatch(s: State, now: int, later: int)
    requires KeysOk(s) && Enabled(s, Reset(now, later))
    ensures var e, n := s.phase.batch[s.phase.done], ResetOne(s, now, later);
      && Sorted(Batch(n)) && PhaseOk(n)
      && (forall x :: x in Batch(n) <==> x in Batch(s) && x.ptr != e.ptr)
      && (forall x :: x in s.timers ==> x.ptr != e.ptr)
  {
    hide Sorted, Insert, Delta;
    NextToReset(s);
    assert Batch(ResetOne(s, now, later)) == Batch(s)[1..] == s.phase.batch[s.phase.done + 1..];
    TailSorted(Batch(s));
  }

  lemma ResetOwners(s: State, now: int, later: int)
    requires KeysOk(s) && Enabled(s, Reset(now, later))
    ensures var e, n := s.phase.batch[s.phase.done], ResetOne(s, now, later);
      && Sorted(n.timers) && Sorted(Batch(n)) && PhaseOk(n)
      && (forall x :: x in n.timers <==> x in s.timers || PutBack(s, e, now, x))
      && (forall x :: x in Batch(n) <==> x in Batch(s) && x.ptr != e.ptr)
      && (forall x :: x in s.timers ==> x.ptr != e.ptr)
  {
    hide Sorted, Insert, Delta, Batch;
    ResetBatch(s, now, later);
    var e := s.phase.batch[s.phase.done];
    if s.info[e.ptr].repeat {
      InsertFacts(s.timers, Entry(now + Delta(s.info[e.ptr].interval), e.ptr));
    }
  }

  lemma ResetKeepsKeys(s: State, now: int, later: int)
    requires KeysOk(s) && Enabled(s, Reset(now, later))
    ensures KeysOk(ResetOne(s, now, later))
  {
    hide Sorted, Batch, Delta, Insert;
    ResetOwners(s, now, later);
    var e, n := s.phase.batch[s.phase.done], ResetOne(s, now, later);
    forall x | Owned(n, x) ensures x.ptr in n.info && x == EntryOf(n, x.ptr) {
      assert (Owned(s, x) && x.ptr != e.ptr) || PutBack(s, e, now, x);
    }
    forall p | p in n.info ensures Owned(n, EntryOf(n, p)) {
      if p == e.ptr {
        assert PutBack(s, e, now, EntryOf(n, p));
      } else {
        assert Owned(s, EntryOf(s, p)) && EntryOf(n, p) == EntryOf(s, p);
      }
    }
  }

  lemma TailSorted(s: seq<Entry>)
    requires Sorted(s) && s != []
    ensures Sorted(s[1..])
  {
  }

  lemma StepKeepsKeys(s: State, step: Step)
    requires KeysOk(s) && InfoOk(s) && Enabled(s, step)
    ensures KeysOk(Next(s, step)) && InfoOk(Next(s, step))
  {
    hide Sorted, InfoOk;
    StepKeepsInfo(s, step);
    match step
    case Add(ptr, when, interval, now) => AddKeepsKeys(s, ptr, when, interval, now);
    case TakeExpired => TakeKeepsKeys(s, s.phase.now);
    case Reset(now, later) => ResetKeepsKeys(s, now, later);
    case _ => SameKeys(s, Next(s, step));
  }

  lemma SameKeys(s: State, n: State)
    requires KeysOk(s)
    requires n.timers == s.timers && n.info == s.info && Batch(n) == Batch(s) && PhaseOk(n) && n.clock >= s.clock
    ensures KeysOk(n)
  {
    hide Sorted;
    assert forall e :: Owned(n, e) <==> Owned(s, e);
  }

  // ---- what callbacks see ----

  /** Two runs of one timer: it repeats, and its interval lies between them. */
  predicate Spaced(a: Run, b: Run) {
    a.uid == b.uid ==> a.repeat && a.time + Delta(a.interval) <= b.time
  }

  /** No run of timer `t` so far, or its interval has passed when it expires. */
  predicate ReadyFor(r: Run, t: Timer) {
    r.uid == t.uid ==> r.repeat && r.time + Delta(r.interval) <= t.expiration
  }

  /** The timer at `p` has not been called since it was added or restarted. */
  predicate Uncalled(s: State, p: nat)
    requires p in s.info && PhaseOk(s)
  {
    EntryOf(s, p) in s.timers || (s.phase.Calling? && EntryOf(s, p) in s.phase.batch[s.phase.done..])
  }

  /** Every run was due, is not in the future, and was of a timer already made. */
  ghost predicate RunsWereDue(s: State) {
    forall r :: r in s.log ==> r.due <= r.time <= s.clock && r.uid < s.nextUid
  }

  ghost predicate RunsAreSpaced(s: State) {
    forall i, j :: 0 <= i < j < |s.log| ==> Spaced(s.log[i], s.log[j])
  }

  ghost predicate RunsMatchTimers(s: State) {
    forall r, p :: r in s.log && p in s.info && r.uid == s.info[p].uid ==>
      r.repeat == s.info[p].repeat && r.interval == s.info[p].interval
  }

  ghost predicate UncalledAreReady(s: State)
    requires PhaseOk(s)
  {
    forall r, p :: r in s.log && p in s.info && Uncalled(s, p) ==> ReadyFor(r, s.info[p])
  }

  ghost predicate LogOk(s: State) {
    PhaseOk(s) && RunsWereDue(s) && RunsAreSpaced(s) && RunsMatchTimers(s) && UncalledAreReady(s)
  }

  lemma CallKeepsLog(s: State, now: int)
    requires KeysOk(s) && InfoOk(s) && LogOk(s) && Enabled(s, Call(now))
    ensures LogOk(Next(s, Call(now)))
  {
    var n := Next(s, Call(now));
    var e := s.phase.batch[s.phase.done];
    var rest := s.phase.batch[s.phase.done..];
    assert rest[0] == e && rest[1..] == n.phase.batch[n.phase.done..];
    assert e in Batch(s) && Owned(s, e);
    var t := s.info[e.ptr];
    var run := n.log[|s.log|];
    assert t.expiration == e.when <= s.clock;
    forall i | 0 <= i < |s.log| ensures Spaced(s.log[i], run) {
      assert s.log[i] in s.log && Uncalled(s, e.ptr);
      assert ReadyFor(s.log[i], t);
    }
    forall r, p | r in n.log && p in n.info && Uncalled(n, p) ensures ReadyFor(r, n.info[p]) {
      CalledOnce(s, p);
      assert Uncalled(s, p);
      assert r != run ==> r in s.log;
    }
  }

  /** A timer that is still to be called after this call is not the one called. */
  lemma CalledOnce(s: State, p: nat)
    requires KeysOk(s) && s.phase.Calling? && s.phase.done < |s.phase.batch| && p in s.info
    requires EntryOf(s, p) in s.timers || EntryOf(s, p) in s.phase.batch[s.phase.done + 1..]
    ensures EntryOf(s, p) != s.phase.batch[s.phase.done]
  {
    var b, d := s.phase.batch, s.phase.done;
    assert b[d] in Batch(s);
    if EntryOf(s, p) in b[d + 1..] {
      var i :| 0 <= i < |b[d + 1..]| && b[d + 1..][i] == EntryOf(s, p);
      assert Before(b[d], b[d + 1 + i]);
    }
  }

  lemma TakeKeepsLog(s: State, now: int)
    requires KeysOk(s) && LogOk(s) && s.phase == Reading(now)
    ensures LogOk(Taken(s, now))
  {
    var n := Taken(s, now);
    BatchIsExpired(s.timers, now);
    assert n.phase.batch[0..] == n.phase.batch;
    assert forall p :: p in n.info && Uncalled(n, p) ==> Uncalled(s, p);
  }

  lemma AddKeepsReady(s: State, ptr: nat, when: int, interval: real, now: int)
    requires KeysOk(s) && RunsWereDue(s) && UncalledAreReady(s) && Enabled(s, Add(ptr, when, interval, now))
    ensures PhaseOk(Added(s, ptr, when, interval, now)) && UncalledAreReady(Added(s, ptr, when, interval, now))
  {
    hide Delta, Insert, Sorted;
    var e, n := Entry(when, ptr), Added(s, ptr, when, interval, now);
    assert Owned(s, e) ==> ptr in s.info;
    InsertFacts(s.timers, e);
    forall r, p | r in n.log && p in n.info && Uncalled(n, p) ensures ReadyFor(r, n.info[p]) {
      if p != ptr {
        assert EntryOf(n, p) == EntryOf(s, p) && Uncalled(s, p);
      }
    }
  }

  lemma AddKeepsLog(s: State, ptr: nat, when: int, interval: real, now: int)
    requires KeysOk(s) && LogOk(s) && Enabled(s, Add(ptr, when, interval, now))
    ensures LogOk(Added(s, ptr, when, interval, now))
  {
    hide Sorted, KeysOk, Delta, Insert, UncalledAreReady, RunsAreSpaced;
    AddKeepsReady(s, ptr, when, interval, now);
    var n := Added(s, ptr, when, interval, now);
    assert RunsAreSpaced(n) by { SameLog(s, n); }
  }

  lemma SameLog(s: State, n: State)
    requires RunsAreSpaced(s) && n.log == s.log
    ensures RunsAreSpaced(n)
  {
  }

  lemma ResetKeepsReady(s: State, now: int, later: int)
    requires KeysOk(s) && LogOk(s) && Enabled(s, Reset(now, later))
    ensures PhaseOk(ResetOne(s, now, later)) && UncalledAreReady(ResetOne(s, now, later))
  {
    hide Sorted, Insert, Delta, RunsAreSpaced;
    ResetOwners(s, now, later);
    var e, n := s.phase.batch[s.phase.done], ResetOne(s, now, later);
    forall r, p | r in n.log && p in n.info && Uncalled(n, p) ensures ReadyFor(r, n.info[p]) {
      if p != e.ptr {
        assert EntryOf(n, p) == EntryOf(s, p);
        assert Uncalled(s, p);
      } else {
        assert r in s.log && r.time <= s.clock <= now;
      }
    }
  }

  lemma ResetKeepsLog(s: State, now: int, later: int)
    requires KeysOk(s) && LogOk(s) && Enabled(s, Reset(now, later))
    ensures LogOk(ResetOne(s, now, later))
  {
    hide Sorted, KeysOk, Insert, Delta, UncalledAreReady, RunsAreSpaced;
    ResetKeepsReady(s, now, later);
    SameLog(s, ResetOne(s, now, later));
  }

  lemma StepKeepsLog(s: State, step: Step)
    requires KeysOk(s) && InfoOk(s) && LogOk(s) && Enabled(s, step)
    ensures LogOk(Next(s, step))
  {
    hide Sorted, KeysOk, InfoOk, Delta;
    match step
    case Add(ptr, when, interval, now) => AddKeepsLog(s, ptr, when, interval, now);
    case TakeExpired => TakeKeepsLog(s, s.phase.now);
    case Call(now) => CallKeepsLog(s, now);
    case Reset(now, later) => ResetKeepsLog(s, now, later);
    case _ =>
      var n := Next(s, step);
      assert forall p :: p in n.info && Uncalled(n, p) ==> Uncalled(s, p);
  }

  // ---- runs ----

  ghost predicate Invariant(s: State) {
    KeysOk(s) && InfoOk(s) && LogOk(s)
  }

  ghost predicate IsRun(clock: int, steps: seq<Step>, states: seq<State>) {
    && |states| == |steps| + 1
    && states[0] == Start(clock)
    && forall i :: 0 <= i < |steps| ==> Enabled(states[i], steps[i]) && states[i + 1] == Next(states[i], steps[i])
  }

  lemma {:induction false} RunKeeps(clock: int, steps: seq<Step>, states: seq<State>, n: nat)
    requires IsRun(clock, steps, states) && n <= |steps|
    ensures Invariant(states[n])
  {
    hide KeysOk, InfoOk, LogOk, Enabled, Next;
    if n == 0 {
      StartIsFine(clock);
    } else {
      RunKeeps(clock, steps, states, n - 1);
      StepKeepsKeys(states[n - 1], steps[n - 1]);
      StepKeepsLog(states[n - 1], steps[n - 1]);
    }
  }

  lemma StartIsFine(clock: int)
    ensures Invariant(Start(clock))
  {
  }

  /** In every run: no callback before its expiration, and two runs of one timer mean a
      repeating timer and its interval in seconds between them, up to one microsecond. */
  lemma CallbacksAreTimely(clock: int, steps: seq<Step>, states: seq<State>, n: nat)
    requires IsRun(clock, steps, states) && n <= |steps|
    ensures forall i :: 0 <= i < |states[n].log| ==> states[n].log[i].due <= states[n].log[i].time
    ensures forall i, j :: 0 <= i < j < |states[n].log| && states[n].log[i].uid == states[n].log[j].uid ==>
              states[n].log[i].repeat &&
              var a, b := states[n].log[i], states[n].log[j];
              (b.time - a.time) as real > a.interval * 1000000.0 - 1.0
  {
    RunKeeps(clock, steps, states, n);
    var log := states[n].log;
    assert forall i :: 0 <= i < |log| ==> log[i] in log;
    forall i, j | 0 <= i < j < |log| && log[i].uid == log[j].uid
      ensures log[i].repeat && (log[j].time - log[i].time) as real > log[i].interval * 1000000.0 - 1.0
    {
      assert Spaced(log[i], log[j]);
      DeltaIsMicroseconds(log[i].interval);
      assert (log[j].time - log[i].time) as real >= Delta(log[i].interval) as real;
    }
  }
}
