/**
  The reference the cache is measured against: one map, a clock that stamps every
  attachment, no lists and no maintained minimum.  An eviction takes the key with
  the least (frequency, stamp).
 */
module LfuReference {
  import opened Sequences
  import opened LfuModel
  import opened LfuInvariants
  import opened LfuTheorems

  datatype RefEntry = RefEntry(value: Value, freq: int, stamp: int)

  datatype Ref = Ref(capacity: int, maxAverage: nat, entries: map<Key, RefEntry>, clock: int, total: int)

  function RefEmpty(capacity: int, maxAverage: nat): Ref {
    Ref(capacity, maxAverage, map[], 0, 0)
  }

  function Stamp(r: Ref, k: Key, v: Value, f: int): Ref {
    r.(entries := r.entries[k := RefEntry(v, f, r.clock)], clock := r.clock + 1)
  }

  /** A frequency that loses `h` but stays at least 1. */
  function Halved(f: int, h: nat): int {
    if f <= h then 1 else f - h
  }

  function RefAgeAll(r: Ref, order: seq<Key>): (q: Ref)
    requires forall k :: k in order ==> k in r.entries
    ensures q.entries.Keys == r.entries.Keys
  {
    if order == [] then r
    else
      var n := |order| - 1;
      assert forall k :: k in order[..n] ==> k in order;
      var b := RefAgeAll(r, order[..n]);
      var e := b.entries[order[n]];
      Stamp(b, order[n], e.value, Halved(e.freq, b.maxAverage / 2))
  }

  /** There were at least maxAverage + 1 accesses for each key. */
  predicate RefAges(b: Ref) {
    b.entries.Keys != {} && b.total >= (b.maxAverage + 1) * |b.entries|
  }

  ghost function RefCount(r: Ref, order: seq<Key>): Ref
    requires IsOrderOf(order, r.entries.Keys)
  {
    var b := r.(total := r.total + 1);
    if RefAges(b) then RefAgeAll(b, order) else b
  }

  /** `k` has the least frequency and, among those, the oldest attachment. */
  ghost predicate IsRefVictim(r: Ref, k: Key) {
    && k in r.entries
    && forall x :: x in r.entries && x != k ==>
         || r.entries[k].freq < r.entries[x].freq
         || (r.entries[k].freq == r.entries[x].freq && r.entries[k].stamp < r.entries[x].stamp)
  }

  ghost function RefVictim(r: Ref): Key
    requires exists k :: IsRefVictim(r, k)
  {
    var k :| IsRefVictim(r, k);
    k
  }

  ghost function RefEvict(r: Ref): Ref
    requires exists k :: IsRefVictim(r, k)
  {
    var v := RefVictim(r);
    r.(entries := r.entries - {v}, total := r.total - r.entries[v].freq)
  }

  predicate RefCounts(r: Ref, op: Op) {
    (op.Put? && r.capacity != 0) || (op.Get? && op.key in r.entries)
  }

  ghost predicate RefHasRoom(r: Ref, op: Op) {
    op.Put? && op.key !in r.entries && |r.entries| == r.capacity ==> exists k :: IsRefVictim(r, k)
  }

  ghost function RefBefore(r: Ref, op: Op): Ref
    requires RefCounts(r, op) && RefHasRoom(r, op)
  {
    if op.key in r.entries then
      var e := r.entries[op.key];
      Stamp(r, op.key, if op.Put? then op.value else e.value, e.freq + 1)
    else
      Stamp(if |r.entries| == r.capacity then RefEvict(r) else r, op.key, op.value, 1)
  }

  ghost predicate RefDefined(r: Ref, op: Op) {
    RefCounts(r, op) ==> RefHasRoom(r, op) && IsOrderOf(op.order, RefBefore(r, op).entries.Keys)
  }

  ghost function RefApply(r: Ref, op: Op): Ref
    requires RefDefined(r, op)
  {
    if op.Purge? then r.(entries := map[])
    else if RefCounts(r, op) then RefCount(RefBefore(r, op), op.order)
    else r
  }

  ghost predicate IsRefRun(capacity: int, maxAverage: nat, ops: seq<Op>, refs: seq<Ref>) {
    && |refs| == |ops| + 1
    && refs[0] == RefEmpty(capacity, maxAverage)
    && forall i :: 0 <= i < |ops| ==> RefDefined(refs[i], ops[i]) && refs[i + 1] == RefApply(refs[i], ops[i])
  }

  // ---- simulation ----

  /** The keys of `s` were attached in this order. */
  ghost predicate ByStamp(r: Ref, s: seq<Key>) {
    && (forall k :: k in s ==> k in r.entries)
    && (forall i, j :: 0 <= i < j < |s| ==> r.entries[s[i]].stamp < r.entries[s[j]].stamp)
  }

  /** The lists are the reference map sorted by frequency and stamp. */
  ghost predicate Simulates(c: Cache, r: Ref) {
    && c.capacity == r.capacity && c.maxAverage == r.maxAverage && c.total == r.total
    && c.entries.Keys == r.entries.Keys
    && (forall k :: k in c.entries ==>
          && c.entries[k].value == r.entries[k].value
          && c.entries[k].freq == r.entries[k].freq
          && r.entries[k].stamp < r.clock)
    && (forall f :: f in c.lists ==> ByStamp(r, c.lists[f]))
  }

  lemma WithoutByStamp(r: Ref, s: seq<Key>, k: Key)
    requires ByStamp(r, s) && Distinct(s)
    ensures ByStamp(r, Without(s, k))
  {
    hide Without;
    WithoutFacts(s, k);
    if k in s {
      var i :| 0 <= i < |s| && s[i] == k;
      WithoutAt(s, i);
      var t := s[..i] + s[i + 1..];
      assert forall j :: 0 <= j < |t| ==> t[j] == s[if j < i then j else j + 1];
    } else {
      WithoutAbsent(s, k);
    }
  }

  /** Restamping a key that a list does not hold leaves the list in order. */
  lemma StampElsewhere(r: Ref, s: seq<Key>, k: Key, v: Value, f: int)
    requires ByStamp(r, s) && k !in s
    requires forall x :: x in r.entries ==> r.entries[x].stamp < r.clock
    ensures ByStamp(Stamp(r, k, v, f), s)
    ensures ByStamp(Stamp(r, k, v, f), s + [k])
  {
    var q := Stamp(r, k, v, f);
    forall x | x in s ensures x in r.entries && q.entries[x] == r.entries[x] {}
    var t := s + [k];
    forall i, j | 0 <= i < j < |t| ensures q.entries[t[i]].stamp < q.entries[t[j]].stamp {
      assert t[i] == s[i] && s[i] in s;
    }
  }

  lemma MoveSimulates(c: Cache, r: Ref, k: Key, f: int)
    requires WellFormed(c) && Simulates(c, r) && k in c.entries && f >= 1
    ensures Simulates(Move(c, k, f), Stamp(r, k, r.entries[k].value, f))
  {
    var d := Detach(c, k);
    var m := Move(c, k, f);
    var q := Stamp(r, k, r.entries[k].value, f);
    DetachAgrees(c, k);
    forall g | g in m.lists ensures ByStamp(q, m.lists[g]) {
      if g in d.lists {
        assert !Listed(d, g, k);
        WithoutByStamp(r, c.lists[g], k);
        StampElsewhere(r, d.lists[g], k, r.entries[k].value, f);
      } else {
        StampElsewhere(r, [], k, r.entries[k].value, f);
        assert m.lists[g] == [] + [k];
      }
    }
  }

  lemma RefAgeAllStep(r: Ref, done: seq<Key>, k: Key)
    requires (forall x :: x in done ==> x in r.entries) && k in r.entries
    ensures var b := RefAgeAll(r, done);
      && (forall x :: x in done + [k] ==> x in r.entries)
      && RefAgeAll(r, done + [k]) == Stamp(b, k, b.entries[k].value, Halved(b.entries[k].freq, b.maxAverage / 2))
  {
    assert (done + [k])[..|done|] == done;
  }

  /** One more node aged. */
  lemma AgeStepSimulates(c: Cache, r: Ref, k: Key, h: nat)
    requires WellFormed(c) && Simulates(c, r) && k in c.entries && h == c.maxAverage
    ensures Simulates(Move(c, k, Aged(c.entries[k].freq, h)),
                      Stamp(r, k, r.entries[k].value, Halved(r.entries[k].freq, r.maxAverage / 2)))
  {
    hide ListsAgree, Move, Stamp, ByStamp;
    assert Aged(c.entries[k].freq, h) == Halved(r.entries[k].freq, r.maxAverage / 2);
    MoveSimulates(c, r, k, Aged(c.entries[k].freq, h));
  }

  lemma {:induction false} AgeAllSimulates(c: Cache, r: Ref, order: seq<Key>)
    requires WellFormed(c) && Simulates(c, r) && Distinct(order)
    requires forall k :: k in order ==> k in c.entries
    ensures Simulates(AgeAll(c, order), RefAgeAll(r, order))
  {
    hide WellFormed, Move, Stamp, ByStamp, Aged, Halved;
    if order != [] {
      var done, k := order[..|order| - 1], order[|order| - 1];
      assert order == done + [k];
      assert forall x :: x in done ==> x in order;
      AgeAllSimulates(c, r, done);
      AgeAllEffect(c, done);
      AgeAllStep(c, done, k);
      RefAgeAllStep(r, done, k);
      AgeStepSimulates(AgeAll(c, done), RefAgeAll(r, done), k, c.maxAverage);
    }
  }

  /** The front of the maintained minimum list is the reference victim. */
  lemma VictimsAgree(c: Cache, r: Ref)
    requires WellFormed(c) && Simulates(c, r) && Exact(c) && c.entries.Keys != {}
    ensures CanEvict(c) && IsRefVictim(r, Victim(c)) && RefVictim(r) == Victim(c)
  {
    CanEvictIfExact(c);
    var v := Victim(c);
    var s := c.lists[c.minFreq];
    forall x | x in r.entries && x != v
      ensures r.entries[v].freq < r.entries[x].freq
        || (r.entries[v].freq == r.entries[x].freq && r.entries[v].stamp < r.entries[x].stamp)
    {
      if c.entries[x].freq == c.minFreq {
        assert Listed(c, c.minFreq, x);
        var i :| 0 <= i < |s| && s[i] == x;
        assert ByStamp(r, s);
      }
    }
    assert IsRefVictim(r, v);
  }

  lemma EvictSimulates(c: Cache, r: Ref)
    requires WellFormed(c) && Simulates(c, r) && Exact(c) && c.entries.Keys != {}
    ensures CanEvict(c) && (exists k :: IsRefVictim(r, k)) && Simulates(KickOut(c), RefEvict(r))
  {
    VictimsAgree(c, r);
    var v := Victim(c);
    var d, q := KickOut(c), RefEvict(r);
    DetachAgrees(c, v);
    forall g | g in d.lists ensures ByStamp(q, d.lists[g]) {
      WithoutByStamp(r, c.lists[g], v);
      assert ByStamp(r, d.lists[g]);
      forall x | x in d.lists[g] ensures x in q.entries && q.entries[x] == r.entries[x] {
        assert Listed(Detach(c, v), g, x);
      }
    }
  }

  lemma PlacedSimulates(c: Cache, r: Ref, k: Key, v: Value)
    requires Invariant(c) && Simulates(c, r) && k !in c.entries && c.capacity != 0
    ensures Full(c) ==> CanEvict(c) && exists x :: IsRefVictim(r, x)
    ensures Simulates(Placed(c, k, v), Stamp(if Full(c) then RefEvict(r) else r, k, v, 1))
  {
    if Full(c) {
      assert c.entries.Keys != {} by { assert |c.entries.Keys| == c.capacity; }
      EvictSimulates(c, r);
      KickOutFacts(c);
    }
    NewSimulates(if Full(c) then KickOut(c) else c, if Full(c) then RefEvict(r) else r, k, v);
  }

  lemma NewSimulates(b: Cache, q: Ref, k: Key, v: Value)
    requires WellFormed(b) && Simulates(b, q) && k !in b.entries
    ensures Simulates(Attach(b.(entries := b.entries[k := Entry(v, 1)]), k), Stamp(q, k, v, 1))
  {
    var p := Attach(b.(entries := b.entries[k := Entry(v, 1)]), k);
    forall g | g in p.lists ensures ByStamp(Stamp(q, k, v, 1), p.lists[g]) {
      if g in b.lists {
        assert !Listed(b, g, k);
        StampElsewhere(q, b.lists[g], k, v, 1);
      } else {
        StampElsewhere(q, [], k, v, 1);
        assert p.lists[g] == [] + [k];
      }
    }
  }

  lemma TouchSimulates(c: Cache, r: Ref, k: Key)
    requires WellFormed(c) && Simulates(c, r) && k in c.entries
    ensures Simulates(Touch(c, k), Stamp(r, k, r.entries[k].value, r.entries[k].freq + 1))
  {
    MoveSimulates(c, r, k, c.entries[k].freq + 1);
  }

  lemma BeforeSimulates(c: Cache, r: Ref, op: Op)
    requires Invariant(c) && Simulates(c, r) && Counts(c, op)
    ensures NeedsVictim(c, op) ==> CanEvict(c)
    ensures RefCounts(r, op) && RefHasRoom(r, op)
    ensures Simulates(BeforeCount(c, op), RefBefore(r, op))
  {
    SameCount(c, r);
    if op.key in c.entries {
      HitSimulates(c, r, op);
    } else {
      PlacedSimulates(c, r, op.key, op.value);
    }
  }

  /** What a put does to the value of a key that is already there. */
  function RefStored(r: Ref, op: Op): Ref
    requires !op.Purge? && op.key in r.entries
  {
    if op.Put? then r.(entries := r.entries[op.key := r.entries[op.key].(value := op.value)]) else r
  }

  lemma StoredSimulates(c: Cache, r: Ref, op: Op)
    requires Simulates(c, r) && !op.Purge? && op.key in c.entries
    ensures Simulates(Stored(c, op), RefStored(r, op))
  {
    assert forall g :: g in c.lists ==> ByStamp(RefStored(r, op), c.lists[g]);
  }

  lemma HitSimulates(c: Cache, r: Ref, op: Op)
    requires WellFormed(c) && Simulates(c, r) && !op.Purge? && op.key in c.entries
    ensures var e := r.entries[op.key];
      Simulates(Touch(Stored(c, op), op.key), Stamp(r, op.key, if op.Put? then op.value else e.value, e.freq + 1))
  {
    hide WellFormed, ByStamp, Touch, AgedEntries;
    StoredFacts(c, op);
    StoredSimulates(c, r, op);
    TouchSimulates(Stored(c, op), RefStored(r, op), op.key);
    RestampStored(r, op);
  }

  lemma RestampStored(r: Ref, op: Op)
    requires !op.Purge? && op.key in r.entries
    ensures var e, q := r.entries[op.key], RefStored(r, op);
      Stamp(q, op.key, q.entries[op.key].value, e.freq + 1)
      == Stamp(r, op.key, if op.Put? then op.value else e.value, e.freq + 1)
  {
    var e, q := r.entries[op.key], RefStored(r, op);
    var n := RefEntry(if op.Put? then op.value else e.value, e.freq + 1, r.clock);
    assert q.entries[op.key := n] == r.entries[op.key := n];
  }

  lemma SameCount(c: Cache, r: Ref)
    requires c.entries.Keys == r.entries.Keys
    ensures |c.entries| == |r.entries|
  {
    assert |c.entries.Keys| == |c.entries| && |r.entries.Keys| == |r.entries|;
  }

  lemma CountedSimulates(b: Cache, q: Ref)
    requires Simulates(b, q)
    ensures Simulates(Counted(b), q.(total := q.total + 1)) && b.entries.Keys == q.entries.Keys
  {
    hide Average;
    assert forall f :: f in b.lists ==> ByStamp(q.(total := q.total + 1), b.lists[f]);
  }

  lemma RescanSimulates(c: Cache, r: Ref)
    requires Simulates(c, r)
    ensures Simulates(UpdateMinFreq(c), r)
  {
    hide LeastListed, ByStamp;
  }

  lemma AgesTogether(b: Cache, q: Ref)
    requires Simulates(b, q) && b.entries.Keys != {}
    ensures Counted(b).average > b.maxAverage <==> RefAges(q.(total := q.total + 1))
  {
    hide ByStamp;
    SameCount(b, q);
    assert |b.entries| == |b.entries.Keys|;
    AveragePasses(b.total + 1, |b.entries|, b.maxAverage);
  }

  lemma CountSimulates(b: Cache, q: Ref, order: seq<Key>)
    requires WellFormed(b) && Simulates(b, q) && IsOrderOf(order, b.entries.Keys) && b.entries.Keys != {}
    ensures Simulates(AddFreqNum(b, order), RefCount(q, order))
  {
    hide RefAges, Average, Simulates, ListsAgree, AgeAll, RefAgeAll, LeastListed;
    AgesTogether(b, q);
    var d := Counted(b);
    SameStructure(b, d);
    CountedSimulates(b, q);
    AgeAllSimulates(d, q.(total := q.total + 1), order);
    RescanSimulates(AgeAll(d, order), RefAgeAll(q.(total := q.total + 1), order));
  }

  /** One operation of the cache is the same operation of the reference. */
  lemma StepSimulates(c: Cache, r: Ref, op: Op)
    requires Invariant(c) && Simulates(c, r) && Defined(c, op)
    ensures RefDefined(r, op) && Simulates(Apply(c, op), RefApply(r, op))
  {
    if Counts(c, op) {
      BeforeSimulates(c, r, op);
      BeforeCountFacts(c, op);
      CountSimulates(BeforeCount(c, op), RefBefore(r, op), op.order);
    }
  }

  /** Refinement: within 2 <= maxAverage <= 250, every run of the cache is, operation
      by operation, a run of the reference with the same bindings, frequencies and victims. */
  lemma {:induction false} CacheRefinesReference(
      capacity: int, maxAverage: nat, ops: seq<Op>, states: seq<Cache>, n: nat)
    returns (refs: seq<Ref>)
    requires IsRun(capacity, maxAverage, ops, states) && n <= |ops|
    requires 2 <= maxAverage <= 250
    ensures IsRefRun(capacity, maxAverage, ops[..n], refs)
    ensures forall i :: 0 <= i <= n ==> Simulates(states[i], refs[i])
  {
    hide Invariant, Defined, RefDefined, Apply, RefApply;
    if n == 0 {
      refs := [RefEmpty(capacity, maxAverage)];
    } else {
      refs := CacheRefinesReference(capacity, maxAverage, ops, states, n - 1);
      RunKeepsInvariant(capacity, maxAverage, ops, states, n - 1);
      StepSimulates(states[n - 1], refs[n - 1], ops[n - 1]);
      refs := refs + [RefApply(refs[n - 1], ops[n - 1])];
    }
  }
}
