/**
  Why both bounds on `maxAverage` are needed.  Outside 2..250, any number of keys that
  are put once and then read in turn reach a frequency that the rescan does not find.
 */
module LfuThresholds {
  import opened Arithmetic
  import opened Sequences
  import opened LfuModel
  import opened LfuInvariants
  import opened LfuTheorems

  predicate Outside(maxAverage: nat) {
    maxAverage <= 1 || maxAverage >= 251
  }

  /** How often every key is accessed before the first rescan that misses them. */
  function Limit(maxAverage: nat): nat {
    if maxAverage <= 1 then 126 else maxAverage
  }

  /** The first `d` of these keys were accessed f + 1 times, the others f times. */
  ghost predicate Level(c: Cache, keys: seq<Key>, f: nat, d: nat) {
    && WellFormed(c) && Distinct(keys) && d <= |keys|
    && (forall k :: k in c.entries <==> k in keys)
    && (forall i :: 0 <= i < |keys| ==> c.entries[keys[i]].freq == if i < d then f + 1 else f)
    && c.total == |keys| * f + d
  }

  /** Every key has a frequency beyond INT8_MAX, and the minimum says 1. */
  ghost predicate Missed(c: Cache, keys: seq<Key>) {
    && WellFormed(c)
    && (forall k :: k in c.entries <==> k in keys)
    && (forall k :: k in c.entries ==> c.entries[k].freq >= INT8_MAX)
    && c.minFreq == 1
  }

  lemma {:induction false} SizeIs(m: map<Key, Entry>, keys: seq<Key>)
    requires Distinct(keys) && forall k :: k in m <==> k in keys
    ensures |m| == |keys| && IsOrderOf(keys, m.Keys)
  {
    assert IsOrderOf(keys, m.Keys);
    OrderLength(keys, m.Keys);
    assert |m| == |m.Keys|;
  }

  /** n * f + d accesses of n keys are f or, with d == n, f + 1 on average. */
  lemma AverageIs(n: nat, f: nat, d: nat)
    requires n > 0 && d <= n
    ensures Average(n * f + d, n) == if d < n then f else f + 1
    ensures n * f + n == n * (f + 1)
  {
    DivModUnique(n * f + d, n, if d < n then f else f + 1, if d < n then d else 0);
  }

  /** Ageing changes nothing when it takes nothing off, or the frequencies are 1. */
  lemma AgeingIdle(m: map<Key, Entry>, maxAverage: nat)
    requires forall k :: k in m ==> m[k].freq == 1 || (m[k].freq >= 1 && maxAverage <= 1)
    ensures AgedEntries(m, m.Keys, maxAverage) == m
  {
  }

  /** Counting an access of the n keys. */
  lemma CountLevel(b: Cache, keys: seq<Key>, f: nat, d: nat)
    requires WellFormed(b) && keys != [] && Distinct(keys) && (forall k :: k in b.entries <==> k in keys)
    requires (forall i :: 0 <= i < |keys| ==> b.entries[keys[i]].freq == if i < d then f + 1 else f)
    requires b.total + 1 == |keys| * f + d && 1 <= d <= |keys| && f <= Limit(b.maxAverage) && Outside(b.maxAverage)
    ensures IsOrderOf(keys, b.entries.Keys)
    ensures var r := AddFreqNum(b, keys);
      if f == Limit(b.maxAverage) && d == |keys| then Missed(r, keys) else Level(r, keys, f, d)
  {
    hide ListsAgree, Sum, AgeLoss, AgeAll;
    SizeIs(b.entries, keys);
    AverageIs(|keys|, f, d);
    CountFacts(b, keys);
    assert forall k :: k in b.entries ==> k in keys;
    FreqsAtLeastOne(b);
    if f == Limit(b.maxAverage) && d == |keys| {
      CountMisses(b, keys, f + 1);
    } else if Counted(b).average > b.maxAverage {
      AgeingIdle(b.entries, b.maxAverage);
    }
  }

  lemma FreqsAtLeastOne(c: Cache)
    requires WellFormed(c)
    ensures forall k :: k in c.entries ==> c.entries[k].freq >= 1
  {
  }

  lemma CountMisses(b: Cache, keys: seq<Key>, f: nat)
    requires WellFormed(b) && IsOrderOf(keys, b.entries.Keys) && keys != []
    requires forall k :: k in b.entries ==> b.entries[k].freq == f
    requires Outside(b.maxAverage) && f == Limit(b.maxAverage) + 1 && Counted(b).average > b.maxAverage
    ensures Missed(AddFreqNum(b, keys), keys)
  {
    hide ListsAgree, AgeAll;
    var e := Counted(b);
    SameStructure(b, e);
    assert keys[0] in keys;
    AgeingEffect(e, keys);
    assert Least(e.entries, f);
  }

  /** One more key is read. */
  lemma GetNext(c: Cache, keys: seq<Key>, f: nat, d: nat)
    requires Level(c, keys, f, d) && d < |keys| && 1 <= f <= Limit(c.maxAverage) && Outside(c.maxAverage)
    ensures Defined(c, Get(keys[d], keys))
    ensures var r := Apply(c, Get(keys[d], keys));
      && r.maxAverage == c.maxAverage && r.capacity == c.capacity
      && if f == Limit(c.maxAverage) && d + 1 == |keys| then Missed(r, keys) else Level(r, keys, f, d + 1)
  {
    hide ListsAgree, Touch, AddFreqNum;
    assert keys[d] in keys;
    TouchFacts(c, keys[d]);
    var b := Touch(c, keys[d]);
    forall i | 0 <= i < |keys| ensures b.entries[keys[i]].freq == if i < d + 1 then f + 1 else f {
      assert i != d ==> keys[i] != keys[d];
    }
    CountLevel(b, keys, f, d + 1);
    CountFacts(b, keys);
  }

  /** Placing one more key where there is room, before the count. */
  lemma PlaceNext(c: Cache, keys: seq<Key>, i: nat, v: Value)
    requires i < |keys| && Distinct(keys) && Level(c, keys[..i], 1, 0)
    requires c.capacity < 0 || i < c.capacity
    ensures !Full(c) && keys[i] !in c.entries && Distinct(keys[..i + 1])
    ensures var b := Placed(c, keys[i], v);
      && WellFormed(b) && b.total == i && b.capacity == c.capacity && b.maxAverage == c.maxAverage
      && (forall k :: k in b.entries <==> k in keys[..i + 1])
      && (forall k :: k in b.entries ==> b.entries[k].freq == 1)
  {
    hide ListsAgree, Sum;
    var k, s := keys[i], keys[..i];
    assert keys[..i + 1] == s + [k] && k !in s;
    SizeIs(c.entries, s);
    PlacedFacts(c, k, v);
    assert forall x :: x in keys[..i + 1] <==> x in s || x == k;
    forall x | x in c.entries ensures c.entries[x].freq == 1 {
      assert x in s;
    }
  }

  /** Counting the access of a new key: all frequencies are 1 and stay so. */
  lemma CountNew(b: Cache, s: seq<Key>)
    requires WellFormed(b) && s != [] && Distinct(s) && b.total + 1 == |s|
    requires (forall k :: k in b.entries <==> k in s) && (forall k :: k in b.entries ==> b.entries[k].freq == 1)
    ensures IsOrderOf(s, b.entries.Keys)
    ensures var r := AddFreqNum(b, s).(minFreq := 1);
      r.maxAverage == b.maxAverage && r.capacity == b.capacity && Level(r, s, 1, 0)
  {
    hide ListsAgree, Sum, AgeLoss, AddFreqNum;
    SizeIs(b.entries, s);
    assert s[0] in b.entries;
    CountFacts(b, s);
    AgeingIdle(b.entries, b.maxAverage);
    SameStructure(AddFreqNum(b, s), AddFreqNum(b, s).(minFreq := 1));
  }

  /** One more key is put, and there is room for it. */
  lemma PutNext(c: Cache, keys: seq<Key>, i: nat, v: Value)
    requires i < |keys| && Distinct(keys) && Level(c, keys[..i], 1, 0)
    requires c.capacity < 0 || i < c.capacity
    ensures Defined(c, Put(keys[i], v, keys[..i + 1]))
    ensures var r := Apply(c, Put(keys[i], v, keys[..i + 1]));
      r.maxAverage == c.maxAverage && r.capacity == c.capacity && Level(r, keys[..i + 1], 1, 0)
  {
    hide ListsAgree, AddFreqNum, Placed, Level, IsOrderOf;
    PlaceNext(c, keys, i, v);
    CountNew(Placed(c, keys[i], v), keys[..i + 1]);
  }

  lemma ReachableNext(capacity: int, maxAverage: nat, c: Cache, op: Op)
    requires Reachable(capacity, maxAverage, c) && Defined(c, op)
    ensures Reachable(capacity, maxAverage, Apply(c, op))
  {
    hide Defined, Apply;
    var ops, states :| IsRun(capacity, maxAverage, ops, states) && c == states[|ops|];
    RunExtends(capacity, maxAverage, ops, states, op);
    assert (states + [Apply(c, op)])[|ops + [op]|] == Apply(c, op);
  }

  lemma {:induction false} PutAll(capacity: int, maxAverage: nat, keys: seq<Key>, i: nat, v: Value) returns (c: Cache)
    requires i <= |keys| && Distinct(keys) && (capacity < 0 || |keys| <= capacity)
    ensures Reachable(capacity, maxAverage, c) && Level(c, keys[..i], 1, 0)
    ensures c.capacity == capacity && c.maxAverage == maxAverage
  {
    hide Reachable, Apply, Defined, ListsAgree;
    if i == 0 {
      c := Empty(capacity, maxAverage);
      EmptyIsReachable(capacity, maxAverage);
    } else {
      var b := PutAll(capacity, maxAverage, keys, i - 1, v);
      PutNext(b, keys, i - 1, v);
      c := Apply(b, Put(keys[i - 1], v, keys[..i]));
      ReachableNext(capacity, maxAverage, b, Put(keys[i - 1], v, keys[..i]));
    }
  }

  lemma EmptyIsReachable(capacity: int, maxAverage: nat)
    ensures Reachable(capacity, maxAverage, Empty(capacity, maxAverage)) && WellFormed(Empty(capacity, maxAverage))
  {
    var none: seq<Op>, c := [], Empty(capacity, maxAverage);
    assert IsRun(capacity, maxAverage, none, [c]) && [c][|none|] == c;
    assert forall g, x :: !Listed(c, g, x);
  }

  /** All keys are put, and then read in turn as often as it takes. */
  lemma {:induction false} Climb(capacity: int, maxAverage: nat, keys: seq<Key>, f: nat, d: nat) returns (c: Cache)
    requires keys != [] && Distinct(keys) && (capacity < 0 || |keys| <= capacity) && Outside(maxAverage)
    requires d <= |keys| && 1 <= f <= Limit(maxAverage) && (f < Limit(maxAverage) || d < |keys|)
    ensures Reachable(capacity, maxAverage, c) && Level(c, keys, f, d)
    ensures c.capacity == capacity && c.maxAverage == maxAverage
    decreases f, d
  {
    hide Reachable, Apply, Defined, ListsAgree;
    if f == 1 && d == 0 {
      var v: Value := *;
      c := PutAll(capacity, maxAverage, keys, |keys|, v);
      assert keys[..|keys|] == keys;
    } else if d == 0 {
      c := Climb(capacity, maxAverage, keys, f - 1, |keys|);
      AverageIs(|keys|, f - 1, |keys|);
    } else {
      var b := Climb(capacity, maxAverage, keys, f, d - 1);
      GetNext(b, keys, f, d - 1);
      c := Apply(b, Get(keys[d - 1], keys));
      ReachableNext(capacity, maxAverage, b, Get(keys[d - 1], keys));
    }
  }

  lemma MissedIsReachable(capacity: int, maxAverage: nat, keys: seq<Key>) returns (c: Cache)
    requires keys != [] && Distinct(keys) && (capacity < 0 || |keys| <= capacity) && Outside(maxAverage)
    ensures Reachable(capacity, maxAverage, c) && Missed(c, keys) && c.capacity == capacity
  {
    hide Reachable, Apply, Defined, ListsAgree;
    var n, f := |keys| - 1, Limit(maxAverage);
    var b := Climb(capacity, maxAverage, keys, f, n);
    GetNext(b, keys, f, n);
    c := Apply(b, Get(keys[n], keys));
    ReachableNext(capacity, maxAverage, b, Get(keys[n], keys));
  }

  /** The maintained minimum is the true one in every reachable state if, and only
      if, 2 <= maxAverage <= 250.  (With capacity 0 nothing is ever stored.) */
  lemma MinFreqExactIff(capacity: int, maxAverage: nat)
    requires capacity != 0
    ensures (forall c :: Reachable(capacity, maxAverage, c) ==> Exact(c)) <==> 2 <= maxAverage <= 250
  {
    if 2 <= maxAverage <= 250 {
      forall c | Reachable(capacity, maxAverage, c) ensures Exact(c) {
        ReachableIsFine(capacity, maxAverage, c);
      }
    } else {
      var k: Key := *;
      var keys := [k];
      var c := MissedIsReachable(capacity, maxAverage, keys);
      assert keys[0] in keys;
      MissedIsInexact(c, keys);
    }
  }

  lemma MissedIsInexact(c: Cache, keys: seq<Key>)
    requires Missed(c, keys) && keys != []
    ensures !Exact(c)
  {
    assert keys[0] in keys && keys[0] in c.entries;
  }

  lemma ReachableIsFine(capacity: int, maxAverage: nat, c: Cache)
    requires Reachable(capacity, maxAverage, c) && 2 <= maxAverage <= 250
    ensures Invariant(c)
  {
    var ops, states :| IsRun(capacity, maxAverage, ops, states) && c == states[|ops|];
    RunKeepsInvariant(capacity, maxAverage, ops, states, |ops|);
  }

  /** In every reachable state, a put that has to evict finds a node to evict. */
  ghost predicate EvictionsFind(capacity: int, maxAverage: nat) {
    forall c, op :: Reachable(capacity, maxAverage, c) && NeedsVictim(c, op) ==> CanEvict(c)
  }

  lemma MissingEviction(capacity: int, maxAverage: nat, c: Cache, op: Op)
    requires Reachable(capacity, maxAverage, c) && NeedsVictim(c, op) && !CanEvict(c)
    ensures !EvictionsFind(capacity, maxAverage)
  {
    hide Reachable, NeedsVictim, CanEvict;
  }

  /** Evictions always find a node if, and only if, 2 <= maxAverage <= 250, for every
      capacity for which there are keys enough to fill the cache and one more. */
  lemma EvictionsFindIff(capacity: nat, maxAverage: nat, keys: seq<Key>, other: Key)
    requires |keys| == capacity > 0 && Distinct(keys) && other !in keys
    ensures EvictionsFind(capacity, maxAverage) <==> 2 <= maxAverage <= 250
  {
    if 2 <= maxAverage <= 250 {
      forall c, op | Reachable(capacity, maxAverage, c) && NeedsVictim(c, op) ensures CanEvict(c) {
        ReachableIsFine(capacity, maxAverage, c);
        NeverStuck(c, op);
      }
    } else {
      var c := MissedIsReachable(capacity, maxAverage, keys);
      SizeIs(c.entries, keys);
      var v: Value := *;
      var op := Put(other, v, []);
      NothingListed(c, keys);
      MissingEviction(capacity, maxAverage, c, op);
    }
  }

  lemma NothingListed(c: Cache, keys: seq<Key>)
    requires Missed(c, keys)
    ensures !CanEvict(c)
  {
    if CanEvict(c) {
      assert Listed(c, 1, c.lists[1][0]);
    }
  }
}
