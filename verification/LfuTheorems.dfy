/**
  Theorems about whole runs of the ageing LFU cache: conservation of the access
  total, exactness of the maintained minimum, and what an eviction removes.
 */
module LfuTheorems {
  import opened Arithmetic
  import opened Sequences
  import opened LfuModel
  import opened LfuInvariants

  // ---- one step ----

  lemma TouchFacts(c: Cache, k: Key)
    requires WellFormed(c) && k in c.entries
    ensures var r := Touch(c, k);
      && WellFormed(r)
      && r.entries == c.entries[k := c.entries[k].(freq := c.entries[k].freq + 1)]
      && r.total == c.total && r.capacity == c.capacity && r.maxAverage == c.maxAverage
      && (Exact(c) ==> Exact(r) && c.minFreq <= r.minFreq <= c.minFreq + 1)
  {
    var f := c.entries[k].freq;
    var b := Move(c, k, f + 1);
    var r := Touch(c, k);
    MoveWellFormed(c, k, f + 1);
    assert forall g, x :: Listed(r, g, x) <==> Listed(b, g, x);
    assert Listed(c, f, k);
    assert Listed(r, f + 1, k);
    if Exact(c) {
      var w :| w in c.entries && c.entries[w].freq == c.minFreq;
      if r.minFreq == c.minFreq {
        if w == k {
          assert Listed(b, f, b.lists[f][0]);
        } else {
          assert r.entries[w].freq == c.minFreq;
        }
      } else {
        forall x | x in r.entries ensures f + 1 <= r.entries[x].freq {
          assert !Listed(r, f, x);
        }
      }
    }
  }

  lemma KickOutFacts(c: Cache)
    requires WellFormed(c) && CanEvict(c)
    ensures var r := KickOut(c);
      && WellFormed(r)
      && r.entries == c.entries - {Victim(c)}
      && r.total - Sum(r.entries) == c.total - Sum(c.entries)
  {
    var v := Victim(c);
    DetachAgrees(c, v);
    var r := KickOut(c);
    assert forall g, x :: Listed(r, g, x) <==> Listed(Detach(c, v), g, x);
    SumWithout(c.entries, v);
  }

  lemma PlacedFacts(c: Cache, k: Key, v: Value)
    requires WellFormed(c) && k !in c.entries && (Full(c) ==> CanEvict(c))
    ensures var r := Placed(c, k, v);
      && WellFormed(r)
      && r.entries == (if Full(c) then c.entries - {Victim(c)} else c.entries)[k := Entry(v, 1)]
      && r.total + 1 - Sum(r.entries) == c.total - Sum(c.entries)
  {
    if Full(c) { KickOutFacts(c); }
    var b := if Full(c) then KickOut(c) else c;
    var e := b.(entries := b.entries[k := Entry(v, 1)]);
    assert forall g, x :: Listed(e, g, x) <==> Listed(b, g, x);
    AttachAgrees(e, k);
    SumWith(b.entries, k, Entry(v, 1));
  }

  /** What `put` does to the value of a key that is already there. */
  function Stored(c: Cache, op: Op): Cache
    requires !op.Purge? && op.key in c.entries
  {
    if op.Put? then c.(entries := c.entries[op.key := c.entries[op.key].(value := op.value)]) else c
  }

  lemma StoredFacts(c: Cache, op: Op)
    requires WellFormed(c) && !op.Purge? && op.key in c.entries
    ensures WellFormed(Stored(c, op))
    ensures Exact(c) ==> Exact(Stored(c, op))
    ensures Sum(Stored(c, op).entries) == Sum(c.entries)
  {
    var d := Stored(c, op);
    SameStructure(c, d);
    SumWith(c.entries, op.key, d.entries[op.key]);
    assert c.entries[op.key := d.entries[op.key]] == d.entries;
    if Exact(c) {
      var w :| w in c.entries && c.entries[w].freq == c.minFreq;
      assert d.entries[w].freq == c.minFreq;
    }
  }

  lemma BeforeCountFacts(c: Cache, op: Op)
    requires WellFormed(c) && Counts(c, op) && (NeedsVictim(c, op) ==> CanEvict(c))
    ensures var b := BeforeCount(c, op);
      && WellFormed(b)
      && op.key in b.entries
      && b.total + 1 - Sum(b.entries) == c.total - Sum(c.entries)
      && (op.key !in c.entries ==> b.entries[op.key].freq == 1)
      && (op.key in c.entries ==> b.entries.Keys == c.entries.Keys)
      && (op.key in c.entries && Exact(c) ==> Exact(b) && b.minFreq <= c.minFreq + 1)
      && b.capacity == c.capacity && b.maxAverage == c.maxAverage
  {
    if op.key in c.entries {
      StoredFacts(c, op);
      var d := Stored(c, op);
      TouchFacts(d, op.key);
      var b := BeforeCount(c, op);
      SumWith(d.entries, op.key, b.entries[op.key]);
      assert b.total == c.total;
    } else {
      PlacedFacts(c, op.key, op.value);
    }
  }

  /** Mass that an ageing pass takes out when `b` is counted. */
  ghost function AgeLoss(b: Cache): int {
    if Counted(b).average > b.maxAverage
    then Sum(b.entries) - Sum(AgedEntries(b.entries, b.entries.Keys, b.maxAverage)) else 0
  }

  /** Counting an access: keys and values stay, and ageing is the only loss of mass. */
  lemma CountFacts(b: Cache, order: seq<Key>)
    requires WellFormed(b) && b.entries.Keys != {} && IsOrderOf(order, b.entries.Keys)
    ensures var r := AddFreqNum(b, order);
      && WellFormed(r)
      && r.entries == (if Counted(b).average > b.maxAverage
                       then AgedEntries(b.entries, b.entries.Keys, b.maxAverage) else b.entries)
      && r.total == b.total + 1
      && r.capacity == b.capacity && r.maxAverage == b.maxAverage
      && Sum(r.entries) == Sum(b.entries) - AgeLoss(b) && AgeLoss(b) >= 0
      && |r.entries| == |b.entries| && r.entries.Keys == b.entries.Keys
  {
    var d := Counted(b);
    SameStructure(b, d);
    if d.average > d.maxAverage {
      AgeingEffect(d, order);
      AgeingSum(b.entries, b.maxAverage);
    }
    assert AddFreqNum(b, order).entries.Keys == b.entries.Keys;
    SameSize(AddFreqNum(b, order).entries, b.entries);
  }

  /** The average passes its bound when the accesses reach maxAverage + 1 for each key. */
  lemma AveragePasses(total: int, n: nat, maxAverage: nat)
    requires n > 0
    ensures Average(total, n) > maxAverage <==> total >= (maxAverage + 1) * n
  {
    var q := total / n;
    assert n * q <= total < n * (q + 1);
    if q > maxAverage {
      Factor(n, maxAverage + 1, q);
    } else {
      Factor(n, q + 1, maxAverage + 1);
    }
  }

  lemma Factor(n: nat, a: int, b: int)
    requires a <= b
    ensures n * a <= n * b
  {
    assert n * b == n * a + n * (b - a);
  }

  /** Counting an access, in plain numbers: when the accesses counted so far, this one
      included, are at least maxAverage + 1 for each key, every frequency loses half of
      maxAverage but stays at least 1; else nothing changes. */
  lemma CountingIs(b: Cache, order: seq<Key>, k: Key)
    requires WellFormed(b) && k in b.entries && IsOrderOf(order, b.entries.Keys)
    ensures var r, f, h := AddFreqNum(b, order), b.entries[k].freq, b.maxAverage / 2;
      && r.total == b.total + 1 && k in r.entries && r.entries[k].value == b.entries[k].value
      && r.entries[k].freq ==
           if b.total + 1 < (b.maxAverage + 1) * |b.entries| then f else if f <= h then 1 else f - h
  {
    hide ListsAgree, Sum, AgeLoss;
    CountFacts(b, order);
    assert b.entries.Keys != {} && |b.entries| == |b.entries.Keys|;
    AveragePasses(b.total + 1, |b.entries|, b.maxAverage);
    if Counted(b).average > b.maxAverage {
      SameStructure(b, Counted(b));
      AgeingEffect(Counted(b), order);
    }
  }

  lemma SameSize(m: map<Key, Entry>, n: map<Key, Entry>)
    requires m.Keys == n.Keys
    ensures |m| == |n|
  {
    assert |m| == |m.Keys| && |n| == |n.Keys|;
  }

  /** Frequency mass that an operation takes out without lowering the total. */
  ghost function Lost(c: Cache, op: Op): int
    requires Defined(c, op)
  {
    if op.Purge? then Sum(c.entries)
    else if Counts(c, op) then AgeLoss(BeforeCount(c, op))
    else 0
  }

  /** Every operation keeps the structure, whatever the thresholds, and the total
      exceeds the live frequencies by exactly the mass that ageing and purging took. */
  lemma StepKeepsStructure(c: Cache, op: Op)
    requires WellFormed(c) && Defined(c, op)
    ensures WellFormed(Apply(c, op))
    ensures Apply(c, op).total - Sum(Apply(c, op).entries) == c.total - Sum(c.entries) + Lost(c, op)
    ensures Lost(c, op) >= 0
  {
    if Counts(c, op) {
      BeforeCountFacts(c, op);
      var b := BeforeCount(c, op);
      CountFacts(b, op.order);
      SameStructure(AddFreqNum(b, op.order), Apply(c, op));
    } else if op.Purge? {
      assert forall g, x :: !Listed(Apply(c, op), g, x);
      SumAtLeast(c.entries, 0);
    }
  }

  ghost function TotalLost(ops: seq<Op>, states: seq<Cache>, n: nat): int
    requires n <= |ops| <= |states|
    requires forall i :: 0 <= i < |ops| ==> Defined(states[i], ops[i])
  {
    if n == 0 then 0 else TotalLost(ops, states, n - 1) + Lost(states[n - 1], ops[n - 1])
  }

  /** Over any run: the access total is the live frequencies plus everything that
      ageing passes and purges have removed, so it never falls below the former. */
  lemma {:induction false} AccessTotalConserved(
      capacity: int, maxAverage: nat, ops: seq<Op>, states: seq<Cache>, n: nat)
    requires IsRun(capacity, maxAverage, ops, states) && n <= |ops|
    ensures WellFormed(states[n])
    ensures states[n].total == Sum(states[n].entries) + TotalLost(ops, states, n)
    ensures Sum(states[n].entries) <= states[n].total
  {
    if n == 0 {
      assert forall g, x :: !Listed(states[0], g, x);
    } else {
      AccessTotalConserved(capacity, maxAverage, ops, states, n - 1);
      StepKeepsStructure(states[n - 1], ops[n - 1]);
    }
  }

  lemma CountKeepsAverage(b: Cache, order: seq<Key>)
    requires WellFormed(b) && b.entries.Keys != {} && IsOrderOf(order, b.entries.Keys)
    ensures var r := AddFreqNum(b, order);
      |r.entries| > 0 && |r.entries| * r.average <= r.total < |r.entries| * (r.average + 1)
  {
    hide ListsAgree, Sum, AgeLoss;
    CountFacts(b, order);
    assert AddFreqNum(b, order).average == Counted(b).average;
    assert |b.entries| == |b.entries.Keys|;
  }

  /** In every run: as long as anything is cached, the average is the accesses per key. */
  lemma AverageIsExact(capacity: int, maxAverage: nat, ops: seq<Op>, states: seq<Cache>, n: nat)
    requires IsRun(capacity, maxAverage, ops, states) && n <= |ops| && states[n].entries != map[]
    ensures var c := states[n]; |c.entries| * c.average <= c.total < |c.entries| * (c.average + 1)
  {
    hide ListsAgree, Sum, AgeLoss, AddFreqNum, IsOrderOf, BeforeCount;
    if n > 0 {
      var c, op := states[n - 1], ops[n - 1];
      if Counts(c, op) {
        AccessTotalConserved(capacity, maxAverage, ops, states, n - 1);
        BeforeCountFacts(c, op);
        CountKeepsAverage(BeforeCount(c, op), op.order);
      } else if !op.Purge? {
        AverageIsExact(capacity, maxAverage, ops, states, n - 1);
      }
    }
  }

  // ---- the maintained minimum ----

  /** What holds between operations when 2 <= maxAverage <= 250. */
  ghost predicate Invariant(c: Cache) {
    && WellFormed(c)
    && Sum(c.entries) <= c.total
    && Exact(c)
    && (c.entries.Keys != {} ==> c.minFreq <= c.maxAverage)
    && (c.capacity >= 0 ==> |c.entries| <= c.capacity)
  }

  lemma FloorDivision(f: int, n: nat, total: int)
    requires n > 0 && f * n <= total
    ensures f <= total / n
  {
    assert n * f < n * (total / n + 1);
    CancelLess(n, f, total / n + 1);
  }

  /** The averaging argument: the least frequency is at most the average access count. */
  lemma LeastAtMostAverage(m: map<Key, Entry>, f: int, total: int)
    requires Least(m, f) && Sum(m) <= total
    ensures f <= Average(total, |m|)
  {
    SumAtLeast(m, f);
    assert m.Keys != {};
    FloorDivision(f, |m|, total);
  }

  /** Counting brings a least frequency of at most maxAverage + 1 back under
      maxAverage, and a rescan finds it. */
  lemma CountKeepsLeast(b: Cache, order: seq<Key>, f: int)
    requires WellFormed(b) && IsOrderOf(order, b.entries.Keys)
    requires 2 <= b.maxAverage <= 250
    requires Least(b.entries, f) && f <= b.maxAverage + 1
    requires Sum(b.entries) <= b.total + 1
    ensures var r := AddFreqNum(b, order);
      exists g :: Least(r.entries, g) && 1 <= g <= b.maxAverage
        && (b.minFreq == f ==> r.minFreq == g) && (f == 1 ==> g == 1)
  {
    var d := Counted(b);
    var r := AddFreqNum(b, order);
    LeastIsListed(b, f);
    if d.average > d.maxAverage {
      SameStructure(b, d);
      AgeingEffect(d, order);
      assert Least(r.entries, Aged(f, b.maxAverage));
    } else {
      LeastAtMostAverage(b.entries, f, b.total + 1);
      assert Least(r.entries, f);
    }
  }

  lemma CountKeepsInvariant(b: Cache, order: seq<Key>)
    requires WellFormed(b) && b.entries.Keys != {} && IsOrderOf(order, b.entries.Keys)
    requires 2 <= b.maxAverage <= 250
    requires Exact(b) && b.minFreq <= b.maxAverage + 1
    requires Sum(b.entries) <= b.total + 1
    requires b.capacity >= 0 ==> |b.entries| <= b.capacity
    ensures Invariant(AddFreqNum(b, order))
  {
    CountFacts(b, order);
    CountKeepsLeast(b, order, b.minFreq);
  }

  lemma HitKeepsInvariant(c: Cache, op: Op)
    requires Invariant(c) && Counts(c, op) && Defined(c, op) && 2 <= c.maxAverage <= 250
    requires op.key in c.entries
    ensures Invariant(Apply(c, op))
  {
    StepKeepsStructure(c, op);
    BeforeCountFacts(c, op);
    var b := BeforeCount(c, op);
    SameSize(b.entries, c.entries);
    CountKeepsInvariant(b, op.order);
  }

  lemma InsertionKeepsInvariant(c: Cache, op: Op)
    requires Invariant(c) && Counts(c, op) && Defined(c, op) && 2 <= c.maxAverage <= 250
    requires op.key !in c.entries
    ensures Invariant(Apply(c, op))
  {
    StepKeepsStructure(c, op);
    BeforeCountFacts(c, op);
    var b := BeforeCount(c, op);
    InsertionFits(c, op.key, op.value);
    CountFacts(b, op.order);
    assert Least(b.entries, 1);
    CountKeepsLeast(b, op.order, 1);
    LeastUnique(Apply(c, op).entries, 1);
  }

  lemma LeastUnique(m: map<Key, Entry>, f: int)
    requires Least(m, f)
    ensures forall g :: Least(m, g) ==> g == f
  {
  }

  lemma InsertionFits(c: Cache, k: Key, v: Value)
    requires WellFormed(c) && c.capacity != 0 && k !in c.entries && (Full(c) ==> CanEvict(c))
    requires c.capacity >= 0 ==> |c.entries| <= c.capacity
    ensures c.capacity >= 0 ==> |Placed(c, k, v).entries| <= c.capacity
  {
    PlacedFacts(c, k, v);
    var kept := if Full(c) then c.entries - {Victim(c)} else c.entries;
    assert kept.Keys == if Full(c) then c.entries.Keys - {Victim(c)} else c.entries.Keys;
    assert |c.entries.Keys| == |c.entries| && |kept.Keys| == |kept|;
  }

  lemma StepKeepsInvariant(c: Cache, op: Op)
    requires Invariant(c) && Defined(c, op) && 2 <= c.maxAverage <= 250
    ensures Invariant(Apply(c, op))
    ensures Apply(c, op).capacity == c.capacity && Apply(c, op).maxAverage == c.maxAverage
  {
    if Counts(c, op) {
      BeforeCountFacts(c, op);
      CountFacts(BeforeCount(c, op), op.order);
      if op.key in c.entries {
        HitKeepsInvariant(c, op);
      } else {
        InsertionKeepsInvariant(c, op);
      }
    } else {
      StepKeepsStructure(c, op);
    }
  }

  /** Within 2 <= maxAverage <= 250 the invariant holds after every operation of every run. */
  lemma {:induction false} RunKeepsInvariant(
      capacity: int, maxAverage: nat, ops: seq<Op>, states: seq<Cache>, n: nat)
    requires IsRun(capacity, maxAverage, ops, states) && n <= |ops|
    requires 2 <= maxAverage <= 250
    ensures Invariant(states[n])
    ensures states[n].capacity == capacity && states[n].maxAverage == maxAverage
  {
    if n == 0 {
      assert forall g, x :: !Listed(states[0], g, x);
    } else {
      RunKeepsInvariant(capacity, maxAverage, ops, states, n - 1);
      StepKeepsInvariant(states[n - 1], ops[n - 1]);
    }
  }

  /** A put of a new key into a full cache takes out exactly one key: one of least
      frequency, and of those the one at the front of its list. */
  lemma EvictionTakesALeastKey(c: Cache, op: Op)
    requires Invariant(c) && NeedsVictim(c, op)
    requires Defined(c, op)
    ensures var r := Apply(c, op);
      && CanEvict(c)
      && r.entries.Keys == c.entries.Keys - {Victim(c)} + {op.key}
      && Victim(c) in c.entries && Victim(c) != op.key
      && (forall k :: k in c.entries ==> c.entries[Victim(c)].freq <= c.entries[k].freq)
      && (forall k :: k in r.entries && k != op.key ==> r.entries[k].value == c.entries[k].value)
      && r.entries[op.key].value == op.value
  {
    hide ListsAgree, AddFreqNum, AgedEntries, Sum, AgeLoss;
    assert c.entries.Keys != {} by { assert |c.entries.Keys| == c.capacity; }
    CanEvictIfExact(c);
    BindingsKept(c, op);
    PlacedFacts(c, op.key, op.value);
    CountFacts(Placed(c, op.key, op.value), op.order);
  }

  // ---- what a caller sees ----

  /** With the minimum exact, an operation only needs a proper visiting order. */
  lemma NeverStuck(c: Cache, op: Op)
    requires Invariant(c)
    ensures NeedsVictim(c, op) ==> CanEvict(c)
    ensures Defined(c, op) <==> (Counts(c, op) ==> IsOrderOf(op.order, BeforeCount(c, op).entries.Keys))
  {
    if NeedsVictim(c, op) {
      assert c.entries.Keys != {} by { assert |c.entries.Keys| == c.capacity; }
      CanEvictIfExact(c);
    }
  }

  /** A get keeps every binding; a put binds its key and, apart from an evicted key,
      keeps the others. */
  lemma BindingsKept(c: Cache, op: Op)
    requires WellFormed(c) && Defined(c, op) && !op.Purge?
    ensures var r := Apply(c, op);
      && (op.Get? ==> r.entries.Keys == c.entries.Keys)
      && (op.Put? && c.capacity != 0 ==> op.key in r.entries && r.entries[op.key].value == op.value)
      && (forall k :: k in r.entries && !(op.Put? && k == op.key)
            ==> k in c.entries && r.entries[k].value == c.entries[k].value)
  {
    hide WellFormed, BeforeCount, AddFreqNum, Sum, AgeLoss;
    if Counts(c, op) {
      BeforeCountFacts(c, op);
      BindingsBefore(c, op);
      CountFacts(BeforeCount(c, op), op.order);
      var b, r := BeforeCount(c, op), Apply(c, op);
      assert forall k :: k in r.entries ==> k in b.entries && r.entries[k].value == b.entries[k].value;
    }
  }

  lemma BindingsBefore(c: Cache, op: Op)
    requires WellFormed(c) && Counts(c, op) && (NeedsVictim(c, op) ==> CanEvict(c))
    ensures var b := BeforeCount(c, op);
      && op.key in b.entries
      && (op.Get? ==> b.entries.Keys == c.entries.Keys)
      && (op.Put? ==> b.entries[op.key].value == op.value)
      && (forall k :: k in b.entries && !(op.Put? && k == op.key)
            ==> k in c.entries && b.entries[k].value == c.entries[k].value)
  {
    if op.key in c.entries {
      StoredFacts(c, op);
      TouchFacts(Stored(c, op), op.key);
    } else {
      PlacedFacts(c, op.key, op.value);
    }
  }

  /** The value the latest put gave to `k`, forgotten by a purge. */
  function LatestPut(ops: seq<Op>, k: Key): Lookup {
    if ops == [] then Miss
    else
      var op := ops[|ops| - 1];
      if op.Purge? then Miss
      else if op.Put? && op.key == k then Found(op.value)
      else LatestPut(ops[..|ops| - 1], k)
  }

  /** Whatever the run, a key that is found carries the value last put for it. */
  lemma {:induction false} HitReturnsLatestPut(
      capacity: int, maxAverage: nat, ops: seq<Op>, states: seq<Cache>, n: nat, k: Key)
    requires IsRun(capacity, maxAverage, ops, states) && n <= |ops|
    ensures Find(states[n], k) == Miss || Find(states[n], k) == LatestPut(ops[..n], k)
  {
    hide ListsAgree, Apply, Defined;
    if n != 0 && k in states[n].entries {
      AccessTotalConserved(capacity, maxAverage, ops, states, n - 1);
      assert ops[..n][..n - 1] == ops[..n - 1];
      var c, op := states[n - 1], ops[n - 1];
      CapacityZero(capacity, maxAverage, ops, states, n - 1);
      CapacityZero(capacity, maxAverage, ops, states, n);
      PurgeEmpties(c);
      if !op.Purge? {
        BindingsKept(c, op);
        if !(op.Put? && op.key == k) {
          HitReturnsLatestPut(capacity, maxAverage, ops, states, n - 1, k);
        }
      }
    }
  }

  lemma PurgeEmpties(c: Cache)
    ensures Defined(c, Purge) && Apply(c, Purge).entries.Keys == {}
  {
  }

  /** A cache of capacity 0 stays empty. */
  lemma {:induction false} CapacityZero(
      capacity: int, maxAverage: nat, ops: seq<Op>, states: seq<Cache>, n: nat)
    requires IsRun(capacity, maxAverage, ops, states) && n <= |ops|
    ensures states[n].capacity == capacity
    ensures capacity == 0 ==> states[n].entries.Keys == {}
  {
    if n != 0 {
      CapacityZero(capacity, maxAverage, ops, states, n - 1);
      AccessTotalConserved(capacity, maxAverage, ops, states, n - 1);
      var c, op := states[n - 1], ops[n - 1];
      if Counts(c, op) {
        BeforeCountFacts(c, op);
        CountFacts(BeforeCount(c, op), op.order);
      }
    }
  }

  // ---- what is still there ----

  /** The keys put since the last purge. */
  function KeysPut(ops: seq<Op>): set<Key> {
    if ops == [] then {}
    else
      var op := ops[|ops| - 1];
      match op
      case Purge => {}
      case Put(k, _, _) => KeysPut(ops[..|ops| - 1]) + {k}
      case Get(_, _) => KeysPut(ops[..|ops| - 1])
  }

  /** How many of n keys a cache of this capacity holds; a negative one has no limit. */
  function Fitting(capacity: int, n: nat): nat {
    if 0 <= capacity < n then capacity else n
  }

  /** Only keys that were put are there, and as many of them as fit. */
  ghost predicate Holds(c: Cache, put: set<Key>) {
    c.entries.Keys <= put && |c.entries.Keys| == Fitting(c.capacity, |put|)
  }

  function KeysBeforeCount(c: Cache, op: Op): set<Key>
    requires Counts(c, op) && (NeedsVictim(c, op) ==> CanEvict(c))
  {
    if op.key in c.entries then c.entries.Keys
    else if Full(c) then c.entries.Keys - {Victim(c)} + {op.key}
    else c.entries.Keys + {op.key}
  }

  lemma KeysPlaced(c: Cache, op: Op)
    requires WellFormed(c) && Counts(c, op) && (NeedsVictim(c, op) ==> CanEvict(c))
    ensures BeforeCount(c, op).entries.Keys == KeysBeforeCount(c, op)
  {
    hide WellFormed, Sum, AgedEntries;
    BeforeCountFacts(c, op);
    if op.key !in c.entries {
      PlacedFacts(c, op.key, op.value);
    }
  }

  lemma KeysAfter(c: Cache, op: Op)
    requires WellFormed(c) && Defined(c, op) && Counts(c, op)
    ensures Apply(c, op).entries.Keys == KeysBeforeCount(c, op)
  {
    hide WellFormed, AgeLoss, Sum, AddFreqNum, BeforeCount, AgedEntries, KeysBeforeCount, Counted;
    KeysPlaced(c, op);
    BeforeCountFacts(c, op);
    CountFacts(BeforeCount(c, op), op.order);
  }

  lemma PutKeepsHolds(c: Cache, op: Op, put: set<Key>)
    requires WellFormed(c) && Defined(c, op) && op.Put? && c.capacity != 0 && Holds(c, put)
    ensures Apply(c, op).entries.Keys <= put + {op.key}
    ensures |Apply(c, op).entries.Keys| == Fitting(c.capacity, |put + {op.key}|)
  {
    hide WellFormed, Apply, Defined;
    KeysAfter(c, op);
    SizeOfKeys(c.entries);
    var was := c.entries.Keys;
    if op.key in put {
      assert put + {op.key} == put;
    } else {
      assert |put + {op.key}| == |put| + 1;
    }
    if op.key !in was {
      if Full(c) {
        MissingVictim(c, op);
        assert |was - {Victim(c)} + {op.key}| == |was|;
      } else if op.key in put && |was| == |put| {
        SameWhenFull(was, put);
      }
    }
  }

  lemma SizeOfKeys(m: map<Key, Entry>)
    ensures |m| == |m.Keys|
  {
  }

  lemma MissingVictim(c: Cache, op: Op)
    requires Defined(c, op) && op.Put? && c.capacity != 0 && op.key !in c.entries && Full(c)
    ensures CanEvict(c) && Victim(c) in c.entries
  {
  }

  lemma SameWhenFull<T>(a: set<T>, b: set<T>)
    requires a <= b && |a| == |b|
    ensures a == b
  {
    assert |b - a| == 0;
  }

  /** In every run, whatever the thresholds: the keys that are there were put since the last
      purge, and they are as many of those as fit. */
  lemma {:induction false} KeysAreKept(
      capacity: int, maxAverage: nat, ops: seq<Op>, states: seq<Cache>, n: nat)
    requires IsRun(capacity, maxAverage, ops, states) && n <= |ops|
    ensures states[n].capacity == capacity && Holds(states[n], KeysPut(ops[..n]))
  {
    hide WellFormed, Apply, Defined;
    CapacityZero(capacity, maxAverage, ops, states, n);
    if n > 0 && capacity != 0 {
      var c, op := states[n - 1], ops[n - 1];
      assert ops[..n][..n - 1] == ops[..n - 1];
      AccessTotalConserved(capacity, maxAverage, ops, states, n - 1);
      KeysAreKept(capacity, maxAverage, ops, states, n - 1);
      match op {
        case Purge => PurgeEmpties(c);
        case Put(_, _, _) => PutKeepsHolds(c, op, KeysPut(ops[..n - 1]));
        case Get(_, _) => BindingsKept(c, op);
      }
    }
  }

  /** In every run: as long as all keys put since the last purge fit, each is found, with
      the value last put for it; nothing else is found. */
  lemma NothingIsForgotten(
      capacity: int, maxAverage: nat, ops: seq<Op>, states: seq<Cache>, n: nat, k: Key)
    requires IsRun(capacity, maxAverage, ops, states) && n <= |ops|
    requires Fitting(capacity, |KeysPut(ops[..n])|) == |KeysPut(ops[..n])|
    ensures states[n].entries.Keys == KeysPut(ops[..n])
    ensures Find(states[n], k) == LatestPut(ops[..n], k)
  {
    KeysAreKept(capacity, maxAverage, ops, states, n);
    SameWhenFull(states[n].entries.Keys, KeysPut(ops[..n]));
    HitReturnsLatestPut(capacity, maxAverage, ops, states, n, k);
    PutIffLatest(ops[..n], k);
  }

  lemma {:induction false} PutIffLatest(ops: seq<Op>, k: Key)
    ensures k in KeysPut(ops) <==> LatestPut(ops, k) != Miss
  {
    if ops != [] {
      PutIffLatest(ops[..|ops| - 1], k);
    }
  }
}
