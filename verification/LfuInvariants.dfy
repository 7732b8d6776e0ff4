/**
  What every operation of the ageing LFU cache keeps: the lists agree with the
  node map, the access total bounds the live frequencies, and the maintained
  minimum is the true one.
 */
module LfuInvariants {
  import opened Sequences
  import opened LfuModel

  // ---- structure ----

  ghost predicate Listed(c: Cache, f: int, k: Key) {
    f in c.lists && k in c.lists[f]
  }

  /** Every list is duplicate-free and holds exactly the mapped keys of its
      frequency, apart from the keys in `loose`, which are in no list. */
  ghost predicate ListsAgree(c: Cache, loose: set<Key>) {
    && (forall f :: f in c.lists ==> Distinct(c.lists[f]))
    && (forall f, k :: Listed(c, f, k) <==> k in c.entries && k !in loose && c.entries[k].freq == f)
    && (forall k :: k in c.entries && k !in loose ==> c.entries[k].freq >= 1)
  }

  ghost predicate WellFormed(c: Cache) {
    ListsAgree(c, {})
  }

  /** Only the node map and the lists matter for the structure, and of the entries
      only their frequencies. */
  lemma SameStructure(c: Cache, d: Cache)
    requires WellFormed(c) && d.lists == c.lists && d.entries.Keys == c.entries.Keys
    requires forall k :: k in c.entries ==> d.entries[k].freq == c.entries[k].freq
    ensures WellFormed(d)
  {
    assert forall f, k :: Listed(d, f, k) <==> Listed(c, f, k);
  }

  lemma DetachAgrees(c: Cache, k: Key)
    requires WellFormed(c) && k in c.entries
    ensures ListsAgree(Detach(c, k), {k})
  {
    var f := c.entries[k].freq;
    assert Listed(c, f, k);
    WithoutFacts(c.lists[f], k);
    var d := Detach(c, k);
    forall g, x ensures Listed(d, g, x) <==> Listed(c, g, x) && x != k {
      if x == k { assert Listed(c, g, k) ==> g == f; }
    }
  }

  lemma AttachAgrees(c: Cache, k: Key)
    requires ListsAgree(c, {k}) && k in c.entries && c.entries[k].freq >= 1
    ensures WellFormed(Attach(c, k))
  {
    var f := c.entries[k].freq;
    assert !Listed(c, f, k);
    var d := Attach(c, k);
    forall g, x ensures Listed(d, g, x) <==> Listed(c, g, x) || (g == f && x == k) {
    }
  }

  lemma MoveWellFormed(c: Cache, k: Key, f: int)
    requires WellFormed(c) && k in c.entries && f >= 1
    ensures WellFormed(Move(c, k, f))
    ensures Move(c, k, f).entries == c.entries[k := c.entries[k].(freq := f)]
  {
    DetachAgrees(c, k);
    var d := Detach(c, k);
    var e := SetFreq(d, k, f);
    assert ListsAgree(e, {k}) by {
      forall g, x ensures Listed(e, g, x) <==> Listed(d, g, x) {}
    }
    AttachAgrees(e, k);
  }

  // ---- sums of frequencies ----

  ghost function Sum(m: map<Key, Entry>): int
    decreases m.Keys
  {
    if m.Keys == {} then 0
    else
      var k := AnyOf(m.Keys);
      m[k].freq + Sum(m - {k})
  }

  lemma {:induction false} SumWithout(m: map<Key, Entry>, k: Key)
    requires k in m
    ensures Sum(m) == m[k].freq + Sum(m - {k})
    decreases m.Keys
  {
    var a := AnyOf(m.Keys);
    if a != k {
      SumWithout(m - {a}, k);
      SumWithout(m - {k}, a);
      assert m - {a} - {k} == m - {k} - {a};
    }
  }

  lemma SumWith(m: map<Key, Entry>, k: Key, e: Entry)
    ensures Sum(m[k := e]) == Sum(m) + e.freq - (if k in m then m[k].freq else 0)
  {
    SumWithout(m[k := e], k);
    assert m[k := e] - {k} == m - {k};
    if k in m {
      SumWithout(m, k);
    } else {
      assert m - {k} == m;
    }
  }

  lemma OneMore(x: int, n: nat)
    ensures x * (n + 1) == x * n + x
  {
  }

  lemma {:induction false} SumAtLeast(m: map<Key, Entry>, low: int)
    requires forall k :: k in m ==> m[k].freq >= low
    ensures Sum(m) >= low * |m|
    decreases m.Keys
  {
    if m.Keys != {} {
      var k := AnyOf(m.Keys);
      SumAtLeast(m - {k}, low);
      assert (m - {k}).Keys == m.Keys - {k};
      assert |m| == |m.Keys| == |(m - {k}).Keys| + 1;
      OneMore(low, |m - {k}|);
    }
  }

  // ---- the least frequency ----

  /** `f` is the least frequency of a mapped key. */
  ghost predicate Least(m: map<Key, Entry>, f: int) {
    && (exists k :: k in m && m[k].freq == f)
    && (forall k :: k in m ==> f <= m[k].freq)
  }

  /** The maintained minimum is the true one. */
  ghost predicate Exact(c: Cache) {
    c.entries.Keys != {} ==> Least(c.entries, c.minFreq)
  }

  lemma LeastIsListed(c: Cache, f: int)
    requires WellFormed(c) && Least(c.entries, f)
    ensures f in c.lists && c.lists[f] != [] && f >= 1
    ensures forall g :: g in c.lists && c.lists[g] != [] ==> f <= g
  {
    var k :| k in c.entries && c.entries[k].freq == f;
    assert Listed(c, f, k);
    forall g | g in c.lists && c.lists[g] != [] ensures f <= g {
      assert Listed(c, g, c.lists[g][0]);
    }
  }

  /** The rescan finds the least frequency exactly when that is below INT8_MAX; from
      there on it falls back to 1. */
  lemma RescanFinds(c: Cache, f: int)
    requires WellFormed(c) && Least(c.entries, f)
    ensures UpdateMinFreq(c).minFreq == if f < INT8_MAX then f else 1
  {
    LeastIsListed(c, f);
  }

  lemma {:induction false} LeastExists(m: map<Key, Entry>) returns (f: int)
    requires m.Keys != {}
    ensures Least(m, f)
    decreases m.Keys
  {
    var k := AnyOf(m.Keys);
    var r := m - {k};
    f := m[k].freq;
    assert r.Keys == m.Keys - {k};
    if r.Keys != {} {
      var g := LeastExists(r);
      var w :| w in r && r[w].freq == g;
      if g < f { f := g; assert m[w].freq == g; }
    }
    forall x | x in m ensures f <= m[x].freq {
      assert x == k || x in r.Keys;
    }
  }

  lemma CanEvictIfExact(c: Cache)
    requires WellFormed(c) && Exact(c) && c.entries.Keys != {}
    ensures CanEvict(c) && c.entries[Victim(c)].freq == c.minFreq
  {
    LeastIsListed(c, c.minFreq);
    assert Listed(c, c.minFreq, c.lists[c.minFreq][0]);
  }

  // ---- ageing ----

  ghost function AgedEntries(m: map<Key, Entry>, aged: set<Key>, maxAverage: nat): map<Key, Entry> {
    map k | k in m :: if k in aged then m[k].(freq := Aged(m[k].freq, maxAverage)) else m[k]
  }

  lemma AgedStep(m: map<Key, Entry>, s: set<Key>, k: Key, maxAverage: nat)
    requires k in m && k !in s
    ensures AgedEntries(m, s + {k}, maxAverage)
      == var a := AgedEntries(m, s, maxAverage); a[k := a[k].(freq := Aged(m[k].freq, maxAverage))]
  {
  }

  lemma AgeStepEffect(m: map<Key, Entry>, b: Cache, done: seq<Key>, k: Key)
    requires WellFormed(b) && k in m && k !in done
    requires b.entries == AgedEntries(m, (set x | x in done), b.maxAverage)
    ensures var r := Move(b, k, Aged(b.entries[k].freq, b.maxAverage));
      WellFormed(r) && r.entries == AgedEntries(m, (set x | x in done + [k]), b.maxAverage)
  {
    hide ListsAgree, Move;
    var s := set x | x in done;
    AgedStep(m, s, k, b.maxAverage);
    assert (set x | x in done + [k]) == s + {k};
    MoveWellFormed(b, k, Aged(b.entries[k].freq, b.maxAverage));
  }

  /** An ageing pass over the keys of `order` ages each of them once, whatever the order. */
  lemma {:induction false} AgeAllEffect(c: Cache, order: seq<Key>)
    requires WellFormed(c) && Distinct(order)
    requires forall k :: k in order ==> k in c.entries
    ensures WellFormed(AgeAll(c, order))
    ensures AgeAll(c, order).entries == AgedEntries(c.entries, (set k | k in order), c.maxAverage)
  {
    hide WellFormed, Move, Aged;
    if order != [] {
      var done, k := order[..|order| - 1], order[|order| - 1];
      assert order == done + [k];
      assert forall x :: x in done ==> x in order;
      AgeAllEffect(c, done);
      AgeAllStep(c, done, k);
      AgeStepEffect(c.entries, AgeAll(c, done), done, k);
    }
  }

  /** A full pass, in terms of the aged frequencies and the least one. */
  lemma AgeingEffect(c: Cache, order: seq<Key>)
    requires WellFormed(c) && IsOrderOf(order, c.entries.Keys) && c.entries.Keys != {}
    ensures var r := HandleOverMaxAverage(c, order);
      && WellFormed(r)
      && r.entries == AgedEntries(c.entries, c.entries.Keys, c.maxAverage)
      && forall f :: Least(c.entries, f) ==>
           && Least(r.entries, Aged(f, c.maxAverage))
           && r.minFreq == if Aged(f, c.maxAverage) < INT8_MAX then Aged(f, c.maxAverage) else 1
    ensures var r := HandleOverMaxAverage(c, order);
      forall j, k :: j in c.entries && k in c.entries && c.entries[j].freq <= c.entries[k].freq
        ==> r.entries[j].freq <= r.entries[k].freq
  {
    AgeAllEffect(c, order);
    assert (set k | k in order) == c.entries.Keys;
    var b := AgeAll(c, order);
    forall f | Least(c.entries, f)
      ensures Least(b.entries, Aged(f, c.maxAverage))
      ensures UpdateMinFreq(b).minFreq == if Aged(f, c.maxAverage) < INT8_MAX then Aged(f, c.maxAverage) else 1
    {
      var k :| k in c.entries && c.entries[k].freq == f;
      assert b.entries[k].freq == Aged(f, c.maxAverage);
      RescanFinds(b, Aged(f, c.maxAverage));
    }
    SameStructure(b, HandleOverMaxAverage(c, order));
  }

  /** A full pass keeps keys and values, turns every frequency f into
      max(1, f - maxAverage / 2), keeps the frequency order weakly, and leaves the least of
      the new ones as the minimum, if that is below INT8_MAX, and 1 otherwise. */
  lemma AgeingPass(c: Cache, order: seq<Key>)
    requires WellFormed(c) && IsOrderOf(order, c.entries.Keys) && c.entries.Keys != {}
    ensures var r := HandleOverMaxAverage(c, order);
      && WellFormed(r) && r.entries.Keys == c.entries.Keys
      && (forall k :: k in c.entries ==>
            var f, g := c.entries[k].freq, r.entries[k].freq;
            && r.entries[k].value == c.entries[k].value
            && g >= 1 && g >= f - c.maxAverage / 2 && (g == 1 || g == f - c.maxAverage / 2))
    ensures var r := HandleOverMaxAverage(c, order);
      forall j, k :: j in c.entries && k in c.entries && c.entries[j].freq <= c.entries[k].freq
        ==> r.entries[j].freq <= r.entries[k].freq
    ensures var r := HandleOverMaxAverage(c, order);
      exists f :: Least(r.entries, f) && r.minFreq == if f < INT8_MAX then f else 1
  {
    hide ListsAgree, AgeAll, LeastListed, Distinct;
    var least := LeastExists(c.entries);
    AgeingEffect(c, order);
    assert Least(HandleOverMaxAverage(c, order).entries, Aged(least, c.maxAverage));
  }

  lemma {:induction false} AgeingSum(m: map<Key, Entry>, maxAverage: nat)
    requires forall k :: k in m ==> m[k].freq >= 1
    ensures Sum(AgedEntries(m, m.Keys, maxAverage)) <= Sum(m)
    decreases m.Keys
  {
    var a := AgedEntries(m, m.Keys, maxAverage);
    if m.Keys != {} {
      var k := AnyOf(m.Keys);
      var r := m - {k};
      AgeingSum(r, maxAverage);
      assert a - {k} == AgedEntries(r, r.Keys, maxAverage);
      SumWithout(a, k);
      SumWithout(m, k);
    }
  }
}
