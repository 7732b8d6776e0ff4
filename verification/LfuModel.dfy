/**
  The least-frequently-used cache with ageing, on values: what one put, get or
  purge does to the node map, the frequency lists and the counters.  `order` is
  the order in which the hash map of nodes is visited when an ageing pass runs.
 */
module LfuModel {
  import opened Sequences

  type Key(==, 0, !new)
  type Value(0, !new)

  const INT8_MAX := 127

  datatype Entry = Entry(value: Value, freq: int)

  datatype Cache = Cache(
    capacity: int,
    maxAverage: nat,
    entries: map<Key, Entry>,
    lists: map<int, seq<Key>>,
    minFreq: int,
    average: int,
    total: int)

  datatype Lookup = Miss | Found(value: Value)

  datatype Op =
    | Put(key: Key, value: Value, order: seq<Key>)
    | Get(key: Key, order: seq<Key>)
    | Purge

  function Empty(capacity: int, maxAverage: nat): Cache {
    Cache(capacity, maxAverage, map[], map[], INT8_MAX, 0, 0)
  }

  function Find(c: Cache, k: Key): Lookup {
    if k in c.entries then Found(c.entries[k].value) else Miss
  }

  // ---- list surgery ----

  function Detach(c: Cache, k: Key): (r: Cache)
    requires k in c.entries
    ensures r == c.(lists := r.lists)
  {
    var f := c.entries[k].freq;
    if f in c.lists then c.(lists := c.lists[f := Without(c.lists[f], k)]) else c
  }

  function SetFreq(c: Cache, k: Key, f: int): (r: Cache)
    requires k in c.entries
    ensures r.entries.Keys == c.entries.Keys && r == c.(entries := r.entries)
  {
    c.(entries := c.entries[k := c.entries[k].(freq := f)])
  }

  function Attach(c: Cache, k: Key): (r: Cache)
    requires k in c.entries
    ensures r == c.(lists := r.lists)
  {
    var f := c.entries[k].freq;
    c.(lists := c.lists[f := (if f in c.lists then c.lists[f] else []) + [k]])
  }

  function Move(c: Cache, k: Key, f: int): Cache
    requires k in c.entries
  {
    Attach(SetFreq(Detach(c, k), k, f), k)
  }

  // ---- ageing ----

  /** The frequency an ageing pass leaves behind. */
  function Aged(f: int, maxAverage: nat): int {
    if f - maxAverage / 2 < 1 then 1 else f - maxAverage / 2
  }

  function AgeAll(c: Cache, order: seq<Key>): (r: Cache)
    requires forall k :: k in order ==> k in c.entries
    ensures r.entries.Keys == c.entries.Keys
    ensures r == c.(entries := r.entries, lists := r.lists)
  {
    if order == [] then c
    else
      var n := |order| - 1;
      assert forall k :: k in order[..n] ==> k in order;
      var b := AgeAll(c, order[..n]);
      Move(b, order[n], Aged(b.entries[order[n]].freq, c.maxAverage))
  }

  /** The least frequency with a non-empty list, as far as INT8_MAX lets it show. */
  ghost function LeastListed(lists: map<int, seq<Key>>, seen: set<int>): (m: int)
    requires seen <= lists.Keys
    ensures m <= INT8_MAX
    ensures forall f :: f in seen && lists[f] != [] ==> m <= f
    ensures m == INT8_MAX || (m in seen && lists[m] != [])
    decreases seen
  {
    if seen == {} then INT8_MAX
    else
      var f := AnyOf(seen);
      var m := LeastListed(lists, seen - {f});
      if lists[f] != [] && f < m then f else m
  }

  lemma LeastListedIs(lists: map<int, seq<Key>>, m: int)
    requires m <= INT8_MAX && forall f :: f in lists && lists[f] != [] ==> m <= f
    requires m == INT8_MAX || (m in lists && lists[m] != [])
    ensures m == LeastListed(lists, lists.Keys)
  {
  }

  lemma AgeAllStep(c: Cache, done: seq<Key>, k: Key)
    requires (forall x :: x in done ==> x in c.entries) && k in c.entries
    ensures var b := AgeAll(c, done);
      && (forall x :: x in done + [k] ==> x in c.entries)
      && AgeAll(c, done + [k]) == Move(b, k, Aged(b.entries[k].freq, c.maxAverage))
  {
    assert (done + [k])[..|done|] == done;
  }

  ghost function UpdateMinFreq(c: Cache): Cache {
    var m := LeastListed(c.lists, c.lists.Keys);
    c.(minFreq := if m == INT8_MAX then 1 else m)
  }

  ghost function HandleOverMaxAverage(c: Cache, order: seq<Key>): Cache
    requires IsOrderOf(order, c.entries.Keys)
  {
    if c.entries.Keys == {} then c else UpdateMinFreq(AgeAll(c, order))
  }

  function Average(total: int, size: nat): int {
    if size == 0 then 0 else total / size
  }

  /** One more access; ageing runs when the average passes its bound. */
  function Counted(c: Cache): Cache {
    c.(total := c.total + 1, average := Average(c.total + 1, |c.entries|))
  }

  ghost function AddFreqNum(c: Cache, order: seq<Key>): Cache
    requires IsOrderOf(order, c.entries.Keys)
  {
    var b := Counted(c);
    if b.average > b.maxAverage then HandleOverMaxAverage(b, order) else b
  }

  // ---- the operations ----

  /** A hit: one list up, with the minimum carried along when its list empties. */
  function Touch(c: Cache, k: Key): Cache
    requires k in c.entries
  {
    var f := c.entries[k].freq;
    var b := Move(c, k, f + 1);
    if f == b.minFreq && f in b.lists && b.lists[f] == []
    then b.(minFreq := b.minFreq + 1) else b
  }

  /** The list the eviction looks into exists and holds a node. */
  predicate CanEvict(c: Cache) {
    c.minFreq in c.lists && c.lists[c.minFreq] != [] && c.lists[c.minFreq][0] in c.entries
  }

  function Victim(c: Cache): Key
    requires CanEvict(c)
  {
    c.lists[c.minFreq][0]
  }

  function KickOut(c: Cache): Cache
    requires CanEvict(c)
  {
    var v := Victim(c);
    var f := c.entries[v].freq;
    var rest := c.entries - {v};
    Detach(c, v).(entries := rest, total := c.total - f, average := Average(c.total - f, |rest|))
  }

  predicate Full(c: Cache) {
    |c.entries| == c.capacity
  }

  /** Room made and the new node in place, not yet counted. */
  function Placed(c: Cache, k: Key, v: Value): Cache
    requires Full(c) ==> CanEvict(c)
  {
    var b := if Full(c) then KickOut(c) else c;
    Attach(b.(entries := b.entries[k := Entry(v, 1)]), k)
  }

  /** The operation is counted as an access: a hit, or an insertion. */
  predicate Counts(c: Cache, op: Op) {
    match op
    case Purge => false
    case Get(k, _) => k in c.entries
    case Put(_, _, _) => c.capacity != 0
  }

  predicate NeedsVictim(c: Cache, op: Op) {
    op.Put? && c.capacity != 0 && op.key !in c.entries && Full(c)
  }

  /** The state a counted operation hands to `AddFreqNum`. */
  function BeforeCount(c: Cache, op: Op): Cache
    requires Counts(c, op) && (NeedsVictim(c, op) ==> CanEvict(c))
  {
    match op
    case Get(k, _) => Touch(c, k)
    case Put(k, v, _) =>
      if k in c.entries then Touch(c.(entries := c.entries[k := c.entries[k].(value := v)]), k)
      else Placed(c, k, v)
  }

  /** A looked-for victim is there, and the visiting order visits every node once. */
  ghost predicate Defined(c: Cache, op: Op) {
    && (NeedsVictim(c, op) ==> CanEvict(c))
    && (Counts(c, op) ==> IsOrderOf(op.order, BeforeCount(c, op).entries.Keys))
  }

  ghost function Apply(c: Cache, op: Op): Cache
    requires Defined(c, op)
  {
    if op.Purge? then c.(entries := map[], lists := map[])
    else if !Counts(c, op) then c
    else
      var r := AddFreqNum(BeforeCount(c, op), op.order);
      if op.key in c.entries then r else r.(minFreq := 1)
  }

  // ---- runs ----

  /** `states` is what the operations `ops` lead through, starting from a new cache. */
  ghost predicate IsRun(capacity: int, maxAverage: nat, ops: seq<Op>, states: seq<Cache>) {
    && |states| == |ops| + 1
    && states[0] == Empty(capacity, maxAverage)
    && forall i :: 0 <= i < |ops| ==> Defined(states[i], ops[i]) && states[i + 1] == Apply(states[i], ops[i])
  }

  ghost predicate Reachable(capacity: int, maxAverage: nat, c: Cache) {
    exists ops, states :: IsRun(capacity, maxAverage, ops, states) && c == states[|ops|]
  }

  lemma RunExtends(capacity: int, maxAverage: nat, ops: seq<Op>, states: seq<Cache>, op: Op)
    requires IsRun(capacity, maxAverage, ops, states) && Defined(states[|ops|], op)
    ensures IsRun(capacity, maxAverage, ops + [op], states + [Apply(states[|ops|], op)])
  {
    hide Defined, Apply;
  }
}
