/**
  The cache as the program keeps it: nodes linked by `pre` and `next` between the
  sentinels of one list per frequency, two hash maps into them, and counters, all
  updated in place.  Every method is proved to do to this heap exactly what
  `LfuModel` says on values.
 */
module LfuCache {
  import opened Sequences
  import opened LfuModel
  import opened LfuInvariants
  import opened LfuTheorems

  class Node {
    const key: Key
    var value: Value
    var freq: int
    var pre: Node?
    var next: Node?
    /** The list this node is a sentinel of; null for a node that carries an entry. */
    ghost var sentinelOf: FreqList?

    constructor Sentinel()
      ensures freq == 1 && pre == null && next == null && sentinelOf == null
    {
      var k: Key := *;
      var v: Value := *;
      key, value, freq := k, v, 1;
      pre, next := null, null;
      sentinelOf := null;
    }

    constructor (key: Key, value: Value)
      ensures this.key == key && this.value == value && freq == 1
      ensures pre == null && next == null && sentinelOf == null
    {
      this.key, this.value, freq := key, value, 1;
      pre, next := null, null;
      sentinelOf := null;
    }
  }

  /** The keys of some nodes; a node's key never changes. */
  ghost function KeysOf(nodes: seq<Node>): (ks: seq<Key>)
    ensures |ks| == |nodes|
    ensures forall i :: 0 <= i < |nodes| ==> ks[i] == nodes[i].key
  {
    seq(|nodes|, i requires 0 <= i < |nodes| => nodes[i].key)
  }

  class FreqList {
    const freq: int
    const head: Node
    const tail: Node
    /** The nodes from `head` to `tail`, both included. */
    ghost var chain: seq<Node>

    ghost predicate Valid()
      reads this, chain
    {
      && |chain| >= 2 && chain[0] == head && chain[|chain| - 1] == tail
      && Distinct(chain)
      && head.sentinelOf == this && tail.sentinelOf == this
      && (forall i :: 0 < i < |chain| - 1 ==> chain[i].sentinelOf == null)
      && (forall i {:trigger chain[i].next} :: 0 <= i < |chain| - 1 ==> chain[i].next == chain[i + 1])
      && (forall i {:trigger chain[i].pre} :: 0 < i < |chain| ==> chain[i].pre == chain[i - 1])
      && head.pre == null && tail.next == null
    }

    /** The nodes between the sentinels. */
    ghost function Nodes(): seq<Node>
      requires |chain| >= 2
      reads this
    {
      chain[1..|chain| - 1]
    }

    constructor (n: int)
      ensures Valid() && Nodes() == [] && freq == n
      ensures fresh(head) && fresh(tail)
    {
      freq := n;
      var h := new Node.Sentinel();
      var t := new Node.Sentinel();
      head, tail := h, t;
      chain := [h, t];
      new;
      head.next := tail;
      tail.pre := head;
      head.sentinelOf, tail.sentinelOf := this, this;
    }

    method IsEmpty() returns (empty: bool)
      requires Valid()
      ensures empty <==> Nodes() == []
    {
      assert chain[0].next == chain[1] && (|chain| > 2 ==> chain[1] != chain[|chain| - 1]);
      empty := head.next == tail;
    }

    /** At the end of the list, in front of the tail sentinel. */
    method AddNode(node: Node)
      requires Valid() && node !in chain && node.sentinelOf == null
      modifies this`chain, chain`pre, chain`next, node`pre, node`next
      ensures Valid() && Nodes() == old(Nodes()) + [node]
      ensures forall n :: n in chain ==> n == node || n in old(chain)
    {
      ghost var n := |chain| - 1;
      assert chain[n - 1].next == tail;
      node.pre := tail.pre;
      node.next := tail;
      tail.pre.next := node;
      tail.pre := node;
      chain := chain[..n] + [node, tail];
    }

    /** Where `node` stands between the sentinels, if it does. */
    lemma Position(node: Node) returns (i: nat)
      requires Valid()
      ensures node in Nodes() ==>
                && i < |Nodes()| && Nodes()[i] == node && node == chain[i + 1]
                && node.pre == chain[i] && node.next == chain[i + 2]
    {
      i := 0;
      if node in Nodes() {
        i :| 0 <= i < |Nodes()| && Nodes()[i] == node;
        assert chain[i + 1].pre == chain[i] && chain[i + 1].next == chain[i + 2];
      }
    }

    /** Takes `node` out, wherever it stands; a node with a missing link is left alone. */
    method RemoveNode(node: Node)
      requires Valid()
      requires node !in Nodes() ==> node.pre == null || node.next == null
      modifies this`chain, chain`pre, chain`next
      ensures Valid()
      ensures Nodes() == Without(old(Nodes()), node)
      ensures old(node in Nodes()) ==> node.pre == null && node.next == null
      ensures forall n :: n in chain ==> n in old(chain)
    {
      ghost var i := Position(node);
      if node.pre == null || node.next == null {
        WithoutAbsent(Nodes(), node);
        return;
      }
      WithoutAt(Nodes(), i);
      Unlink(node, i + 1);
      node.pre := null;
      node.next := null;
    }

    /** The two neighbours of the node at position `i` skip it. */
    method Unlink(node: Node, ghost i: nat)
      requires Valid() && 0 < i < |chain| - 1 && chain[i] == node
      requires node.pre == chain[i - 1] && node.next == chain[i + 1]
      modifies this`chain, chain`pre, chain`next
      ensures Valid() && Nodes() == old(Nodes()[..i - 1] + Nodes()[i..])
      ensures node !in chain && forall n :: n in chain ==> n in old(chain)
    {
      ghost var was := chain;
      node.pre.next := node.next;
      node.next.pre := node.pre;
      chain := was[..i] + was[i + 1..];
      forall j | 0 <= j < |chain| - 1 ensures chain[j].next == chain[j + 1] && chain[j + 1].pre == chain[j] {
        if j < i - 1 {
          Untouched(was, i, j);
        } else if j > i - 1 {
          Untouched(was, i, j + 1);
        }
      }
      WithoutAt(was, i);
      WithoutFacts(was, node);
      InnerWithout(was, i);
    }

    /** Links of `was` away from position `i` are as before. */
    twostate lemma Untouched(new was: seq<Node>, new i: nat, new j: nat)
      requires was == old(chain) && old(Valid()) && 0 < i < |was| - 1 && j < |was| - 1 && j != i - 1 && j != i
      requires forall n :: n in was && n != was[i - 1] ==> n.next == old(n.next)
      requires forall n :: n in was && n != was[i + 1] ==> n.pre == old(n.pre)
      ensures was[j].next == was[j + 1] && was[j + 1].pre == was[j]
    {
      assert was[j] in was && was[j + 1] in was;
      assert was[j] != was[i - 1] && was[j + 1] != was[i + 1];
      assert old(was[j].next) == was[j + 1] && old(was[j + 1].pre) == was[j];
    }

    /** The oldest node, or the tail sentinel of an empty list. */
    method GetFirstNode() returns (node: Node)
      requires Valid()
      ensures node == if Nodes() == [] then tail else Nodes()[0]
    {
      assert chain[0].next == chain[1];
      node := head.next;
    }
  }

  /** Leaving out an inner element, seen without the first and the last one. */
  lemma InnerWithout<T>(s: seq<T>, i: nat)
    requires 0 < i < |s| - 1
    ensures var inner := s[1..|s| - 1];
      (s[..i] + s[i + 1..])[1..|s| - 2] == inner[..i - 1] + inner[i..]
  {
    var inner := s[1..|s| - 1];
    var left, right := (s[..i] + s[i + 1..])[1..|s| - 2], inner[..i - 1] + inner[i..];
    assert |left| == |right|;
    assert forall j :: 0 <= j < |left| ==> left[j] == right[j];
  }

  lemma {:induction false} KeysWithout(nodes: seq<Node>, node: Node)
    requires forall n :: n in nodes && n.key == node.key ==> n == node
    ensures KeysOf(Without(nodes, node)) == Without(KeysOf(nodes), node.key)
  {
    if nodes != [] {
      assert KeysOf(nodes)[1..] == KeysOf(nodes[1..]);
      if nodes[0] != node {
        KeysWithout(nodes[1..], node);
        assert KeysOf([nodes[0]] + Without(nodes[1..], node)) == [nodes[0].key] + KeysOf(Without(nodes[1..], node));
      }
    }
  }

  class LfuCache {
    const capacity: int
    const maxAverage: nat
    var minFreq: int
    var average: int
    var total: int
    var nodeMap: map<Key, Node>
    var freqToFreqList: map<int, FreqList>
    /** Every node and every list made so far. */
    ghost var nodes: set<Node>
    ghost var lists: set<FreqList>

    ghost predicate Footprint()
      reads `nodeMap, `freqToFreqList, `nodes, `lists, lists
    {
      && (forall k :: k in nodeMap ==> nodeMap[k] in nodes)
      && (forall f :: f in freqToFreqList ==>
            && freqToFreqList[f] in lists
            && |freqToFreqList[f].chain| >= 2
            && forall n :: n in freqToFreqList[f].chain ==> n in nodes)
    }

    /** The cache as a value. */
    ghost function Abs(): Cache
      requires Footprint()
      reads this, lists, nodes
    {
      Cache(capacity, maxAverage,
            map k | k in nodeMap :: Entry(nodeMap[k].value, nodeMap[k].freq),
            map f | f in freqToFreqList :: KeysOf(freqToFreqList[f].Nodes()),
            minFreq, average, total)
    }

    /** List `f` is intact and holds mapped nodes of frequency `f` only. */
    ghost predicate ListOk(f: int, loose: set<Key>)
      requires Footprint() && f in freqToFreqList
      reads `nodeMap, `freqToFreqList, `nodes, `lists, lists, nodes
    {
      Holds(freqToFreqList[f], f, nodeMap, loose)
    }

    static ghost predicate Holds(l: FreqList, f: int, m: map<Key, Node>, loose: set<Key>)
      reads l, l.chain
    {
      && l.freq == f && l.Valid()
      && forall n :: n in l.Nodes() ==> n.key in m && m[n.key] == n && n.freq == f && n.key !in loose
    }

    /** The node mapped from `k` belongs to `k`, and to the list of its frequency. */
    ghost predicate NodeOk(k: Key, loose: set<Key>)
      requires Footprint() && k in nodeMap
      reads `nodeMap, `freqToFreqList, `nodes, `lists, lists, nodes
    {
      var n := nodeMap[k];
      && n.key == k && n.sentinelOf == null && n.freq >= 1
      && (k !in loose ==> n.freq in freqToFreqList && n in freqToFreqList[n.freq].Nodes())
    }

    /** Well-formed, but for the nodes of the keys in `loose`, which are in no list. */
    ghost predicate Structure(loose: set<Key>)
      reads `nodeMap, `freqToFreqList, `nodes, `lists, lists, nodes
      ensures Structure(loose) ==> Footprint()
    {
      && Footprint()
      && (forall f :: f in freqToFreqList ==> ListOk(f, loose))
      && (forall k :: k in nodeMap ==> NodeOk(k, loose))
    }

    /** The pointers say what the value model says: list `f` holds exactly the keys
        mapped to nodes of frequency `f`, each of them once. */
    lemma StructureIsWellFormed()
      requires Structure({})
      ensures WellFormed(Abs())
    {
      var c := Abs();
      forall f | f in c.lists ensures Distinct(c.lists[f]) {
        assert ListOk(f, {});
        var s := freqToFreqList[f].Nodes();
        forall i, j | 0 <= i < j < |s| ensures s[i].key != s[j].key {
          assert s[i] in s && s[j] in s && s[i] != s[j];
        }
      }
      forall f, k ensures Listed(c, f, k) <==> k in c.entries && c.entries[k].freq == f {
        if f in freqToFreqList {
          assert ListOk(f, {});
          KeyMembers(freqToFreqList[f].Nodes(), k);
        }
        assert k in nodeMap ==> NodeOk(k, {});
      }
      assert forall k :: k in nodeMap ==> NodeOk(k, {});
    }

    static lemma KeyMembers(s: seq<Node>, k: Key)
      ensures k in KeysOf(s) <==> exists n :: n in s && n.key == k
    {
      if k in KeysOf(s) {
        var i :| 0 <= i < |s| && s[i].key == k;
        assert s[i] in s;
      }
    }

    /** No node, sentinel or not, is in list `f` and in another one. */
    lemma ChainsApart(f: int, loose: set<Key>)
      requires Structure(loose) && f in freqToFreqList
      ensures forall g :: g in freqToFreqList && g != f ==> freqToFreqList[g] != freqToFreqList[f]
      ensures forall g, n :: g in freqToFreqList && g != f && n in freqToFreqList[g].chain ==>
                n !in freqToFreqList[f].chain
    {
      assert ListOk(f, loose);
      forall g | g in freqToFreqList && g != f
        ensures freqToFreqList[g] != freqToFreqList[f]
        ensures forall n :: n in freqToFreqList[g].chain ==> n !in freqToFreqList[f].chain
      {
        assert ListOk(g, loose);
        forall n | n in freqToFreqList[g].chain ensures n !in freqToFreqList[f].chain {
          Anatomy(freqToFreqList[g], n);
          if n in freqToFreqList[f].chain { Anatomy(freqToFreqList[f], n); }
        }
      }
    }

    lemma LooseIsNotListed(node: Node, f: int)
      requires Structure({node.key}) && node.key in nodeMap && nodeMap[node.key] == node
      requires f in freqToFreqList
      ensures node !in freqToFreqList[f].chain
    {
      assert ListOk(f, {node.key}) && NodeOk(node.key, {node.key});
      if node in freqToFreqList[f].chain { Anatomy(freqToFreqList[f], node); }
    }

    static lemma Anatomy(l: FreqList, n: Node)
      requires l.Valid() && n in l.chain
      ensures if n == l.head || n == l.tail then n.sentinelOf == l
              else n.sentinelOf == null && n in l.Nodes()
    {
      var i :| 0 <= i < |l.chain| && l.chain[i] == n;
      if 0 < i < |l.chain| - 1 { assert l.Nodes()[i - 1] == n; }
    }

    /** Nothing but the links inside list `f` was written to. */
    twostate predicate OnlyListWritten(f: int)
      requires old(Footprint()) && Footprint()
      reads this, lists, nodes
    {
      && nodeMap == old(nodeMap) && freqToFreqList == old(freqToFreqList)
      && minFreq == old(minFreq) && average == old(average) && total == old(total)
      && (forall k :: k in nodeMap ==>
            var n := nodeMap[k];
            n.freq == old(n.freq) && n.value == old(n.value) && n.sentinelOf == old(n.sentinelOf))
      && (forall g :: g in freqToFreqList && g != f ==>
            && freqToFreqList[g].chain == old(freqToFreqList[g].chain)
            && forall n :: n in freqToFreqList[g].chain ==> unchanged(n))
    }

    /** On values, too, only list `f` can differ. */
    twostate lemma OnlyListChanged(new f: int)
      requires old(Footprint()) && Footprint() && OnlyListWritten(f) && f in freqToFreqList
      ensures Abs() == old(Abs()).(lists := old(Abs()).lists[f := KeysOf(freqToFreqList[f].Nodes())])
    {
      hide KeysOf;
      SameEntries();
      forall g | g in freqToFreqList && g != f ensures Abs().lists[g] == old(Abs()).lists[g] {
        assert freqToFreqList[g].Nodes() == old(freqToFreqList[g].Nodes());
      }
    }

    /** The other lists are as intact as they were. */
    twostate lemma OtherListsOk(new f: int, new loose: set<Key>, new newLoose: set<Key>)
      requires old(Structure(loose)) && Footprint() && OnlyListWritten(f)
      requires forall g, n :: g in freqToFreqList && g != f && n in freqToFreqList[g].Nodes() ==> n.key !in newLoose
      ensures forall g :: g in freqToFreqList && g != f ==> ListOk(g, newLoose)
    {
      forall g | g in freqToFreqList && g != f ensures ListOk(g, newLoose) {
        assert old(ListOk(g, loose));
        var l := freqToFreqList[g];
        assert forall i :: 0 <= i < |l.chain| ==> l.chain[i] in l.chain;
        assert l.Nodes() == old(l.Nodes());
      }
    }

    twostate lemma RemovalKeepsLists(node: Node, new f: int)
      requires old(Structure({})) && old(node.key in nodeMap && nodeMap[node.key] == node && node.freq == f)
      requires Footprint() && OnlyListWritten(f) && f in freqToFreqList
      requires freqToFreqList[f].Valid()
      requires freqToFreqList[f].Nodes() == Without(old(freqToFreqList[f].Nodes()), node)
      ensures forall g :: g in freqToFreqList ==> ListOk(g, {node.key})
    {
      hide KeysOf;
      assert old(ListOk(f, {}));
      WithoutFacts(old(freqToFreqList[f].Nodes()), node);
      forall g, n | g in freqToFreqList && g != f && n in freqToFreqList[g].Nodes() ensures n.key != node.key {
        assert old(ListOk(g, {}));
        assert freqToFreqList[g].Nodes() == old(freqToFreqList[g].Nodes());
      }
      OtherListsOk(f, {}, {node.key});
    }

    twostate lemma RemovalKeepsStructure(node: Node, new f: int)
      requires old(Structure({})) && old(node.key in nodeMap && nodeMap[node.key] == node && node.freq == f)
      requires Footprint() && OnlyListWritten(f) && f in freqToFreqList
      requires freqToFreqList[f].Valid()
      requires freqToFreqList[f].Nodes() == Without(old(freqToFreqList[f].Nodes()), node)
      ensures Structure({node.key})
    {
      hide KeysOf, ListOk, FreqList.Valid;
      RemovalKeepsLists(node, f);
      assert old(Distinct(freqToFreqList[f].Nodes())) by { InnerDistinct(f); }
      WithoutFacts(old(freqToFreqList[f].Nodes()), node);
      forall k | k in nodeMap ensures NodeOk(k, {node.key}) {
        assert old(NodeOk(k, {}));
        if k != node.key && nodeMap[k].freq != f {
          assert freqToFreqList[nodeMap[k].freq].Nodes() == old(freqToFreqList[nodeMap[k].freq].Nodes());
        }
      }
    }

    twostate lemma InnerDistinct(new f: int)
      requires old(Structure({})) && f in old(freqToFreqList)
      ensures old(Distinct(freqToFreqList[f].Nodes()))
    {
      assert old(ListOk(f, {}));
    }

    /** Takes the node out of list `freq`, and writes nothing outside that list. */
    method RemoveFromList(node: Node, freq: int)
      requires Structure({}) && node.key in nodeMap && nodeMap[node.key] == node
      requires freq == node.freq && freq in freqToFreqList
      modifies lists`chain, nodes`pre, nodes`next
      ensures Footprint() && OnlyListWritten(freq)
      ensures freqToFreqList[freq].Valid()
      ensures freqToFreqList[freq].Nodes() == Without(old(freqToFreqList[freq].Nodes()), node)
    {
      hide KeysOf;
      assert NodeOk(node.key, {}) && ListOk(freq, {});
      ChainsApart(freq, {});
      freqToFreqList[freq].RemoveNode(node);
      forall g, n | g in freqToFreqList && g != freq && n in freqToFreqList[g].chain ensures unchanged(n) {
        assert n !in old(freqToFreqList[freq].chain);
      }
    }

    method RemoveFromFreqList(node: Node)
      requires Structure({}) && node.key in nodeMap && nodeMap[node.key] == node
      modifies lists`chain, nodes`pre, nodes`next
      ensures Structure({node.key}) && node.freq == old(node.freq)
      ensures Abs() == Detach(old(Abs()), node.key)
    {
      hide FreqList.Valid, KeysOf, OnlyListWritten;
      var freq := node.freq;
      assert NodeOk(node.key, {}) && ListOk(freq, {});
      if freq in freqToFreqList {
        KeysWithout(freqToFreqList[freq].Nodes(), node);
        RemoveFromList(node, freq);
        RemovalKeepsStructure(node, freq);
        OnlyListChanged(freq);
      }
    }

    twostate lemma AdditionKeepsStructure(node: Node, new f: int)
      requires old(Structure({node.key}))
      requires old(node.key in nodeMap && nodeMap[node.key] == node && node.freq == f)
      requires Footprint() && OnlyListWritten(f) && f in freqToFreqList
      requires freqToFreqList[f].Valid()
      requires freqToFreqList[f].Nodes() == old(freqToFreqList[f].Nodes()) + [node]
      ensures Structure({})
    {
      assert old(ListOk(f, {node.key}));
      OtherListsOk(f, {node.key}, {});
      forall k | k in nodeMap ensures NodeOk(k, {}) {
        assert old(NodeOk(k, {node.key}));
      }
    }

    /** Puts the node at the end of list `freq`, and writes nothing outside that list. */
    method AddToList(node: Node, freq: int)
      requires Structure({node.key}) && node.key in nodeMap && nodeMap[node.key] == node
      requires freq == node.freq && freq in freqToFreqList
      modifies lists`chain, nodes`pre, nodes`next
      ensures Footprint() && OnlyListWritten(freq)
      ensures freqToFreqList[freq].Valid()
      ensures freqToFreqList[freq].Nodes() == old(freqToFreqList[freq].Nodes()) + [node]
    {
      hide KeysOf;
      assert NodeOk(node.key, {node.key}) && ListOk(freq, {node.key});
      ChainsApart(freq, {node.key});
      LooseIsNotListed(node, freq);
      freqToFreqList[freq].AddNode(node);
      forall g, n | g in freqToFreqList && g != freq && n in freqToFreqList[g].chain ensures unchanged(n) {
        assert n !in old(freqToFreqList[freq].chain);
      }
    }

    static lemma KeysOneMore(was: seq<Node>, node: Node)
      ensures KeysOf(was + [node]) == KeysOf(was) + [node.key]
    {
    }

    /** The list of the node's frequency exists; the node goes to its end. */
    method AppendToList(node: Node)
      requires Structure({node.key}) && node.key in nodeMap && nodeMap[node.key] == node
      requires node.freq in freqToFreqList
      modifies lists`chain, nodes`pre, nodes`next
      ensures Structure({})
      ensures Abs() == Attach(old(Abs()), node.key)
    {
      hide FreqList.Valid, KeysOf, OnlyListWritten;
      ghost var freq := node.freq;
      assert NodeOk(node.key, {node.key});
      AddToList(node, node.freq);
      AdditionKeepsStructure(node, freq);
      OnlyListChanged(freq);
      KeysOneMore(old(freqToFreqList[freq].Nodes()), node);
    }

    /** The list map gained an empty list; nothing else was written to. */
    twostate predicate OnlyListAdded(f: int, new l: FreqList)
      reads this, lists, nodes
    {
      && nodeMap == old(nodeMap) && freqToFreqList == old(freqToFreqList)[f := l]
      && minFreq == old(minFreq) && average == old(average) && total == old(total)
      && (forall m :: m in old(nodes) ==> m in nodes && unchanged(m))
      && (forall m :: m in old(lists) ==> m in lists && unchanged(m))
      && l.head in nodes && l.tail in nodes && l in lists
      && l.freq == f && l.chain == [l.head, l.tail]
    }

    twostate lemma NewListKeepsStructure(new f: int, new l: FreqList, new loose: set<Key>)
      requires old(Structure(loose)) && f !in old(freqToFreqList)
      requires OnlyListAdded(f, l) && l.Valid()
      ensures Structure(loose)
    {
      forall g | g in freqToFreqList ensures ListOk(g, loose) {
        assert g != f ==> old(ListOk(g, loose));
        var m := freqToFreqList[g];
        assert forall i :: 0 <= i < |m.chain| ==> m.chain[i] in m.chain;
      }
      forall k | k in nodeMap ensures NodeOk(k, loose) {
        assert old(NodeOk(k, loose));
      }
    }

    twostate lemma NewListOnValue(new f: int, new l: FreqList)
      requires old(Footprint()) && Footprint() && f !in old(freqToFreqList)
      requires OnlyListAdded(f, l)
      ensures Abs() == old(Abs()).(lists := old(Abs()).lists[f := []])
    {
      SameEntries();
      forall g | g in freqToFreqList && g != f ensures Abs().lists[g] == old(Abs()).lists[g] {
        assert freqToFreqList[g].Nodes() == old(freqToFreqList[g].Nodes());
      }
      assert Abs().lists[f] == [];
    }

    method NewList(freq: int, ghost loose: set<Key>)
      requires Structure(loose) && freq !in freqToFreqList
      modifies `freqToFreqList, `nodes, `lists
      ensures Structure(loose) && freqToFreqList.Keys == old(freqToFreqList.Keys) + {freq}
      ensures Abs() == old(Abs()).(lists := old(Abs()).lists[freq := []])
      ensures old(nodes) <= nodes && fresh(nodes - old(nodes))
      ensures old(lists) <= lists && fresh(lists - old(lists))
    {
      hide Structure, Footprint, Abs;
      var l := new FreqList(freq);
      freqToFreqList := freqToFreqList[freq := l];
      lists := lists + {l};
      nodes := nodes + {l.head, l.tail};
      assert l.chain == [l.head] + l.Nodes() + [l.tail];
      NewListKeepsStructure(freq, l, loose);
      NewListOnValue(freq, l);
    }

    static lemma AttachToNewList(c: Cache, k: Key)
      requires k in c.entries && c.entries[k].freq !in c.lists
      ensures Attach(c.(lists := c.lists[c.entries[k].freq := []]), k) == Attach(c, k)
    {
      var f := c.entries[k].freq;
      assert c.lists[f := []][f := [] + [k]] == c.lists[f := [] + [k]];
    }

    method AddToFreqList(node: Node)
      requires Structure({node.key}) && node.key in nodeMap && nodeMap[node.key] == node
      modifies this, lists, nodes
      ensures Structure({}) && nodeMap == old(nodeMap)
      ensures node.freq == old(node.freq)
      ensures node.freq in freqToFreqList && old(freqToFreqList.Keys) <= freqToFreqList.Keys
      ensures Abs() == Attach(old(Abs()), node.key)
      ensures old(nodes) <= nodes && fresh(nodes - old(nodes))
      ensures old(lists) <= lists && fresh(lists - old(lists))
    {
      hide *;
      Mapped(node, {node.key});
      var freq := node.freq;
      if freq !in freqToFreqList {
        AttachToNewList(Abs(), node.key);
        NewList(freq, {node.key});
      }
      AppendToList(node);
    }

    method SetNodeFreq(node: Node, f: int)
      requires Structure({node.key}) && node.key in nodeMap && nodeMap[node.key] == node && f >= 1
      modifies node`freq
      ensures Structure({node.key}) && node.freq == f
      ensures Abs() == SetFreq(old(Abs()), node.key, f)
    {
      assert NodeOk(node.key, {node.key});
      node.freq := f;
      forall g | g in freqToFreqList ensures ListOk(g, {node.key}) {
        assert old(ListOk(g, {node.key}));
      }
      forall k | k in nodeMap ensures NodeOk(k, {node.key}) {
        assert old(NodeOk(k, {node.key}));
      }
      assert Abs().lists == old(Abs()).lists;
      assert Abs().entries == SetFreq(old(Abs()), node.key, f).entries;
    }

    /** Out of its list, with frequency `f` from now on, and to the end of that list. */
    method Relink(node: Node, f: int)
      requires Structure({}) && node.key in nodeMap && nodeMap[node.key] == node && f >= 1
      modifies this, lists, nodes
      ensures Structure({}) && nodeMap == old(nodeMap)
      ensures Abs() == Move(old(Abs()), node.key, f)
      ensures node.freq == f && f in freqToFreqList && old(node.freq) in freqToFreqList
      ensures old(nodes) <= nodes && fresh(nodes - old(nodes))
      ensures old(lists) <= lists && fresh(lists - old(lists))
    {
      hide *;
      Mapped(node, {});
      ghost var c := Abs();
      TakeOut(node, f);
      ghost var e := Abs();
      AddToFreqList(node);
      MoveInSteps(c, e, Abs(), node.key, f);
    }

    static lemma MoveInSteps(c: Cache, e: Cache, r: Cache, k: Key, f: int)
      requires k in c.entries && e == SetFreq(Detach(c, k), k, f) && r == Attach(e, k)
      ensures r == Move(c, k, f)
    {
    }

    method TakeOut(node: Node, f: int)
      requires Structure({}) && node.key in nodeMap && nodeMap[node.key] == node && f >= 1
      modifies lists, nodes
      ensures Structure({node.key}) && node.freq == f
      ensures Abs() == SetFreq(Detach(old(Abs()), node.key), node.key, f)
    {
      hide *;
      Mapped(node, {});
      RemoveFromFreqList(node);
      SetNodeFreq(node, f);
    }

    /** What a caller needs to know about a mapped node. */
    lemma Mapped(node: Node, loose: set<Key>)
      requires Structure(loose) && node.key in nodeMap && nodeMap[node.key] == node
      ensures node in nodes && node.freq >= 1
      ensures node.key !in loose ==> node.freq in freqToFreqList
      ensures Abs().lists.Keys == freqToFreqList.Keys
      ensures node.key in Abs().entries && Abs().entries[node.key] == Entry(node.value, node.freq)
    {
      assert NodeOk(node.key, loose);
    }

    lemma ListedAs(f: int, loose: set<Key>)
      requires Structure(loose) && f in freqToFreqList
      ensures freqToFreqList[f].Valid()
      ensures f in Abs().lists && Abs().lists[f] == KeysOf(freqToFreqList[f].Nodes())
    {
      assert ListOk(f, loose);
    }

    /** The minimum moves up with the node when the list it left is empty. */
    method CarryMinimum(node: Node)
      requires Structure({}) && node.key in nodeMap && nodeMap[node.key] == node
      requires node.freq - 1 in freqToFreqList
      modifies `minFreq
      ensures Structure({})
      ensures var c, f := old(Abs()), node.freq - 1;
        && f in c.lists
        && Abs() == if f == c.minFreq && c.lists[f] == [] then c.(minFreq := c.minFreq + 1) else c
    {
      hide Structure, ListOk, KeysOf, FreqList.Valid;
      ListedAs(node.freq - 1, {});
      if node.freq - 1 == minFreq {
        var empty := freqToFreqList[node.freq - 1].IsEmpty();
        if empty {
          minFreq := minFreq + 1;
        }
      }
      CountersOnly();
    }

    /** No frequency and no value was written to. */
    twostate lemma SameEntries()
      requires old(Footprint()) && Footprint() && nodeMap == old(nodeMap)
      requires forall k :: k in nodeMap ==>
        nodeMap[k].freq == old(nodeMap[k].freq) && nodeMap[k].value == old(nodeMap[k].value)
      ensures Abs().entries == old(Abs()).entries
    {
    }

    /** No list was written to. */
    twostate lemma SameLists()
      requires old(Footprint()) && Footprint() && freqToFreqList == old(freqToFreqList)
      requires forall f :: f in freqToFreqList ==> unchanged(freqToFreqList[f])
      ensures Abs().lists == old(Abs()).lists
    {
      forall g | g in freqToFreqList ensures Abs().lists[g] == old(Abs()).lists[g] {
        assert freqToFreqList[g].Nodes() == old(freqToFreqList[g].Nodes());
      }
    }

    /** Only counters were written to. */
    twostate lemma CountersOnly()
      requires old(Footprint()) && Footprint()
      requires nodeMap == old(nodeMap) && freqToFreqList == old(freqToFreqList)
      requires forall k :: k in nodeMap ==> unchanged(nodeMap[k])
      requires forall f :: f in freqToFreqList ==> unchanged(freqToFreqList[f])
      ensures Abs() == old(Abs()).(minFreq := minFreq, average := average, total := total)
      ensures old(Abs()).minFreq == old(minFreq) && old(Abs()).average == old(average)
      ensures old(Abs()).total == old(total) && Abs().maxAverage == maxAverage && Abs().capacity == capacity
    {
      SameLists();
      assert Abs().entries == old(Abs()).entries;
    }

    method GetInternal(node: Node) returns (value: Value, ghost order: seq<Key>)
      requires Structure({}) && node.key in nodeMap && nodeMap[node.key] == node
      modifies this, lists, nodes
      ensures Structure({})
      ensures value == old(node.value)
      ensures IsOrderOf(order, old(Abs()).entries.Keys)
      ensures Abs() == AddFreqNum(Touch(old(Abs()), node.key), order)
      ensures old(nodes) <= nodes && fresh(nodes - old(nodes))
      ensures old(lists) <= lists && fresh(lists - old(lists))
    {
      hide *;
      Mapped(node, {});
      value := node.value;
      ghost var c, k, f := Abs(), node.key, node.freq;
      Relink(node, node.freq + 1);
      CarryMinimum(node);
      TouchInSteps(c, Abs(), k, f);
      order := AddFreqCount();
    }

    static lemma TouchInSteps(c: Cache, r: Cache, k: Key, f: int)
      requires k in c.entries && c.entries[k].freq == f
      requires var m := Move(c, k, f + 1);
        && f in m.lists
        && r == if f == m.minFreq && m.lists[f] == [] then m.(minFreq := m.minFreq + 1) else m
      ensures r == Touch(c, k) && r.entries.Keys == c.entries.Keys
    {
    }

    /** Scans every list for the least frequency that is in use. */
    method UpdateMin()
      requires Structure({})
      modifies `minFreq
      ensures Structure({}) && Abs() == UpdateMinFreq(old(Abs()))
    {
      hide Structure, Footprint, Abs, KeysOf, FreqList.Valid;
      ghost var inUse := Abs().lists;
      var todo := freqToFreqList.Keys;
      Domains({});
      minFreq := INT8_MAX;
      while todo != {}
        invariant Structure({}) && todo <= inUse.Keys
        invariant minFreq <= INT8_MAX
        invariant forall f :: f in inUse.Keys - todo && inUse[f] != [] ==> minFreq <= f
        invariant minFreq == INT8_MAX || (minFreq in inUse && inUse[minFreq] != [])
        decreases todo
      {
        var f := PickOne(todo);
        ListedAs(f, {});
        CountersOnly();
        var empty := freqToFreqList[f].IsEmpty();
        if !empty && f < minFreq {
          minFreq := f;
        }
        todo := todo - {f};
      }
      LeastListedIs(inUse, minFreq);
      if minFreq == INT8_MAX {
        minFreq := 1;
      }
      CountersOnly();
    }

    lemma Domains(loose: set<Key>)
      requires Structure(loose)
      ensures Abs().lists.Keys == freqToFreqList.Keys && Abs().entries.Keys == nodeMap.Keys
      ensures Abs().capacity == capacity && Abs().maxAverage == maxAverage
      ensures forall k :: k in nodeMap ==> nodeMap[k].key == k && nodeMap[k].freq == Abs().entries[k].freq
    {
      assert forall k :: k in nodeMap ==> NodeOk(k, loose);
    }

    /** One node moves to the list of its aged frequency. */
    method AgeNode(k: Key, ghost c: Cache, ghost done: seq<Key>)
      requires Structure({}) && k in nodeMap
      requires (forall x :: x in done ==> x in c.entries) && Abs() == AgeAll(c, done)
      modifies this, lists, nodes
      ensures Structure({}) && nodeMap == old(nodeMap)
      ensures forall x :: x in done + [k] ==> x in c.entries
      ensures Abs() == AgeAll(c, done + [k])
      ensures old(nodes) <= nodes && fresh(nodes - old(nodes))
      ensures old(lists) <= lists && fresh(lists - old(lists))
    {
      hide Structure, Footprint, Abs, Move, AgeAll;
      Domains({});
      var node := nodeMap[k];
      AgeAllStep(c, done, k);
      var f := node.freq - maxAverage / 2;
      if f < 1 {
        f := 1;
      }
      Relink(node, f);
    }

    /** Every node moves to the list of its aged frequency, in the order visited. */
    method HandleOver() returns (ghost order: seq<Key>)
      requires Structure({}) && nodeMap.Keys != {}
      modifies this, lists, nodes
      ensures Structure({})
      ensures IsOrderOf(order, old(Abs()).entries.Keys)
      ensures Abs() == HandleOverMaxAverage(old(Abs()), order)
      ensures old(nodes) <= nodes && fresh(nodes - old(nodes))
      ensures old(lists) <= lists && fresh(lists - old(lists))
    {
      hide Structure, Footprint, Abs, IsOrderOf;
      ghost var c := Abs();
      Domains({});
      var todo := nodeMap.Keys;
      order := [];
      NoneVisited<Key>();
      while todo != {}
        invariant Structure({}) && nodeMap == old(nodeMap) && todo <= nodeMap.Keys
        invariant IsOrderOf(order, nodeMap.Keys - todo) && forall x :: x in order ==> x in c.entries
        invariant Abs() == AgeAll(c, order)
        invariant old(nodes) <= nodes && fresh(nodes - old(nodes))
        invariant old(lists) <= lists && fresh(lists - old(lists))
        decreases todo
      {
        var k := PickOne(todo);
        AgeNode(k, c, order);
        OneMoreVisited(order, nodeMap.Keys, todo, k);
        order := order + [k];
        todo := todo - {k};
      }
      assert nodeMap.Keys - {} == c.entries.Keys;
      UpdateMin();
    }

    method AddFreqCount() returns (ghost order: seq<Key>)
      requires Structure({})
      modifies this, lists, nodes
      ensures Structure({})
      ensures IsOrderOf(order, old(Abs()).entries.Keys)
      ensures Abs() == AddFreqNum(old(Abs()), order)
      ensures old(nodes) <= nodes && fresh(nodes - old(nodes))
      ensures old(lists) <= lists && fresh(lists - old(lists))
    {
      hide Structure, Footprint, Abs, HandleOverMaxAverage;
      Domains({});
      SameDomain(nodeMap, Abs().entries);
      total := total + 1;
      average := if nodeMap == map[] then 0 else total / |nodeMap|;
      CountersOnly();
      assert Abs() == Counted(old(Abs()));
      if average > maxAverage {
        Domains({});
        order := HandleOver();
      } else {
        order := OrderExists(nodeMap.Keys);
      }
    }

    static lemma SameDomain(m: map<Key, Node>, n: map<Key, Entry>)
      requires m.Keys == n.Keys
      ensures |m| == |n| && (m == map[] <==> |m| == 0)
    {
      assert |m| == |m.Keys| && |n| == |n.Keys|;
    }

    /** The node map changed at key `k` only; no node and no list was written to. */
    twostate predicate OnlyMapWritten(k: Key)
      reads this, lists, nodes
    {
      && nodeMap - {k} == old(nodeMap) - {k} && freqToFreqList == old(freqToFreqList)
      && lists == old(lists)
      && minFreq == old(minFreq) && average == old(average) && total == old(total)
      && (forall m :: m in old(nodes) ==> m in nodes && unchanged(m))
      && (forall l :: l in old(lists) ==> unchanged(l))
    }

    /** Mapping or unmapping a key that is in no list keeps the rest well-formed. */
    twostate lemma MapWriteKeepsStructure(new k: Key, new was: set<Key>, new now: set<Key>)
      requires old(Structure(was)) && OnlyMapWritten(k)
      requires forall x :: x in old(nodeMap) && x != k ==> x in nodeMap && nodeMap[x] == old(nodeMap)[x]
      requires was <= {k} && now <= {k} && (k in was || k !in old(nodeMap))
      requires k in nodeMap ==> k in now && nodeMap[k] in nodes && nodeMap[k].key == k
      requires k in nodeMap ==> nodeMap[k].freq >= 1 && nodeMap[k].sentinelOf == null
      requires forall x :: x in nodeMap && x != k ==> x in old(nodeMap)
      ensures Structure(now)
    {
      forall g | g in freqToFreqList ensures ListOk(g, now) {
        assert old(ListOk(g, was));
        var l := freqToFreqList[g];
        assert l.Nodes() == old(l.Nodes());
        assert forall i :: 0 <= i < |l.chain| ==> l.chain[i] in l.chain;
      }
      forall x | x in nodeMap ensures NodeOk(x, now) {
        assert x != k ==> old(NodeOk(x, was));
      }
    }

    method Forget(k: Key)
      requires Structure({k})
      modifies `nodeMap
      ensures Structure({}) && nodeMap == old(nodeMap) - {k}
      ensures Abs() == old(Abs()).(entries := old(Abs()).entries - {k})
    {
      hide Structure, Footprint, ListOk, NodeOk, KeysOf;
      nodeMap := nodeMap - {k};
      MapWriteKeepsStructure(k, {k}, {});
      SameLists();
      assert Abs().entries == old(Abs()).entries - {k};
    }

    method DecreaseFreqNum(num: int)
      requires Structure({})
      modifies `total, `average
      ensures Structure({})
      ensures var c := old(Abs()); Abs() == c.(total := c.total - num, average := Average(c.total - num, |c.entries|))
    {
      hide Structure, Footprint, Abs;
      Domains({});
      SameDomain(nodeMap, Abs().entries);
      total := total - num;
      average := if nodeMap == map[] then 0 else total / |nodeMap|;
      CountersOnly();
    }

    /** The node at the front of the minimum list is the victim's. */
    method KickOut()
      requires Structure({}) && CanEvict(Abs())
      modifies this, lists, nodes
      ensures Structure({}) && nodes == old(nodes) && lists == old(lists)
      ensures nodeMap == old(nodeMap) - {Victim(old(Abs()))}
      ensures Abs() == LfuModel.KickOut(old(Abs()))
    {
      hide *;
      ghost var c := Abs();
      FrontIsVictim();
      var node := freqToFreqList[minFreq].GetFirstNode();
      Mapped(node, {});
      RemoveFromFreqList(node);
      Forget(node.key);
      ghost var e := Abs();
      DecreaseFreqNum(node.freq);
      KickOutInSteps(c, e, Abs());
    }

    static lemma KickOutInSteps(c: Cache, e: Cache, r: Cache)
      requires CanEvict(c)
      requires var d := Detach(c, Victim(c)); e == d.(entries := d.entries - {Victim(c)})
      requires var f := c.entries[Victim(c)].freq;
        r == e.(total := e.total - f, average := Average(e.total - f, |e.entries|))
      ensures r == LfuModel.KickOut(c)
    {
    }

    lemma FrontIsVictim()
      requires Structure({}) && CanEvict(Abs())
      ensures minFreq in freqToFreqList && freqToFreqList[minFreq].Valid()
      ensures var s := freqToFreqList[minFreq].Nodes();
        s != [] && s[0].key == Victim(Abs()) && s[0].key in nodeMap && nodeMap[s[0].key] == s[0]
    {
      assert ListOk(minFreq, {});
    }

    method MapNewNode(key: Key, value: Value) returns (node: Node)
      requires Structure({}) && key !in nodeMap
      modifies `nodeMap, `nodes
      ensures Structure({key}) && key in nodeMap && nodeMap[key] == node && node.key == key
      ensures Abs() == old(Abs()).(entries := old(Abs()).entries[key := Entry(value, 1)])
      ensures old(nodes) <= nodes && fresh(nodes - old(nodes))
    {
      hide Structure, Footprint, ListOk, NodeOk, KeysOf;
      node := new Node(key, value);
      nodeMap := nodeMap[key := node];
      nodes := nodes + {node};
      MapWriteKeepsStructure(key, {}, {key});
      SameLists();
      assert Abs().entries == old(Abs()).entries[key := Entry(value, 1)];
    }

    method MakeRoom()
      requires Structure({}) && (Full(Abs()) ==> CanEvict(Abs()))
      modifies this, lists, nodes
      ensures Structure({}) && nodes == old(nodes) && lists == old(lists)
      ensures forall k :: k in nodeMap ==> k in old(nodeMap)
      ensures Abs() == if Full(old(Abs())) then LfuModel.KickOut(old(Abs())) else old(Abs())
    {
      hide Structure, Footprint, Abs, LfuModel.KickOut, CanEvict;
      Domains({});
      SameDomain(nodeMap, Abs().entries);
      if |nodeMap| == capacity {
        KickOut();
      }
    }

    method PutInternal(key: Key, value: Value) returns (ghost order: seq<Key>)
      requires Structure({}) && key !in nodeMap && (Full(Abs()) ==> CanEvict(Abs()))
      modifies this, lists, nodes
      ensures Structure({})
      ensures IsOrderOf(order, Placed(old(Abs()), key, value).entries.Keys)
      ensures Abs() == AddFreqNum(Placed(old(Abs()), key, value), order).(minFreq := 1)
      ensures old(nodes) <= nodes && fresh(nodes - old(nodes))
      ensures old(lists) <= lists && fresh(lists - old(lists))
    {
      hide *;
      ghost var c := Abs();
      MakeRoom();
      ghost var b := Abs();
      var node := MapNewNode(key, value);
      AddToFreqList(node);
      PlacedInSteps(c, b, Abs(), key, value);
      order := AddFreqCount();
      SetMinFreq(1);
    }

    static lemma PlacedInSteps(c: Cache, b: Cache, r: Cache, k: Key, v: Value)
      requires Full(c) ==> CanEvict(c)
      requires b == if Full(c) then LfuModel.KickOut(c) else c
      requires r == Attach(b.(entries := b.entries[k := Entry(v, 1)]), k)
      ensures r == Placed(c, k, v)
    {
    }

    method SetMinFreq(f: int)
      requires Structure({})
      modifies `minFreq
      ensures Structure({}) && Abs() == old(Abs()).(minFreq := f)
    {
      minFreq := f;
      CountersOnly();
    }

    /** A new cache: no entry, and a minimum above every frequency. */
    constructor (capacity: int, maxAverage: nat)
      ensures Structure({}) && Abs() == Empty(capacity, maxAverage)
      ensures nodes == {} && lists == {}
    {
      this.capacity, this.maxAverage := capacity, maxAverage;
      minFreq, average, total := INT8_MAX, 0, 0;
      nodeMap, freqToFreqList := map[], map[];
      nodes, lists := {}, {};
    }

    /** Stores a value: an access of a known key, or an insertion. */
    method Put(key: Key, value: Value) returns (ghost order: seq<Key>)
      requires Structure({})
      requires NeedsVictim(Abs(), Op.Put(key, value, [])) ==> CanEvict(Abs())
      modifies this, lists, nodes
      ensures Structure({})
      ensures Defined(old(Abs()), Op.Put(key, value, order))
      ensures Abs() == Apply(old(Abs()), Op.Put(key, value, order))
      ensures old(nodes) <= nodes && fresh(nodes - old(nodes))
      ensures old(lists) <= lists && fresh(lists - old(lists))
    {
      hide *;
      ghost var c := Abs();
      Domains({});
      if capacity == 0 {
        NothingToPut(c, key, value);
        order := [];
      } else if key in nodeMap {
        Mapped(nodeMap[key], {});
        SetNodeValue(nodeMap[key], value);
        Domains({});
        var unused;
        unused, order := GetInternal(nodeMap[key]);
        HitInSteps(c, Abs(), Op.Put(key, value, order));
      } else {
        VictimNeeded(c, key, value);
        order := PutInternal(key, value);
        InsertionInSteps(c, Abs(), key, value, order);
      }
    }

    static lemma VictimNeeded(c: Cache, k: Key, v: Value)
      requires c.capacity != 0 && k !in c.entries
      ensures NeedsVictim(c, Op.Put(k, v, [])) == Full(c)
    {
    }

    static lemma NothingToPut(c: Cache, k: Key, v: Value)
      requires c.capacity == 0
      ensures Defined(c, Op.Put(k, v, [])) && Apply(c, Op.Put(k, v, [])) == c
    {
    }

    static lemma NothingToGet(c: Cache, k: Key)
      requires k !in c.entries
      ensures Defined(c, Op.Get(k, [])) && Apply(c, Op.Get(k, [])) == c && Find(c, k) == Miss
    {
    }

    static lemma HitInSteps(c: Cache, r: Cache, op: Op)
      requires !op.Purge? && op.key in c.entries && (op.Put? ==> c.capacity != 0)
      requires var d :=
          if op.Put? then c.(entries := c.entries[op.key := c.entries[op.key].(value := op.value)]) else c;
        && IsOrderOf(op.order, d.entries.Keys)
        && r == AddFreqNum(Touch(d, op.key), op.order)
      ensures Defined(c, op) && r == Apply(c, op) && Find(c, op.key) == Found(c.entries[op.key].value)
    {
    }

    static lemma InsertionInSteps(c: Cache, r: Cache, k: Key, v: Value, order: seq<Key>)
      requires k !in c.entries && c.capacity != 0 && (Full(c) ==> CanEvict(c))
      requires IsOrderOf(order, Placed(c, k, v).entries.Keys)
      requires r == AddFreqNum(Placed(c, k, v), order).(minFreq := 1)
      ensures Defined(c, Op.Put(k, v, order)) && r == Apply(c, Op.Put(k, v, order))
    {
    }

    method SetNodeValue(node: Node, value: Value)
      requires Structure({}) && node.key in nodeMap && nodeMap[node.key] == node
      modifies node`value
      ensures Structure({})
      ensures var c := old(Abs()); Abs() == c.(entries := c.entries[node.key := c.entries[node.key].(value := value)])
    {
      hide Structure, Footprint, KeysOf;
      Mapped(node, {});
      Domains({});
      node.value := value;
      ValueWriteKeepsStructure(node);
      SameLists();
      assert Abs().entries == old(Abs()).entries[node.key := Entry(value, node.freq)];
    }

    twostate lemma ValueWriteKeepsStructure(node: Node)
      requires old(Structure({}))
      requires nodeMap == old(nodeMap) && freqToFreqList == old(freqToFreqList)
      requires nodes == old(nodes) && lists == old(lists)
      requires forall l :: l in lists ==> unchanged(l)
      requires forall m :: m in nodes && m != node ==> unchanged(m)
      requires unchanged(node`freq) && unchanged(node`pre) && unchanged(node`next) && unchanged(node`sentinelOf)
      ensures Structure({})
    {
      forall g | g in freqToFreqList ensures ListOk(g, {}) {
        assert old(ListOk(g, {}));
        var l := freqToFreqList[g];
        assert l.Nodes() == old(l.Nodes());
        assert forall i :: 0 <= i < |l.chain| ==> l.chain[i] in l.chain;
      }
      forall k | k in nodeMap ensures NodeOk(k, {}) {
        assert old(NodeOk(k, {}));
      }
    }

    /** Looks a key up; finding it counts as an access. */
    method Get(key: Key) returns (result: Lookup, ghost order: seq<Key>)
      requires Structure({})
      modifies this, lists, nodes
      ensures Structure({})
      ensures result == Find(old(Abs()), key)
      ensures Defined(old(Abs()), Op.Get(key, order))
      ensures Abs() == Apply(old(Abs()), Op.Get(key, order))
      ensures old(nodes) <= nodes && fresh(nodes - old(nodes))
      ensures old(lists) <= lists && fresh(lists - old(lists))
    {
      hide *;
      ghost var c := Abs();
      Domains({});
      if key in nodeMap {
        Mapped(nodeMap[key], {});
        var value;
        value, order := GetInternal(nodeMap[key]);
        HitInSteps(c, Abs(), Op.Get(key, order));
        result := Found(value);
      } else {
        NothingToGet(c, key);
        result, order := Miss, [];
      }
    }

    /** Drops every node and every list; the counters stay as they are. */
    method Purge()
      requires Structure({})
      modifies `nodeMap, `freqToFreqList
      ensures Structure({}) && Abs() == Apply(old(Abs()), Op.Purge)
      ensures nodeMap == map[] && freqToFreqList == map[]
      ensures minFreq == old(minFreq) && average == old(average) && total == old(total)
    {
      nodeMap := map[];
      freqToFreqList := map[];
    }
  }

  datatype Request = PutRequest(key: Key, value: Value) | GetRequest(key: Key) | PurgeRequest

  /** `op` is the request `q`, with some visiting order. */
  ghost predicate Serves(op: Op, q: Request) {
    match q
    case PutRequest(k, v) => op.Put? && op.key == k && op.value == v
    case GetRequest(k) => op.Get? && op.key == k
    case PurgeRequest => op.Purge?
  }

  lemma NewRun(capacity: int, maxAverage: nat)
    ensures IsRun(capacity, maxAverage, [], [Empty(capacity, maxAverage)])
  {
  }

  method ServeOne(cache: LfuCache, q: Request) returns (answer: Lookup, ghost op: Op)
    requires cache.Structure({}) && Invariant(cache.Abs())
    modifies cache, cache.lists, cache.nodes
    ensures cache.Structure({}) && Serves(op, q)
    ensures Defined(old(cache.Abs()), op) && cache.Abs() == Apply(old(cache.Abs()), op)
    ensures q.GetRequest? ==> answer == Find(old(cache.Abs()), q.key)
    ensures old(cache.nodes) <= cache.nodes && fresh(cache.nodes - old(cache.nodes))
    ensures old(cache.lists) <= cache.lists && fresh(cache.lists - old(cache.lists))
  {
    hide Apply, Defined, Invariant, LfuCache.Structure, LfuCache.Footprint, LfuCache.Abs, NeedsVictim;
    answer := Miss;
    match q {
      case PutRequest(k, v) =>
        NeverStuck(cache.Abs(), Op.Put(k, v, []));
        ghost var order := cache.Put(k, v);
        op := Op.Put(k, v, order);
      case GetRequest(k) =>
        ghost var order;
        answer, order := cache.Get(k);
        op := Op.Get(k, order);
      case PurgeRequest =>
        PurgeEmpties(cache.Abs());
        cache.Purge();
        op := Op.Purge;
    }
  }

  /** The value the latest put of `k` carried, forgotten by a purge. */
  function LatestValue(requests: seq<Request>, k: Key): Lookup {
    if requests == [] then Miss
    else
      var n := |requests| - 1;
      match requests[n]
      case PurgeRequest => Miss
      case PutRequest(j, v) => if j == k then Found(v) else LatestValue(requests[..n], k)
      case GetRequest(_) => LatestValue(requests[..n], k)
  }

  /** The keys put since the last purge. */
  function KeysRequested(requests: seq<Request>): set<Key> {
    if requests == [] then {}
    else
      var n := |requests| - 1;
      match requests[n]
      case PurgeRequest => {}
      case PutRequest(k, _) => KeysRequested(requests[..n]) + {k}
      case GetRequest(_) => KeysRequested(requests[..n])
  }

  lemma {:induction false} LatestServed(ops: seq<Op>, requests: seq<Request>, k: Key)
    requires |ops| == |requests| && forall i :: 0 <= i < |ops| ==> Serves(ops[i], requests[i])
    ensures LatestPut(ops, k) == LatestValue(requests, k)
    ensures KeysPut(ops) == KeysRequested(requests)
  {
    if ops != [] {
      var n := |ops| - 1;
      assert Serves(ops[n], requests[n]);
      LatestServed(ops[..n], requests[..n], k);
    }
  }

  /** The value last put, if all the keys put since the last purge fit; else that or nothing. */
  predicate GoodAnswer(capacity: int, before: seq<Request>, k: Key, answer: Lookup) {
    var n := |KeysRequested(before)|;
    answer == LatestValue(before, k) || (answer == Miss && Fitting(capacity, n) < n)
  }

  lemma AnswerIsGood(
      capacity: int, maxAverage: nat, ops: seq<Op>, states: seq<Cache>, requests: seq<Request>, k: Key)
    requires IsRun(capacity, maxAverage, ops, states) && |ops| <= |requests|
    requires forall i :: 0 <= i < |ops| ==> Serves(ops[i], requests[i])
    ensures GoodAnswer(capacity, requests[..|ops|], k, Find(states[|ops|], k))
  {
    hide Serves, Find;
    var before := requests[..|ops|];
    HitReturnsLatestPut(capacity, maxAverage, ops, states, |ops|, k);
    LatestServed(ops, before, k);
    assert ops[..|ops|] == ops;
    if Fitting(capacity, |KeysRequested(before)|) == |KeysRequested(before)| {
      NothingIsForgotten(capacity, maxAverage, ops, states, |ops|, k);
    }
  }

  /** Any sequence of requests to a new cache: no eviction looks into an empty list; a get
      answers the value last put, or nothing if not all keys put since the last purge fit;
      and the heap follows a run of the model. */
  method Serve(capacity: int, maxAverage: nat, requests: seq<Request>)
    returns (answers: seq<Lookup>, ghost ops: seq<Op>, ghost states: seq<Cache>)
    requires 2 <= maxAverage <= 250
    ensures |answers| == |requests|
    ensures forall i :: 0 <= i < |requests| && requests[i].GetRequest? ==>
              GoodAnswer(capacity, requests[..i], requests[i].key, answers[i])
    ensures IsRun(capacity, maxAverage, ops, states) && |ops| == |requests|
    ensures forall i :: 0 <= i < |requests| ==> Serves(ops[i], requests[i])
    ensures forall i :: 0 <= i < |requests| && requests[i].GetRequest? ==>
              answers[i] == Find(states[i], requests[i].key)
  {
    hide IsRun, Apply, Defined, Invariant, Serves, Find, GoodAnswer;
    hide LfuCache.Structure, LfuCache.Footprint, LfuCache.Abs;
    var cache := new LfuCache(capacity, maxAverage);
    answers, ops, states := [], [], [cache.Abs()];
    NewRun(capacity, maxAverage);
    for i := 0 to |requests|
      invariant cache.Structure({})
      invariant fresh(cache) && fresh(cache.nodes) && fresh(cache.lists)
      invariant |answers| == |ops| == i && |states| == i + 1
      invariant IsRun(capacity, maxAverage, ops, states) && states[i] == cache.Abs()
      invariant forall j :: 0 <= j < i ==> Serves(ops[j], requests[j])
      invariant forall j :: 0 <= j < i && requests[j].GetRequest? ==>
                  && answers[j] == Find(states[j], requests[j].key)
                  && GoodAnswer(capacity, requests[..j], requests[j].key, answers[j])
    {
      RunKeepsInvariant(capacity, maxAverage, ops, states, i);
      ghost var op;
      var answer;
      if requests[i].GetRequest? {
        AnswerIsGood(capacity, maxAverage, ops, states, requests, requests[i].key);
      }
      answer, op := ServeOne(cache, requests[i]);
      RunExtends(capacity, maxAverage, ops, states, op);
      answers := answers + [answer];
      ops, states := ops + [op], states + [cache.Abs()];
    }
  }
}
