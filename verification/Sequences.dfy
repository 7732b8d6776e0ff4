/** The few facts about sequences that several components share. */
module Sequences {

  /** No element occurs twice. */
  ghost predicate Distinct<T>(s: seq<T>) {
    forall i, j :: 0 <= i < j < |s| ==> s[i] != s[j]
  }

  /** Some visiting order of a hash container: every element of `all`, once. */
  ghost predicate IsOrderOf<T(!new)>(order: seq<T>, all: set<T>) {
    && Distinct(order)
    && forall x :: x in order <==> x in all
  }

  /** `s` without its first occurrence of `x`. */
  function Without<T(==)>(s: seq<T>, x: T): (r: seq<T>)
  {
    if s == [] then []
    else if s[0] == x then s[1..]
    else [s[0]] + Without(s[1..], x)
  }

  /** Taking the element at position `i` out of a duplicate-free sequence. */
  lemma {:induction false} WithoutAt<T>(s: seq<T>, i: nat)
    requires i < |s| && Distinct(s)
    ensures Without(s, s[i]) == s[..i] + s[i + 1..]
  {
    if i == 0 {
    } else {
      assert s[0] != s[i];
      WithoutAt(s[1..], i - 1);
      assert s[1..][..i - 1] == s[1..i] && s[1..][i..] == s[i + 1..];
      assert [s[0]] + s[1..i] == s[..i];
    }
  }

  /** Removing leaves the other elements, in their order, and no duplicate. */
  lemma WithoutFacts<T>(s: seq<T>, x: T)
    requires Distinct(s)
    ensures Distinct(Without(s, x))
    ensures forall y :: y in Without(s, x) <==> y in s && y != x
  {
    if x in s {
      var i :| 0 <= i < |s| && s[i] == x;
      WithoutAt(s, i);
      var t := s[..i] + s[i + 1..];
      forall y | y in s && y != x ensures y in t {
        var j :| 0 <= j < |s| && s[j] == y;
        assert if j < i then t[j] == y else t[j - 1] == y;
      }
    } else {
      WithoutAbsent(s, x);
    }
  }

  lemma WithoutAbsent<T>(s: seq<T>, x: T)
    requires x !in s
    ensures Without(s, x) == s
  {
  }

  lemma SplitMembers<T>(s: seq<T>, n: nat)
    requires n <= |s|
    ensures s[..n] + s[n..] == s
    ensures forall x :: x in s <==> x in s[..n] || x in s[n..]
  {
    assert s[..n] + s[n..] == s;
  }

  lemma DistinctOneMore<T>(s: seq<T>, x: T)
    requires Distinct(s) && x !in s
    ensures Distinct(s + [x]) && forall y :: y in s + [x] <==> y in s || y == x
  {
    assert forall i :: 0 <= i < |s| ==> s[i] in s;
  }

  ghost function AnyOf<T>(s: set<T>): (x: T)
    requires s != {}
    ensures x in s
  {
    var x :| x in s;
    x
  }

  method PickOne<T(==)>(s: set<T>) returns (x: T)
    requires s != {}
    ensures x in s
  {
    x :| x in s;
  }

  /** Every finite set can be visited in some order. */
  lemma {:induction false} OrderExists<T(!new)>(all: set<T>) returns (order: seq<T>)
    ensures IsOrderOf(order, all)
    decreases all
  {
    if all == {} {
      order := [];
    } else {
      var x :| x in all;
      var rest := OrderExists(all - {x});
      order := rest + [x];
    }
  }

  lemma NoneVisited<T(!new)>()
    ensures forall all: set<T> :: IsOrderOf([], all - all)
  {
  }

  lemma OneMoreVisited<T(!new)>(order: seq<T>, all: set<T>, todo: set<T>, x: T)
    requires IsOrderOf(order, all - todo) && todo <= all && x in todo
    ensures IsOrderOf(order + [x], all - (todo - {x}))
  {
    assert x !in order;
  }

  lemma {:induction false} OrderLength<T(!new)>(order: seq<T>, all: set<T>)
    requires IsOrderOf(order, all)
    ensures |order| == |all|
  {
    if order == [] {
      assert all == {};
    } else {
      var last := order[|order| - 1];
      var init := order[..|order| - 1];
      assert last in order;
      forall x ensures x in init <==> x in all - {last} {
        if x in all - {last} { assert x in order; }
        if x in init { assert x in order; }
      }
      OrderLength(init, all - {last});
    }
  }
}
