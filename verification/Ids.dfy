/** Row ids in ascending order, as the drain's `ORDER BY id` returns them. */
module Ids {
  predicate Ascends(s: seq<nat>) { forall i, j :: 0 <= i < j < |s| ==> s[i] < s[j] }

  ghost predicate IsLeast(m: nat, s: set<nat>) { m in s && forall x :: x in s ==> m <= x }

  lemma {:induction false} LeastId(s: set<nat>) returns (m: nat)
    requires s != {}
    ensures IsLeast(m, s)
  {
    m :| m in s;
    var rest := s - {m};
    if rest == {} {
      assert s == {m};
    } else {
      var k := LeastId(rest);
      LeastOfTwo(s, m, k);
      m := if m <= k then m else k;
    }
  }

  lemma LeastOfTwo(s: set<nat>, m: nat, k: nat)
    requires m in s && IsLeast(k, s - {m})
    ensures IsLeast(if m <= k then m else k, s)
  {
    forall x | x in s ensures (if m <= k then m else k) <= x {
      if x != m { assert x in s - {m}; }
    }
  }

  lemma LeastExists(s: set<nat>)
    requires s != {}
    ensures exists m :: m in s && forall x :: x in s ==> m <= x
  {
    var m := LeastId(s);
    assert m in s && forall x :: x in s ==> m <= x;
  }

  /** Put the smaller id first. */
  lemma AscendsFrom(m: nat, rest: seq<nat>, s: set<nat>)
    requires Ascends(rest) && IsLeast(m, s) && forall k :: 0 <= k < |rest| ==> rest[k] in s && rest[k] != m
    ensures Ascends([m] + rest)
  {
  }

  function SortedIds(s: set<nat>): (r: seq<nat>)
    ensures Ascends(r) && |r| == |s| && forall k :: 0 <= k < |r| ==> r[k] in s
  {
    if s == {} then []
    else
      LeastExists(s);
      var m :| m in s && forall x :: x in s ==> m <= x;
      var rest := SortedIds(s - {m});
      assert |s - {m}| == |s| - 1;
      AscendsFrom(m, rest, s);
      [m] + rest
  }

  lemma {:induction false} AllSorted(s: set<nat>)
    ensures forall x :: x in SortedIds(s) <==> x in s
  {
    if s != {} {
      LeastExists(s);
      var r := SortedIds(s);
      var m := r[0];
      AllSorted(s - {m});
      assert r == [m] + SortedIds(s - {m});
    }
  }

  lemma {:induction false} SameIds(a: seq<nat>, b: seq<nat>)
    requires Ascends(a) && Ascends(b) && forall x :: x in a <==> x in b
    ensures a == b
  {
    if a == [] {
      assert forall i :: 0 <= i < |b| ==> b[i] in b;
    } else {
      assert a[0] in b && b[0] in a;
      assert a == [a[0]] + a[1..] && b == [b[0]] + b[1..];
      forall x ensures x in a[1..] <==> x in b[1..] {
        assert x in a[1..] ==> x in a && x != a[0];
        assert x in b[1..] ==> x in b && x != b[0];
      }
      SameIds(a[1..], b[1..]);
    }
  }

  ghost predicate AllBelow(a: set<nat>, b: set<nat>) { forall x, y :: x in a && y in b ==> x < y }

  lemma SortedJoin(a: set<nat>, b: set<nat>)
    requires AllBelow(a, b)
    ensures SortedIds(a + b) == SortedIds(a) + SortedIds(b)
  {
    hide SortedIds;
    AllSorted(a);
    AllSorted(b);
    AllSorted(a + b);
    SameIds(SortedIds(a + b), SortedIds(a) + SortedIds(b));
  }
}
