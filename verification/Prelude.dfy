/** Result and option types shared by every module. */
module Prelude {

  datatype Option<+T> = None | Some(value: T)

  /** An operation that either yields a value or aborts. Which error is raised
      is not modelled: every caller in the source propagates it. */
  datatype Outcome<+T> = Done(value: T) | Failed

  /** A BLAKE3 content address, read as a number. */
  type Hash = nat

  function Lookup<K(==), V>(m: map<K, V>, k: K): Option<V> {
    if k in m then Some(m[k]) else None
  }

  /** Writing under an address: first write wins. */
  function PutNew<V>(store: map<Hash, V>, h: Hash, v: V): map<Hash, V> {
    if h in store then store else store[h := v]
  }

  /** Everything in `a` is in `b`, unchanged. */
  ghost predicate Extends<K, V>(a: map<K, V>, b: map<K, V>) {
    forall k :: k in a ==> k in b && b[k] == a[k]
  }

  lemma SubsetSize<T>(a: set<T>, b: set<T>)
    requires a <= b
    ensures |a| <= |b|
  {
    assert b == a + (b - a);
    assert |b| == |a| + |b - a|;
  }
}

/** The order Rust gives `String`: lexicographic by code point. It fixes the
    iteration order of every `BTreeMap<String, _>` in the source. */
module Order {

  predicate StrLess(a: string, b: string) {
    if b == [] then false
    else if a == [] then true
    else if a[0] != b[0] then a[0] < b[0]
    else StrLess(a[1..], b[1..])
  }

  predicate StrLe(a: string, b: string) {
    a == b || StrLess(a, b)
  }

  lemma {:induction false} StrTrichotomy(a: string, b: string)
    ensures StrLess(a, b) || a == b || StrLess(b, a)
    ensures !(StrLess(a, b) && StrLess(b, a))
    ensures !StrLess(a, a)
  {
    if a != [] {
      assert !StrLess(a, a) by { StrTrichotomy(a[1..], a[1..]); }
      if b != [] && a[0] == b[0] {
        StrTrichotomy(a[1..], b[1..]);
        assert a == [a[0]] + a[1..] && b == [b[0]] + b[1..];
      }
    }
  }

  lemma {:induction false} StrTransitive(a: string, b: string, c: string)
    requires StrLess(a, b) && StrLess(b, c)
    ensures StrLess(a, c)
  {
    if a != [] && a[0] == b[0] && b[0] == c[0] {
      StrTransitive(a[1..], b[1..], c[1..]);
    }
  }

  predicate Ascending(s: seq<string>) {
    forall i, j :: 0 <= i < j < |s| ==> StrLess(s[i], s[j])
  }

  lemma LeastExists(s: set<string>)
    requires s != {}
    ensures exists m :: m in s && forall y :: y in s ==> StrLe(m, y)
  {
    hide StrLess;
    var x :| x in s;
    if s == {x} {
      assert forall y :: y in s ==> StrLe(x, y);
    } else {
      var rest := s - {x};
      assert s == {x} + rest;
      LeastExists(rest);
      var m :| m in rest && forall y :: y in rest ==> StrLe(m, y);
      StrTrichotomy(x, m);
      if StrLess(x, m) {
        forall y | y in s ensures StrLe(x, y) {
          if y != x && y != m {
            assert y in rest;
            StrTransitive(x, m, y);
          }
        }
      } else {
        assert forall y :: y in s ==> StrLe(m, y);
      }
    }
  }

  lemma LeastUnique()
    ensures forall a, b :: StrLe(a, b) && StrLe(b, a) ==> a == b
  {
    forall a, b | StrLe(a, b) && StrLe(b, a) ensures a == b { StrTrichotomy(a, b); }
  }

  /** The keys of a `BTreeMap` in iteration order. */
  function SortedKeys(s: set<string>): (r: seq<string>)
    ensures Ascending(r)
    ensures forall x :: x in r <==> x in s
    ensures |r| == |s|
  {
    if s == {} then []
    else
      hide StrLess;
      LeastExists(s);
      LeastUnique();
      var m :| m in s && forall y :: y in s ==> StrLe(m, y);
      var rest := SortedKeys(s - {m});
      assert forall j :: 0 <= j < |rest| ==> rest[j] in rest && rest[j] in s && rest[j] != m;
      [m] + rest
  }

  /** An ascending sequence is determined by its elements. */
  lemma {:induction false} AscendingUnique(a: seq<string>, b: seq<string>)
    requires Ascending(a) && Ascending(b)
    requires forall x :: x in a <==> x in b
    ensures a == b
  {
    if a == [] {
      assert forall i :: 0 <= i < |b| ==> b[i] in b;
    } else {
      assert a[0] in b;
      assert b[0] in a;
      StrTrichotomy(a[0], b[0]);
      assert a[0] == b[0];
      forall x ensures x in a[1..] <==> x in b[1..] {
        StrTrichotomy(a[0], a[0]);
        assert x in a[1..] ==> x in a && x != a[0];
        assert x in b[1..] ==> x in b && x != b[0];
        assert x in a && x != a[0] ==> x in a[1..];
        assert x in b && x != b[0] ==> x in b[1..];
      }
      AscendingUnique(a[1..], b[1..]);
      assert a == [a[0]] + a[1..] && b == [b[0]] + b[1..];
    }
  }
}
