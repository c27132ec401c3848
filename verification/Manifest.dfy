/** Segment manifests: refs kept sorted by `(table, pk_lo)` on push, checked on
    decode against the stricter `(table, pk_lo, pk_hi)`. */
module Manifest {
  import opened Prelude
  import opened Order
  import opened Json

  /** Variants compare in declaration order, then by payload. */
  datatype PkKey = IntKey(i: int) | FloatKey(bits: nat) | TextKey(s: string)

  function PkSortKey(v: Json): PkKey {
    match v
    case Num(I64(i)) => IntKey(i)
    case Num(Wide(bits, _)) => FloatKey(bits)
    case Str(s) => TextKey(s)
    case other => TextKey(Encode(other))
  }

  predicate PkLess(a: PkKey, b: PkKey) {
    match (a, b)
    case (IntKey(x), IntKey(y)) => x < y
    case (IntKey(_), _) => true
    case (FloatKey(_), IntKey(_)) => false
    case (FloatKey(x), FloatKey(y)) => x < y
    case (FloatKey(_), TextKey(_)) => true
    case (TextKey(x), TextKey(y)) => StrLess(x, y)
    case (TextKey(_), _) => false
  }

  datatype SegmentRef =
    SegmentRef(table: string, pkLo: Json, pkHi: Json, segment: Hash, rowCount: nat)

  datatype RefKey = RefKey(table: string, lo: PkKey)

  function KeyOf(r: SegmentRef): RefKey { RefKey(r.table, PkSortKey(r.pkLo)) }
  function HiOf(r: SegmentRef): PkKey { PkSortKey(r.pkHi) }

  predicate Less(a: RefKey, b: RefKey) {
    StrLess(a.table, b.table) || (a.table == b.table && PkLess(a.lo, b.lo))
  }

  /** The decode check's order, which also looks at the upper bound. */
  predicate RangeLess(a: SegmentRef, b: SegmentRef) {
    Less(KeyOf(a), KeyOf(b)) || (KeyOf(a) == KeyOf(b) && PkLess(HiOf(a), HiOf(b)))
  }

  lemma PkTrichotomy(a: PkKey, b: PkKey)
    ensures PkLess(a, b) || a == b || PkLess(b, a)
    ensures !(PkLess(a, b) && PkLess(b, a)) && !PkLess(a, a)
  {
    if a.TextKey? && b.TextKey? { StrTrichotomy(a.s, b.s); }
    if a.TextKey? { StrTrichotomy(a.s, a.s); }
  }

  lemma PkTransitive(a: PkKey, b: PkKey, c: PkKey)
    requires PkLess(a, b) && PkLess(b, c)
    ensures PkLess(a, c)
  {
    if a.TextKey? { StrTransitive(a.s, b.s, c.s); }
  }

  lemma Trichotomy(a: RefKey, b: RefKey)
    ensures Less(a, b) || a == b || Less(b, a)
    ensures !(Less(a, b) && Less(b, a)) && !Less(a, a)
  {
    StrTrichotomy(a.table, b.table);
    StrTrichotomy(a.table, a.table);
    PkTrichotomy(a.lo, b.lo);
    PkTrichotomy(a.lo, a.lo);
  }

  lemma Transitive(a: RefKey, b: RefKey, c: RefKey)
    requires Less(a, b) && Less(b, c)
    ensures Less(a, c)
  {
    if StrLess(a.table, b.table) && StrLess(b.table, c.table) {
      StrTransitive(a.table, b.table, c.table);
    } else if a.table == b.table == c.table {
      PkTransitive(a.lo, b.lo, c.lo);
    }
  }

  lemma RangeTransitive(a: SegmentRef, b: SegmentRef, c: SegmentRef)
    requires RangeLess(a, b) && RangeLess(b, c)
    ensures RangeLess(a, c)
  {
    hide KeyOf, HiOf, Less, PkLess;
    if Less(KeyOf(a), KeyOf(b)) && Less(KeyOf(b), KeyOf(c)) {
      Transitive(KeyOf(a), KeyOf(b), KeyOf(c));
    } else if KeyOf(a) == KeyOf(b) == KeyOf(c) {
      PkTransitive(HiOf(a), HiOf(b), HiOf(c));
    }
  }

  // ------------------------------------------------------------------- pushing

  /** The first position whose key is not below the new ref's. */
  function PushPos(entries: seq<SegmentRef>, r: SegmentRef): (pos: nat)
    ensures pos <= |entries|
    ensures forall i :: 0 <= i < pos ==> Less(KeyOf(entries[i]), KeyOf(r))
    ensures pos < |entries| ==> !Less(KeyOf(entries[pos]), KeyOf(r))
  {
    hide KeyOf, Less;
    if entries == [] || !Less(KeyOf(entries[0]), KeyOf(r)) then 0
    else 1 + PushPos(entries[1..], r)
  }

  function InsertAt<T>(s: seq<T>, pos: nat, x: T): (r: seq<T>)
    requires pos <= |s|
    ensures |r| == |s| + 1
  {
    s[..pos] + [x] + s[pos..]
  }

  lemma InsertAtIndex<T>(s: seq<T>, pos: nat, x: T, p: nat)
    requires pos <= |s| && p <= |s|
    ensures InsertAt(s, pos, x)[p] == if p < pos then s[p] else if p == pos then x else s[p - 1]
  {
  }

  function Pushed(entries: seq<SegmentRef>, r: SegmentRef): seq<SegmentRef> {
    InsertAt(entries, PushPos(entries, r), r)
  }

  /** The manifest after pushing these refs in this order. */
  function PushAll(refs: seq<SegmentRef>): (e: seq<SegmentRef>)
    ensures |e| == |refs|
  {
    if refs == [] then [] else Pushed(PushAll(refs[..|refs| - 1]), refs[|refs| - 1])
  }

  /** Where each entry of `PushAll(refs)` came from. */
  function PushOrder(refs: seq<SegmentRef>): (o: seq<nat>)
    ensures |o| == |refs|
  {
    if refs == [] then []
    else
      var n := |refs| - 1;
      InsertAt(PushOrder(refs[..n]), PushPos(PushAll(refs[..n]), refs[n]), n)
  }

  /** By key; among equal keys the newest push comes first. */
  predicate Before(refs: seq<SegmentRef>, i: nat, j: nat)
    requires i < |refs| && j < |refs|
  {
    Less(KeyOf(refs[i]), KeyOf(refs[j])) || (KeyOf(refs[i]) == KeyOf(refs[j]) && i > j)
  }

  ghost predicate Ordered(refs: seq<SegmentRef>, o: seq<nat>, entries: seq<SegmentRef>) {
    && |o| == |refs| == |entries|
    && (forall p :: 0 <= p < |o| ==> o[p] < |refs| && entries[p] == refs[o[p]])
    && (forall p, q :: 0 <= p < q < |o| ==> Before(refs, o[p], o[q]))
  }

  ghost predicate IsPushOrder(refs: seq<SegmentRef>, o: seq<nat>, entries: seq<SegmentRef>) {
    Ordered(refs, o, entries) && forall i :: 0 <= i < |refs| ==> i in o
  }

  /** What pushing does to any list of refs, ties included: it lists them by key,
      equal keys newest first, each exactly once. */
  lemma {:induction false} PushOrderFacts(refs: seq<SegmentRef>)
    ensures IsPushOrder(refs, PushOrder(refs), PushAll(refs))
  {
    hide KeyOf, Less;
    if refs != [] {
      var n := |refs| - 1;
      PushOrderFacts(refs[..n]);
      InsertKeepsOrder(refs, n, PushOrder(refs[..n]), PushAll(refs[..n]));
    }
  }

  lemma InsertKeepsOrder(refs: seq<SegmentRef>, n: nat, o: seq<nat>, e: seq<SegmentRef>)
    requires |refs| == n + 1 && IsPushOrder(refs[..n], o, e)
    ensures var pos := PushPos(e, refs[n]);
            IsPushOrder(refs, InsertAt(o, pos, n), InsertAt(e, pos, refs[n]))
  {
    hide KeyOf, Less, PushPos, Before;
    var pos := PushPos(e, refs[n]);
    var o', e' := InsertAt(o, pos, n), InsertAt(e, pos, refs[n]);
    InsertTracks(refs, n, o, e, pos);
    forall p, q | 0 <= p < q < |o'| ensures Before(refs, o'[p], o'[q]) {
      InsertedPair(refs, n, o, e, p, q);
    }
  }

  lemma InsertTracks(refs: seq<SegmentRef>, n: nat, o: seq<nat>, e: seq<SegmentRef>, pos: nat)
    requires |refs| == n + 1 && |o| == |e| == n && pos <= n
    requires forall p :: 0 <= p < n ==> o[p] < n && e[p] == refs[o[p]]
    requires forall i :: 0 <= i < n ==> i in o
    ensures forall p :: 0 <= p <= n ==>
      InsertAt(o, pos, n)[p] <= n && InsertAt(e, pos, refs[n])[p] == refs[InsertAt(o, pos, n)[p]]
    ensures forall i :: 0 <= i <= n ==> i in InsertAt(o, pos, n)
  {
    var o', e' := InsertAt(o, pos, n), InsertAt(e, pos, refs[n]);
    forall p | 0 <= p <= n ensures o'[p] <= n && e'[p] == refs[o'[p]] {
      InsertAtIndex(o, pos, n, p);
      InsertAtIndex(e, pos, refs[n], p);
    }
    forall i | 0 <= i <= n ensures i in o' {
      if i < n {
        assert i in o;
        var p :| 0 <= p < n && o[p] == i;
        var p' := if p < pos then p else p + 1;
        InsertAtIndex(o, pos, n, p');
        assert o'[p'] == i;
      } else {
        InsertAtIndex(o, pos, n, pos);
        assert o'[pos] == i;
      }
    }
  }

  lemma InsertedPair(refs: seq<SegmentRef>, n: nat, o: seq<nat>, e: seq<SegmentRef>, p: nat, q: nat)
    requires |refs| == n + 1 && Ordered(refs[..n], o, e) && p < q <= n
    ensures var o' := InsertAt(o, PushPos(e, refs[n]), n);
            o'[p] <= n && o'[q] <= n && Before(refs, o'[p], o'[q])
  {
    hide KeyOf, Less, PushPos, InsertAt;
    PushPosSplits(e, refs[n]);
    var pos := PushPos(e, refs[n]);
    var o' := InsertAt(o, pos, n);
    InsertAtIndex(o, pos, n, p);
    InsertAtIndex(o, pos, n, q);
    if q == pos {
      assert Less(KeyOf(e[p]), KeyOf(refs[n]));
    } else if p == pos {
      NotBelow(refs[..n], o, e, refs[n], pos, q - 1);
    } else {
      var p', q' := if p < pos then p else p - 1, if q < pos then q else q - 1;
      assert Before(refs[..n], o[p'], o[q']);
    }
  }

  lemma PushPosSplits(entries: seq<SegmentRef>, r: SegmentRef)
    ensures PushPos(entries, r) <= |entries|
    ensures forall i :: 0 <= i < PushPos(entries, r) ==> Less(KeyOf(entries[i]), KeyOf(r))
  {
  }

  lemma NotBelow(refs: seq<SegmentRef>, o: seq<nat>, e: seq<SegmentRef>, r: SegmentRef, pos: nat, q: nat)
    requires Ordered(refs, o, e) && pos == PushPos(e, r) && pos <= q < |e|
    ensures Less(KeyOf(r), KeyOf(e[q])) || KeyOf(r) == KeyOf(e[q])
  {
    hide KeyOf, Less, PushPos;
    Trichotomy(KeyOf(e[pos]), KeyOf(r));
    if pos < q {
      assert Before(refs, o[pos], o[q]);
      if Less(KeyOf(r), KeyOf(e[pos])) && Less(KeyOf(e[pos]), KeyOf(e[q])) {
        Transitive(KeyOf(r), KeyOf(e[pos]), KeyOf(e[q]));
      }
    }
  }

  lemma InsertAtElements<T>(s: seq<T>, pos: nat, x: T)
    requires pos <= |s|
    ensures multiset(InsertAt(s, pos, x)) == multiset(s) + multiset{x}
  {
    assert s == s[..pos] + s[pos..];
  }

  lemma {:induction false} PushAllElements(refs: seq<SegmentRef>)
    ensures multiset(PushAll(refs)) == multiset(refs)
  {
    hide KeyOf, Less, PushPos, InsertAt;
    if refs != [] {
      var n := |refs| - 1;
      PushAllElements(refs[..n]);
      InsertAtElements(PushAll(refs[..n]), PushPos(PushAll(refs[..n]), refs[n]), refs[n]);
      assert refs == refs[..n] + [refs[n]];
    }
  }

  // ----------------------------------------------------------------- canonicity

  ghost predicate DistinctKeys(refs: seq<SegmentRef>) {
    forall i, j :: 0 <= i < j < |refs| ==> KeyOf(refs[i]) != KeyOf(refs[j])
  }

  ghost predicate StrictlySorted(e: seq<SegmentRef>) {
    forall i, j :: 0 <= i < j < |e| ==> Less(KeyOf(e[i]), KeyOf(e[j]))
  }

  lemma SameHead(a: seq<SegmentRef>, b: seq<SegmentRef>)
    requires StrictlySorted(a) && StrictlySorted(b) && |a| > 0 && |b| > 0
    requires a[0] in b && b[0] in a
    ensures a[0] == b[0]
  {
    hide KeyOf, Less;
    var i :| 0 <= i < |b| && b[i] == a[0];
    var j :| 0 <= j < |a| && a[j] == b[0];
    Trichotomy(KeyOf(a[0]), KeyOf(b[0]));
  }

  lemma {:induction false} SortedUnique(a: seq<SegmentRef>, b: seq<SegmentRef>)
    requires StrictlySorted(a) && StrictlySorted(b) && |a| == |b|
    requires forall x :: x in a <==> x in b
    ensures a == b
  {
    hide KeyOf, Less;
    if |a| > 0 {
      assert a[0] in a && b[0] in b;
      SameHead(a, b);
      TailElements(a);
      TailElements(b);
      SortedUnique(a[1..], b[1..]);
      assert a == [a[0]] + a[1..] && b == [b[0]] + b[1..];
    }
  }

  lemma TailElements(a: seq<SegmentRef>)
    requires StrictlySorted(a) && |a| > 0
    ensures forall x :: x in a[1..] <==> x in a && x != a[0]
  {
    hide KeyOf, Less;
    Trichotomy(KeyOf(a[0]), KeyOf(a[0]));
    assert forall i :: 0 < i < |a| ==> a[i] != a[0];
    assert a == [a[0]] + a[1..];
  }

  /** Canonicity: refs with pairwise distinct keys give one strictly sorted
      manifest, whatever the order they were pushed in. */
  lemma PushOrderIrrelevant(a: seq<SegmentRef>, b: seq<SegmentRef>)
    requires multiset(a) == multiset(b) && DistinctKeys(a)
    ensures PushAll(a) == PushAll(b) && StrictlySorted(PushAll(a))
    ensures multiset(PushAll(a)) == multiset(a)
    ensures forall sv :: sv != "" ==> Decodable(sv, PushAll(a))
  {
    hide KeyOf, Less, PushPos, PushAll, PushOrder;
    PushOrderFacts(a);
    PushOrderFacts(b);
    PushAllElements(a);
    PushAllElements(b);
    var o, p := PushOrder(a), PushOrder(b);
    forall i, j | 0 <= i < j < |a| ensures Less(KeyOf(PushAll(a)[i]), KeyOf(PushAll(a)[j])) {
      assert Before(a, o[i], o[j]);
      assert o[i] != o[j] by { Trichotomy(KeyOf(a[o[i]]), KeyOf(a[o[i]])); }
    }
    DistinctPermuted(a, b);
    forall i, j | 0 <= i < j < |b| ensures Less(KeyOf(PushAll(b)[i]), KeyOf(PushAll(b)[j])) {
      assert Before(b, p[i], p[j]);
      assert p[i] != p[j] by { Trichotomy(KeyOf(b[p[i]]), KeyOf(b[p[i]])); }
    }
    assert forall x :: x in PushAll(a) <==> x in multiset(PushAll(a));
    assert forall x :: x in PushAll(b) <==> x in multiset(PushAll(b));
    SortedUnique(PushAll(a), PushAll(b));
  }

  lemma {:induction false} DistinctPermuted(a: seq<SegmentRef>, b: seq<SegmentRef>)
    requires multiset(a) == multiset(b) && DistinctKeys(a)
    ensures DistinctKeys(b)
  {
    hide KeyOf;
    forall i, j | 0 <= i < j < |b| ensures KeyOf(b[i]) != KeyOf(b[j]) {
      assert b[i] in multiset(b) && b[j] in multiset(b);
      var x :| 0 <= x < |a| && a[x] == b[i];
      var y :| 0 <= y < |a| && a[y] == b[j];
      if x == y {
        TwiceInMultiset(b, i, j);
        OnceInMultiset(a, x);
        assert false;
      }
    }
  }

  lemma TwiceInMultiset(s: seq<SegmentRef>, i: nat, j: nat)
    requires i < j < |s| && s[i] == s[j]
    ensures multiset(s)[s[i]] >= 2
  {
    assert s == s[..i] + [s[i]] + s[i + 1..j] + [s[j]] + s[j + 1..];
  }

  lemma OnceInMultiset(s: seq<SegmentRef>, i: nat)
    requires i < |s| && DistinctKeys(s)
    ensures multiset(s)[s[i]] == 1
  {
    hide KeyOf;
    assert s == s[..i] + [s[i]] + s[i + 1..];
    assert s[i] !in s[..i] && s[i] !in s[i + 1..];
  }

  // ------------------------------------------------------------------- decoding

  predicate StrictRanges(e: seq<SegmentRef>) {
    forall i, j :: 0 <= i < j < |e| ==> RangeLess(e[i], e[j])
  }

  predicate Decodable(schemaVersion: string, e: seq<SegmentRef>) {
    schemaVersion != "" && StrictRanges(e)
  }

  /** Neighbours before position `k` are in order. */
  ghost predicate AdjacentUpTo(e: seq<SegmentRef>, k: nat) {
    forall m :: 0 < m < k && m < |e| ==> RangeLess(e[m - 1], e[m])
  }

  lemma {:induction false} AdjacentSuffices(e: seq<SegmentRef>, i: nat, j: nat)
    requires i < j < |e|
    requires AdjacentUpTo(e, |e|)
    ensures RangeLess(e[i], e[j])
    decreases j
  {
    hide RangeLess;
    if i + 1 < j {
      AdjacentSuffices(e, i, j - 1);
      RangeTransitive(e[i], e[j - 1], e[j]);
    }
  }

  /** Every later push with an equal `(table, pk_lo)` ends strictly lower. */
  ghost predicate TiesShrink(refs: seq<SegmentRef>) {
    forall i, j :: 0 <= i < j < |refs| && KeyOf(refs[i]) == KeyOf(refs[j])
      ==> PkLess(HiOf(refs[j]), HiOf(refs[i]))
  }

  lemma NewestFirst(refs: seq<SegmentRef>, i: nat, j: nat)
    requires i < j < |refs| && KeyOf(refs[i]) == KeyOf(refs[j])
    ensures !Before(refs, i, j)
  {
    Trichotomy(KeyOf(refs[i]), KeyOf(refs[j]));
  }

  /** A pushed manifest is not always one its own decoder accepts. It is exactly
      when refs that share a lower bound were pushed with falling upper bounds. */
  lemma PushedDecodesIff(schemaVersion: string, refs: seq<SegmentRef>)
    ensures Decodable(schemaVersion, PushAll(refs)) <==> schemaVersion != "" && TiesShrink(refs)
  {
    hide KeyOf, HiOf, Less, PkLess, PushAll, PushOrder;
    PushOrderFacts(refs);
    var o, e := PushOrder(refs), PushAll(refs);
    if StrictRanges(e) {
      forall i, j | 0 <= i < j < |refs| && KeyOf(refs[i]) == KeyOf(refs[j])
        ensures PkLess(HiOf(refs[j]), HiOf(refs[i]))
      {
        assert i in o && j in o;
        var p :| 0 <= p < |o| && o[p] == i;
        var q :| 0 <= q < |o| && o[q] == j;
        Trichotomy(KeyOf(refs[i]), KeyOf(refs[j]));
        NewestFirst(refs, i, j);
        assert q < p;
        assert RangeLess(e[q], e[p]);
      }
    }
    if TiesShrink(refs) {
      forall p, q | 0 <= p < q < |e| ensures RangeLess(e[p], e[q]) {
        assert Before(refs, o[p], o[q]);
      }
    }
  }

  /** Two deltas of one table that start at the same key, the second reaching
      further: the manifest `take_snapshot` returns cannot be read back. */
  lemma GrowingTieDoesNotDecode(table: string, a: Hash, b: Hash)
    ensures var first := SegmentRef(table, Num(I64(1)), Num(I64(5)), a, 5);
            var second := SegmentRef(table, Num(I64(1)), Num(I64(7)), b, 7);
            PushAll([first, second]) == [second, first] && !Decodable("1", PushAll([first, second]))
  {
    var first := SegmentRef(table, Num(I64(1)), Num(I64(5)), a, 5);
    var second := SegmentRef(table, Num(I64(1)), Num(I64(7)), b, 7);
    var refs := [first, second];
    Trichotomy(KeyOf(first), KeyOf(second));
    assert refs[..1] == [first] && [first][..0] == [];
    assert PushAll([first]) == [first];
    PushedDecodesIff("1", refs);
    assert !PkLess(HiOf(refs[1]), HiOf(refs[0]));
  }

  /** The same two the other way round, the second reaching less far: it can. */
  lemma ShrinkingTieDecodes(table: string, a: Hash, b: Hash)
    ensures var first := SegmentRef(table, Num(I64(1)), Num(I64(7)), a, 7);
            var second := SegmentRef(table, Num(I64(1)), Num(I64(5)), b, 5);
            PushAll([first, second]) == [second, first] && Decodable("1", PushAll([first, second]))
  {
    var first := SegmentRef(table, Num(I64(1)), Num(I64(7)), a, 7);
    var second := SegmentRef(table, Num(I64(1)), Num(I64(5)), b, 5);
    var refs := [first, second];
    Trichotomy(KeyOf(first), KeyOf(second));
    assert refs[..1] == [first] && [first][..0] == [];
    assert PushAll([first]) == [first];
    PushedDecodesIff("1", refs);
  }

  /** How keys sort: integers by value, then other numbers by their bits, then text by
      code point; any other value stands for its JSON text. */
  lemma KeysSort(i: int, j: int, x: nat, y: nat, p: string, q: string, s: string, t: string, v: Json)
    ensures PkLess(PkSortKey(Num(I64(i))), PkSortKey(Num(I64(j)))) <==> i < j
    ensures PkLess(PkSortKey(Num(Wide(x, p))), PkSortKey(Num(Wide(y, q)))) <==> x < y
    ensures PkLess(PkSortKey(Str(s)), PkSortKey(Str(t))) <==> StrLess(s, t)
    ensures PkLess(PkSortKey(Num(I64(i))), PkSortKey(Num(Wide(x, p))))
    ensures !PkLess(PkSortKey(Num(Wide(x, p))), PkSortKey(Num(I64(i))))
    ensures PkLess(PkSortKey(Num(Wide(x, p))), PkSortKey(Str(s))) && !PkLess(PkSortKey(Str(s)), PkSortKey(Num(Wide(x, p))))
    ensures !v.Num? && !v.Str? ==> PkSortKey(v) == PkSortKey(Str(Encode(v)))
  {
  }

  /** The manifest under construction, updated in place. */
  class SegmentManifest {
    var schemaVersion: string
    var entries: seq<SegmentRef>

    constructor (sv: string)
      ensures schemaVersion == sv && entries == []
    {
      schemaVersion := sv;
      entries := [];
    }

    method Push(r: SegmentRef)
      modifies this`entries
      ensures entries == Pushed(old(entries), r)
    {
      var pos := 0;
      while pos < |entries| && Less(KeyOf(entries[pos]), KeyOf(r))
        invariant 0 <= pos <= |entries| && entries == old(entries)
        invariant forall i :: 0 <= i < pos ==> Less(KeyOf(entries[i]), KeyOf(r))
      {
        pos := pos + 1;
      }
      assert pos == PushPos(entries, r);
      entries := entries[..pos] + [r] + entries[pos..];
    }

    /** One pass over neighbouring pairs decides the order of every pair. */
    method ValidateInvariants() returns (ok: bool)
      ensures ok <==> Decodable(schemaVersion, entries)
    {
      if schemaVersion == "" { return false; }
      var k := 1;
      while k < |entries|
        invariant 1 <= k && AdjacentUpTo(entries, k)
      {
        if !RangeLess(entries[k - 1], entries[k]) { return false; }
        k := k + 1;
      }
      forall i, j | 0 <= i < j < |entries| ensures RangeLess(entries[i], entries[j]) {
        AdjacentSuffices(entries, i, j);
      }
      return true;
    }
  }
}
