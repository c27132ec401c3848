/** Restore replays a table's segments in manifest order, which is not the order
    they were sealed in. When that is harmless, and when it is not. */
module SealOrder {
  import opened Prelude
  import opened Json
  import opened Replay
  import M = Manifest

  /** Replay the segments `o` lists, in that order. */
  function ReplayAlong(t: Table, segs: seq<seq<Json>>, o: seq<nat>, pk: string): Outcome<Table>
    requires forall p :: 0 <= p < |o| ==> o[p] < |segs|
  {
    if o == [] then Done(t)
    else match ReplayAlong(t, segs, o[..|o| - 1], pk)
         case Failed => Failed
         case Done(t') => ReplaySegment(t', segs[o[|o| - 1]], pk)
  }

  function SealedOrder(n: nat): seq<nat> { seq(n, i => i) }

  ghost predicate IsPermutation(o: seq<nat>, n: nat) {
    && |o| == n
    && (forall p :: 0 <= p < n ==> o[p] < n)
    && (forall p, q :: 0 <= p < q < n ==> o[p] != o[q])
    && (forall i :: 0 <= i < n ==> i in o)
  }

  function EntriesOf(rows: seq<Json>): seq<Entry> {
    match Decode(rows) case Done(es) => es case Failed => []
  }

  ghost predicate Replayable(rows: seq<Json>, pk: string) {
    (rows == [] || ValidIdentifier(pk)) && Decode(rows).Done? && AllAccepted(EntriesOf(rows), pk)
  }

  /** The primary keys a segment's rows name. */
  function KeysIn(rows: seq<Json>, pk: string): set<Key> {
    set e | e in EntriesOf(rows) && HasKey(e.row, pk) :: e.row[pk]
  }

  lemma SegmentReplays(t: Table, rows: seq<Json>, pk: string)
    ensures ReplaySegment(t, rows, pk).Done? <==> Replayable(rows, pk)
    ensures Replayable(rows, pk) ==> ReplaySegment(t, rows, pk) == ReplayEntries(t, EntriesOf(rows), pk)
  {
    InterleavedDecoding(t, rows, pk);
    RefusedFails(t, EntriesOf(rows), pk);
  }

  lemma {:induction false} AlongDone(t: Table, segs: seq<seq<Json>>, o: seq<nat>, pk: string)
    requires forall p :: 0 <= p < |o| ==> o[p] < |segs|
    ensures ReplayAlong(t, segs, o, pk).Done? <==> forall p :: 0 <= p < |o| ==> Replayable(segs[o[p]], pk)
  {
    hide Replayable, ReplaySegment;
    if o != [] {
      var n := |o| - 1;
      AlongDone(t, segs, o[..n], pk);
      var front := ReplayAlong(t, segs, o[..n], pk);
      if front.Done? { SegmentReplays(front.value, segs[o[n]], pk); }
      assert forall p :: 0 <= p < n ==> o[..n][p] == o[p];
    }
  }

  // ------------------------------------------------------- one key at a time

  /** What one entry does to the row stored under its own key. */
  function Touch(v: Option<Row>, e: Entry, pk: string): Option<Row> {
    if e.op.Delete? then None
    else match v case None => Some(e.row) case Some(r) => Some(r + (e.row - {pk}))
  }

  function FoldEntries(v: Option<Row>, es: seq<Entry>, k: Key, pk: string): Option<Row> {
    if es == [] then v
    else
      var v', e := FoldEntries(v, es[..|es| - 1], k, pk), es[|es| - 1];
      if HasKey(e.row, pk) && e.row[pk] == k then Touch(v', e, pk) else v'
  }

  function FoldAlong(v: Option<Row>, segs: seq<seq<Json>>, o: seq<nat>, k: Key, pk: string): Option<Row>
    requires forall p :: 0 <= p < |o| ==> o[p] < |segs|
  {
    if o == [] then v
    else FoldEntries(FoldAlong(v, segs, o[..|o| - 1], k, pk), EntriesOf(segs[o[|o| - 1]]), k, pk)
  }

  lemma {:induction false} EntriesView(t: Table, es: seq<Entry>, k: Key, pk: string)
    requires ReplayEntries(t, es, pk).Done?
    ensures Lookup(ReplayEntries(t, es, pk).value, k) == FoldEntries(Lookup(t, k), es, k, pk)
  {
    hide ValidColumns;
    if es != [] { EntriesView(t, es[..|es| - 1], k, pk); }
  }

  lemma {:induction false} AlongView(t: Table, segs: seq<seq<Json>>, o: seq<nat>, k: Key, pk: string)
    requires forall p :: 0 <= p < |o| ==> o[p] < |segs|
    requires ReplayAlong(t, segs, o, pk).Done?
    ensures Lookup(ReplayAlong(t, segs, o, pk).value, k) == FoldAlong(Lookup(t, k), segs, o, k, pk)
  {
    hide FoldEntries, EntriesOf, Replayable, ReplaySegment, ReplayEntries;
    if o != [] {
      var n := |o| - 1;
      AlongView(t, segs, o[..n], k, pk);
      var t' := ReplayAlong(t, segs, o[..n], pk).value;
      SegmentReplays(t', segs[o[n]], pk);
      EntriesView(t', EntriesOf(segs[o[n]]), k, pk);
    }
  }

  lemma {:induction false} UntouchedEntries(v: Option<Row>, es: seq<Entry>, k: Key, pk: string)
    requires forall i :: 0 <= i < |es| && HasKey(es[i].row, pk) ==> es[i].row[pk] != k
    ensures FoldEntries(v, es, k, pk) == v
  {
    if es != [] { UntouchedEntries(v, es[..|es| - 1], k, pk); }
  }

  lemma UntouchedSegment(v: Option<Row>, rows: seq<Json>, k: Key, pk: string)
    requires k !in KeysIn(rows, pk)
    ensures FoldEntries(v, EntriesOf(rows), k, pk) == v
  {
    hide Decode;
    var es := EntriesOf(rows);
    assert forall i :: 0 <= i < |es| ==> es[i] in es;
    UntouchedEntries(v, es, k, pk);
  }

  /** Only the segments naming `k` matter to `k`. */
  function Naming(segs: seq<seq<Json>>, o: seq<nat>, k: Key, pk: string): (r: seq<nat>)
    requires forall p :: 0 <= p < |o| ==> o[p] < |segs|
    ensures forall i :: 0 <= i < |r| ==> r[i] < |segs|
  {
    if o == [] then []
    else
      var n := |o| - 1;
      Naming(segs, o[..n], k, pk) + if k in KeysIn(segs[o[n]], pk) then [o[n]] else []
  }

  lemma {:induction false} NamingElements(segs: seq<seq<Json>>, o: seq<nat>, k: Key, pk: string)
    requires forall p :: 0 <= p < |o| ==> o[p] < |segs|
    ensures forall x :: x in Naming(segs, o, k, pk) <==> x in o && k in KeysIn(segs[x], pk)
  {
    hide KeysIn;
    if o != [] {
      var n := |o| - 1;
      NamingElements(segs, o[..n], k, pk);
      assert o == o[..n] + [o[n]];
    }
  }

  lemma {:induction false} OnlyNamingMatter(v: Option<Row>, segs: seq<seq<Json>>, o: seq<nat>, k: Key, pk: string)
    requires forall p :: 0 <= p < |o| ==> o[p] < |segs|
    ensures FoldAlong(v, segs, o, k, pk) == FoldAlong(v, segs, Naming(segs, o, k, pk), k, pk)
  {
    hide FoldEntries, EntriesOf, KeysIn;
    if o != [] {
      var n := |o| - 1;
      OnlyNamingMatter(v, segs, o[..n], k, pk);
      var front := Naming(segs, o[..n], k, pk);
      if k in KeysIn(segs[o[n]], pk) {
        assert (front + [o[n]])[..|front|] == front;
      } else {
        UntouchedSegment(FoldAlong(v, segs, o[..n], k, pk), segs[o[n]], k, pk);
        assert front + [] == front;
      }
    }
  }

  predicate Rising(s: seq<nat>) { forall i, j :: 0 <= i < j < |s| ==> s[i] < s[j] }

  lemma {:induction false} RisingUnique(a: seq<nat>, b: seq<nat>)
    requires Rising(a) && Rising(b) && forall x :: x in a <==> x in b
    ensures a == b
  {
    if a == [] {
      assert forall i :: 0 <= i < |b| ==> b[i] in b;
    } else {
      assert a[0] in b && b[0] in a;
      assert a[0] == b[0];
      assert a == [a[0]] + a[1..] && b == [b[0]] + b[1..];
      forall x ensures x in a[1..] <==> x in b[1..] {
        assert x in a[1..] ==> x in a && x != a[0];
        assert x in b[1..] ==> x in b && x != b[0];
      }
      RisingUnique(a[1..], b[1..]);
    }
  }

  /** Any two segments naming a common key are listed in seal order. */
  ghost predicate KeepsConflicts(segs: seq<seq<Json>>, o: seq<nat>, pk: string)
    requires forall p :: 0 <= p < |o| ==> o[p] < |segs|
  {
    forall p, q :: 0 <= p < q < |o| && KeysIn(segs[o[p]], pk) * KeysIn(segs[o[q]], pk) != {} ==> o[p] < o[q]
  }

  predicate AllBelow(s: seq<nat>, b: nat) { forall i :: 0 <= i < |s| ==> s[i] < b }

  lemma {:induction false} NamingBelow(segs: seq<seq<Json>>, o: seq<nat>, k: Key, pk: string, m: nat, n: nat)
    requires forall p :: 0 <= p < |o| ==> o[p] < |segs|
    requires KeepsConflicts(segs, o, pk) && m <= n < |o| && k in KeysIn(segs[o[n]], pk)
    ensures AllBelow(Naming(segs, o[..m], k, pk), o[n])
  {
    hide KeysIn;
    if m == 0 {
      assert o[..0] == [];
    } else {
      assert o[..m][..m - 1] == o[..m - 1];
      NamingBelow(segs, o, k, pk, m - 1, n);
      if k in KeysIn(segs[o[m - 1]], pk) {
        assert k in KeysIn(segs[o[m - 1]], pk) * KeysIn(segs[o[n]], pk);
      }
    }
  }

  lemma {:induction false} NamingRises(segs: seq<seq<Json>>, o: seq<nat>, k: Key, pk: string, m: nat)
    requires forall p :: 0 <= p < |o| ==> o[p] < |segs|
    requires KeepsConflicts(segs, o, pk) && m <= |o|
    ensures Rising(Naming(segs, o[..m], k, pk))
  {
    hide KeysIn;
    if m == 0 {
      assert o[..0] == [];
    } else {
      assert o[..m][..m - 1] == o[..m - 1];
      NamingRises(segs, o, k, pk, m - 1);
      if k in KeysIn(segs[o[m - 1]], pk) { NamingBelow(segs, o, k, pk, m - 1, m - 1); }
    }
  }

  lemma NamingSame(segs: seq<seq<Json>>, o: seq<nat>, k: Key, pk: string)
    requires IsPermutation(o, |segs|) && KeepsConflicts(segs, o, pk)
    ensures Naming(segs, o, k, pk) == Naming(segs, SealedOrder(|segs|), k, pk)
  {
    hide Naming, KeysIn;
    var id := SealedOrder(|segs|);
    SealedIsPermutation(|segs|);
    NamingRises(segs, o, k, pk, |o|);
    NamingRises(segs, id, k, pk, |id|);
    assert o[..|o|] == o && id[..|id|] == id;
    NamingElements(segs, o, k, pk);
    NamingElements(segs, id, k, pk);
    forall x ensures x in o <==> x in id {
      assert x in o ==> 0 <= x < |segs|;
      assert x in id ==> 0 <= x < |segs|;
    }
    RisingUnique(Naming(segs, o, k, pk), Naming(segs, id, k, pk));
  }

  lemma KeyAgrees(v: Option<Row>, segs: seq<seq<Json>>, o: seq<nat>, k: Key, pk: string)
    requires IsPermutation(o, |segs|) && KeepsConflicts(segs, o, pk)
    ensures FoldAlong(v, segs, o, k, pk) == FoldAlong(v, segs, SealedOrder(|segs|), k, pk)
  {
    hide Naming, KeysIn, FoldAlong;
    var id := SealedOrder(|segs|);
    OnlyNamingMatter(v, segs, o, k, pk);
    OnlyNamingMatter(v, segs, id, k, pk);
    NamingSame(segs, o, k, pk);
  }

  lemma SameTable(a: Table, b: Table)
    requires forall k :: Lookup(a, k) == Lookup(b, k)
    ensures a == b
  {
    assert forall k :: k in a <==> Lookup(a, k).Some?;
    assert forall k :: k in b <==> Lookup(b, k).Some?;
    assert forall k :: k in a ==> a[k] == Lookup(a, k).value;
    assert forall k :: k in b ==> b[k] == Lookup(b, k).value;
  }

  lemma AllReplayable(t: Table, segs: seq<seq<Json>>, o: seq<nat>, pk: string)
    requires IsPermutation(o, |segs|)
    ensures ReplayAlong(t, segs, o, pk).Done? <==> forall i :: 0 <= i < |segs| ==> Replayable(segs[i], pk)
  {
    hide Replayable, ReplayAlong;
    AlongDone(t, segs, o, pk);
    if ReplayAlong(t, segs, o, pk).Done? {
      forall i | 0 <= i < |segs| ensures Replayable(segs[i], pk) {
        assert i in o;
        var p :| 0 <= p < |o| && o[p] == i;
      }
    }
  }

  lemma SealedIsPermutation(n: nat)
    ensures IsPermutation(SealedOrder(n), n)
  {
    forall i | 0 <= i < n ensures i in SealedOrder(n) {
      assert SealedOrder(n)[i] == i;
    }
  }

  /** Sorting preserves meaning when conflicts keep their order: any rearrangement
      of the segments that leaves those sharing a key in seal order replays, from
      every starting table, to what seal order replays to. */
  lemma ConflictOrderSuffices(t: Table, segs: seq<seq<Json>>, o: seq<nat>, pk: string)
    requires IsPermutation(o, |segs|) && KeepsConflicts(segs, o, pk)
    ensures ReplayAlong(t, segs, o, pk) == ReplayAlong(t, segs, SealedOrder(|segs|), pk)
  {
    hide ReplayAlong, Replayable, KeysIn, FoldAlong;
    var id := SealedOrder(|segs|);
    SealedIsPermutation(|segs|);
    AllReplayable(t, segs, o, pk);
    AllReplayable(t, segs, id, pk);
    var a, b := ReplayAlong(t, segs, o, pk), ReplayAlong(t, segs, id, pk);
    if a.Done? {
      forall k ensures Lookup(a.value, k) == Lookup(b.value, k) {
        AlongView(t, segs, o, k, pk);
        AlongView(t, segs, id, k, pk);
        KeyAgrees(Lookup(t, k), segs, o, k, pk);
      }
      SameTable(a.value, b.value);
    }
  }

  // ------------------------------------------------------------ the exact condition

  /** The same test on key sets alone, before any row is known. */
  ghost predicate SafeOrder(keys: seq<set<Key>>, o: seq<nat>)
    requires forall p :: 0 <= p < |o| ==> o[p] < |keys|
  {
    forall p, q :: 0 <= p < q < |o| && keys[o[p]] * keys[o[q]] != {} ==> o[p] < o[q]
  }

  /** The rows name exactly these keys, one each, in this order. */
  ghost predicate Names(rows: seq<Json>, ks: seq<Key>, pk: string) {
    && Decode(rows).Done? && |EntriesOf(rows)| == |rows| == |ks|
    && forall i :: 0 <= i < |ks| ==> HasKey(EntriesOf(rows)[i].row, pk) && EntriesOf(rows)[i].row[pk] == ks[i]
  }

  ghost predicate AllName(segs: seq<seq<Json>>, lists: seq<seq<Key>>, pk: string) {
    |segs| == |lists| && forall i :: 0 <= i < |segs| ==> Names(segs[i], lists[i], pk)
  }

  function KeySetsOf(lists: seq<seq<Key>>): (r: seq<set<Key>>)
    ensures |r| == |lists|
  {
    seq(|lists|, i requires 0 <= i < |lists| => set k | k in lists[i])
  }

  lemma NamedKeys(rows: seq<Json>, ks: seq<Key>, pk: string)
    requires Names(rows, ks, pk)
    ensures KeysIn(rows, pk) == set k | k in ks
  {
    hide Decode;
    var es := EntriesOf(rows);
    forall k ensures k in KeysIn(rows, pk) <==> k in ks {
      if k in KeysIn(rows, pk) {
        var e :| e in es && HasKey(e.row, pk) && e.row[pk] == k;
        var i :| 0 <= i < |es| && es[i] == e;
        assert ks[i] == k;
      }
      if k in ks {
        var i :| 0 <= i < |ks| && ks[i] == k;
        assert es[i] in es;
      }
    }
  }

  /** Whatever rows the segments hold under these keys, `o` replays like seal order. */
  ghost predicate AlwaysAgrees(lists: seq<seq<Key>>, o: seq<nat>, pk: string)
    requires forall p :: 0 <= p < |o| ==> o[p] < |lists|
  {
    forall t: Table, segs: seq<seq<Json>> :: AllName(segs, lists, pk) ==>
      ReplayAlong(t, segs, o, pk) == ReplayAlong(t, segs, SealedOrder(|segs|), pk)
  }

  function OtherColumn(pk: string): string { if pk == "v" then "w" else "v" }

  /** A row for key `k` written by segment `m`; only writers carry a payload. */
  function WitnessRow(k: Key, m: nat, writes: bool, pk: string): Row {
    if writes then map[pk := k, OtherColumn(pk) := Num(I64(m))] else map[pk := k]
  }

  function WitnessRows(ks: seq<Key>, m: nat, k: Key, writer: bool, pk: string): seq<Json> {
    if ks == [] then []
    else
      var x := ks[|ks| - 1];
      WitnessRows(ks[..|ks| - 1], m, k, writer, pk) + [Inserted(WitnessRow(x, m, writer && x == k, pk))]
  }

  /** The witness segment names exactly `ks`, replays, and writes its number into
      the payload of `k` exactly when it is a writer naming `k`. */
  lemma {:induction false} WitnessFacts(ks: seq<Key>, m: nat, k: Key, writer: bool, pk: string, v: Option<Row>)
    requires Null !in ks && ValidIdentifier(pk)
    ensures IsWitness(WitnessRows(ks, m, k, writer, pk), ks, m, k, writer, pk, v)
  {
    hide IsWitness, WitnessRow, Inserted, ValidIdentifier;
    if ks == [] {
      EmptyWitness(m, k, writer, pk, v);
    } else {
      var n := |ks| - 1;
      WitnessFacts(ks[..n], m, k, writer, pk, v);
      WitnessGrows(WitnessRows(ks[..n], m, k, writer, pk), ks[..n], ks[n], m, k, writer, pk, v);
      assert ks[..n] + [ks[n]] == ks;
    }
  }

  lemma EmptyWitness(m: nat, k: Key, writer: bool, pk: string, v: Option<Row>)
    ensures IsWitness([], [], m, k, writer, pk, v)
  {
    hide ValidIdentifier, OtherColumn, Payload;
    assert EntriesOf([]) == [];
  }

  ghost predicate IsWitness(rows: seq<Json>, ks: seq<Key>, m: nat, k: Key, writer: bool, pk: string, v: Option<Row>) {
    && Replayable(rows, pk) && Names(rows, ks, pk)
    && Payload(FoldEntries(v, EntriesOf(rows), k, pk), pk) ==
       (if writer && k in ks then Some(Num(I64(m))) else Payload(v, pk))
  }

  lemma WitnessGrows(front: seq<Json>, ks: seq<Key>, x: Key, m: nat, k: Key, writer: bool, pk: string, v: Option<Row>)
    requires IsWitness(front, ks, m, k, writer, pk, v)
    requires x != Null && ValidIdentifier(pk)
    ensures IsWitness(front + [Inserted(WitnessRow(x, m, writer && x == k, pk))], ks + [x], m, k, writer, pk, v)
  {
    hide Replayable, KeysIn, FoldEntries, EntriesOf, Decode, Accepted, DecodeOne, Inserted, Names;
    var row := WitnessRow(x, m, writer && x == k, pk);
    assert pk in row;
    EnvelopeDecodes(Insert, row);
    WitnessAccepted(x, m, writer && x == k, pk);
    AppendRow(front, Inserted(row), Entry(Insert, row), k, pk, v);
    AppendName(front, Inserted(row), Entry(Insert, row), ks, pk);
  }

  /** Appending one accepted row to a replayable segment. */
  lemma AppendRow(front: seq<Json>, env: Json, e: Entry, k: Key, pk: string, v: Option<Row>)
    requires Replayable(front, pk) && ValidIdentifier(pk)
    requires DecodeOne(env) == Done([e]) && Accepted(e, pk)
    ensures Replayable(front + [env], pk)
    ensures Decode(front + [env]).Done? && EntriesOf(front + [env]) == EntriesOf(front) + [e]
    ensures FoldEntries(v, EntriesOf(front + [env]), k, pk) ==
            var v' := FoldEntries(v, EntriesOf(front), k, pk);
            if e.row[pk] == k then Touch(v', e, pk) else v'
  {
    hide DecodeOne, ValidIdentifier, ValidColumns, Touch, KeysIn, FoldEntries;
    var rows := front + [env];
    assert rows[..|front|] == front;
    assert EntriesOf(rows) == EntriesOf(front) + [e];
    AppendFold(v, EntriesOf(front), e, k, pk);
  }

  lemma AppendName(front: seq<Json>, env: Json, e: Entry, ks: seq<Key>, pk: string)
    requires Names(front, ks, pk) && HasKey(e.row, pk)
    requires Decode(front + [env]).Done? && EntriesOf(front + [env]) == EntriesOf(front) + [e]
    ensures Names(front + [env], ks + [e.row[pk]], pk)
  {
    hide Decode, EntriesOf;
  }

  lemma AppendFold(v: Option<Row>, es: seq<Entry>, e: Entry, k: Key, pk: string)
    requires HasKey(e.row, pk)
    ensures FoldEntries(v, es + [e], k, pk) ==
            var v' := FoldEntries(v, es, k, pk);
            if e.row[pk] == k then Touch(v', e, pk) else v'
  {
    hide Touch;
    assert (es + [e])[..|es|] == es;
  }

  lemma WitnessAccepted(x: Key, m: nat, writes: bool, pk: string)
    requires x != Null && ValidIdentifier(pk)
    ensures Accepted(Entry(Insert, WitnessRow(x, m, writes, pk)), pk)
  {
    var row := WitnessRow(x, m, writes, pk);
    assert row.Keys <= {pk, OtherColumn(pk)};
    assert row.Keys == if writes then {pk, OtherColumn(pk)} else {pk};
    assert |row| == |row.Keys| <= 2;
    assert "v"[0] == 'v' && "w"[0] == 'w';
  }

  function Payload(v: Option<Row>, pk: string): Option<Json> {
    if v.Some? && OtherColumn(pk) in v.value then Some(v.value[OtherColumn(pk)]) else None
  }

  function WitnessSegments(lists: seq<seq<Key>>, i: nat, j: nat, k: Key, pk: string): (r: seq<seq<Json>>)
    ensures |r| == |lists|
  {
    seq(|lists|, m requires 0 <= m < |lists| => WitnessRows(lists[m], m, k, m == i || m == j, pk))
  }

  /** The payload under `k` is whatever the last writer in `o` put there. */
  lemma {:induction false} LastWriterWins(lists: seq<seq<Key>>, i: nat, j: nat, k: Key, pk: string, o: seq<nat>, r: nat)
    requires forall m :: 0 <= m < |lists| ==> Null !in lists[m]
    requires ValidIdentifier(pk) && i < |lists| && j < |lists| && k in lists[i] && k in lists[j]
    requires forall p :: 0 <= p < |o| ==> o[p] < |lists|
    requires r < |o| && (o[r] == i || o[r] == j)
    requires forall s :: r < s < |o| ==> o[s] != i && o[s] != j
    ensures Payload(FoldAlong(None, WitnessSegments(lists, i, j, k, pk), o, k, pk), pk) == Some(Num(I64(o[r])))
  {
    hide FoldEntries, EntriesOf, WitnessRows, Replayable, KeysIn, Names;
    var segs := WitnessSegments(lists, i, j, k, pk);
    var n := |o| - 1;
    var m := o[n];
    if r < n { LastWriterWins(lists, i, j, k, pk, o[..n], r); }
    var before := FoldAlong(None, segs, o[..n], k, pk);
    WitnessFacts(lists[m], m, k, m == i || m == j, pk, before);
    assert segs[m] == WitnessRows(lists[m], m, k, m == i || m == j, pk);
    assert FoldAlong(None, segs, o, k, pk) == FoldEntries(before, EntriesOf(segs[m]), k, pk);
  }

  /** Exactly the safe orders are right for every content: if two segments that
      share a key change places, some rows under the very same keys, first to last,
      tell the difference. */
  lemma SafeOrderIff(lists: seq<seq<Key>>, o: seq<nat>, pk: string)
    requires IsPermutation(o, |lists|) && ValidIdentifier(pk)
    requires forall m :: 0 <= m < |lists| ==> Null !in lists[m]
    ensures SafeOrder(KeySetsOf(lists), o) <==> AlwaysAgrees(lists, o, pk)
  {
    hide ReplayAlong, WitnessRows, WitnessSegments, Names;
    var keys := KeySetsOf(lists);
    if SafeOrder(keys, o) {
      forall t: Table, segs: seq<seq<Json>> | AllName(segs, lists, pk)
        ensures ReplayAlong(t, segs, o, pk) == ReplayAlong(t, segs, SealedOrder(|segs|), pk)
      {
        SafeKeepsConflicts(segs, lists, o, pk);
        ConflictOrderSuffices(t, segs, o, pk);
      }
    } else {
      var p, q :| 0 <= p < q < |o| && keys[o[p]] * keys[o[q]] != {} && o[p] >= o[q];
      var k :| k in keys[o[p]] * keys[o[q]];
      InversionShows(lists, o, pk, p, q, k);
      var segs := WitnessSegments(lists, o[q], o[p], k, pk);
      assert AllName(segs, lists, pk);
      assert ReplayAlong(map[], segs, o, pk) != ReplayAlong(map[], segs, SealedOrder(|segs|), pk);
    }
  }

  lemma SafeKeepsConflicts(segs: seq<seq<Json>>, lists: seq<seq<Key>>, o: seq<nat>, pk: string)
    requires IsPermutation(o, |lists|) && AllName(segs, lists, pk) && SafeOrder(KeySetsOf(lists), o)
    ensures KeepsConflicts(segs, o, pk)
  {
    hide KeysIn, Names;
    forall m | 0 <= m < |segs| ensures KeysIn(segs[m], pk) == KeySetsOf(lists)[m] { NamedKeys(segs[m], lists[m], pk); }
  }

  lemma InversionShows(lists: seq<seq<Key>>, o: seq<nat>, pk: string, p: nat, q: nat, k: Key)
    requires IsPermutation(o, |lists|) && ValidIdentifier(pk)
    requires forall m :: 0 <= m < |lists| ==> Null !in lists[m]
    requires p < q < |o| && o[q] <= o[p] && k in lists[o[p]] && k in lists[o[q]]
    ensures var segs := WitnessSegments(lists, o[q], o[p], k, pk);
            && AllName(segs, lists, pk)
            && ReplayAlong(map[], segs, o, pk) != ReplayAlong(map[], segs, SealedOrder(|segs|), pk)
  {
    hide ReplayAlong, Replayable, KeysIn, WitnessRows, FoldAlong, Payload, Names;
    var i, j := o[q], o[p];
    var segs := WitnessSegments(lists, i, j, k, pk);
    var id := SealedOrder(|segs|);
    forall m | 0 <= m < |lists| ensures Replayable(segs[m], pk) && Names(segs[m], lists[m], pk) {
      WitnessFacts(lists[m], m, k, m == i || m == j, pk, None);
    }
    AlongDone(map[], segs, o, pk);
    AlongDone(map[], segs, id, pk);
    AlongView(map[], segs, o, k, pk);
    AlongView(map[], segs, id, k, pk);
    LastWriterWins(lists, i, j, k, pk, o, q);
    LastWriterWins(lists, i, j, k, pk, id, j);
    assert Lookup<Key, Row>(map[], k) == None;
  }

  // ------------------------------------------------------ pushed manifests

  lemma PushOrderIsPermutation(refs: seq<M.SegmentRef>)
    ensures IsPermutation(M.PushOrder(refs), |refs|)
  {
    M.PushOrderFacts(refs);
    var o := M.PushOrder(refs);
    forall p, q | 0 <= p < q < |o| ensures o[p] != o[q] {
      assert M.Before(refs, o[p], o[q]);
      M.Trichotomy(M.KeyOf(refs[o[p]]), M.KeyOf(refs[o[p]]));
    }
  }

  /** The refs of segments that name these keys: first key, last key and count. */
  ghost predicate RefsName(refs: seq<M.SegmentRef>, lists: seq<seq<Key>>) {
    |refs| == |lists| && forall i :: 0 <= i < |refs| ==>
      && lists[i] != [] && Null !in lists[i]
      && refs[i].pkLo == lists[i][0] && refs[i].pkHi == lists[i][|lists[i]| - 1] && refs[i].rowCount == |lists[i]|
  }

  /** Restoring from a pushed manifest agrees with seal order, for every content its
      refs can name, exactly when, of any two segments that share a key, the earlier
      sealed sorts strictly below the later. */
  lemma PushedManifestAgreesIff(refs: seq<M.SegmentRef>, lists: seq<seq<Key>>, pk: string)
    requires RefsName(refs, lists) && ValidIdentifier(pk)
    ensures forall p :: 0 <= p < |refs| ==> M.PushOrder(refs)[p] < |lists|
    ensures AlwaysAgrees(lists, M.PushOrder(refs), pk) <==> Rises(Below(refs), KeySetsOf(lists))
  {
    PushOrderIsPermutation(refs);
    PushedBelow(refs);
    AgreesIffRising(Below(refs), lists, M.PushOrder(refs), pk);
  }

  lemma AgreesIffRising(below: (nat, nat) -> bool, lists: seq<seq<Key>>, o: seq<nat>, pk: string)
    requires IsPermutation(o, |lists|) && ValidIdentifier(pk)
    requires forall m :: 0 <= m < |lists| ==> Null !in lists[m]
    requires Listed(below, o)
    ensures AlwaysAgrees(lists, o, pk) <==> Rises(below, KeySetsOf(lists))
  {
    SafeOrderIff(lists, o, pk);
    SafeIffRising(below, KeySetsOf(lists), o);
  }

  /** `o` lists by `below`, and later indices first where `below` is silent. */
  ghost predicate Listed(below: (nat, nat) -> bool, o: seq<nat>) {
    forall p, q :: 0 <= p < q < |o| ==> (o[p] < o[q] ==> below(o[p], o[q])) && !below(o[q], o[p])
  }

  /** Ref `i` sorts strictly below ref `j`. */
  ghost function Below(refs: seq<M.SegmentRef>): (nat, nat) -> bool {
    (i: nat, j: nat) => i < |refs| && j < |refs| && M.Less(M.KeyOf(refs[i]), M.KeyOf(refs[j]))
  }

  lemma PushedBelow(refs: seq<M.SegmentRef>)
    ensures Listed(Below(refs), M.PushOrder(refs))
  {
    M.PushOrderFacts(refs);
    var o := M.PushOrder(refs);
    forall p, q | 0 <= p < q < |o|
      ensures (o[p] < o[q] ==> Below(refs)(o[p], o[q])) && !Below(refs)(o[q], o[p])
    {
      BeforeMeans(refs, o, p, q);
    }
  }

  ghost predicate Rises(below: (nat, nat) -> bool, keys: seq<set<Key>>) {
    forall i, j :: 0 <= i < j < |keys| && keys[i] * keys[j] != {} ==> below(i, j)
  }

  lemma SafeIffRising(below: (nat, nat) -> bool, keys: seq<set<Key>>, o: seq<nat>)
    requires IsPermutation(o, |keys|)
    requires Listed(below, o)
    ensures SafeOrder(keys, o) <==> Rises(below, keys)
  {
    if SafeOrder(keys, o) {
      forall i, j | 0 <= i < j < |keys| && keys[i] * keys[j] != {} ensures below(i, j) {
        var p, q := PositionOf(o, i), PositionOf(o, j);
        assert keys[j] * keys[i] == keys[i] * keys[j];
      }
    }
    if Rises(below, keys) {
      forall p, q | 0 <= p < q < |o| && keys[o[p]] * keys[o[q]] != {} ensures o[p] < o[q] {
        assert keys[o[q]] * keys[o[p]] == keys[o[p]] * keys[o[q]];
      }
    }
  }

  ghost function PositionOf(o: seq<nat>, i: nat): (p: nat)
    requires i in o
    ensures p < |o| && o[p] == i
  {
    var p :| 0 <= p < |o| && o[p] == i;
    p
  }

  lemma BeforeMeans(refs: seq<M.SegmentRef>, o: seq<nat>, p: nat, q: nat)
    requires M.Ordered(refs, o, M.PushAll(refs)) && p < q < |o|
    ensures o[p] < o[q] ==> M.Less(M.KeyOf(refs[o[p]]), M.KeyOf(refs[o[q]]))
    ensures !M.Less(M.KeyOf(refs[o[q]]), M.KeyOf(refs[o[p]]))
  {
    assert M.Before(refs, o[p], o[q]);
    BeforeExcludes(refs, o[p], o[q]);
  }

  lemma BeforeExcludes(refs: seq<M.SegmentRef>, i: nat, j: nat)
    requires i < |refs| && j < |refs| && M.Before(refs, i, j)
    ensures !M.Less(M.KeyOf(refs[j]), M.KeyOf(refs[i]))
  {
    M.Trichotomy(M.KeyOf(refs[i]), M.KeyOf(refs[j]));
  }
}
