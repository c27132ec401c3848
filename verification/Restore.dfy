/** Restoring a manifest: every segment is fetched first, then each tracked table
    is emptied and rebuilt from its entries in manifest order. */
module Restore {
  import opened Prelude
  import opened Json
  import opened Segments
  import R = Replay
  import M = Manifest
  import O = SealOrder
  import B = Bootstrap

  datatype TrackedTable = TrackedTable(name: string, pk: string)

  /** A manifest's entries for one table, in manifest order. */
  function ForTable(entries: seq<M.SegmentRef>, table: string): seq<M.SegmentRef> {
    if entries == [] then []
    else if entries[0].table == table then [entries[0]] + ForTable(entries[1..], table)
    else ForTable(entries[1..], table)
  }

  lemma {:induction false} ForTableFrom(entries: seq<M.SegmentRef>, table: string, x: M.SegmentRef)
    requires x in ForTable(entries, table)
    ensures x in entries && x.table == table
  {
    if entries[0].table != table || x != entries[0] { ForTableFrom(entries[1..], table, x); }
  }

  lemma ForTableLoaded(store: SegmentStore, entries: seq<M.SegmentRef>, table: string)
    requires Loaded(store, entries)
    ensures Loaded(store, ForTable(entries, table))
  {
    var mine := ForTable(entries, table);
    forall i | 0 <= i < |mine| ensures mine[i].segment in store { ForTableFrom(entries, table, mine[i]); }
  }

  predicate Loaded(store: SegmentStore, entries: seq<M.SegmentRef>) {
    forall i :: 0 <= i < |entries| ==> entries[i].segment in store
  }

  function Contents(store: SegmentStore, entries: seq<M.SegmentRef>): (r: seq<seq<Json>>)
    requires Loaded(store, entries)
    ensures |r| == |entries|
  {
    seq(|entries|, i requires 0 <= i < |entries| => store[entries[i].segment].rows)
  }

  /** Replay whole segments one after another. */
  function ReplayAll(t: R.Table, segs: seq<seq<Json>>, pk: string): Outcome<R.Table> {
    if segs == [] then Done(t)
    else match ReplayAll(t, segs[..|segs| - 1], pk)
         case Failed => Failed
         case Done(t') => R.ReplaySegment(t', segs[|segs| - 1], pk)
  }

  /** What restore makes of one tracked table, whatever it held before. */
  function Rebuilt(store: SegmentStore, entries: seq<M.SegmentRef>, t: TrackedTable): Outcome<R.Table>
  {
    if !R.ValidIdentifier(t.name) || !R.ValidIdentifier(t.pk) || !Loaded(store, entries) then Failed
    else
      ForTableLoaded(store, entries, t.name);
      ReplayAll(map[], Contents(store, ForTable(entries, t.name)), t.pk)
  }

  /** The database: tables by name, and the change log the triggers fill. */
  class Database {
    var tables: map<string, R.Table>
    var changeLog: seq<Json>

    constructor (ts: map<string, R.Table>, log: seq<Json>)
      ensures tables == ts && changeLog == log
    {
      tables, changeLog := ts, log;
    }

    /** One transaction: it either rebuilds every tracked table, leaves every
        other table alone and empties the change log, or changes nothing. */
    method RestoreManifest(store: SegmentStore, entries: seq<M.SegmentRef>, tracked: seq<TrackedTable>)
      returns (ok: bool)
      modifies this
      ensures ok <==> Loaded(store, entries) && Rebuildable(old(tables), Rebuilder(store, entries), tracked)
      ensures ok ==> changeLog == [] && RebuiltTo(tables, old(tables), Rebuilder(store, entries), tracked)
      ensures !ok ==> tables == old(tables) && changeLog == old(changeLog)
    {
      hide Rebuilt, RebuiltTo;
      var loaded := Preload(store, entries);
      if loaded.Failed? { return false; }
      var rebuilt := RebuildAll(tables, loaded.value, store, entries, tracked);
      if rebuilt.Failed? { return false; }
      tables, changeLog := rebuilt.value, [];
      return true;
    }
  }

  ghost function Rebuilder(store: SegmentStore, entries: seq<M.SegmentRef>): TrackedTable -> Outcome<R.Table> {
    t => Rebuilt(store, entries, t)
  }

  ghost predicate Rebuildable(
      tables: map<string, R.Table>, rebuild: TrackedTable -> Outcome<R.Table>, tracked: seq<TrackedTable>) {
    forall i :: 0 <= i < |tracked| ==> tracked[i].name in tables && rebuild(tracked[i]).Done?
  }

  /** The database after restore: each tracked table is what the manifest rebuilds
      (a table configured twice, by its last entry), every other is untouched. */
  ghost predicate RebuiltTo(after: map<string, R.Table>, before: map<string, R.Table>,
                            rebuild: TrackedTable -> Outcome<R.Table>, tracked: seq<TrackedTable>) {
    && after.Keys == before.Keys
    && (forall i :: 0 <= i < |tracked| && LastNamed(tracked, i) ==>
        tracked[i].name in after && Done(after[tracked[i].name]) == rebuild(tracked[i]))
    && (forall n :: n in before && (forall i :: 0 <= i < |tracked| ==> tracked[i].name != n) ==>
        after[n] == before[n])
  }

  lemma RebuiltNext(after: map<string, R.Table>, before: map<string, R.Table>,
                    rebuild: TrackedTable -> Outcome<R.Table>, tracked: seq<TrackedTable>, t: TrackedTable)
    requires RebuiltTo(after, before, rebuild, tracked) && t.name in before && rebuild(t).Done?
    ensures RebuiltTo(after[t.name := rebuild(t).value], before, rebuild, tracked + [t])
  {
    var more := tracked + [t];
    assert forall i :: 0 <= i < |tracked| ==> more[i] == tracked[i];
    assert more[|tracked|] == t;
    assert forall i :: 0 <= i < |tracked| && LastNamed(more, i) ==> LastNamed(tracked, i);
  }

  /** Every segment a manifest names, fetched before anything is touched. */
  method Preload(store: SegmentStore, entries: seq<M.SegmentRef>) returns (r: Outcome<map<Hash, Segment>>)
    ensures r.Done? <==> Loaded(store, entries)
    ensures r.Done? ==> Copies(r.value, store, entries)
  {
    var segments: map<Hash, Segment> := map[];
    for i := 0 to |entries|
      invariant Loaded(store, entries[..i]) && Copies(segments, store, entries[..i])
    {
      if entries[i].segment !in store { return Failed; }
      segments := segments[entries[i].segment := store[entries[i].segment]];
    }
    assert entries[..|entries|] == entries;
    return Done(segments);
  }

  ghost predicate Copies(segments: map<Hash, Segment>, store: SegmentStore, entries: seq<M.SegmentRef>)
    requires Loaded(store, entries)
  {
    forall j :: 0 <= j < |entries| ==>
      entries[j].segment in segments && segments[entries[j].segment] == store[entries[j].segment]
  }

  /** The loop over the tracked tables, inside the transaction. */
  method RebuildAll(tables: map<string, R.Table>, segments: map<Hash, Segment>,
                    store: SegmentStore, entries: seq<M.SegmentRef>, tracked: seq<TrackedTable>)
    returns (r: Outcome<map<string, R.Table>>)
    requires Loaded(store, entries) && Copies(segments, store, entries)
    ensures r.Done? <==> Rebuildable(tables, Rebuilder(store, entries), tracked)
    ensures r.Done? ==> RebuiltTo(r.value, tables, Rebuilder(store, entries), tracked)
  {
    hide Rebuilt, Copies, Loaded, LastNamed, RebuiltTo;
    var working := tables;
    ghost var rebuild := Rebuilder(store, entries);
    assert RebuiltTo(working, tables, rebuild, []) by { NothingRebuilt(tables, rebuild); }
    assert working.Keys == tables.Keys;
    for i := 0 to |tracked|
      invariant working.Keys == tables.Keys
      invariant Rebuildable(tables, rebuild, tracked[..i])
      invariant RebuiltTo(working, tables, rebuild, tracked[..i])
    {
      var t := tracked[i];
      assert tracked[..i + 1] == tracked[..i] + [t];
      if t.name !in working { return Failed; }
      var rebuilt := RebuildTable(segments, store, entries, t);
      if rebuilt.Failed? { return Failed; }
      RebuiltNext(working, tables, rebuild, tracked[..i], t);
      working := working[t.name := rebuilt.value];
    }
    assert tracked[..|tracked|] == tracked;
    return Done(working);
  }

  lemma NothingRebuilt(tables: map<string, R.Table>, rebuild: TrackedTable -> Outcome<R.Table>)
    ensures RebuiltTo(tables, tables, rebuild, [])
  {
  }

  /** No later configuration entry names the same table. */
  ghost predicate LastNamed(tracked: seq<TrackedTable>, i: nat)
    requires i < |tracked|
  {
    forall j :: i < j < |tracked| ==> tracked[j].name != tracked[i].name
  }

  /** The loop over one table's entries, starting from the truncated table. */
  method RebuildTable(segments: map<Hash, Segment>, store: SegmentStore, entries: seq<M.SegmentRef>, t: TrackedTable)
    returns (r: Outcome<R.Table>)
    requires Loaded(store, entries) && Copies(segments, store, entries)
    ensures r == Rebuilt(store, entries, t)
  {
    if !R.ValidIdentifier(t.name) || !R.ValidIdentifier(t.pk) { return Failed; }
    hide R.ReplaySegment, R.ExecAll, R.LogEffects, R.EffectsOf, R.SafeStmt, R.Decode, R.ValidIdentifier;
    hide ReplayAll, ForTable, Loaded, Contents;
    var table: R.Table := map[];
    RebuildStart(store, entries, t);
    for i := 0 to |entries|
      invariant SoFar(store, entries[..i], t) == Done(table)
    {
      RebuildStep(store, entries, i, t, table);
      if entries[i].table == t.name {
        var rows := segments[entries[i].segment].rows;
        var step, _ := R.ApplySegmentRows(table, t.pk, rows);
        if step.Failed? { return Failed; }
        table := step.value;
      }
    }
    assert entries[..|entries|] == entries;
    return Done(table);
  }

  /** Replaying this table's share of the first entries. */
  function SoFar(store: SegmentStore, entries: seq<M.SegmentRef>, t: TrackedTable): Outcome<R.Table> {
    if !Loaded(store, entries) then Failed
    else
      ForTableLoaded(store, entries, t.name);
      ReplayAll(map[], Contents(store, ForTable(entries, t.name)), t.pk)
  }

  lemma RebuildStart(store: SegmentStore, entries: seq<M.SegmentRef>, t: TrackedTable)
    ensures SoFar(store, entries[..0], t) == Done(map[])
  {
  }

  lemma RebuildStep(store: SegmentStore, entries: seq<M.SegmentRef>, i: nat, t: TrackedTable, table: R.Table)
    requires Loaded(store, entries) && i < |entries| && SoFar(store, entries[..i], t) == Done(table)
    ensures entries[i].segment in store
    ensures var next := SoFar(store, entries[..i + 1], t);
            if entries[i].table != t.name then next == Done(table)
            else && next == R.ReplaySegment(table, store[entries[i].segment].rows, t.pk)
                 && (next.Failed? ==> SoFar(store, entries, t).Failed?)
  {
    hide R.ReplaySegment, ReplayAll, ForTable;
    var mine := ForTable(entries, t.name);
    var front := ForTable(entries[..i], t.name);
    assert entries[..i + 1] == entries[..i] + [entries[i]];
    assert entries == entries[..i] + ([entries[i]] + entries[i + 1..]);
    ForTableConcat(entries[..i], [entries[i]], t.name);
    ForTableConcat(entries[..i], [entries[i]] + entries[i + 1..], t.name);
    ForTableConcat([entries[i]], entries[i + 1..], t.name);
    OneForTable(entries[i], t.name);
    ForTableLoaded(store, entries, t.name);
    ForTableLoaded(store, entries[..i], t.name);
    ForTableLoaded(store, entries[..i + 1], t.name);
    if entries[i].table == t.name {
      var all, n := Contents(store, mine), |front|;
      assert all[..n] == Contents(store, front);
      assert all[..n + 1] == Contents(store, front + [entries[i]]);
      ReplayAllNext(all, n, t.pk, table);
    } else {
      assert front + [] == front;
    }
  }

  lemma ReplayAllNext(segs: seq<seq<Json>>, n: nat, pk: string, t: R.Table)
    requires n < |segs| && ReplayAll(map[], segs[..n], pk) == Done(t)
    ensures ReplayAll(map[], segs[..n + 1], pk) == R.ReplaySegment(t, segs[n], pk)
    ensures R.ReplaySegment(t, segs[n], pk).Failed? ==> ReplayAll(map[], segs, pk).Failed?
  {
    hide R.ReplaySegment;
    assert segs[..n + 1][..n] == segs[..n];
    if R.ReplaySegment(t, segs[n], pk).Failed? { ReplayAllFailed(map[], segs, n + 1, pk); }
  }

  lemma {:induction false} ReplayAllFailed(t: R.Table, segs: seq<seq<Json>>, n: nat, pk: string)
    requires n <= |segs| && ReplayAll(t, segs[..n], pk).Failed?
    ensures ReplayAll(t, segs, pk).Failed?
    decreases |segs|
  {
    hide R.ReplaySegment;
    if n == |segs| {
      assert segs[..n] == segs;
    } else {
      var front := segs[..|segs| - 1];
      assert front[..n] == segs[..n];
      ReplayAllFailed(t, front, n, pk);
    }
  }

  // ------------------------------------------------- one table of a manifest

  lemma {:induction false} ForTableConcat(a: seq<M.SegmentRef>, b: seq<M.SegmentRef>, table: string)
    ensures ForTable(a + b, table) == ForTable(a, table) + ForTable(b, table)
  {
    if a == [] {
      assert a + b == b;
    } else {
      assert (a + b)[1..] == a[1..] + b;
      ForTableConcat(a[1..], b, table);
    }
  }

  /** One table's entries in a shared manifest are the manifest that table would
      have had alone. */
  lemma {:induction false} TablesDoNotMix(refs: seq<M.SegmentRef>, table: string)
    ensures ForTable(M.PushAll(refs), table) == M.PushAll(ForTable(refs, table))
  {
    hide M.PushPos;
    if refs != [] {
      var n := |refs| - 1;
      var front, r := refs[..n], refs[n];
      TablesDoNotMix(front, table);
      assert refs == front + [r];
      ForTableConcat(front, [r], table);
      assert ForTable([r], table) == if r.table == table then [r] else [];
      PushedForTable(front, r, table);
      var mine := ForTable(front, table);
      if r.table == table {
        assert (mine + [r])[..|mine|] == mine;
      } else {
        assert mine + [] == mine;
      }
    }
  }

  lemma PushedForTable(front: seq<M.SegmentRef>, r: M.SegmentRef, table: string)
    ensures ForTable(M.Pushed(M.PushAll(front), r), table) ==
            var e := ForTable(M.PushAll(front), table);
            if r.table == table then M.Pushed(e, r) else e
  {
    hide M.PushPos, M.KeyOf, M.Less, M.PushAll, ForTable, M.PushOrder;
    var e := M.PushAll(front);
    var pos := M.PushPos(e, r);
    var a, b := e[..pos], e[pos..];
    ForTableConcat(a + [r], b, table);
    ForTableConcat(a, [r], table);
    ForTableConcat(a, b, table);
    assert e == a + b;
    OneForTable(r, table);
    var fa, fb := ForTable(a, table), ForTable(b, table);
    if r.table == table {
      SamePlace(front, r, table);
      assert M.Pushed(fa + fb, r) == fa + [r] + fb;
    } else {
      assert fa + [] + fb == fa + fb;
    }
  }

  /** The new ref's place among its own table's entries. */
  lemma SamePlace(front: seq<M.SegmentRef>, r: M.SegmentRef, table: string)
    ensures var e := M.PushAll(front);
            var pos := M.PushPos(e, r);
            var fa, fb := ForTable(e[..pos], table), ForTable(e[pos..], table);
            M.PushPos(fa + fb, r) == |fa|
  {
    hide M.PushPos, M.KeyOf, M.Less, M.PushAll, ForTable, M.PushOrder;
    var e := M.PushAll(front);
    var pos := M.PushPos(e, r);
    var a, b := e[..pos], e[pos..];
    var fa, fb := ForTable(a, table), ForTable(b, table);
    forall i | 0 <= i < |fa| ensures M.Less(M.KeyOf(fa[i]), M.KeyOf(r)) {
      ForTableFrom(a, table, fa[i]);
    }
    if fb != [] {
      ForTableFrom(b, table, fb[0]);
      var q :| 0 <= q < |b| && b[q] == fb[0];
      M.PushOrderFacts(front);
      M.NotBelow(front, M.PushOrder(front), e, r, pos, pos + q);
      M.Trichotomy(M.KeyOf(r), M.KeyOf(fb[0]));
    }
    PositionIs(fa + fb, r, |fa|);
  }

  lemma NoneForTable(table: string)
    ensures ForTable([], table) == []
  {
  }

  lemma OneForTable(r: M.SegmentRef, table: string)
    ensures ForTable([r], table) == if r.table == table then [r] else []
  {
    assert [r][1..] == [];
  }

  lemma PositionIs(e: seq<M.SegmentRef>, r: M.SegmentRef, pos: nat)
    requires pos <= |e|
    requires forall i :: 0 <= i < pos ==> M.Less(M.KeyOf(e[i]), M.KeyOf(r))
    requires pos < |e| ==> !M.Less(M.KeyOf(e[pos]), M.KeyOf(r))
    ensures M.PushPos(e, r) == pos
  {
    hide M.PushPos, M.KeyOf, M.Less;
  }

  // ----------------------------------------------------- restore and seal order

  function Picked(segs: seq<seq<Json>>, o: seq<nat>): (r: seq<seq<Json>>)
    requires forall p :: 0 <= p < |o| ==> o[p] < |segs|
    ensures |r| == |o|
  {
    seq(|o|, p requires 0 <= p < |o| => segs[o[p]])
  }

  lemma {:induction false} AlongIsAll(t: R.Table, segs: seq<seq<Json>>, o: seq<nat>, pk: string)
    requires forall p :: 0 <= p < |o| ==> o[p] < |segs|
    ensures O.ReplayAlong(t, segs, o, pk) == ReplayAll(t, Picked(segs, o), pk)
  {
    hide R.ReplaySegment;
    if o != [] {
      var n := |o| - 1;
      assert Picked(segs, o)[..n] == Picked(segs, o[..n]);
      AlongIsAll(t, segs, o[..n], pk);
    }
  }

  lemma SealedIsAll(t: R.Table, segs: seq<seq<Json>>, pk: string)
    ensures O.ReplayAlong(t, segs, O.SealedOrder(|segs|), pk) == ReplayAll(t, segs, pk)
  {
    hide O.ReplayAlong, ReplayAll;
    assert Picked(segs, O.SealedOrder(|segs|)) == segs;
    AlongIsAll(t, segs, O.SealedOrder(|segs|), pk);
  }

  /** Restore replays the pushed refs of a table along `PushOrder`. */
  lemma RebuiltAlongPushOrder(store: SegmentStore, all: seq<M.SegmentRef>, t: TrackedTable)
    requires Loaded(store, M.PushAll(all)) && Loaded(store, ForTable(all, t.name))
    requires R.ValidIdentifier(t.name) && R.ValidIdentifier(t.pk)
    ensures var refs := ForTable(all, t.name);
            && (forall p :: 0 <= p < |refs| ==> M.PushOrder(refs)[p] < |refs|)
            && Rebuilt(store, M.PushAll(all), t) ==
               O.ReplayAlong(map[], Contents(store, refs), M.PushOrder(refs), t.pk)
  {
    hide O.ReplayAlong, ReplayAll, M.PushOrder, M.PushAll, ForTable, M.Less, M.KeyOf;
    var refs := ForTable(all, t.name);
    TablesDoNotMix(all, t.name);
    M.PushOrderFacts(refs);
    var o := M.PushOrder(refs);
    AlongIsAll(map[], Contents(store, refs), o, t.pk);
    assert Loaded(store, M.PushAll(refs));
    assert Picked(Contents(store, refs), o) == Contents(store, M.PushAll(refs));
  }

  // ------------------------------------------------------- bootstrap, then restore

  ghost predicate DistinctRows(rows: seq<R.Row>, pk: string)
    requires B.Keyed(rows, pk)
  {
    forall i, j :: 0 <= i < j < |rows| ==> rows[i][pk] != rows[j][pk]
  }

  /** The table holds exactly these rows. */
  ghost predicate Stores(t: R.Table, rows: seq<R.Row>, pk: string)
    requires B.Keyed(rows, pk)
  {
    && t.Keys == KeysOf(rows, pk)
    && forall i :: 0 <= i < |rows| ==> t[rows[i][pk]] == rows[i]
  }

  function KeysOf(rows: seq<R.Row>, pk: string): set<R.Key>
    requires B.Keyed(rows, pk)
  {
    set i | 0 <= i < |rows| :: rows[i][pk]
  }

  function InsertsOf(rows: seq<R.Row>): (r: seq<R.Entry>)
    ensures |r| == |rows|
  {
    seq(|rows|, i requires 0 <= i < |rows| => R.Entry(R.Insert, rows[i]))
  }

  lemma {:induction false} EnvelopesDecode(rows: seq<R.Row>, pk: string)
    requires B.Keyed(rows, pk)
    ensures R.Decode(B.EnvelopesOf(rows)) == Done(InsertsOf(rows))
  {
    hide R.DecodeOne, R.Inserted;
    if rows != [] {
      var n := |rows| - 1;
      EnvelopesDecode(rows[..n], pk);
      assert B.EnvelopesOf(rows)[..n] == B.EnvelopesOf(rows[..n]);
      assert rows[n] != map[];
      R.EnvelopeDecodes(R.Insert, rows[n]);
      assert InsertsOf(rows) == InsertsOf(rows[..n]) + [R.Entry(R.Insert, rows[n])];
    }
  }

  /** Inserting rows with distinct keys into an empty table stores those rows. */
  lemma {:induction false} InsertsStore(rows: seq<R.Row>, pk: string)
    requires B.Keyed(rows, pk) && DistinctRows(rows, pk)
    ensures var r := R.ReplayEntries(map[], InsertsOf(rows), pk);
            r.Done? ==> Stores(r.value, rows, pk)
  {
    hide R.ReplayEntries, Stores, R.ApplyOne;
    var es := InsertsOf(rows);
    if rows == [] {
      NothingStored(pk);
    } else {
      var n := |rows| - 1;
      var front := rows[..n];
      InsertsStore(front, pk);
      assert es[..n] == InsertsOf(front);
      R.ReplayFails(map[], es, pk);
      if R.ReplayEntries(map[], es[..n], pk).Done? {
        var t := R.ReplayEntries(map[], es[..n], pk).value;
        R.ReplaySnoc(map[], es, pk, n, t);
        assert rows == front + [rows[n]];
        OneMoreStored(t, front, rows[n], pk);
      }
    }
  }

  lemma NothingStored(pk: string)
    ensures R.ReplayEntries(map[], InsertsOf([]), pk) == Done(map[]) && Stores(map[], [], pk)
  {
  }

  lemma OneMoreStored(t: R.Table, rows: seq<R.Row>, row: R.Row, pk: string)
    requires B.Keyed(rows + [row], pk) && DistinctRows(rows + [row], pk)
    requires B.Keyed(rows, pk) && Stores(t, rows, pk)
    ensures var r := R.ApplyOne(t, R.Entry(R.Insert, row), pk);
            r.Done? ==> Stores(r.value, rows + [row], pk)
  {
    hide R.Accepted;
    var all := rows + [row];
    assert all[|rows|] == row;
    assert forall i :: 0 <= i < |rows| ==> all[i] == rows[i] && all[i][pk] != row[pk];
    assert KeysOf(all, pk) == KeysOf(rows, pk) + {row[pk]};
    assert row[pk] !in t;
  }

  /** The keys a bootstrap segment names are those of its slice; no two segments
      of one bootstrap share a key. */
  lemma {:induction false} SlicesDisjoint(segs: seq<Segment>, rows: seq<R.Row>, plan: B.Plan, short: bool)
    requires B.Keyed(rows, plan.pk) && DistinctRows(rows, plan.pk) && B.Partition(segs, rows, plan, short)
    ensures forall m :: 0 <= m < |segs| ==> O.KeysIn(segs[m].rows, plan.pk) <= KeysOf(rows, plan.pk)
    ensures forall m, n :: 0 <= m < n < |segs| ==>
      O.KeysIn(segs[m].rows, plan.pk) !! O.KeysIn(segs[n].rows, plan.pk)
    decreases |segs|
  {
    hide O.KeysIn, B.CutRight, B.EnvelopesOf;
    if segs != [] {
      var last := |segs| - 1;
      var cut := |rows| - segs[last].rowCount;
      SlicesDisjoint(segs[..last], rows[..cut], plan, false);
      SliceKeys(rows[cut..], plan.pk);
      KeysSplit(rows, cut, plan.pk);
      assert forall m :: 0 <= m < last ==> segs[..last][m] == segs[m];
    }
  }

  lemma SliceKeys(slice: seq<R.Row>, pk: string)
    requires B.Keyed(slice, pk)
    ensures O.KeysIn(B.EnvelopesOf(slice), pk) == KeysOf(slice, pk)
  {
    hide R.Decode, B.EnvelopesOf;
    EnvelopesDecode(slice, pk);
    var es := InsertsOf(slice);
    assert O.EntriesOf(B.EnvelopesOf(slice)) == es;
    assert forall i :: 0 <= i < |slice| ==> es[i] in es && es[i].row == slice[i];
  }

  lemma KeysSplit(rows: seq<R.Row>, cut: nat, pk: string)
    requires cut <= |rows| && B.Keyed(rows, pk) && DistinctRows(rows, pk)
    ensures KeysOf(rows, pk) == KeysOf(rows[..cut], pk) + KeysOf(rows[cut..], pk)
    ensures KeysOf(rows[..cut], pk) !! KeysOf(rows[cut..], pk)
  {
    assert rows == rows[..cut] + rows[cut..];
    forall i | 0 <= i < |rows| ensures rows[i][pk] in KeysOf(rows[..cut], pk) + KeysOf(rows[cut..], pk) {
      if i < cut { assert rows[..cut][i] == rows[i]; } else { assert rows[cut..][i - cut] == rows[i]; }
    }
  }

  function RowsOf(segs: seq<Segment>): (r: seq<seq<Json>>)
    ensures |r| == |segs|
  {
    seq(|segs|, i requires 0 <= i < |segs| => segs[i].rows)
  }

  lemma {:induction false} SlicesReplay(segs: seq<Segment>, rows: seq<R.Row>, plan: B.Plan, short: bool, t: R.Table)
    requires B.Keyed(rows, plan.pk) && R.ValidIdentifier(plan.pk) && B.Partition(segs, rows, plan, short)
    ensures ReplayAll(t, RowsOf(segs), plan.pk) == R.ReplayEntries(t, InsertsOf(rows), plan.pk)
    decreases |segs|
  {
    hide R.ReplayEntries, B.CutRight, R.ReplayRows, B.EnvelopesOf, R.Decode, R.ValidIdentifier;
    if segs == [] {
      NothingReplays(t, plan.pk);
    } else {
      var last := |segs| - 1;
      var cut := |rows| - segs[last].rowCount;
      SlicesReplay(segs[..last], rows[..cut], plan, false, t);
      assert RowsOf(segs)[..last] == RowsOf(segs[..last]);
      assert InsertsOf(rows) == InsertsOf(rows[..cut]) + InsertsOf(rows[cut..]);
      R.ReplayConcat(t, InsertsOf(rows[..cut]), InsertsOf(rows[cut..]), plan.pk);
      EnvelopesDecode(rows[cut..], plan.pk);
      var before := ReplayAll(t, RowsOf(segs[..last]), plan.pk);
      if before.Done? { R.InterleavedDecoding(before.value, segs[last].rows, plan.pk); }
    }
  }

  lemma NothingReplays(t: R.Table, pk: string)
    ensures R.ReplayEntries(t, InsertsOf([]), pk) == Done(t)
  {
  }

  ghost predicate Insertable(rows: seq<R.Row>) {
    forall i :: 0 <= i < |rows| ==> |rows[i]| <= R.POSTGRES_MAX_PARAMS && R.ValidColumns(rows[i].Keys)
  }

  lemma InsertableAccepted(rows: seq<R.Row>, pk: string)
    requires B.Keyed(rows, pk)
    ensures Insertable(rows) <==> R.AllAccepted(InsertsOf(rows), pk)
  {
    hide R.ValidColumns;
    var es := InsertsOf(rows);
    assert forall i :: 0 <= i < |rows| ==> es[i].row == rows[i] && !es[i].op.Delete?;
  }

  /** Every bootstrap manifest restores the table it was taken from, also when it
      shares the manifest with other tables, exactly if every row can be inserted
      back: at most 65535 columns, each with a plain name. */
  lemma BootstrapRestoresIff(
      store: SegmentStore, digest: Segment -> Hash, others: seq<M.SegmentRef>, later: seq<M.SegmentRef>,
      segs: seq<Segment>, rows: seq<R.Row>, plan: B.Plan)
    requires B.Keyed(rows, plan.pk) && DistinctRows(rows, plan.pk) && B.Partition(segs, rows, plan, true)
    requires R.ValidIdentifier(plan.table) && R.ValidIdentifier(plan.pk)
    requires ForTable(others, plan.table) == [] && ForTable(later, plan.table) == []
    requires Holds(store, segs, digest)
    requires Loaded(store, M.PushAll(others + RefsOf(segs, digest) + later))
    ensures var r := Rebuilt(store, M.PushAll(others + RefsOf(segs, digest) + later),
                             TrackedTable(plan.table, plan.pk));
            && (r.Done? <==> Insertable(rows))
            && (r.Done? ==> Stores(r.value, rows, plan.pk))
  {
    hide B.Partition, B.Keyed, DistinctRows, Stores, Insertable, R.ValidIdentifier, Holds, RowsOf, Contents;
    hide M.PushAll, M.PushOrder, ForTable, RefsOf, O.ReplayAlong, ReplayAll, R.ReplayEntries, InsertsOf, R.AllAccepted;
    var t := TrackedTable(plan.table, plan.pk);
    var refs := RefsOf(segs, digest);
    OwnTable(segs, rows, plan, digest);
    ForTableConcat(others, refs, plan.table);
    ForTableConcat(others + refs, later, plan.table);
    assert [] + refs + [] == refs;
    var all := others + refs + later;
    assert ForTable(all, plan.table) == refs;
    HeldContents(store, segs, digest);
    RebuiltAlongPushOrder(store, all, t);
    BootstrapOrderHarmless(segs, rows, plan, digest);
    SealedIsAll(map[], RowsOf(segs), plan.pk);
    SlicesReplay(segs, rows, plan, true, map[]);
    InsertsStore(rows, plan.pk);
    InsertableAccepted(rows, plan.pk);
    R.RefusedFails(map[], InsertsOf(rows), plan.pk);
  }

  lemma {:induction false} OwnTable(segs: seq<Segment>, rows: seq<R.Row>, plan: B.Plan, digest: Segment -> Hash)
    requires B.Keyed(rows, plan.pk) && B.Partition(segs, rows, plan, true)
    ensures ForTable(RefsOf(segs, digest), plan.table) == RefsOf(segs, digest)
  {
    SegmentTables(segs, rows, plan, true);
    AllOwn(RefsOf(segs, digest), plan.table);
  }

  lemma {:induction false} SegmentTables(segs: seq<Segment>, rows: seq<R.Row>, plan: B.Plan, short: bool)
    requires B.Keyed(rows, plan.pk) && B.Partition(segs, rows, plan, short)
    ensures forall m :: 0 <= m < |segs| ==> segs[m].table == plan.table
    decreases |segs|
  {
    hide B.CutRight, B.EnvelopesOf;
    if segs != [] {
      var last := |segs| - 1;
      SegmentTables(segs[..last], rows[..|rows| - segs[last].rowCount], plan, false);
      assert forall m :: 0 <= m < last ==> segs[..last][m] == segs[m];
    }
  }

  lemma {:induction false} AllOwn(entries: seq<M.SegmentRef>, table: string)
    requires forall i :: 0 <= i < |entries| ==> entries[i].table == table
    ensures ForTable(entries, table) == entries
  {
    if entries != [] { AllOwn(entries[1..], table); }
  }

  lemma HeldContents(store: SegmentStore, segs: seq<Segment>, digest: Segment -> Hash)
    requires Holds(store, segs, digest)
    ensures Loaded(store, RefsOf(segs, digest)) && Contents(store, RefsOf(segs, digest)) == RowsOf(segs)
  {
  }

  lemma BootstrapOrderHarmless(segs: seq<Segment>, rows: seq<R.Row>, plan: B.Plan, digest: Segment -> Hash)
    requires B.Keyed(rows, plan.pk) && DistinctRows(rows, plan.pk) && B.Partition(segs, rows, plan, true)
    ensures var o := M.PushOrder(RefsOf(segs, digest));
            && (forall p :: 0 <= p < |o| ==> o[p] < |segs|)
            && O.ReplayAlong(map[], RowsOf(segs), o, plan.pk)
               == O.ReplayAlong(map[], RowsOf(segs), O.SealedOrder(|segs|), plan.pk)
  {
    hide O.ReplayAlong, O.KeysIn, M.PushOrder, B.Partition;
    var o, contents := M.PushOrder(RefsOf(segs, digest)), RowsOf(segs);
    O.PushOrderIsPermutation(RefsOf(segs, digest));
    SlicesDisjoint(segs, rows, plan, true);
    forall p, q | 0 <= p < q < |o| ensures O.KeysIn(contents[o[p]], plan.pk) !! O.KeysIn(contents[o[q]], plan.pk) {
      assert o[p] < o[q] || o[q] < o[p];
    }
    O.ConflictOrderSuffices(map[], contents, o, plan.pk);
  }

  // ------------------------------------------ manifest order is not seal order

  function Numbered(id: int, v: string): R.Row { map["id" := Num(I64(id)), "v" := Str(v)] }

  /** Rows 1 to 5, bootstrapped. */
  function Baseline(): (r: seq<R.Row>)
    ensures |r| == 5 && B.Keyed(r, "id")
  {
    seq(5, i => Numbered(i + 1, "old"))
  }

  /** A streamed update of row 1. */
  function Update(): R.Entry { R.Entry(R.Update, Numbered(1, "new")) }

  function BaselineSegment(table: string): Segment {
    B.SegmentOf(Baseline(), B.Plan(table, "id", "1", 0))
  }

  function DeltaSegment(table: string): Segment {
    Segment(table, "1", Num(I64(1)), Num(I64(1)), 1,
            [R.EnvelopeOf(R.Update, Obj(Update().row))])
  }

  lemma {:induction false} FirstTouches(v: Option<R.Row>, es: seq<R.Entry>, k: R.Key, pk: string)
    requires es != [] && R.HasKey(es[0].row, pk) && es[0].row[pk] == k
    requires forall i :: 1 <= i < |es| && R.HasKey(es[i].row, pk) ==> es[i].row[pk] != k
    ensures O.FoldEntries(v, es, k, pk) == O.Touch(v, es[0], pk)
  {
    if |es| > 1 {
      FirstTouches(v, es[..|es| - 1], k, pk);
    } else {
      assert es[..0] == [];
    }
  }

  lemma NumberedFits(id: int, v: string)
    ensures |Numbered(id, v)| == 2 && R.ValidColumns(Numbered(id, v).Keys)
    ensures R.HasKey(Numbered(id, v), "id")
  {
    var row := Numbered(id, v);
    assert row.Keys == {"id", "v"} && |row| == |row.Keys|;
    assert "id"[0] == 'i' && "id"[1] == 'd' && "v"[0] == 'v';
  }

  lemma BaselineReplayable()
    ensures O.EntriesOf(B.EnvelopesOf(Baseline())) == InsertsOf(Baseline())
    ensures O.Replayable(B.EnvelopesOf(Baseline()), "id")
  {
    hide R.Decode, B.EnvelopesOf, Numbered, R.ValidColumns;
    EnvelopesDecode(Baseline(), "id");
    forall i | 0 <= i < 5 ensures |Baseline()[i]| == 2 && R.ValidColumns(Baseline()[i].Keys) {
      NumberedFits(i + 1, "old");
    }
    InsertableAccepted(Baseline(), "id");
  }

  lemma DeltaReplayable(table: string)
    ensures O.EntriesOf(DeltaSegment(table).rows) == [Update()]
    ensures O.Replayable(DeltaSegment(table).rows, "id")
  {
    hide R.ValidColumns, Numbered;
    NumberedFits(1, "new");
    var rows := DeltaSegment(table).rows;
    assert rows[..0] == [];
    R.EnvelopeDecodes(R.Update, Update().row);
    assert rows[..|rows| - 1] == [];
    assert R.Decode([]) == Done([]);
    assert [] + [Update()] == [Update()];
  }

  /** Bootstrap seals rows 1 to 5, the streamer then seals an update of row 1. The
      manifest lists the update first, so restore brings the old row back. */
  lemma UpdateIsLost(table: string, digest: Segment -> Hash, store: SegmentStore)
    requires R.ValidIdentifier(table) && Injective(digest)
    requires Holds(store, [BaselineSegment(table), DeltaSegment(table)], digest)
    ensures var sealed := [BaselineSegment(table), DeltaSegment(table)];
            var restored := Rebuilt(store, M.PushAll(RefsOf(sealed, digest)), TrackedTable(table, "id"));
            var replayed := ReplayAll(map[], RowsOf(sealed), "id");
            var k := Num(I64(1));
            && replayed.Done? && Lookup(replayed.value, k) == Some(Numbered(1, "new"))
            && restored.Done? && Lookup(restored.value, k) == Some(Numbered(1, "old"))
  {
    hide O.Replayable, O.ReplayAlong, O.EntriesOf, ReplayAll, M.PushAll, M.PushOrder, R.ValidIdentifier, Rebuilt, ForTable;
    var sealed := [BaselineSegment(table), DeltaSegment(table)];
    var refs, segs, t := RefsOf(sealed, digest), RowsOf(sealed), TrackedTable(table, "id");
    assert segs == [B.EnvelopesOf(Baseline()), DeltaSegment(table).rows];
    HeldContents(store, sealed, digest);
    AllOwn(refs, table);
    UpdateListedFirst(table, digest);
    PushedLoaded(store, refs);
    PlainNames();
    RebuiltAlongPushOrder(store, refs, t);
    SealedIsAll(map[], segs, "id");
    assert O.SealedOrder(2) == [0, 1];
    ReplayBothWays(table, segs);
  }

  lemma PlainNames()
    ensures R.ValidIdentifier("id")
  {
    assert "id"[0] == 'i' && "id"[1] == 'd';
  }

  lemma PushedLoaded(store: SegmentStore, refs: seq<M.SegmentRef>)
    requires Loaded(store, refs)
    ensures Loaded(store, M.PushAll(refs))
  {
    hide M.PushAll, M.PushOrder, M.KeyOf, M.Less;
    M.PushOrderFacts(refs);
  }

  lemma UpdateListedFirst(table: string, digest: Segment -> Hash)
    ensures M.PushOrder(RefsOf([BaselineSegment(table), DeltaSegment(table)], digest)) == [1, 0]
  {
    hide M.Less;
    var refs := RefsOf([BaselineSegment(table), DeltaSegment(table)], digest);
    M.PushOrderFacts(refs);
    assert M.KeyOf(refs[0]) == M.KeyOf(refs[1]);
    M.Trichotomy(M.KeyOf(refs[0]), M.KeyOf(refs[1]));
    var o := M.PushOrder(refs);
    assert M.Before(refs, o[0], o[1]);
  }

  lemma ReplayBothWays(table: string, segs: seq<seq<Json>>)
    requires segs == [B.EnvelopesOf(Baseline()), DeltaSegment(table).rows]
    ensures var k := Num(I64(1));
            var a, b := O.ReplayAlong(map[], segs, [0, 1], "id"), O.ReplayAlong(map[], segs, [1, 0], "id");
            && a.Done? && Lookup(a.value, k) == Some(Numbered(1, "new"))
            && b.Done? && Lookup(b.value, k) == Some(Numbered(1, "old"))
  {
    hide O.Replayable, O.ReplayAlong, O.EntriesOf, O.FoldEntries;
    var k := Num(I64(1));
    BaselineReplayable();
    DeltaReplayable(table);
    O.AlongDone(map[], segs, [0, 1], "id");
    O.AlongDone(map[], segs, [1, 0], "id");
    O.AlongView(map[], segs, [0, 1], k, "id");
    O.AlongView(map[], segs, [1, 0], k, "id");
    FoldPair(segs, 0, 1, k);
    FoldPair(segs, 1, 0, k);
    var inserts := InsertsOf(Baseline());
    forall v ensures O.FoldEntries(v, inserts, k, "id") == O.Touch(v, inserts[0], "id") {
      FirstTouches(v, inserts, k, "id");
    }
    assert Numbered(1, "old") + (Numbered(1, "new") - {"id"}) == Numbered(1, "new");
    assert Numbered(1, "new") + (Numbered(1, "old") - {"id"}) == Numbered(1, "old");
    forall v ensures O.FoldEntries(v, [Update()], k, "id") == O.Touch(v, Update(), "id") {
      FirstTouches(v, [Update()], k, "id");
    }
  }

  lemma FoldPair(segs: seq<seq<Json>>, i: nat, j: nat, k: R.Key)
    requires i < |segs| && j < |segs|
    ensures O.FoldAlong(None, segs, [i, j], k, "id") ==
            O.FoldEntries(O.FoldEntries(None, O.EntriesOf(segs[i]), k, "id"), O.EntriesOf(segs[j]), k, "id")
  {
    hide O.FoldEntries, O.EntriesOf;
    var o := [i, j];
    assert o[..1] == [i] && [i][..0] == [];
    assert O.FoldAlong(None, segs, [i], k, "id") == O.FoldEntries(None, O.EntriesOf(segs[i]), k, "id");
  }

  // ------------------------------------------------------- the smallest restores

  /** A tracked table the manifest has no segment for comes out empty, if its name and
      its key's are spelled right and every segment named can be loaded. */
  lemma EmptyRebuilt(store: SegmentStore, entries: seq<M.SegmentRef>, t: TrackedTable)
    requires forall i :: 0 <= i < |entries| ==> entries[i].table != t.name
    ensures Rebuilt(store, entries, t) ==
      if R.Spelled(t.name) && R.Spelled(t.pk) && forall i :: 0 <= i < |entries| ==> entries[i].segment in store
      then Done(map[]) else Failed
  {
    hide R.ValidIdentifier, R.Spelled;
    R.SpelledIff(t.name);
    R.SpelledIff(t.pk);
    var mine := ForTable(entries, t.name);
    if mine != [] { ForTableFrom(entries, t.name, mine[0]); }
  }

  /** A table with one segment of one inserted row, next to any others, comes out as
      that row under its key, exactly if all names are spelled right. */
  lemma OneRowRebuilt(store: SegmentStore, entries: seq<M.SegmentRef>, t: TrackedTable, e: M.SegmentRef, row: R.Row)
    requires ForTable(entries, t.name) == [e] && Loaded(store, entries) && e.segment in store
    requires store[e.segment].rows == [R.Inserted(row)] && R.HasKey(row, t.pk) && |row| <= 65535
    ensures Rebuilt(store, entries, t) ==
      if R.Spelled(t.name) && R.Spelled(t.pk) && forall c :: c in row ==> R.Spelled(c)
      then Done(map[row[t.pk] := row]) else Failed
  {
    hide R.ValidIdentifier, R.Spelled, ForTable, R.ReplaySegment;
    R.SpelledIff(t.name);
    R.SpelledIff(t.pk);
    ForTableLoaded(store, entries, t.name);
    var segs := Contents(store, ForTable(entries, t.name));
    assert segs == [[R.Inserted(row)]];
    OneSegment(segs, t.pk);
    R.OneUpsert(map[], R.Insert, row, t.pk);
    var r := R.ReplaySegment(map[], [R.Inserted(row)], t.pk);
    if r.Done? { assert r.value == map[row[t.pk] := row]; }
  }

  lemma OneSegment(segs: seq<seq<Json>>, pk: string)
    requires |segs| == 1
    ensures ReplayAll(map[], segs, pk) == R.ReplaySegment(map[], segs[0], pk)
  {
    hide R.ReplaySegment;
    assert segs[..0] == [];
    assert ReplayAll(map[], [], pk) == Done(map[]);
  }
}
