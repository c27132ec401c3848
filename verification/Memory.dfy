/** The in-memory memory adapter: snapshots, restore, reverse migrations. */
module Memory {
  import opened Prelude
  import opened Order
  import opened Json
  import opened Objects
  import M = Manifest
  import Segments
  import Repository

  type Tables = map<string, seq<Json>>

  /** `applied` lists forward migrations oldest first. */
  datatype Mem = Mem(schema: string, tables: Tables, applied: seq<string>)

  function NonEmpty(tables: Tables): Tables { map t | t in tables && tables[t] != [] :: tables[t] }

  // -------------------------------------------------------------------- snapshots

  function SegmentFor(m: Mem, t: string): Segments.Segment
    requires t in m.tables
  {
    Segments.Segment(t, m.schema, Null, Null, |m.tables[t]|, m.tables[t])
  }

  function SegmentsOf(m: Mem, names: seq<string>): seq<Segments.Segment>
    requires forall n :: n in names ==> n in m.tables
  {
    if names == [] then []
    else
      var (front, n) := (SegmentsOf(m, names[..|names| - 1]), names[|names| - 1]);
      if m.tables[n] == [] then front else front + [SegmentFor(m, n)]
  }

  /** The address of a segment among all objects. */
  function SegmentAddress(env: Env): Segments.Segment -> Hash { s => env.addr(SegmentObject(s)) }

  function RefsOf(segs: seq<Segments.Segment>, env: Env): seq<M.SegmentRef> { Segments.RefsOf(segs, SegmentAddress(env)) }

  function SnapshotOf(m: Mem, env: Env): Repository.Snapshot {
    var segs := SegmentsOf(m, SortedKeys(m.tables.Keys));
    Repository.Snapshot(segs, m.schema, M.PushAll(RefsOf(segs, env)))
  }

  // ---------------------------------------------------------------------- restore

  function Appended(tables: Tables, t: string, rows: seq<Json>): Tables {
    tables[t := (if t in tables then tables[t] else []) + rows]
  }

  /** Replay a manifest into fresh tables. */
  function TablesOf(store: Store, refs: seq<M.SegmentRef>): Outcome<Tables> {
    if refs == [] then Done(map[])
    else
      var (front, h) := (TablesOf(store, refs[..|refs| - 1]), refs[|refs| - 1].segment);
      if front.Failed? || h !in store || !store[h].SegmentObject? then Failed
      else Done(Appended(front.value, refs[|refs| - 1].table, store[h].segment.rows))
  }

  /** One table's rows: those of every segment listed for it, in turn. */
  function RowsListed(store: Store, refs: seq<M.SegmentRef>, t: string): seq<Json> {
    if refs == [] then []
    else
      var (front, r) := (RowsListed(store, refs[..|refs| - 1], t), refs[|refs| - 1]);
      if r.table == t && r.segment in store && store[r.segment].SegmentObject?
      then front + store[r.segment].segment.rows else front
  }

  /** Any manifest: it reads exactly if all its segments are stored; the tables are the
      ones it names, each with the rows of all its segments in manifest order. */
  lemma {:induction false} TablesInOrder(store: Store, refs: seq<M.SegmentRef>)
    ensures TablesOf(store, refs).Done? <==> AllStored(store, refs)
    ensures TablesOf(store, refs).Done? ==>
      forall t :: (t in TablesOf(store, refs).value <==> exists i :: 0 <= i < |refs| && refs[i].table == t)
               && (t in TablesOf(store, refs).value ==> TablesOf(store, refs).value[t] == RowsListed(store, refs, t))
    ensures TablesOf(store, refs).Done? ==>
      forall t :: t !in TablesOf(store, refs).value ==> RowsListed(store, refs, t) == []
  {
    if refs != [] {
      var n := |refs| - 1;
      TablesInOrder(store, refs[..n]);
      if TablesOf(store, refs).Done? {
        var front := TablesOf(store, refs[..n]).value;
        forall t ensures t in TablesOf(store, refs).value <==> exists i :: 0 <= i < |refs| && refs[i].table == t {
          if t in front {
            var i :| 0 <= i < n && refs[..n][i].table == t;
            assert refs[i].table == t;
          }
          if i :| 0 <= i < |refs| && refs[i].table == t { assert i < n ==> refs[..n][i].table == t; }
        }
      }
    }
  }

  ghost predicate OneRefPerTable(refs: seq<M.SegmentRef>) {
    forall i, j :: 0 <= i < j < |refs| ==> refs[i].table != refs[j].table
  }

  ghost predicate AllStored(store: Store, refs: seq<M.SegmentRef>) {
    forall i :: 0 <= i < |refs| ==> refs[i].segment in store && store[refs[i].segment].SegmentObject?
  }

  /** Each ref's table holds its rows, and there is no other table. */
  ghost predicate Reads(store: Store, refs: seq<M.SegmentRef>, tables: Tables)
    requires AllStored(store, refs)
  {
    && (forall t :: t in tables ==> Names(refs, t))
    && (forall i :: 0 <= i < |refs| ==>
        refs[i].table in tables && tables[refs[i].table] == store[refs[i].segment].segment.rows)
  }

  /** With one ref a table, the order of the refs does not matter. */
  lemma {:induction false} TablesByRef(store: Store, refs: seq<M.SegmentRef>)
    requires OneRefPerTable(refs) && AllStored(store, refs)
    ensures var r := TablesOf(store, refs); r.Done? && Reads(store, refs, r.value)
  {
    if refs != [] {
      var n := |refs| - 1;
      TablesByRef(store, refs[..n]);
      ReadsNext(store, refs, TablesOf(store, refs[..n]).value);
    }
  }

  lemma ReadsNext(store: Store, refs: seq<M.SegmentRef>, front: Tables)
    requires refs != [] && OneRefPerTable(refs) && AllStored(store, refs) && Reads(store, refs[..|refs| - 1], front)
    ensures var r := refs[|refs| - 1]; Reads(store, refs, Appended(front, r.table, store[r.segment].segment.rows))
  {
    var n := |refs| - 1;
    var before := refs[..n];
    assert forall i :: 0 <= i < n ==> before[i] == refs[i];
    assert refs[n].table !in front;
    var rows := store[refs[n].segment].segment.rows;
    assert [] + rows == rows;
    forall t | Names(before, t) || t == refs[n].table ensures Names(refs, t) {
      if Names(before, t) {
        var i :| 0 <= i < n && before[i].table == t;
        assert refs[i].table == t;
      }
    }
  }

  /** One segment for each nonempty table named, in name order. */
  ghost predicate OnePerTable(m: Mem, names: seq<string>, segs: seq<Segments.Segment>) {
    && (forall i :: 0 <= i < |segs| ==> SegmentFits(m, names, segs[i]))
    && (forall n :: n in names && n in m.tables && m.tables[n] != [] ==> HasTable(segs, n))
    && (forall i, j :: 0 <= i < j < |segs| ==> segs[i].table != segs[j].table)
  }

  ghost predicate SegmentFits(m: Mem, names: seq<string>, s: Segments.Segment) {
    s.table in names && s.table in m.tables && m.tables[s.table] != [] && s == SegmentFor(m, s.table)
  }

  ghost predicate HasTable(segs: seq<Segments.Segment>, n: string) {
    exists i :: 0 <= i < |segs| && segs[i].table == n
  }

  lemma {:induction false} SegmentsFacts(m: Mem, names: seq<string>)
    requires Ascending(names) && forall n :: n in names ==> n in m.tables
    ensures OnePerTable(m, names, SegmentsOf(m, names))
  {
    hide StrLess, OnePerTable;
    if names == [] {
      NoSegments(m);
    } else {
      var k := |names| - 1;
      var front, n := names[..k], names[k];
      SegmentsFacts(m, front);
      assert names == front + [n];
      assert n !in front by {
        forall i | 0 <= i < k ensures front[i] != n {
          assert StrLess(names[i], names[k]);
          StrTrichotomy(n, n);
        }
      }
      OneMoreTable(m, front, SegmentsOf(m, front), n);
    }
  }

  lemma NoSegments(m: Mem)
    ensures OnePerTable(m, [], [])
  {
  }

  lemma OneMoreTable(m: Mem, front: seq<string>, fs: seq<Segments.Segment>, n: string)
    requires OnePerTable(m, front, fs) && n in m.tables && n !in front
    ensures OnePerTable(m, front + [n], if m.tables[n] == [] then fs else fs + [SegmentFor(m, n)])
  {
    hide SegmentFor;
    var segs := if m.tables[n] == [] then fs else fs + [SegmentFor(m, n)];
    assert SegmentFor(m, n).table == n by { SegmentTable(m, n); }
    assert forall i :: 0 <= i < |fs| ==> segs[i] == fs[i] && segs[i].table in front;
    forall x | x in front + [n] && x in m.tables && m.tables[x] != [] ensures HasTable(segs, x) {
      if x == n {
        assert segs[|fs|].table == n;
      } else {
        assert HasTable(fs, x);
        var i :| 0 <= i < |fs| && fs[i].table == x;
        assert segs[i].table == x;
      }
    }
  }

  lemma SegmentTable(m: Mem, n: string)
    requires n in m.tables
    ensures SegmentFor(m, n).table == n
  {
  }

  /** Everything a snapshot stores is stored. */
  ghost predicate Persisted(store: Store, snap: Repository.Snapshot, env: Env) {
    forall i :: 0 <= i < |snap.segments| ==>
      var o := SegmentObject(snap.segments[i]); env.addr(o) in store && store[env.addr(o)] == o
  }

  /** The ref names a stored segment that holds its table's rows. */
  ghost predicate RefHolds(store: Store, r: M.SegmentRef, want: Tables) {
    && r.segment in store && store[r.segment].SegmentObject?
    && r.table in want && store[r.segment].segment.rows == want[r.table]
  }

  ghost predicate Names(refs: seq<M.SegmentRef>, t: string) {
    exists i :: 0 <= i < |refs| && refs[i].table == t
  }

  /** One stored ref for each table wanted, and no others. */
  ghost predicate Represents(store: Store, refs: seq<M.SegmentRef>, want: Tables) {
    && OneRefPerTable(refs) && (forall i :: 0 <= i < |refs| ==> RefHolds(store, refs[i], want))
    && forall t :: t in want ==> Names(refs, t)
  }

  lemma FreshRefs(m: Mem, store: Store, env: Env)
    requires Persisted(store, SnapshotOf(m, env), env)
    ensures Represents(store, RefsOf(SegmentsOf(m, SortedKeys(m.tables.Keys)), env), NonEmpty(m.tables))
  {
    hide StrLess, M.PushAll, SegmentsOf, RefHolds;
    var names := SortedKeys(m.tables.Keys);
    var segs := SegmentsOf(m, names);
    var refs := RefsOf(segs, env);
    SegmentsFacts(m, names);
    DistinctRefs(m, names, segs, env);
    forall i | 0 <= i < |refs| ensures RefHolds(store, refs[i], NonEmpty(m.tables)) {
      assert SegmentFits(m, names, segs[i]);
      FitHolds(m, names, segs[i], store, env);
    }
    forall t | t in NonEmpty(m.tables) ensures Names(refs, t) {
      assert HasTable(segs, t);
      var j :| 0 <= j < |segs| && segs[j].table == t;
      assert refs[j].table == t;
    }
  }

  lemma FitHolds(m: Mem, names: seq<string>, s: Segments.Segment, store: Store, env: Env)
    requires SegmentFits(m, names, s)
    requires env.addr(SegmentObject(s)) in store && store[env.addr(SegmentObject(s))] == SegmentObject(s)
    ensures RefHolds(store, Segments.RefOf(s, SegmentAddress(env)), NonEmpty(m.tables))
  {
  }

  lemma DistinctRefs(m: Mem, names: seq<string>, segs: seq<Segments.Segment>, env: Env)
    requires OnePerTable(m, names, segs)
    ensures OneRefPerTable(RefsOf(segs, env))
  {
  }

  lemma PushedRepresents(store: Store, refs: seq<M.SegmentRef>, want: Tables)
    requires Represents(store, refs, want)
    ensures Represents(store, M.PushAll(refs), want)
  {
    hide M.KeyOf, M.Less, M.PushAll, M.PushOrder, M.Before, RefHolds;
    var pushed, o := M.PushAll(refs), M.PushOrder(refs);
    M.PushOrderFacts(refs);
    PushedOnce(refs, o, pushed);
    forall t | t in want ensures Names(pushed, t) {
      var j :| 0 <= j < |refs| && refs[j].table == t;
      assert j in o;
      var p :| 0 <= p < |o| && o[p] == j;
      assert pushed[p].table == t;
    }
  }

  lemma TablesAre(store: Store, refs: seq<M.SegmentRef>, want: Tables)
    requires Represents(store, refs, want)
    ensures TablesOf(store, refs) == Done(want)
  {
    hide TablesOf;
    assert AllStored(store, refs);
    TablesByRef(store, refs);
    var r := TablesOf(store, refs).value;
    forall t ensures (t in r <==> t in want) && (t in r && t in want ==> r[t] == want[t]) {
      if t in r || t in want {
        assert Names(refs, t);
        var i :| 0 <= i < |refs| && refs[i].table == t;
        assert RefHolds(store, refs[i], want);
      }
    }
    assert r == want;
  }

  /** Snapshot, then restore from the stored segments: the same nonempty tables. */
  lemma SnapshotRoundTrip(m: Mem, store: Store, env: Env)
    requires Persisted(store, SnapshotOf(m, env), env)
    ensures TablesOf(store, SnapshotOf(m, env).refs) == Done(NonEmpty(m.tables))
  {
    hide Persisted, Represents, M.PushAll, TablesOf, SegmentsOf;
    var refs := RefsOf(SegmentsOf(m, SortedKeys(m.tables.Keys)), env);
    FreshRefs(m, store, env);
    PushedRepresents(store, refs, NonEmpty(m.tables));
    TablesAre(store, M.PushAll(refs), NonEmpty(m.tables));
  }

  lemma PushedOnce(refs: seq<M.SegmentRef>, o: seq<nat>, pushed: seq<M.SegmentRef>)
    requires M.IsPushOrder(refs, o, pushed) && OneRefPerTable(refs)
    ensures OneRefPerTable(pushed)
  {
    hide M.KeyOf, M.Less;
    forall p, q | 0 <= p < q < |pushed| ensures pushed[p].table != pushed[q].table {
      assert M.Before(refs, o[p], o[q]);
      M.Trichotomy(M.KeyOf(refs[o[p]]), M.KeyOf(refs[o[p]]));
      assert o[p] < o[q] || o[q] < o[p];
    }
  }

  /** The manifest of a snapshot can be read back exactly when the schema version
      is not empty. */
  lemma SnapshotDecodesIff(m: Mem, env: Env)
    ensures M.Decodable(m.schema, SnapshotOf(m, env).refs) <==> m.schema != ""
  {
    hide StrLess, M.PushAll, SegmentsOf, M.KeyOf;
    var names := SortedKeys(m.tables.Keys);
    SegmentsFacts(m, names);
    var segs := SegmentsOf(m, names);
    var refs := RefsOf(segs, env);
    DistinctRefs(m, names, segs, env);
    M.PushedDecodesIff(m.schema, refs);
    forall i, j | 0 <= i < j < |refs| ensures M.KeyOf(refs[i]) != M.KeyOf(refs[j]) {
      assert refs[i].table != refs[j].table;
      DifferentTables(refs[i], refs[j]);
    }
  }

  lemma DifferentTables(a: M.SegmentRef, b: M.SegmentRef)
    requires a.table != b.table
    ensures M.KeyOf(a) != M.KeyOf(b)
  {
  }

  // ------------------------------------------------------------ reverse migrations

  const BASELINE := "0.0.0"

  function Position(s: seq<string>, x: string): (p: Option<nat>)
    ensures p.Some? ==> p.value < |s| && s[p.value] == x && x !in s[..p.value]
    ensures p.None? ==> x !in s
  {
    if s == [] then None
    else if s[0] == x then Some(0)
    else
      match Position(s[1..], x)
      case None => None
      case Some(p) =>
        assert s[..p + 1] == [s[0]] + s[1..][..p];
        Some(p + 1)
  }

  function Backwards(s: seq<string>): (r: seq<string>)
    ensures |r| == |s| && forall i :: 0 <= i < |s| ==> r[i] == s[|s| - 1 - i]
  {
    seq(|s|, i requires 0 <= i < |s| => s[|s| - 1 - i])
  }

  /** Newest first; an unknown target is refused. */
  function MigrationsAfter(m: Mem, target: string): Outcome<seq<string>> {
    if target == BASELINE then Done(Backwards(m.applied))
    else match Position(m.applied, target)
         case Some(p) => Done(Backwards(m.applied[p + 1..]))
         case None => if target == m.schema then Done([]) else Failed
  }

  function VersionOf(applied: seq<string>): string {
    if applied == [] then BASELINE else applied[|applied| - 1]
  }

  predicate PeelsNewest(applied: seq<string>, steps: seq<string>) {
    |steps| <= |applied| && forall i :: 0 <= i < |steps| ==> steps[i] == applied[|applied| - 1 - i]
  }

  function Reversed(m: Mem, steps: seq<string>): Outcome<Mem> {
    if steps == [] then Done(m)
    else if !PeelsNewest(m.applied, steps) then Failed
    else
      var keep := m.applied[..|m.applied| - |steps|];
      Done(m.(applied := keep, schema := VersionOf(keep)))
  }

  /** The live version is what the applied migrations say it is. */
  predicate InStep(m: Mem) { m.schema == VersionOf(m.applied) }

  /** The target is the newest applied migration, so there is nothing to reverse, but
      the live version says something else. */
  predicate Stranded(m: Mem, target: string) {
    && m.schema != target && VersionOf(m.applied) == target
    && (if target == BASELINE then m.applied == [] else target !in m.applied[..|m.applied| - 1])
  }

  /** A target is known exactly if it is the baseline, an applied migration or the
      live version. The steps found for it always apply, touch no table and keep
      version and migrations in step; they reach the target exactly if the adapter
      is not stranded there, and an adapter in step never is. */
  lemma ReverseReachesTarget(m: Mem, target: string)
    ensures MigrationsAfter(m, target).Done? <==> target == BASELINE || target in m.applied || target == m.schema
    ensures MigrationsAfter(m, target).Done? ==>
      var r := Reversed(m, MigrationsAfter(m, target).value);
      && r.Done? && r.value.tables == m.tables
      && (r.value.schema == target <==> !Stranded(m, target))
      && (InStep(m) ==> InStep(r.value) && r.value.schema == target)
  {
    var a := m.applied;
    if target != BASELINE && Position(a, target).Some? {
      var p := Position(a, target).value;
      assert a[..|a| - |Backwards(a[p + 1..])|] == a[..p + 1];
      if p < |a| - 1 { assert a[..|a| - 1][p] == target; }
    }
  }

  class InMemoryAdapter {
    var schemaVersion: string
    var tables: Tables
    var applied: seq<string>

    constructor ()
      ensures View() == Mem(BASELINE, map[], [])
    {
      schemaVersion, tables, applied := BASELINE, map[], [];
    }

    function View(): Mem
      reads this
    {
      Mem(schemaVersion, tables, applied)
    }

    /** Record a forward migration; version and migrations stay in step. */
    method ApplyMigration(name: string)
      modifies this`applied, this`schemaVersion
      ensures View() == Mem(name, old(tables), old(applied) + [name]) && InStep(View())
    {
      applied := applied + [name];
      schemaVersion := name;
    }

    /** Set the live version directly: the one call that can break the step. */
    method SetSchemaVersion(version: string)
      modifies this`schemaVersion
      ensures View() == Mem(version, old(tables), old(applied))
    {
      schemaVersion := version;
    }

    /** Collect the segments in table-name order, skipping empty tables. */
    method Snapshot(env: Env) returns (snap: Repository.Snapshot)
      ensures snap == SnapshotOf(View(), env)
    {
      hide M.PushAll, M.Pushed, SegmentsOf, RefsOf;
      var manifest := new M.SegmentManifest(schemaVersion);
      ghost var m := View();
      var segs: seq<Segments.Segment> := [];
      var names := SortedKeys(tables.Keys);
      NothingYet(m, names, env);
      for i := 0 to |names|
        invariant fresh(manifest) && View() == m && manifest.schemaVersion == schemaVersion
        invariant segs == SegmentsOf(m, names[..i])
        invariant manifest.entries == M.PushAll(RefsOf(segs, env))
      {
        SegmentsNext(m, names, i);
        var t := names[i];
        if tables[t] != [] {
          var s := Segments.Segment(t, schemaVersion, Null, Null, |tables[t]|, tables[t]);
          PushedNext(segs, s, env);
          manifest.Push(M.SegmentRef(t, Null, Null, env.addr(SegmentObject(s)), |tables[t]|));
          segs := segs + [s];
        }
      }
      assert names[..|names|] == names;
      return Repository.Snapshot(segs, schemaVersion, manifest.entries);
    }

    /** All or nothing, and only at the snapshot's own schema version. */
    method RestoreWithGuard(store: Store, schema: string, refs: seq<M.SegmentRef>) returns (ok: bool)
      modifies this`tables
      ensures ok <==> schemaVersion == schema && TablesOf(store, refs).Done?
      ensures ok ==> Done(tables) == TablesOf(store, refs)
      ensures !ok ==> tables == old(tables)
    {
      if schemaVersion != schema { return false; }
      var fresh_tables: Tables := map[];
      for i := 0 to |refs|
        invariant TablesOf(store, refs[..i]) == Done(fresh_tables) && tables == old(tables)
      {
        assert refs[..i + 1][..i] == refs[..i];
        var h := refs[i].segment;
        if h !in store || !store[h].SegmentObject? {
          FailureSpreads(store, refs, i + 1);
          return false;
        }
        fresh_tables := Appended(fresh_tables, refs[i].table, store[h].segment.rows);
      }
      assert refs[..|refs|] == refs;
      tables := fresh_tables;
      return true;
    }

    /** Check every step against the applied list before changing anything. */
    method ApplyReverseMigrations(steps: seq<string>) returns (ok: bool)
      modifies this`applied, this`schemaVersion
      ensures if ok then Done(View()) == Reversed(old(View()), steps)
              else Reversed(old(View()), steps).Failed? && View() == old(View())
    {
      if steps == [] { return true; }
      for i := 0 to |steps|
        invariant View() == old(View()) && i <= |applied|
        invariant forall j :: 0 <= j < i ==> steps[j] == applied[|applied| - 1 - j]
      {
        if i >= |applied| || applied[|applied| - 1 - i] != steps[i] { return false; }
      }
      applied := applied[..|applied| - |steps|];
      schemaVersion := if applied == [] then BASELINE else applied[|applied| - 1];
      return true;
    }
  }

  /** The calls that strand an adapter: record migration 1, then set the version. */
  method StrandByHand() returns (a: InMemoryAdapter)
    ensures fresh(a) && a.View() == Mem("2", map[], ["1"]) && Stranded(a.View(), "1")
  {
    a := new InMemoryAdapter();
    a.ApplyMigration("1");
    a.SetSchemaVersion("2");
    assert ["1"][..0] == [];
  }

  lemma NothingYet(m: Mem, names: seq<string>, env: Env)
    ensures SegmentsOf(m, names[..0]) == [] && M.PushAll(RefsOf([], env)) == []
  {
  }

  lemma SegmentsNext(m: Mem, names: seq<string>, i: nat)
    requires i < |names| && forall n :: n in names ==> n in m.tables
    ensures SegmentsOf(m, names[..i + 1]) ==
            SegmentsOf(m, names[..i]) + if m.tables[names[i]] == [] then [] else [SegmentFor(m, names[i])]
  {
    assert names[..i + 1][..i] == names[..i];
    assert SegmentsOf(m, names[..i]) + [] == SegmentsOf(m, names[..i]);
  }

  lemma PushedNext(segs: seq<Segments.Segment>, s: Segments.Segment, env: Env)
    ensures M.PushAll(RefsOf(segs + [s], env)) == M.Pushed(M.PushAll(RefsOf(segs, env)), Segments.RefOf(s, SegmentAddress(env)))
  {
    hide M.Pushed;
    var refs := RefsOf(segs + [s], env);
    assert refs[..|segs|] == RefsOf(segs, env);
  }

  lemma {:induction false} FailureSpreads(store: Store, refs: seq<M.SegmentRef>, n: nat)
    requires n <= |refs| && TablesOf(store, refs[..n]).Failed?
    ensures TablesOf(store, refs).Failed?
    decreases |refs|
  {
    if n == |refs| {
      assert refs[..n] == refs;
    } else {
      var front := refs[..|refs| - 1];
      assert front[..n] == refs[..n];
      FailureSpreads(store, front, n);
    }
  }
}
