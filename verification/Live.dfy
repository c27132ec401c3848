/** Bootstrap, stream, snapshot, restore: when the round trip brings back the
    live table. */
module Live {
  import opened Prelude
  import opened Json
  import opened Segments
  import R = Replay
  import M = Manifest
  import O = SealOrder
  import B = Bootstrap
  import Restore
  import S = Streamer

  /** A user write as the row trigger reports it: the row afterwards. */
  function Written(t: R.Table, ev: S.Event, pk: string): R.Table
    requires S.HasKey(ev, pk)
  {
    var k := ev.row.fields[pk];
    if ev.op.Delete? then t - {k} else t[k := ev.row.fields]
  }

  function AllWritten(t: R.Table, evs: seq<S.Event>, pk: string): R.Table
    requires S.Keyed(evs, pk)
  {
    if evs == [] then t else Written(AllWritten(t, evs[..|evs| - 1], pk), evs[|evs| - 1], pk)
  }

  /** Every row has the table's columns, under its own key. */
  ghost predicate Shaped(t: R.Table, cols: set<string>, pk: string) {
    forall k :: k in t ==> t[k].Keys == cols && pk in t[k] && t[k][pk] == k
  }

  ghost predicate EventsShaped(evs: seq<S.Event>, cols: set<string>, pk: string) {
    S.Keyed(evs, pk) && forall i :: 0 <= i < |evs| && !evs[i].op.Delete? ==> evs[i].row.fields.Keys == cols
  }

  ghost predicate Insertable(cols: set<string>) {
    |cols| <= R.POSTGRES_MAX_PARAMS && R.ValidColumns(cols)
  }

  lemma EventDecodes(ev: S.Event, pk: string)
    requires S.HasKey(ev, pk)
    ensures R.DecodeOne(R.EnvelopeOf(ev.op, ev.row)) == Done([R.Entry(ev.op, ev.row.fields)])
  {
    assert pk in ev.row.fields;
    R.EnvelopeDecodes(ev.op, ev.row.fields);
  }

  lemma OneEvent(t: R.Table, ev: S.Event, cols: set<string>, pk: string)
    requires S.HasKey(ev, pk) && Shaped(t, cols, pk) && Insertable(cols)
    requires !ev.op.Delete? ==> ev.row.fields.Keys == cols
    ensures R.ApplyOne(t, R.Entry(ev.op, ev.row.fields), pk) == Done(Written(t, ev, pk))
    ensures Shaped(Written(t, ev, pk), cols, pk)
  {
    hide R.ValidColumns;
    var row := ev.row.fields;
    var k := row[pk];
    if !ev.op.Delete? {
      assert |row| == |row.Keys|;
      if k in t { assert t[k] + (row - {pk}) == row; }
    }
  }

  /** On a table of one shape the replayed log is the live table. */
  lemma {:induction false} EventsReplayLive(t: R.Table, evs: seq<S.Event>, cols: set<string>, pk: string)
    requires EventsShaped(evs, cols, pk) && Shaped(t, cols, pk) && Insertable(cols)
    ensures R.ReplayRows(t, S.Envelopes(evs), pk) == Done(AllWritten(t, evs, pk))
    ensures Shaped(AllWritten(t, evs, pk), cols, pk)
  {
    hide R.ApplyOne, R.DecodeOne, Written, Shaped, Insertable, R.EnvelopeOf, S.HasKey;
    if evs != [] {
      var n := |evs| - 1;
      EventsReplayLive(t, evs[..n], cols, pk);
      assert S.Envelopes(evs)[..n] == S.Envelopes(evs[..n]);
      EventDecodes(evs[n], pk);
      OneEvent(AllWritten(t, evs[..n], pk), evs[n], cols, pk);
    }
  }

  ghost predicate RowsShaped(rows: seq<R.Row>, cols: set<string>) {
    forall i :: 0 <= i < |rows| ==> rows[i].Keys == cols
  }

  /** What the bootstrap captured, replayed, is the table it scanned. */
  lemma BaselineReplays(segs: seq<Segment>, rows: seq<R.Row>, plan: B.Plan, cols: set<string>) returns (t: R.Table)
    requires B.Keyed(rows, plan.pk) && Restore.DistinctRows(rows, plan.pk) && B.Partition(segs, rows, plan, true)
    requires R.ValidIdentifier(plan.pk) && RowsShaped(rows, cols) && Insertable(cols)
    ensures Restore.Stores(t, rows, plan.pk) && Shaped(t, cols, plan.pk)
    ensures R.ReplayRows(map[], S.Flatten(Restore.RowsOf(segs)), plan.pk) == Done(t)
  {
    hide B.Partition, R.ValidIdentifier, R.ReplayEntries, R.ReplayRows, S.Flatten, Restore.ReplayAll, R.ValidColumns;
    var es := Restore.InsertsOf(rows);
    Restore.SlicesReplay(segs, rows, plan, true, map[]);
    S.AllIsFlat(map[], Restore.RowsOf(segs), plan.pk);
    forall i | 0 <= i < |rows| ensures |rows[i]| == |cols| { assert |rows[i]| == |rows[i].Keys|; }
    Restore.InsertableAccepted(rows, plan.pk);
    R.RefusedFails(map[], es, plan.pk);
    Restore.InsertsStore(rows, plan.pk);
    t := R.ReplayEntries(map[], es, plan.pk).value;
    StoredShaped(t, rows, cols, plan.pk);
  }

  lemma StoredShaped(t: R.Table, rows: seq<R.Row>, cols: set<string>, pk: string)
    requires B.Keyed(rows, pk) && Restore.Stores(t, rows, pk) && RowsShaped(rows, cols)
    ensures Shaped(t, cols, pk)
  {
    forall k | k in t ensures t[k].Keys == cols && pk in t[k] && t[k][pk] == k {
      assert k in Restore.KeysOf(rows, pk);
    }
  }

  /** The same rows, replayed in the order the pushed manifest lists the segments:
      bootstrap segments share no key, so their order is free. */
  lemma SeedReplays(store: SegmentStore, segs: seq<Segment>, rows: seq<R.Row>, plan: B.Plan, cols: set<string>,
                    digest: Segment -> Hash) returns (t: R.Table)
    requires B.Keyed(rows, plan.pk) && Restore.DistinctRows(rows, plan.pk) && B.Partition(segs, rows, plan, true)
    requires R.ValidIdentifier(plan.pk) && RowsShaped(rows, cols) && Insertable(cols) && Holds(store, segs, digest)
    ensures Restore.Stores(t, rows, plan.pk) && Shaped(t, cols, plan.pk)
    ensures Restore.Loaded(store, M.PushAll(RefsOf(segs, digest)))
    ensures R.ReplayRows(map[], S.Flatten(Restore.Contents(store, M.PushAll(RefsOf(segs, digest)))), plan.pk) == Done(t)
  {
    hide B.Partition, R.ValidIdentifier, R.ReplayRows, S.Flatten, Restore.ReplayAll, O.ReplayAlong, Insertable, RowsShaped;
    hide M.PushAll, M.PushOrder, M.KeyOf, M.Less, M.Before, Restore.Stores, Shaped, Restore.DistinctRows, B.Keyed;
    t := BaselineReplays(segs, rows, plan, cols);
    var refs, contents := RefsOf(segs, digest), Restore.RowsOf(segs);
    Restore.HeldContents(store, segs, digest);
    Restore.PushedLoaded(store, refs);
    Restore.BootstrapOrderHarmless(segs, rows, plan, digest);
    var o := M.PushOrder(refs);
    M.PushOrderFacts(refs);
    var pushed := Restore.Contents(store, M.PushAll(refs));
    assert pushed == Restore.Picked(contents, o) by { PushedPicked(store, segs, digest, o, M.PushAll(refs)); }
    Restore.AlongIsAll(map[], contents, o, plan.pk);
    Restore.SealedIsAll(map[], contents, plan.pk);
    S.AllIsFlat(map[], contents, plan.pk);
    S.AllIsFlat(map[], pushed, plan.pk);
  }

  lemma PushedPicked(store: SegmentStore, segs: seq<Segment>, digest: Segment -> Hash, o: seq<nat>, e: seq<M.SegmentRef>)
    requires Holds(store, segs, digest) && M.Ordered(RefsOf(segs, digest), o, e) && Restore.Loaded(store, e)
    ensures Restore.Contents(store, e) == Restore.Picked(Restore.RowsOf(segs), o)
  {
    hide M.Before;
    var refs := RefsOf(segs, digest);
    forall p | 0 <= p < |o| ensures Restore.Contents(store, e)[p] == Restore.RowsOf(segs)[o[p]] {
      assert e[p] == refs[o[p]];
    }
  }

  /** Nothing sealed yet: the heads as the streamer spawns them. */
  ghost predicate Spawned(s: S.State) {
    forall t :: t in s.heads ==> s.heads[t].sealed == []
  }

  /** Seeding the bootstrap manifest gives every table its own entries, stored. */
  lemma Seeded(s0: S.State, c: S.Config, all: seq<M.SegmentRef>)
    requires S.Fresh(s0, c) && Spawned(s0) && Restore.Loaded(s0.store, all)
    ensures var s1 := S.Step(s0, S.SeedSealed(M.PushAll(all)), c);
            && S.Fresh(s1, c) && S.Anchored(s1) && s1.store == s0.store
            && forall t :: t in s1.heads ==> S.ListOf(s1, t) == M.PushAll(Restore.ForTable(all, t))
  {
    hide M.PushAll, Restore.ForTable, S.Seeded, Restore.Loaded, Sound;
    var s1 := S.Step(s0, S.SeedSealed(M.PushAll(all)), c);
    Restore.PushedLoaded(s0.store, all);
    forall t | t in s1.heads
      ensures s1.heads[t].active == s0.heads[t].active && s1.heads[t].sealed == M.PushAll(Restore.ForTable(all, t))
      ensures S.OwnRefs(s1.heads[t].sealed, t) && Restore.Loaded(s1.store, s1.heads[t].sealed)
    {
      S.SeededHeads(s0.heads, M.PushAll(all), t);
      Restore.TablesDoNotMix(all, t);
      Restore.ForTableLoaded(s0.store, M.PushAll(all), t);
      var mine := Restore.ForTable(M.PushAll(all), t);
      assert [] + mine == mine;
      forall i | 0 <= i < |mine| ensures mine[i].table == t { Restore.ForTableFrom(M.PushAll(all), t, mine[i]); }
    }
  }

  lemma {:induction false} RunConcat(s: S.State, a: seq<S.Cmd>, b: seq<S.Cmd>, c: S.Config)
    ensures S.Run(s, a + b, c) == S.Run(S.Run(s, a, c), b, c)
    decreases |b|
  {
    hide S.Step;
    if b == [] {
      assert a + b == a;
    } else {
      assert (a + b)[..|a + b| - 1] == a + b[..|b| - 1];
      RunConcat(s, a, b[..|b| - 1], c);
    }
  }

  lemma RunFirst(s: S.State, cmd: S.Cmd, rest: seq<S.Cmd>, schemaVersion: string, puts: nat, c: S.Config)
    ensures S.Run(s, [cmd] + rest, c) == S.Run(S.Step(s, cmd, c), rest, c)
    ensures S.AfterSnapshot(s, [cmd] + rest, schemaVersion, puts, c) ==
            S.AfterSnapshot(S.Step(s, cmd, c), rest, schemaVersion, puts, c)
  {
    hide S.Step;
    assert [cmd][..0] == [];
    assert S.Run(s, [cmd], c) == S.Step(s, cmd, c);
    RunConcat(s, [cmd], rest, c);
    var last := S.TakeSnapshot(schemaVersion, puts);
    assert [cmd] + rest + [last] == [cmd] + (rest + [last]);
    RunConcat(s, [cmd], rest + [last], c);
  }

  /** Spawn the streamer, seed it with the manifest of a bootstrap of all tables,
      stream any events through any pattern of store failures, snapshot and restore:
      a restored table is the live one, provided segments that share a key kept their
      place in the manifest. `PushedManifestAgreesIff` says when they do. */
  lemma RoundTrip(s0: S.State, all: seq<M.SegmentRef>, rest: seq<S.Cmd>, schemaVersion: string, puts: nat, c: S.Config,
                  segs: seq<Segment>, rows: seq<R.Row>, plan: B.Plan, cols: set<string>) returns (t: R.Table)
    requires S.Fresh(s0, c) && Spawned(s0) && Restore.Loaded(s0.store, all) && S.NoSeeds(rest)
    requires plan.table in c.pkFor && c.pkFor[plan.table] == plan.pk
    requires R.ValidIdentifier(plan.table) && R.ValidIdentifier(plan.pk)
    requires B.Keyed(rows, plan.pk) && Restore.DistinctRows(rows, plan.pk) && B.Partition(segs, rows, plan, true)
    requires Holds(s0.store, segs, c.digest) && Restore.ForTable(all, plan.table) == RefsOf(segs, c.digest)
    requires RowsShaped(rows, cols) && Insertable(cols)
    requires EventsShaped(S.Accepted(rest, plan.table, plan.pk), cols, plan.pk)
    requires S.Reply(S.Run(s0, [S.SeedSealed(M.PushAll(all))] + rest, c), schemaVersion, puts, c).Done?
    ensures Restore.Stores(t, rows, plan.pk)
    ensures var cmds := [S.SeedSealed(M.PushAll(all))] + rest;
            var s := S.AfterSnapshot(s0, cmds, schemaVersion, puts, c);
            var manifest := S.Reply(S.Run(s0, cmds, c), schemaVersion, puts, c).value;
            S.OrderKept(s.store, S.ListOf(s, plan.table), plan.pk) ==>
              Restore.Rebuilt(s.store, manifest.entries, Restore.TrackedTable(plan.table, plan.pk)) ==
              Done(AllWritten(t, S.Accepted(rest, plan.table, plan.pk), plan.pk))
  {
    hide S.AfterSnapshot, S.ListOf, S.OrderKept, S.Run, S.Reply, S.Anchored, S.NoSeeds, B.Partition, Restore.Rebuilt;
    hide R.ReplayRows, S.Flatten, S.Accepted, S.Envelopes, AllWritten, R.ValidIdentifier, Restore.Stores, Shaped, S.Step;
    hide EventsShaped, Insertable, RowsShaped, Restore.DistinctRows, B.Keyed, M.PushAll, Restore.ForTable, RefsOf;
    var seed := S.SeedSealed(M.PushAll(all));
    var s1 := S.Step(s0, seed, c);
    Seeded(s0, c, all);
    RunFirst(s0, seed, rest, schemaVersion, puts, c);
    t := SeedReplays(s0.store, segs, rows, plan, cols, c.digest);
    var evs := S.Accepted(rest, plan.table, plan.pk);
    EventsReplayLive(t, evs, cols, plan.pk);
    S.SnapshotRestores(s1, rest, schemaVersion, puts, c, plan.table);
    var base := S.Flatten(Restore.Contents(s1.store, S.ListOf(s1, plan.table)));
    S.RowsConcat(map[], base, S.Envelopes(evs), plan.pk);
  }
}
