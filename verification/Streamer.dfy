/** The streamer: one task that turns change events into sealed segments and
    answers snapshot requests, whatever the object store lets through. */
module Streamer {
  import opened Prelude
  import opened Order
  import opened Json
  import opened Segments
  import R = Replay
  import M = Manifest
  import O = SealOrder
  import Restore

  datatype Event = Event(table: string, op: R.Op, row: Json, schemaVersion: string)

  /** `puts` is how many object-store writes succeed while the command runs. */
  datatype Cmd =
    | Observe(ev: Event, puts: nat)
    | SeedSealed(refs: seq<M.SegmentRef>)
    | TakeSnapshot(schemaVersion: string, puts: nat)

  datatype Manifest = Manifest(schemaVersion: string, entries: seq<M.SegmentRef>)

  datatype HeadState = HeadState(active: Segment, sealed: seq<M.SegmentRef>)
  datatype State = State(heads: map<string, HeadState>, store: SegmentStore)

  /** Fixed when the streamer is spawned: the key column of each tracked table, the
      seal threshold, and the content address function. */
  datatype Config = Config(pkFor: map<string, string>, threshold: nat, digest: Segment -> Hash)

  function Envelopes(evs: seq<Event>): (r: seq<Json>)
    ensures |r| == |evs|
  {
    seq(|evs|, i requires 0 <= i < |evs| => R.EnvelopeOf(evs[i].op, evs[i].row))
  }

  predicate HasKey(ev: Event, pk: string) {
    ev.row.Obj? && pk in ev.row.fields && ev.row.fields[pk] != Null
  }

  // ------------------------------------------------------------ what a command does

  /** The head after one event; an event without a usable key is dropped, though
      an empty head still takes over its schema version. */
  function Applied(h: HeadState, ev: Event, pk: string): HeadState {
    var empty := h.active.rows == [];
    var a := if empty then h.active.(schemaVersion := ev.schemaVersion) else h.active;
    if !HasKey(ev, pk) then h.(active := a)
    else
      var k := ev.row.fields[pk];
      h.(active := Segment(a.table, a.schemaVersion, if empty then k else a.pkLo, k,
                           |a.rows| + 1, a.rows + [R.EnvelopeOf(ev.op, ev.row)]))
  }

  datatype SealResult = SealResult(head: HeadState, store: SegmentStore, puts: nat, ok: bool)

  function Sealed(h: HeadState, table: string, store: SegmentStore, puts: nat, digest: Segment -> Hash): SealResult {
    if h.active.rows == [] then SealResult(h, store, puts, true)
    else if puts == 0 then SealResult(h, store, 0, false)
    else SealResult(HeadState(BlankSegment(table, h.active.schemaVersion), h.sealed + [RefOf(h.active, digest)]),
                    Put(store, h.active, digest), puts - 1, true)
  }

  function Observed(s: State, ev: Event, puts: nat, c: Config): State {
    if ev.table !in s.heads || ev.table !in c.pkFor then s
    else
      var h := Applied(s.heads[ev.table], ev, c.pkFor[ev.table]);
      if HasKey(ev, c.pkFor[ev.table]) && CanonicalSize(h.active) >= c.threshold then
        var r := Sealed(h, ev.table, s.store, puts, c.digest);
        State(s.heads[ev.table := r.head], r.store)
      else s.(heads := s.heads[ev.table := h])
  }

  function Seeded(heads: map<string, HeadState>, refs: seq<M.SegmentRef>): (r: map<string, HeadState>)
    ensures r.Keys == heads.Keys
  {
    if refs == [] then heads
    else
      var front, r := Seeded(heads, refs[..|refs| - 1]), refs[|refs| - 1];
      if r.table in front then front[r.table := front[r.table].(sealed := front[r.table].sealed + [r])] else front
  }

  datatype SweepResult = SweepResult(state: State, puts: nat, ok: bool)

  /** Seal the named heads in order, stopping at the first failure. */
  function Swept(s: State, names: seq<string>, puts: nat, c: Config): (r: SweepResult)
    requires forall n :: n in names ==> n in s.heads
    ensures r.state.heads.Keys == s.heads.Keys
  {
    if names == [] then SweepResult(s, puts, true)
    else
      var front := Swept(s, names[..|names| - 1], puts, c);
      if !front.ok then front
      else
        var n := names[|names| - 1];
        var r := Sealed(front.state.heads[n], n, front.state.store, front.puts, c.digest);
        SweepResult(State(front.state.heads[n := r.head], r.store), r.puts, r.ok)
  }

  function AllSealed(heads: map<string, HeadState>, names: seq<string>): seq<M.SegmentRef>
    requires forall n :: n in names ==> n in heads
  {
    if names == [] then []
    else AllSealed(heads, names[..|names| - 1]) + heads[names[|names| - 1]].sealed
  }

  function Names(s: State): seq<string> { SortedKeys(s.heads.Keys) }

  function Step(s: State, cmd: Cmd, c: Config): (r: State)
    ensures r.heads.Keys == s.heads.Keys
  {
    match cmd
    case Observe(ev, puts) => Observed(s, ev, puts, c)
    case SeedSealed(refs) => s.(heads := Seeded(s.heads, refs))
    case TakeSnapshot(_, puts) => Swept(s, Names(s), puts, c).state
  }

  /** The answer to a snapshot request. */
  function Reply(s: State, schemaVersion: string, puts: nat, c: Config): Outcome<Manifest> {
    var r := Swept(s, Names(s), puts, c);
    if r.ok then Done(Manifest(schemaVersion, M.PushAll(AllSealed(r.state.heads, Names(s))))) else Failed
  }

  function Run(s: State, cmds: seq<Cmd>, c: Config): (r: State)
    ensures r.heads.Keys == s.heads.Keys
  {
    if cmds == [] then s else Step(Run(s, cmds[..|cmds| - 1], c), cmds[|cmds| - 1], c)
  }

  // ---------------------------------------------------------------- conservation

  /** The events of `table` that carry a usable key, in arrival order. */
  function Accepted(cmds: seq<Cmd>, table: string, pk: string): seq<Event> {
    if cmds == [] then []
    else Accepted(cmds[..|cmds| - 1], table, pk) + AcceptedBy(cmds[|cmds| - 1], table, pk)
  }

  function AcceptedBy(cmd: Cmd, table: string, pk: string): seq<Event> {
    if cmd.Observe? && cmd.ev.table == table && HasKey(cmd.ev, pk) then [cmd.ev] else []
  }

  function Seeds(cmds: seq<Cmd>, table: string): seq<M.SegmentRef> {
    if cmds == [] then []
    else Seeds(cmds[..|cmds| - 1], table) + SeedsBy(cmds[|cmds| - 1], table)
  }

  function SeedsBy(cmd: Cmd, table: string): seq<M.SegmentRef> {
    if cmd.SeedSealed? then Restore.ForTable(cmd.refs, table) else []
  }

  ghost predicate Keyed(evs: seq<Event>, pk: string) {
    forall i :: 0 <= i < |evs| ==> HasKey(evs[i], pk)
  }

  /** The one segment that holds exactly these events: bounds, count, schema
      version of the first event, rows in order. */
  function SegmentOf(evs: seq<Event>, table: string, pk: string): Segment
    requires evs != [] && HasKey(evs[0], pk) && HasKey(evs[|evs| - 1], pk)
  {
    Segment(table, evs[0].schemaVersion, evs[0].row.fields[pk], evs[|evs| - 1].row.fields[pk],
            |evs|, Envelopes(evs))
  }

  ghost predicate Stored(store: SegmentStore, r: M.SegmentRef, s: Segment, digest: Segment -> Hash) {
    r == RefOf(s, digest) && r.segment in store && store[r.segment] == s
  }

  /** Beyond `base`, the sealed list interleaves the seeds, in order, with stored
      segments that cut the events into consecutive slices, in order. */
  ghost predicate Covers(sealed: seq<M.SegmentRef>, base: seq<M.SegmentRef>, seeds: seq<M.SegmentRef>,
                         evs: seq<Event>, store: SegmentStore, table: string, pk: string, digest: Segment -> Hash)
    requires Keyed(evs, pk)
    decreases |sealed|
  {
    if |sealed| <= |base| then sealed == base && seeds == [] && evs == []
    else
      var front, r := sealed[..|sealed| - 1], sealed[|sealed| - 1];
      var n: int := r.rowCount;
      || (&& seeds != [] && r == seeds[|seeds| - 1]
          && Covers(front, base, seeds[..|seeds| - 1], evs, store, table, pk, digest))
      || (&& 1 <= n <= |evs| && Stored(store, r, SegmentOf(evs[|evs| - n..], table, pk), digest)
          && Covers(front, base, seeds, evs[..|evs| - n], store, table, pk, digest))
  }

  /** Nothing is lost, repeated or reordered: sealed segments, then the head. */
  ghost predicate Conserved(h: HeadState, base: seq<M.SegmentRef>, seeds: seq<M.SegmentRef>,
                            evs: seq<Event>, store: SegmentStore, table: string, pk: string, digest: Segment -> Hash) {
    && Keyed(evs, pk) && |h.active.rows| <= |evs|
    && var cut := |evs| - |h.active.rows|;
       && Covers(h.sealed, base, seeds, evs[..cut], store, table, pk, digest)
       && (if cut == |evs| then h.active == BlankSegment(table, h.active.schemaVersion)
           else h.active == SegmentOf(evs[cut..], table, pk))
  }

  lemma {:induction false} CoversLonger(sealed: seq<M.SegmentRef>, base: seq<M.SegmentRef>, seeds: seq<M.SegmentRef>,
      evs: seq<Event>, store: SegmentStore, more: SegmentStore, table: string, pk: string, digest: Segment -> Hash)
    requires Keyed(evs, pk) && Extends(store, more) && Covers(sealed, base, seeds, evs, store, table, pk, digest)
    ensures Covers(sealed, base, seeds, evs, more, table, pk, digest)
    decreases |sealed|
  {
    hide SegmentOf, RefOf;
    if |sealed| > |base| {
      var front, r := sealed[..|sealed| - 1], sealed[|sealed| - 1];
      var n: int := r.rowCount;
      if seeds != [] && r == seeds[|seeds| - 1]
         && Covers(front, base, seeds[..|seeds| - 1], evs, store, table, pk, digest) {
        CoversLonger(front, base, seeds[..|seeds| - 1], evs, store, more, table, pk, digest);
      } else {
        CoversLonger(front, base, seeds, evs[..|evs| - n], store, more, table, pk, digest);
      }
    }
  }

  lemma ConservedLonger(h: HeadState, base: seq<M.SegmentRef>, seeds: seq<M.SegmentRef>,
      evs: seq<Event>, store: SegmentStore, more: SegmentStore, table: string, pk: string, digest: Segment -> Hash)
    requires Extends(store, more) && Conserved(h, base, seeds, evs, store, table, pk, digest)
    ensures Conserved(h, base, seeds, evs, more, table, pk, digest)
  {
    hide Covers, SegmentOf;
    var cut := |evs| - |h.active.rows|;
    CoversLonger(h.sealed, base, seeds, evs[..cut], store, more, table, pk, digest);
  }

  lemma AppliedConserves(h: HeadState, base: seq<M.SegmentRef>, seeds: seq<M.SegmentRef>, evs: seq<Event>,
      store: SegmentStore, table: string, pk: string, digest: Segment -> Hash, ev: Event)
    requires Conserved(h, base, seeds, evs, store, table, pk, digest)
    ensures Conserved(Applied(h, ev, pk), base, seeds, evs + (if HasKey(ev, pk) then [ev] else []),
                      store, table, pk, digest)
  {
    hide Covers;
    if HasKey(ev, pk) {
      var all, cut := evs + [ev], |evs| - |h.active.rows|;
      assert all[..cut] == evs[..cut];
      assert all[cut..] == evs[cut..] + [ev];
      assert Envelopes(all[cut..]) == Envelopes(evs[cut..]) + [R.EnvelopeOf(ev.op, ev.row)];
      if h.active.rows == [] { assert Envelopes([ev]) == [R.EnvelopeOf(ev.op, ev.row)]; }
    } else {
      assert evs + [] == evs;
    }
  }

  lemma SealedConserves(h: HeadState, base: seq<M.SegmentRef>, seeds: seq<M.SegmentRef>, evs: seq<Event>,
      store: SegmentStore, table: string, pk: string, digest: Segment -> Hash, puts: nat)
    requires Injective(digest) && Sound(store, digest)
    requires Conserved(h, base, seeds, evs, store, table, pk, digest)
    ensures var r := Sealed(h, table, store, puts, digest);
            && Conserved(r.head, base, seeds, evs, r.store, table, pk, digest)
            && Sound(r.store, digest) && Extends(store, r.store)
  {
    hide SegmentOf;
    var r := Sealed(h, table, store, puts, digest);
    if h.active.rows != [] && puts > 0 {
      var cut := |evs| - |h.active.rows|;
      PutKeeps(store, h.active, digest);
      CoversLonger(h.sealed, base, seeds, evs[..cut], store, r.store, table, pk, digest);
      CoversMore(h.sealed, base, seeds, evs, cut, r.store, table, pk, digest, h.active);
      assert evs[..|evs|] == evs;
    }
  }

  lemma CoversBase(sealed: seq<M.SegmentRef>, base: seq<M.SegmentRef>, seeds: seq<M.SegmentRef>, evs: seq<Event>,
      store: SegmentStore, table: string, pk: string, digest: Segment -> Hash)
    requires Keyed(evs, pk) && Covers(sealed, base, seeds, evs, store, table, pk, digest)
    ensures |sealed| >= |base|
  {
  }

  lemma CoversMore(sealed: seq<M.SegmentRef>, base: seq<M.SegmentRef>, seeds: seq<M.SegmentRef>, evs: seq<Event>,
      cut: nat, store: SegmentStore, table: string, pk: string, digest: Segment -> Hash, s: Segment)
    requires Keyed(evs, pk) && cut < |evs|
    requires Covers(sealed, base, seeds, evs[..cut], store, table, pk, digest)
    requires s == SegmentOf(evs[cut..], table, pk) && Stored(store, RefOf(s, digest), s, digest)
    ensures Covers(sealed + [RefOf(s, digest)], base, seeds, evs, store, table, pk, digest)
  {
    CoversBase(sealed, base, seeds, evs[..cut], store, table, pk, digest);
    assert (sealed + [RefOf(s, digest)])[..|sealed|] == sealed;
  }

  lemma {:induction false} SeedsConserve(h: HeadState, base: seq<M.SegmentRef>, seeds: seq<M.SegmentRef>, evs: seq<Event>,
      store: SegmentStore, table: string, pk: string, digest: Segment -> Hash, refs: seq<M.SegmentRef>)
    requires Conserved(h, base, seeds, evs, store, table, pk, digest)
    ensures Conserved(h.(sealed := h.sealed + refs), base, seeds + refs, evs, store, table, pk, digest)
  {
    hide SegmentOf, Stored;
    if refs == [] {
      assert h.sealed + [] == h.sealed && seeds + [] == seeds;
    } else {
      var n := |refs| - 1;
      SeedsConserve(h, base, seeds, evs, store, table, pk, digest, refs[..n]);
      var cut := |evs| - |h.active.rows|;
      CoversBase(h.sealed + refs[..n], base, seeds + refs[..n], evs[..cut], store, table, pk, digest);
      assert (h.sealed + refs)[..|h.sealed| + n] == h.sealed + refs[..n];
      assert (seeds + refs)[..|seeds| + n] == seeds + refs[..n];
    }
  }

  lemma {:induction false} SeededHeads(heads: map<string, HeadState>, refs: seq<M.SegmentRef>, table: string)
    requires table in heads
    ensures Seeded(heads, refs)[table] == heads[table].(sealed := heads[table].sealed + Restore.ForTable(refs, table))
  {
    hide Restore.ForTable;
    if refs == [] {
      Restore.NoneForTable(table);
      assert heads[table].sealed + [] == heads[table].sealed;
    } else {
      var n := |refs| - 1;
      SeededHeads(heads, refs[..n], table);
      assert refs == refs[..n] + [refs[n]];
      Restore.ForTableConcat(refs[..n], [refs[n]], table);
      Restore.OneForTable(refs[n], table);
      var mine := Restore.ForTable(refs[..n], table);
      assert heads[table].sealed + mine + [refs[n]] == heads[table].sealed + (mine + [refs[n]]);
      assert mine + [] == mine;
    }
  }

  // ------------------------------------------------------------------ whole runs

  /** The state before the run: empty heads whose sealed lists are given. */
  ghost predicate Fresh(s: State, c: Config) {
    && s.heads.Keys == c.pkFor.Keys && Sound(s.store, c.digest) && Injective(c.digest)
    && forall t :: t in s.heads ==> s.heads[t].active == BlankSegment(t, s.heads[t].active.schemaVersion)
  }

  /** What holds of every tracked table. */
  ghost predicate AllConserved(s: State, s0: State, seeds: map<string, seq<M.SegmentRef>>,
                               evs: map<string, seq<Event>>, c: Config) {
    && s.heads.Keys == s0.heads.Keys == c.pkFor.Keys == seeds.Keys == evs.Keys
    && Sound(s.store, c.digest) && Extends(s0.store, s.store)
    && forall t :: t in s.heads ==>
         Conserved(s.heads[t], s0.heads[t].sealed, seeds[t], evs[t], s.store, t, c.pkFor[t], c.digest)
  }

  ghost function AllSeeds(cmds: seq<Cmd>, c: Config): map<string, seq<M.SegmentRef>> {
    map t | t in c.pkFor :: Seeds(cmds, t)
  }

  ghost function AllAccepted(cmds: seq<Cmd>, c: Config): map<string, seq<Event>> {
    map t | t in c.pkFor :: Accepted(cmds, t, c.pkFor[t])
  }

  /** One head sealed: every table is still conserved. */
  lemma SealOne(s: State, s0: State, seeds: map<string, seq<M.SegmentRef>>, evs: map<string, seq<Event>>,
                c: Config, n: string, puts: nat)
    requires Injective(c.digest) && AllConserved(s, s0, seeds, evs, c) && n in s.heads
    ensures var r := Sealed(s.heads[n], n, s.store, puts, c.digest);
            AllConserved(State(s.heads[n := r.head], r.store), s0, seeds, evs, c)
  {
    hide Sound, Sealed, Conserved;
    var r := Sealed(s.heads[n], n, s.store, puts, c.digest);
    SealedConserves(s.heads[n], s0.heads[n].sealed, seeds[n], evs[n], s.store, n, c.pkFor[n], c.digest, puts);
    forall t | t in s.heads && t != n
      ensures Conserved(s.heads[t], s0.heads[t].sealed, seeds[t], evs[t], r.store, t, c.pkFor[t], c.digest)
    {
      ConservedLonger(s.heads[t], s0.heads[t].sealed, seeds[t], evs[t], s.store, r.store, t, c.pkFor[t], c.digest);
    }
  }

  lemma {:induction false} SweepConserves(s: State, s0: State, seeds: map<string, seq<M.SegmentRef>>,
      evs: map<string, seq<Event>>, c: Config, names: seq<string>, puts: nat)
    requires Injective(c.digest) && AllConserved(s, s0, seeds, evs, c) && forall n :: n in names ==> n in s.heads
    ensures AllConserved(Swept(s, names, puts, c).state, s0, seeds, evs, c)
  {
    hide AllConserved, Sealed;
    if names != [] {
      var n := |names| - 1;
      SweepConserves(s, s0, seeds, evs, c, names[..n], puts);
      var front := Swept(s, names[..n], puts, c);
      SealOne(front.state, s0, seeds, evs, c, names[n], front.puts);
    }
  }

  ghost function MoreSeeds(seeds: map<string, seq<M.SegmentRef>>, cmd: Cmd): map<string, seq<M.SegmentRef>> {
    map t | t in seeds :: seeds[t] + SeedsBy(cmd, t)
  }

  ghost function MoreEvents(evs: map<string, seq<Event>>, cmd: Cmd, c: Config): map<string, seq<Event>>
    requires evs.Keys == c.pkFor.Keys
  {
    map t | t in evs :: evs[t] + AcceptedBy(cmd, t, c.pkFor[t])
  }

  lemma ApplyConserves(s: State, s0: State, seeds: map<string, seq<M.SegmentRef>>, evs: map<string, seq<Event>>,
                       c: Config, cmd: Cmd)
    requires AllConserved(s, s0, seeds, evs, c) && cmd.Observe? && cmd.ev.table in s.heads
    ensures var t := cmd.ev.table;
            AllConserved(s.(heads := s.heads[t := Applied(s.heads[t], cmd.ev, c.pkFor[t])]), s0, seeds,
                         MoreEvents(evs, cmd, c), c)
  {
    hide Conserved, Applied, HasKey, Sound, Extends;
    var t := cmd.ev.table;
    AppliedConserves(s.heads[t], s0.heads[t].sealed, seeds[t], evs[t], s.store, t, c.pkFor[t], c.digest, cmd.ev);
    var evs' := MoreEvents(evs, cmd, c);
    assert forall u :: u in evs && u != t ==> evs'[u] == evs[u] + [] == evs[u];
  }

  lemma ObserveConserves(s: State, s0: State, seeds: map<string, seq<M.SegmentRef>>, evs: map<string, seq<Event>>,
                         c: Config, cmd: Cmd)
    requires Injective(c.digest) && AllConserved(s, s0, seeds, evs, c) && cmd.Observe? && cmd.ev.table in s.heads
    ensures AllConserved(Observed(s, cmd.ev, cmd.puts, c), s0, seeds, MoreEvents(evs, cmd, c), c)
  {
    hide Conserved, Applied, Sealed, CanonicalSize, HasKey;
    var ev, t, pk := cmd.ev, cmd.ev.table, c.pkFor[cmd.ev.table];
    var h := Applied(s.heads[t], ev, pk);
    var applied := s.(heads := s.heads[t := h]);
    var evs' := MoreEvents(evs, cmd, c);
    ApplyConserves(s, s0, seeds, evs, c, cmd);
    hide AllConserved, MoreEvents;
    SealOne(applied, s0, seeds, evs', c, t, cmd.puts);
    var r := Sealed(h, t, s.store, cmd.puts, c.digest);
    assert applied.heads[t := r.head] == s.heads[t := r.head];
  }

  lemma SeedConserves(s: State, s0: State, seeds: map<string, seq<M.SegmentRef>>, evs: map<string, seq<Event>>,
                      c: Config, cmd: Cmd)
    requires AllConserved(s, s0, seeds, evs, c) && cmd.SeedSealed?
    ensures AllConserved(s.(heads := Seeded(s.heads, cmd.refs)), s0, MoreSeeds(seeds, cmd), evs, c)
  {
    hide Conserved, Restore.ForTable;
    var seeds', heads' := MoreSeeds(seeds, cmd), Seeded(s.heads, cmd.refs);
    forall t | t in s.heads
      ensures Conserved(heads'[t], s0.heads[t].sealed, seeds'[t], evs[t], s.store, t, c.pkFor[t], c.digest)
    {
      SeededHeads(s.heads, cmd.refs, t);
      SeedsConserve(s.heads[t], s0.heads[t].sealed, seeds[t], evs[t], s.store, t, c.pkFor[t], c.digest,
                    Restore.ForTable(cmd.refs, t));
    }
  }

  lemma NothingMore(seeds: map<string, seq<M.SegmentRef>>, evs: map<string, seq<Event>>, cmd: Cmd, c: Config)
    requires evs.Keys == c.pkFor.Keys
    ensures !cmd.SeedSealed? ==> MoreSeeds(seeds, cmd) == seeds
    ensures !cmd.Observe? || cmd.ev.table !in c.pkFor ==> MoreEvents(evs, cmd, c) == evs
  {
    hide HasKey, Restore.ForTable;
    assert forall t :: t in seeds ==> seeds[t] + [] == seeds[t];
    assert forall t :: t in evs ==> evs[t] + [] == evs[t];
  }

  lemma StepConserves(s: State, s0: State, seeds: map<string, seq<M.SegmentRef>>, evs: map<string, seq<Event>>,
                      c: Config, cmd: Cmd)
    requires Injective(c.digest) && AllConserved(s, s0, seeds, evs, c)
    ensures AllConserved(Step(s, cmd, c), s0, MoreSeeds(seeds, cmd), MoreEvents(evs, cmd, c), c)
  {
    hide Conserved, HasKey, Swept, Seeded, Applied, Sealed, CanonicalSize, MoreSeeds, MoreEvents;
    NothingMore(seeds, evs, cmd, c);
    match cmd {
      case Observe(ev, puts) => if ev.table in c.pkFor { ObserveConserves(s, s0, seeds, evs, c, cmd); }
      case SeedSealed(refs) => SeedConserves(s, s0, seeds, evs, c, cmd);
      case TakeSnapshot(_, puts) => SweepConserves(s, s0, seeds, evs, c, Names(s), puts);
    }
  }

  lemma HistoryGrows(cmds: seq<Cmd>, c: Config)
    requires cmds != []
    ensures var n := |cmds| - 1;
            && AllSeeds(cmds, c) == MoreSeeds(AllSeeds(cmds[..n], c), cmds[n])
            && AllAccepted(cmds, c) == MoreEvents(AllAccepted(cmds[..n], c), cmds[n], c)
  {
    hide SeedsBy, AcceptedBy;
  }

  /** Over every command sequence, with any pattern of store failures: every
      tracked table's sealed list and head account for its accepted events. */
  lemma {:induction false} RunConserves(s0: State, cmds: seq<Cmd>, c: Config)
    requires Fresh(s0, c)
    ensures AllConserved(Run(s0, cmds, c), s0, AllSeeds(cmds, c), AllAccepted(cmds, c), c)
  {
    if cmds == [] {
      EmptyRun(s0, c);
    } else {
      hide AllConserved, Step, MoreSeeds, MoreEvents, AllSeeds, AllAccepted;
      var n := |cmds| - 1;
      RunConserves(s0, cmds[..n], c);
      HistoryGrows(cmds, c);
      StepConserves(Run(s0, cmds[..n], c), s0, AllSeeds(cmds[..n], c), AllAccepted(cmds[..n], c), c, cmds[n]);
    }
  }

  lemma EmptyRun(s0: State, c: Config)
    requires Fresh(s0, c)
    ensures AllConserved(s0, s0, AllSeeds([], c), AllAccepted([], c), c)
  {
  }

  // ----------------------------------------------------------------- the threshold

  /** The accepted events of `table` that no sealed segment holds yet. */
  function Unsealed(s: State, cmds: seq<Cmd>, table: string, c: Config): seq<Event>
    requires table in s.heads && table in c.pkFor
  {
    var (evs, n) := (Accepted(cmds, table, c.pkFor[table]), |s.heads[table].active.rows|);
    if n <= |evs| then evs[|evs| - n..] else []
  }

  /** What a head holds is what is unsealed, in one segment. */
  lemma HeadIsUnsealed(s0: State, cmds: seq<Cmd>, c: Config, t: string)
    requires Fresh(s0, c) && t in c.pkFor
    ensures t in Run(s0, cmds, c).heads
    ensures var (s, pk) := (Run(s0, cmds, c), c.pkFor[t]);
            var (a, pending) := (s.heads[t].active, Unsealed(s, cmds, t, c));
            && Keyed(pending, pk) && |pending| == |a.rows|
            && a == (if pending == [] then BlankSegment(t, a.schemaVersion) else SegmentOf(pending, t, pk))
  {
    hide CanonicalSize, Covers, Step, Run, SegmentOf, Accepted, Conserved, HasKey, BlankSegment, Fresh;
    RunConserves(s0, cmds, c);
    assert AllAccepted(cmds, c)[t] == Accepted(cmds, t, c.pkFor[t]);
    var s := Run(s0, cmds, c);
    HeadRest(s.heads[t], s0.heads[t].sealed, AllSeeds(cmds, c)[t], Accepted(cmds, t, c.pkFor[t]), s.store, t,
             c.pkFor[t], c.digest);
  }

  lemma HeadRest(h: HeadState, base: seq<M.SegmentRef>, seeds: seq<M.SegmentRef>, evs: seq<Event>, store: SegmentStore,
                 t: string, pk: string, digest: Segment -> Hash)
    requires Conserved(h, base, seeds, evs, store, t, pk, digest)
    ensures |h.active.rows| <= |evs|
    ensures var rest := evs[|evs| - |h.active.rows|..];
            Keyed(rest, pk) &&
            h.active == (if rest == [] then BlankSegment(t, h.active.schemaVersion) else SegmentOf(rest, t, pk))
  {
    hide Covers, SegmentOf, HasKey;
  }

  /** The head after one event with a usable key, and whether it was sealed. */
  lemma OneEventSeals(s: State, pending: seq<Event>, ev: Event, puts: nat, c: Config)
    requires ev.table in s.heads && ev.table in c.pkFor && HasKey(ev, c.pkFor[ev.table]) && Keyed(pending, c.pkFor[ev.table])
    requires var (a, t, pk) := (s.heads[ev.table].active, ev.table, c.pkFor[ev.table]);
             |pending| == |a.rows| && a == (if pending == [] then BlankSegment(t, a.schemaVersion) else SegmentOf(pending, t, pk))
    ensures Keyed(pending + [ev], c.pkFor[ev.table])
    ensures var (h, s') := (s.heads[ev.table], Step(s, Observe(ev, puts), c));
            var (h', g) := (s'.heads[ev.table], SegmentOf(pending + [ev], ev.table, c.pkFor[ev.table]));
            if CanonicalSize(g) >= c.threshold && puts > 0 then
              && h'.sealed == h.sealed + [M.SegmentRef(ev.table, g.pkLo, g.pkHi, c.digest(g), |pending| + 1)]
              && h'.active == BlankSegment(ev.table, g.schemaVersion)
              && s'.store == PutNew(s.store, c.digest(g), g)
            else h' == HeadState(g, h.sealed) && s'.store == s.store
  {
    hide CanonicalSize;
    var evs := pending + [ev];
    assert Envelopes(evs) == Envelopes(pending) + [R.EnvelopeOf(ev.op, ev.row)];
  }

  lemma OtherTables(s: State, ev: Event, puts: nat, c: Config)
    ensures var s' := Step(s, Observe(ev, puts), c);
            && (forall t :: t in s.heads && t != ev.table ==> s'.heads[t] == s.heads[t])
            && (ev.table !in s.heads || ev.table !in c.pkFor ==> s' == s)
  {
    hide CanonicalSize, Applied, Sealed;
  }

  lemma Dropped(s: State, ev: Event, puts: nat, c: Config)
    requires ev.table in s.heads && ev.table in c.pkFor && !HasKey(ev, c.pkFor[ev.table])
    ensures var (s', h) := (Step(s, Observe(ev, puts), c), s.heads[ev.table]);
            && s'.store == s.store && s'.heads[ev.table].sealed == h.sealed
            && s'.heads[ev.table].active ==
               (if h.active.rows == [] then h.active.(schemaVersion := ev.schemaVersion) else h.active)
  {
  }

  /** One event with a usable key, after any run: with the events not sealed yet it
      forms one segment, which is sealed, and its ref listed, exactly if it has reached
      the threshold and the store accepts it. */
  lemma EventSeals(s0: State, cmds: seq<Cmd>, ev: Event, puts: nat, c: Config)
    requires Fresh(s0, c) && ev.table in c.pkFor && HasKey(ev, c.pkFor[ev.table])
    ensures ev.table in Run(s0, cmds, c).heads && Keyed(Unsealed(Run(s0, cmds, c), cmds, ev.table, c) + [ev], c.pkFor[ev.table])
    ensures var (s, s') := (Run(s0, cmds, c), Run(s0, cmds + [Observe(ev, puts)], c));
            var (h, h') := (s.heads[ev.table], s'.heads[ev.table]);
            var g := SegmentOf(Unsealed(s, cmds, ev.table, c) + [ev], ev.table, c.pkFor[ev.table]);
            && (h'.sealed != h.sealed <==> CanonicalSize(g) >= c.threshold && puts > 0)
            && (h'.sealed != h.sealed ==>
                && h'.sealed == h.sealed + [M.SegmentRef(ev.table, g.pkLo, g.pkHi, c.digest(g), g.rowCount)]
                && h'.active == Segment(ev.table, g.schemaVersion, Null, Null, 0, [])
                && s'.store == PutNew(s.store, c.digest(g), g))
            && (h'.sealed == h.sealed ==> h'.active == g && s'.store == s.store)
  {
    hide CanonicalSize, Step, Unsealed, Run;
    HeadIsUnsealed(s0, cmds, c, ev.table);
    var s := Run(s0, cmds, c);
    OneEventSeals(s, Unsealed(s, cmds, ev.table, c), ev, puts, c);
    RunSnoc(s0, cmds, Observe(ev, puts), c);
  }

  /** Blank, or not worth sealing yet. */
  ghost predicate Below(h: HeadState, t: string, c: Config) {
    h.active == BlankSegment(t, h.active.schemaVersion) || CanonicalSize(h.active) < c.threshold
  }

  lemma {:induction false} SweepLeavesBelow(s: State, names: seq<string>, puts: nat, c: Config, t: string)
    requires t in s.heads && Below(s.heads[t], t, c) && forall n :: n in names ==> n in s.heads
    ensures Below(Swept(s, names, puts, c).state.heads[t], t, c)
  {
    hide CanonicalSize;
    if names != [] { SweepLeavesBelow(s, names[..|names| - 1], puts, c, t); }
  }

  lemma StepLeavesBelow(s: State, cmd: Cmd, c: Config, t: string)
    requires t in s.heads && Below(s.heads[t], t, c) && (cmd.Observe? ==> cmd.puts > 0)
    requires t in c.pkFor
    requires s.heads[t].active.rows == [] ==> s.heads[t].active == BlankSegment(t, s.heads[t].active.schemaVersion)
    ensures Below(Step(s, cmd, c).heads[t], t, c)
  {
    hide CanonicalSize, Seeded, Swept;
    match cmd {
      case Observe(ev, puts) =>
      case SeedSealed(refs) => SeededHeads(s.heads, refs, t);
      case TakeSnapshot(_, puts) => SweepLeavesBelow(s, Names(s), puts, c, t);
    }
  }

  /** While every event meets a working store, whatever snapshots fail, no head is ever
      left with rows that have reached the threshold: it is blank, or below. */
  lemma {:induction false} HeadsStayBelow(s0: State, cmds: seq<Cmd>, c: Config, t: string)
    requires Fresh(s0, c) && t in c.pkFor
    requires forall i :: 0 <= i < |cmds| && cmds[i].Observe? ==> cmds[i].puts > 0
    ensures t in Run(s0, cmds, c).heads
    ensures var a := Run(s0, cmds, c).heads[t].active;
            && (a == BlankSegment(t, a.schemaVersion) || CanonicalSize(a) < c.threshold)
            && (CanonicalSize(BlankSegment(t, a.schemaVersion)) < c.threshold ==> CanonicalSize(a) < c.threshold)
  {
    hide CanonicalSize, Step, Unsealed;
    if cmds != [] {
      var n := |cmds| - 1;
      HeadsStayBelow(s0, cmds[..n], c, t);
      HeadIsUnsealed(s0, cmds[..n], c, t);
      StepLeavesBelow(Run(s0, cmds[..n], c), cmds[n], c, t);
    }
  }

  // -------------------------------------------------------------------- snapshots

  ghost predicate Distinct(names: seq<string>) {
    forall i, j :: 0 <= i < j < |names| ==> names[i] != names[j]
  }

  function Pending(heads: map<string, HeadState>, names: seq<string>): nat
    requires forall n :: n in names ==> n in heads
  {
    if names == [] then 0
    else Pending(heads, names[..|names| - 1]) + if heads[names[|names| - 1]].active.rows == [] then 0 else 1
  }

  ghost predicate Idle(heads: map<string, HeadState>, names: seq<string>) {
    forall n :: n in names ==> n in heads && heads[n].active.rows == []
  }

  /** A sweep succeeds exactly when every pending head can be stored; it touches
      no head outside its list, and leaves its own idle. */
  lemma {:induction false} SweepFacts(s: State, names: seq<string>, puts: nat, c: Config)
    requires Distinct(names) && forall n :: n in names ==> n in s.heads
    ensures var r := Swept(s, names, puts, c);
            && (r.ok <==> puts >= Pending(s.heads, names))
            && (r.ok ==> Idle(r.state.heads, names) && r.puts == puts - Pending(s.heads, names))
            && (forall n :: n in s.heads && n !in names ==> r.state.heads[n] == s.heads[n])
  {
    hide CanonicalSize, Put;
    if names != [] {
      var n := |names| - 1;
      var front := names[..n];
      assert names == front + [names[n]];
      assert names[n] !in front;
      SweepFacts(s, front, puts, c);
      var f := Swept(s, front, puts, c);
      assert forall x :: x in s.heads && x !in names ==> x !in front;
      assert forall x :: x in names ==> x in front || x == names[n];
    }
  }

  lemma {:induction false} IdleSweep(s: State, names: seq<string>, puts: nat, c: Config)
    requires Idle(s.heads, names)
    ensures Swept(s, names, puts, c) == SweepResult(s, puts, true)
  {
    if names != [] {
      var n := |names| - 1;
      assert Idle(s.heads, names[..n]);
      IdleSweep(s, names[..n], puts, c);
      assert s.heads[names[n] := s.heads[names[n]]] == s.heads;
    }
  }

  lemma NamesFacts(s: State)
    ensures Distinct(Names(s)) && forall n :: n in Names(s) <==> n in s.heads
  {
    hide StrLess;
    var names := Names(s);
    forall i, j | 0 <= i < j < |names| ensures names[i] != names[j] {
      assert StrLess(names[i], names[j]);
      StrTrichotomy(names[i], names[j]);
    }
  }

  /** A snapshot is refused exactly when some pending head cannot be stored. Two
      snapshots with nothing in between are identical, and the second needs no
      working object store. */
  lemma SnapshotRepeats(s: State, schemaVersion: string, puts: nat, puts': nat, c: Config)
    ensures Reply(s, schemaVersion, puts, c).Done? <==> puts >= Pending(s.heads, Names(s))
    ensures var s' := Step(s, TakeSnapshot(schemaVersion, puts), c);
            Reply(s, schemaVersion, puts, c).Done? ==>
              && Reply(s', schemaVersion, puts', c) == Reply(s, schemaVersion, puts, c)
              && Step(s', TakeSnapshot(schemaVersion, puts'), c) == s'
  {
    hide Swept, Pending, M.PushAll, AllSealed;
    NamesFacts(s);
    SweepFacts(s, Names(s), puts, c);
    var s' := Swept(s, Names(s), puts, c).state;
    if puts >= Pending(s.heads, Names(s)) { IdleSweep(s', Names(s), puts', c); }
  }

  // ----------------------------------------------------- snapshot, then restore

  function Flatten(segs: seq<seq<Json>>): seq<Json> {
    if segs == [] then [] else Flatten(segs[..|segs| - 1]) + segs[|segs| - 1]
  }

  lemma {:induction false} RowsConcat(t: R.Table, a: seq<Json>, b: seq<Json>, pk: string)
    ensures R.ReplayRows(t, a + b, pk) ==
            match R.ReplayRows(t, a, pk)
            case Failed => Failed
            case Done(t') => R.ReplayRows(t', b, pk)
    decreases |b|
  {
    hide R.ApplyOne, R.DecodeOne;
    if b == [] {
      assert a + b == a;
    } else {
      assert (a + b)[..|a + b| - 1] == a + b[..|b| - 1];
      RowsConcat(t, a, b[..|b| - 1], pk);
    }
  }

  lemma {:induction false} AllIsFlat(t: R.Table, segs: seq<seq<Json>>, pk: string)
    requires R.ValidIdentifier(pk)
    ensures Restore.ReplayAll(t, segs, pk) == R.ReplayRows(t, Flatten(segs), pk)
  {
    hide R.ValidIdentifier, R.ReplayRows;
    if segs == [] {
      NoRows(t, pk);
    } else {
      var n := |segs| - 1;
      AllIsFlat(t, segs[..n], pk);
      RowsConcat(t, Flatten(segs[..n]), segs[n], pk);
    }
  }

  lemma NoRows(t: R.Table, pk: string)
    ensures R.ReplayRows(t, [], pk) == Done(t)
  {
  }

  ghost predicate OwnRefs(refs: seq<M.SegmentRef>, table: string) {
    forall i :: 0 <= i < |refs| ==> refs[i].table == table
  }

  /** With no further seeds, the sealed list holds the base's rows and then the
      events' envelopes, in order. */
  lemma {:induction false} CoversContents(sealed: seq<M.SegmentRef>, base: seq<M.SegmentRef>, evs: seq<Event>,
      store: SegmentStore, table: string, pk: string, digest: Segment -> Hash)
    requires Keyed(evs, pk) && Covers(sealed, base, [], evs, store, table, pk, digest)
    requires Restore.Loaded(store, base) && OwnRefs(base, table)
    ensures Restore.Loaded(store, sealed) && OwnRefs(sealed, table)
    ensures Flatten(Restore.Contents(store, sealed)) == Flatten(Restore.Contents(store, base)) + Envelopes(evs)
    decreases |sealed|
  {
    hide Flatten, Stored, SegmentOf, Envelopes, R.EnvelopeOf, HasKey;
    var before := Restore.Contents(store, base);
    if |sealed| > |base| {
      var front, r := sealed[..|sealed| - 1], sealed[|sealed| - 1];
      var cut := |evs| - r.rowCount;
      CoversContents(front, base, evs[..cut], store, table, pk, digest);
      StoredRows(store, r, evs[cut..], table, pk, digest);
      var all := Restore.Contents(store, sealed);
      assert all[..|sealed| - 1] == Restore.Contents(store, front);
      FlattenLast(all);
      EnvelopesSplit(evs, cut);
    } else {
      EnvelopesSplit(evs, 0);
    }
  }

  lemma StoredRows(store: SegmentStore, r: M.SegmentRef, evs: seq<Event>, table: string, pk: string, digest: Segment -> Hash)
    requires evs != [] && HasKey(evs[0], pk) && HasKey(evs[|evs| - 1], pk)
    requires Stored(store, r, SegmentOf(evs, table, pk), digest)
    ensures r.segment in store && store[r.segment].rows == Envelopes(evs) && r.table == table
  {
  }

  lemma EnvelopesSplit(evs: seq<Event>, cut: nat)
    requires cut <= |evs|
    ensures Envelopes(evs) == Envelopes(evs[..cut]) + Envelopes(evs[cut..])
  {
  }

  lemma FlattenLast(segs: seq<seq<Json>>)
    requires segs != []
    ensures Flatten(segs) == Flatten(segs[..|segs| - 1]) + segs[|segs| - 1]
  {
  }

  lemma {:induction false} MineOnly(heads: map<string, HeadState>, names: seq<string>, table: string)
    requires Distinct(names) && forall n :: n in names ==> n in heads && OwnRefs(heads[n].sealed, n)
    ensures Restore.ForTable(AllSealed(heads, names), table) == if table in names then heads[table].sealed else []
  {
    hide Restore.ForTable;
    if names == [] {
      Restore.NoneForTable(table);
    } else {
      var n := |names| - 1;
      MineOnly(heads, names[..n], table);
      Restore.ForTableConcat(AllSealed(heads, names[..n]), heads[names[n]].sealed, table);
      assert names == names[..n] + [names[n]];
      assert names[n] !in names[..n];
      if names[n] == table {
        Restore.AllOwn(heads[table].sealed, table);
      } else {
        NotMine(heads[names[n]].sealed, names[n], table);
      }
    }
  }

  lemma NotMine(refs: seq<M.SegmentRef>, owner: string, table: string)
    requires OwnRefs(refs, owner) && owner != table
    ensures Restore.ForTable(refs, table) == []
  {
    var mine := Restore.ForTable(refs, table);
    if mine != [] {
      Restore.ForTableFrom(refs, table, mine[0]);
    }
  }

  ghost predicate NoSeeds(cmds: seq<Cmd>) {
    forall i :: 0 <= i < |cmds| ==> !cmds[i].SeedSealed?
  }

  lemma {:induction false} NoSeedsNone(cmds: seq<Cmd>, table: string)
    requires NoSeeds(cmds)
    ensures Seeds(cmds, table) == []
  {
    if cmds != [] { NoSeedsNone(cmds[..|cmds| - 1], table); }
  }

  /** Every tracked table starts from its own, stored, refs. */
  ghost predicate Anchored(s0: State) {
    forall t :: t in s0.heads ==> OwnRefs(s0.heads[t].sealed, t) && Restore.Loaded(s0.store, s0.heads[t].sealed)
  }

  lemma SnapshotContents(s0: State, cmds: seq<Cmd>, schemaVersion: string, puts: nat, c: Config, t: string)
    requires Fresh(s0, c) && Anchored(s0) && NoSeeds(cmds) && t in c.pkFor
    requires Reply(Run(s0, cmds, c), schemaVersion, puts, c).Done?
    ensures var s := Run(s0, cmds + [TakeSnapshot(schemaVersion, puts)], c);
            var sealed := s.heads[t].sealed;
            && Restore.Loaded(s.store, sealed) && OwnRefs(sealed, t)
            && Flatten(Restore.Contents(s.store, sealed)) ==
               Flatten(Restore.Contents(s0.store, s0.heads[t].sealed)) + Envelopes(Accepted(cmds, t, c.pkFor[t]))
  {
    hide Covers, Flatten, Step, Sound, Envelopes, Accepted, Reply, AllConserved, Keyed;
    var s := Run(s0, cmds + [TakeSnapshot(schemaVersion, puts)], c);
    var evs, base := Accepted(cmds, t, c.pkFor[t]), s0.heads[t].sealed;
    SnapshotCovers(s0, cmds, schemaVersion, puts, c, t);
    CarriedOver(s0.store, s.store, base);
    CoversContents(s.heads[t].sealed, base, evs, s.store, t, c.pkFor[t], c.digest);
  }

  lemma CarriedOver(store: SegmentStore, more: SegmentStore, refs: seq<M.SegmentRef>)
    requires Extends(store, more) && Restore.Loaded(store, refs)
    ensures Restore.Loaded(more, refs) && Restore.Contents(more, refs) == Restore.Contents(store, refs)
  {
  }

  /** After a successful snapshot the sealed list alone accounts for every event. */
  lemma SnapshotCovers(s0: State, cmds: seq<Cmd>, schemaVersion: string, puts: nat, c: Config, t: string)
    requires Fresh(s0, c) && NoSeeds(cmds) && t in c.pkFor
    requires Reply(Run(s0, cmds, c), schemaVersion, puts, c).Done?
    ensures var s := Run(s0, cmds + [TakeSnapshot(schemaVersion, puts)], c);
            var evs := Accepted(cmds, t, c.pkFor[t]);
            && Extends(s0.store, s.store) && Keyed(evs, c.pkFor[t])
            && Covers(s.heads[t].sealed, s0.heads[t].sealed, [], evs, s.store, t, c.pkFor[t], c.digest)
  {
    hide Conserved, Covers, Step, Sound, Run, Accepted, Seeds, Reply, Keyed, Restore.ForTable, NoSeeds;
    var last := TakeSnapshot(schemaVersion, puts);
    var all := cmds + [last];
    var s := Run(s0, all, c);
    RunConserves(s0, all, c);
    RunSnoc(s0, cmds, last, c);
    SnapshotHistory(cmds, last, t, c.pkFor[t]);
    SweptIdle(Run(s0, cmds, c), schemaVersion, puts, c);
    IdleCovers(s.heads[t], s0.heads[t].sealed, [], Accepted(cmds, t, c.pkFor[t]), s.store, t, c.pkFor[t], c.digest);
  }

  lemma RunSnoc(s0: State, cmds: seq<Cmd>, cmd: Cmd, c: Config)
    ensures Run(s0, cmds + [cmd], c) == Step(Run(s0, cmds, c), cmd, c)
  {
    hide Step;
    assert (cmds + [cmd])[..|cmds|] == cmds;
  }

  lemma SnapshotHistory(cmds: seq<Cmd>, cmd: Cmd, t: string, pk: string)
    requires NoSeeds(cmds) && cmd.TakeSnapshot?
    ensures Seeds(cmds + [cmd], t) == [] && Accepted(cmds + [cmd], t, pk) == Accepted(cmds, t, pk)
  {
    hide HasKey, Restore.ForTable;
    var all := cmds + [cmd];
    assert all[..|cmds|] == cmds;
    NoSeedsNone(all, t);
    assert Accepted(cmds, t, pk) + [] == Accepted(cmds, t, pk);
  }

  lemma IdleCovers(h: HeadState, base: seq<M.SegmentRef>, seeds: seq<M.SegmentRef>, evs: seq<Event>,
      store: SegmentStore, table: string, pk: string, digest: Segment -> Hash)
    requires Conserved(h, base, seeds, evs, store, table, pk, digest) && h.active.rows == []
    ensures Keyed(evs, pk) && Covers(h.sealed, base, seeds, evs, store, table, pk, digest)
  {
    hide Covers, SegmentOf;
    assert evs[..|evs|] == evs;
  }

  lemma SweptIdle(s: State, schemaVersion: string, puts: nat, c: Config)
    requires Reply(s, schemaVersion, puts, c).Done?
    ensures forall t :: t in s.heads ==> Step(s, TakeSnapshot(schemaVersion, puts), c).heads[t].active.rows == []
  {
    hide Swept, Pending, Names;
    NamesFacts(s);
    SweepFacts(s, Names(s), puts, c);
  }

  /** Segments of this list that share a key were pushed in an order the manifest
      keeps. */
  ghost predicate OrderKept(store: SegmentStore, sealed: seq<M.SegmentRef>, pk: string) {
    var o := M.PushOrder(sealed);
    && Restore.Loaded(store, sealed) && (forall p :: 0 <= p < |o| ==> o[p] < |sealed|)
    && O.KeepsConflicts(Restore.Contents(store, sealed), o, pk)
  }

  /** The refs a table's head has sealed. */
  function ListOf(s: State, t: string): seq<M.SegmentRef> {
    if t in s.heads then s.heads[t].sealed else []
  }

  function AfterSnapshot(s0: State, cmds: seq<Cmd>, schemaVersion: string, puts: nat, c: Config): State {
    Run(s0, cmds + [TakeSnapshot(schemaVersion, puts)], c)
  }

  /** Restoring a snapshot replays, along the manifest's order, segments that hold
      the anchored rows and then every accepted event; when segments that share a
      key stand in seal order it replays exactly those rows and events in turn. */
  lemma SnapshotRestores(s0: State, cmds: seq<Cmd>, schemaVersion: string, puts: nat, c: Config, t: string)
    requires Fresh(s0, c) && Anchored(s0) && NoSeeds(cmds) && t in c.pkFor
    requires R.ValidIdentifier(t) && R.ValidIdentifier(c.pkFor[t])
    requires Reply(Run(s0, cmds, c), schemaVersion, puts, c).Done?
    ensures Restore.Loaded(s0.store, ListOf(s0, t))
    ensures var s := AfterSnapshot(s0, cmds, schemaVersion, puts, c);
            var manifest := Reply(Run(s0, cmds, c), schemaVersion, puts, c).value;
            var history := Flatten(Restore.Contents(s0.store, ListOf(s0, t))) + Envelopes(Accepted(cmds, t, c.pkFor[t]));
            && Restore.Loaded(s.store, ListOf(s, t))
            && (OrderKept(s.store, ListOf(s, t), c.pkFor[t]) ==>
                Restore.Rebuilt(s.store, manifest.entries, Restore.TrackedTable(t, c.pkFor[t])) ==
                R.ReplayRows(map[], history, c.pkFor[t]))
  {
    assert Restore.Loaded(s0.store, ListOf(s0, t));
    hide Run, Fresh, Reply, Flatten, Restore.Rebuilt, R.ReplayRows, Envelopes, Accepted, O.KeepsConflicts, M.PushOrder;
    hide R.ValidIdentifier, Anchored, NoSeeds, OwnRefs, AllSealed, Names, M.PushAll, Restore.ForTable;
    var s := Run(s0, cmds + [TakeSnapshot(schemaVersion, puts)], c);
    SnapshotContents(s0, cmds, schemaVersion, puts, c, t);
    SnapshotLoaded(s0, cmds, schemaVersion, puts, c, t);
    var refs := AllSealed(s.heads, Names(Run(s0, cmds, c)));
    assert Reply(Run(s0, cmds, c), schemaVersion, puts, c).value.entries == M.PushAll(refs) by {
      SnapshotEntries(s0, cmds, schemaVersion, puts, c);
    }
    ManifestRestores(s.store, refs, t, c.pkFor[t]);
  }

  lemma SnapshotEntries(s0: State, cmds: seq<Cmd>, schemaVersion: string, puts: nat, c: Config)
    requires Reply(Run(s0, cmds, c), schemaVersion, puts, c).Done?
    ensures var s := Run(s0, cmds + [TakeSnapshot(schemaVersion, puts)], c);
            var names := Names(Run(s0, cmds, c));
            && (forall n :: n in names ==> n in s.heads)
            && Reply(Run(s0, cmds, c), schemaVersion, puts, c).value.entries == M.PushAll(AllSealed(s.heads, names))
  {
    hide Run, Swept, M.PushAll, AllSealed;
    RunSnoc(s0, cmds, TakeSnapshot(schemaVersion, puts), c);
    NamesFacts(Run(s0, cmds, c));
  }

  lemma ManifestRestores(store: SegmentStore, refs: seq<M.SegmentRef>, t: string, pk: string)
    requires R.ValidIdentifier(t) && R.ValidIdentifier(pk)
    requires Restore.Loaded(store, M.PushAll(refs)) && Restore.Loaded(store, Restore.ForTable(refs, t))
    ensures var sealed := Restore.ForTable(refs, t);
            var contents := Restore.Contents(store, sealed);
            && (forall p :: 0 <= p < |sealed| ==> M.PushOrder(sealed)[p] < |sealed|)
            && (O.KeepsConflicts(contents, M.PushOrder(sealed), pk) ==>
                Restore.Rebuilt(store, M.PushAll(refs), Restore.TrackedTable(t, pk)) ==
                R.ReplayRows(map[], Flatten(contents), pk))
  {
    hide O.KeepsConflicts, O.ReplayAlong, Flatten, M.PushAll, M.PushOrder, R.ValidIdentifier, Restore.Rebuilt;
    hide Restore.ForTable, R.ReplayRows, Restore.ReplayAll, Restore.Loaded;
    var sealed := Restore.ForTable(refs, t);
    var contents := Restore.Contents(store, sealed);
    Restore.RebuiltAlongPushOrder(store, refs, Restore.TrackedTable(t, pk));
    O.PushOrderIsPermutation(sealed);
    if O.KeepsConflicts(contents, M.PushOrder(sealed), pk) {
      O.ConflictOrderSuffices(map[], contents, M.PushOrder(sealed), pk);
      Restore.SealedIsAll(map[], contents, pk);
      AllIsFlat(map[], contents, pk);
    }
  }

  /** Every ref of a snapshot's manifest names a stored segment. */
  lemma SnapshotStored(s0: State, cmds: seq<Cmd>, schemaVersion: string, puts: nat, c: Config)
    requires Fresh(s0, c) && Anchored(s0) && NoSeeds(cmds)
    requires Reply(Run(s0, cmds, c), schemaVersion, puts, c).Done?
    ensures var s := Run(s0, cmds + [TakeSnapshot(schemaVersion, puts)], c);
            var names := Names(Run(s0, cmds, c));
            && (forall n :: n in names ==> n in s.heads && OwnRefs(s.heads[n].sealed, n))
            && Restore.Loaded(s.store, M.PushAll(AllSealed(s.heads, names)))
  {
    hide M.PushAll, AllSealed, Names, Step, Reply, Flatten, OwnRefs, Anchored;
    var s := Run(s0, cmds + [TakeSnapshot(schemaVersion, puts)], c);
    var s1 := Run(s0, cmds, c);
    var names := Names(s1);
    NamesFacts(s1);
    forall n | n in names ensures OwnRefs(s.heads[n].sealed, n) && Restore.Loaded(s.store, s.heads[n].sealed) {
      SnapshotContents(s0, cmds, schemaVersion, puts, c, n);
    }
    AllLoaded(s.store, s.heads, names);
    Restore.PushedLoaded(s.store, AllSealed(s.heads, names));
  }

  lemma SnapshotLoaded(s0: State, cmds: seq<Cmd>, schemaVersion: string, puts: nat, c: Config, t: string)
    requires Fresh(s0, c) && Anchored(s0) && NoSeeds(cmds) && t in c.pkFor
    requires Reply(Run(s0, cmds, c), schemaVersion, puts, c).Done?
    ensures var s := Run(s0, cmds + [TakeSnapshot(schemaVersion, puts)], c);
            var names := Names(Run(s0, cmds, c));
            && (forall n :: n in names ==> n in s.heads)
            && Restore.Loaded(s.store, M.PushAll(AllSealed(s.heads, names)))
            && Restore.ForTable(AllSealed(s.heads, names), t) == s.heads[t].sealed
  {
    hide M.PushAll, Restore.ForTable, AllSealed, Names, Step, Reply, Flatten, OwnRefs, Anchored;
    var names := Names(Run(s0, cmds, c));
    NamesFacts(Run(s0, cmds, c));
    SnapshotStored(s0, cmds, schemaVersion, puts, c);
    MineOnly(Run(s0, cmds + [TakeSnapshot(schemaVersion, puts)], c).heads, names, t);
  }

  lemma {:induction false} AllLoaded(store: SegmentStore, heads: map<string, HeadState>, names: seq<string>)
    requires forall n :: n in names ==> n in heads && Restore.Loaded(store, heads[n].sealed)
    ensures Restore.Loaded(store, AllSealed(heads, names))
  {
    if names != [] { AllLoaded(store, heads, names[..|names| - 1]); }
  }

  // ------------------------------------------------------------------ in place

  /** The raw object store as the streamer sees it: writes may stop succeeding. */
  class ObjectStore {
    var objects: SegmentStore
    var puts: nat

    constructor (os: SegmentStore)
      ensures objects == os && puts == 0
    {
      objects, puts := os, 0;
    }

    method PutRaw(s: Segment, digest: Segment -> Hash) returns (h: Option<Hash>)
      modifies this
      ensures if old(puts) == 0 then h == None && objects == old(objects) && puts == 0
              else h == Some(digest(s)) && objects == Put(old(objects), s, digest) && puts == old(puts) - 1
    {
      if puts == 0 { return None; }
      puts := puts - 1;
      if digest(s) !in objects { objects := objects[digest(s) := s]; }
      return Some(digest(s));
    }
  }

  class TableHead {
    const table: string
    const threshold: nat
    var active: Segment
    var sealed: seq<M.SegmentRef>

    constructor (t: string, schemaVersion: string, limit: nat)
      ensures table == t && threshold == limit && View() == HeadState(BlankSegment(t, schemaVersion), [])
    {
      table, threshold := t, limit;
      active, sealed := BlankSegment(t, schemaVersion), [];
    }

    function View(): HeadState
      reads this
    {
      HeadState(active, sealed)
    }

    method Apply(ev: Event, pk: string) returns (ok: bool)
      modifies this`active
      ensures View() == Applied(old(View()), ev, pk) && (ok <==> HasKey(ev, pk))
    {
      if active.schemaVersion != ev.schemaVersion && active.rows == [] {
        active := active.(schemaVersion := ev.schemaVersion);
      }
      var key := Field(ev.row, pk);
      if key == None || key.value == Null { return false; }
      if active.rows == [] {
        active := active.(pkLo := key.value);
      }
      active := active.(pkHi := key.value);
      active := active.(rows := active.rows + [R.EnvelopeOf(ev.op, ev.row)]);
      active := active.(rowCount := |active.rows|);
      return true;
    }

    method SealIfNonempty(store: ObjectStore, digest: Segment -> Hash) returns (ok: bool)
      modifies this, store
      ensures var r := Sealed(old(View()), table, old(store.objects), old(store.puts), digest);
              r == SealResult(View(), store.objects, store.puts, ok)
    {
      if active.rows == [] { return true; }
      var h := store.PutRaw(active, digest);
      if h == None { return false; }
      sealed := sealed + [M.SegmentRef(active.table, active.pkLo, active.pkHi, h.value, active.rowCount)];
      active := BlankSegment(table, active.schemaVersion);
      return true;
    }

    method MaybeSealOnThreshold(store: ObjectStore, digest: Segment -> Hash)
      modifies this, store
      ensures var r := if CanonicalSize(old(active)) >= threshold
                       then Sealed(old(View()), table, old(store.objects), old(store.puts), digest)
                       else SealResult(old(View()), old(store.objects), old(store.puts), true);
              r.head == View() && r.store == store.objects && r.puts == store.puts
    {
      if CanonicalSize(active) >= threshold { var _ := SealIfNonempty(store, digest); }
    }
  }

  class StreamerTask {
    const heads: map<string, TableHead>
    const config: Config
    const store: ObjectStore

    ghost predicate Valid()
      reads heads.Values
    {
      && heads.Keys == config.pkFor.Keys
      && (forall n :: n in heads ==> heads[n].table == n && heads[n].threshold == config.threshold)
      && (forall m, n :: m in heads && n in heads && m != n ==> heads[m] != heads[n])
    }

    function View(): State
      reads heads.Values, store
    {
      State(map n | n in heads :: heads[n].View(), store.objects)
    }

    constructor (hs: map<string, TableHead>, c: Config, os: ObjectStore)
      ensures heads == hs && config == c && store == os
    {
      heads, config, store := hs, c, os;
    }

    /** One turn of the command loop. */
    method Handle(cmd: Cmd) returns (reply: Option<Outcome<Manifest>>)
      requires Valid()
      modifies heads.Values, store
      ensures Valid() && View() == Step(old(View()), cmd, config)
      ensures reply == match cmd
                       case TakeSnapshot(sv, puts) => Some(Reply(old(View()), sv, puts, config))
                       case _ => None
    {
      match cmd {
        case Observe(ev, puts) =>
          OnEvent(ev, puts);
          return None;
        case SeedSealed(refs) =>
          OnSeeds(refs);
          return None;
        case TakeSnapshot(sv, puts) =>
          var r := OnSnapshot(sv, puts);
          return Some(r);
      }
    }

    method OnEvent(ev: Event, puts: nat)
      requires Valid()
      modifies heads.Values, store
      ensures Valid() && View() == Observed(old(View()), ev, puts, config)
    {
      hide CanonicalSize, Sealed, Applied, HasKey;
      if ev.table !in heads { return; }
      if ev.table !in config.pkFor { return; }
      store.puts := puts;
      var head := heads[ev.table];
      var ok := head.Apply(ev, config.pkFor[ev.table]);
      if !ok { return; }
      head.MaybeSealOnThreshold(store, config.digest);
    }

    method OnSeeds(refs: seq<M.SegmentRef>)
      requires Valid()
      modifies heads.Values
      ensures Valid() && View() == old(View()).(heads := Seeded(old(View()).heads, refs))
    {
      for i := 0 to |refs|
        invariant Valid() && store.objects == old(store.objects)
        invariant View().heads == Seeded(old(View()).heads, refs[..i])
      {
        assert refs[..i + 1][..i] == refs[..i];
        if refs[i].table in heads {
          var head := heads[refs[i].table];
          head.sealed := head.sealed + [refs[i]];
        }
      }
      assert refs[..|refs|] == refs;
    }

    method OnSnapshot(sv: string, puts: nat) returns (reply: Outcome<Manifest>)
      requires Valid()
      modifies heads.Values, store
      ensures Valid() && View() == Step(old(View()), TakeSnapshot(sv, puts), config)
      ensures reply == Reply(old(View()), sv, puts, config)
    {
      hide Swept, AllSealed, M.PushAll, Names, Step, Reply;
      store.puts := puts;
      ghost var s := View();
      assert s == old(View());
      SnapshotMeans(s, sv, puts, config);
      var names := SortedKeys(heads.Keys);
      assert names == Names(s) by { NamesAre(s, heads.Keys); }
      var ok := SealHeads(names);
      if !ok { return Failed; }
      var entries := GatherRefs(sv, names);
      return Done(Manifest(sv, entries));
    }

    method SealHeads(names: seq<string>) returns (ok: bool)
      requires Valid() && forall n :: n in names ==> n in heads
      modifies heads.Values, store
      ensures Valid() && Swept(old(View()), names, old(store.puts), config) == SweepResult(View(), store.puts, ok)
    {
      hide CanonicalSize, Sealed, Swept;
      ghost var s, puts := View(), store.puts;
      assert Swept(s, names[..0], puts, config) == SweepResult(View(), store.puts, true) by { SweepStart(s, names, puts, config); }
      for i := 0 to |names|
        invariant Valid()
        invariant Swept(s, names[..i], puts, config) == SweepResult(View(), store.puts, true)
      {
        ghost var before := View();
        SweepNext(s, names, i, puts, config);
        ok := heads[names[i]].SealIfNonempty(store, config.digest);
        assert View().heads == before.heads[names[i] := heads[names[i]].View()];
        assert Swept(s, names[..i + 1], puts, config) == SweepResult(View(), store.puts, ok);
        if !ok {
          SweepStops(s, names, i + 1, puts, config);
          return false;
        }
      }
      assert names[..|names|] == names;
      return true;
    }

    method GatherRefs(sv: string, names: seq<string>) returns (entries: seq<M.SegmentRef>)
      requires Valid() && forall n :: n in names ==> n in heads
      ensures Valid() && View() == old(View())
      ensures entries == M.PushAll(AllSealed(View().heads, names))
    {
      hide M.PushAll;
      assert M.PushAll([]) == [] by { NothingPushed(); }
      var m := new M.SegmentManifest(sv);
      ghost var hs := View().heads;
      for i := 0 to |names|
        invariant fresh(m) && View().heads == hs && m.entries == M.PushAll(AllSealed(hs, names[..i]))
      {
        assert names[..i + 1][..i] == names[..i];
        PushHead(m, AllSealed(hs, names[..i]), heads[names[i]].sealed);
      }
      assert names[..|names|] == names;
      return m.entries;
    }
  }

  lemma SweepStart(s: State, names: seq<string>, puts: nat, c: Config)
    ensures Swept(s, names[..0], puts, c) == SweepResult(s, puts, true)
  {
  }

  lemma SweepNext(s: State, names: seq<string>, i: nat, puts: nat, c: Config)
    requires i < |names| && (forall n :: n in names ==> n in s.heads) && Swept(s, names[..i], puts, c).ok
    ensures var f := Swept(s, names[..i], puts, c);
            var r := Sealed(f.state.heads[names[i]], names[i], f.state.store, f.puts, c.digest);
            Swept(s, names[..i + 1], puts, c) ==
            SweepResult(State(f.state.heads[names[i] := r.head], r.store), r.puts, r.ok)
  {
    hide Sealed;
    assert names[..i + 1][..i] == names[..i];
  }

  lemma PushAllSnoc(refs: seq<M.SegmentRef>, r: M.SegmentRef)
    ensures M.PushAll(refs + [r]) == M.Pushed(M.PushAll(refs), r)
  {
    hide M.Pushed;
    assert (refs + [r])[..|refs|] == refs;
  }

  lemma NothingPushed()
    ensures M.PushAll([]) == []
  {
  }

  lemma SnapshotMeans(s: State, sv: string, puts: nat, c: Config)
    ensures forall n :: n in Names(s) ==> n in s.heads
    ensures var r := Swept(s, Names(s), puts, c);
            && Step(s, TakeSnapshot(sv, puts), c) == r.state
            && Reply(s, sv, puts, c) ==
               if r.ok then Done(Manifest(sv, M.PushAll(AllSealed(r.state.heads, Names(s))))) else Failed
  {
    hide Swept, AllSealed, M.PushAll;
  }

  lemma NamesAre(s: State, keys: set<string>)
    requires s.heads.Keys == keys
    ensures Names(s) == SortedKeys(keys)
  {
  }

  method PushHead(m: M.SegmentManifest, ghost before: seq<M.SegmentRef>, sealed: seq<M.SegmentRef>)
    requires m.entries == M.PushAll(before)
    modifies m`entries
    ensures m.entries == M.PushAll(before + sealed)
  {
    hide M.PushAll, M.Pushed;
    assert before + sealed[..0] == before;
    for i := 0 to |sealed|
      invariant m.entries == M.PushAll(before + sealed[..i])
    {
      assert before + sealed[..i + 1] == before + sealed[..i] + [sealed[i]];
      PushAllSnoc(before + sealed[..i], sealed[i]);
      m.Push(sealed[i]);
    }
    assert sealed[..|sealed|] == sealed;
  }

  /** One failure ends the sweep. */
  lemma {:induction false} SweepStops(s: State, names: seq<string>, n: nat, puts: nat, c: Config)
    requires n <= |names| && (forall x :: x in names ==> x in s.heads) && !Swept(s, names[..n], puts, c).ok
    ensures Swept(s, names, puts, c) == Swept(s, names[..n], puts, c)
    decreases |names|
  {
    if n == |names| {
      assert names[..n] == names;
    } else {
      var front := names[..|names| - 1];
      assert front[..n] == names[..n];
      SweepStops(s, front, n, puts, c);
    }
  }
}
