/** From the change log to the restored table: rows a broken drain sends twice do no
    harm, and a drained log restores to the live table. */
module Delivery {
  import opened Prelude
  import opened Json
  import opened Ids
  import opened Segments
  import R = Replay
  import M = Manifest
  import O = SealOrder
  import B = Bootstrap
  import D = Drain
  import S = Streamer
  import Restore
  import Live

  // --------------------------------------------------- replaying the same rows twice

  /** What a list of entries does to one key, as a whole: nothing; one outcome,
      whatever was there; or a row to insert and columns to overwrite. */
  datatype Sum = Same | Const(v: Option<R.Row>) | Merge(first: R.Row, cols: R.Row)

  function Apply(s: Sum, v: Option<R.Row>): Option<R.Row> {
    match s
    case Same => v
    case Const(o) => o
    case Merge(first, cols) => Some(if v.Some? then v.value + cols else first)
  }

  function Then(s: Sum, e: R.Entry, pk: string): Sum {
    var p := e.row - {pk};
    if e.op.Delete? then Const(None)
    else match s
         case Same => Merge(e.row, p)
         case Const(o) => Const(Some(if o.Some? then o.value + p else e.row))
         case Merge(first, cols) => Merge(first + p, cols + p)
  }

  function SumOf(es: seq<R.Entry>, k: R.Key, pk: string): Sum {
    if es == [] then Same
    else
      var (s, e) := (SumOf(es[..|es| - 1], k, pk), es[|es| - 1]);
      if R.HasKey(e.row, pk) && e.row[pk] == k then Then(s, e, pk) else s
  }

  lemma ThenApplies(s: Sum, e: R.Entry, v: Option<R.Row>, pk: string)
    requires s.Merge? ==> s.first + s.cols == s.first
    ensures Apply(Then(s, e, pk), v) == O.Touch(Apply(s, v), e, pk)
    ensures Then(s, e, pk).Merge? ==> Then(s, e, pk).first + Then(s, e, pk).cols == Then(s, e, pk).first
  {
    var p := e.row - {pk};
    if s.Merge? && v.Some? { assert v.value + s.cols + p == v.value + (s.cols + p); }
    if s.Merge? && !e.op.Delete? {
      var t := Then(s, e, pk);
      assert forall c :: c in s.cols ==> c in s.first && (s.first + s.cols)[c] == s.cols[c];
      assert t.first + t.cols == t.first;
    }
    if s.Same? && !e.op.Delete? { assert e.row + p == e.row; }
  }

  lemma {:induction false} SumApplies(es: seq<R.Entry>, v: Option<R.Row>, k: R.Key, pk: string)
    ensures O.FoldEntries(v, es, k, pk) == Apply(SumOf(es, k, pk), v)
    ensures SumOf(es, k, pk).Merge? ==> SumOf(es, k, pk).first + SumOf(es, k, pk).cols == SumOf(es, k, pk).first
  {
    hide Apply, Then, O.Touch;
    if es == [] {
      SameApplies(v);
    } else {
      var n := |es| - 1;
      SumApplies(es[..n], v, k, pk);
      ThenApplies(SumOf(es[..n], k, pk), es[n], v, pk);
    }
  }

  lemma SameApplies(v: Option<R.Row>)
    ensures Apply(Same, v) == v
  {
  }

  lemma ApplyTwice(s: Sum, v: Option<R.Row>)
    requires s.Merge? ==> s.first + s.cols == s.first
    ensures Apply(s, Apply(s, v)) == Apply(s, v)
  {
    if s.Merge? && v.Some? { assert v.value + s.cols + s.cols == v.value + s.cols; }
  }

  /** Replaying a list of entries again right away changes nothing. */
  lemma ReplayTwice(t: R.Table, es: seq<R.Entry>, pk: string)
    requires R.ReplayEntries(t, es, pk).Done?
    ensures R.ReplayEntries(R.ReplayEntries(t, es, pk).value, es, pk) == R.ReplayEntries(t, es, pk)
  {
    hide R.ReplayEntries, O.FoldEntries, Apply, SumOf, R.AllAccepted;
    var once := R.ReplayEntries(t, es, pk).value;
    R.RefusedFails(t, es, pk);
    R.RefusedFails(once, es, pk);
    var twice := R.ReplayEntries(once, es, pk).value;
    forall k ensures Lookup(twice, k) == Lookup(once, k) {
      O.EntriesView(t, es, k, pk);
      O.EntriesView(once, es, k, pk);
      SumApplies(es, Lookup(t, k), k, pk);
      SumApplies(es, Lookup(once, k), k, pk);
      ApplyTwice(SumOf(es, k, pk), Lookup(t, k));
    }
    O.SameTable(twice, once);
  }

  /** A part of the log that was sent twice in a row replays as if sent once. */
  lemma ResendHarmless(t: R.Table, a: seq<R.Entry>, d: seq<R.Entry>, rest: seq<R.Entry>, pk: string)
    ensures R.ReplayEntries(t, a + d + (d + rest), pk) == R.ReplayEntries(t, a + d + rest, pk)
  {
    hide R.ReplayEntries;
    R.ReplayConcat(t, a + d, d + rest, pk);
    R.ReplayConcat(t, a + d, rest, pk);
    R.ReplayConcat(t, a, d, pk);
    var r := R.ReplayEntries(t, a, pk);
    if r.Done? && R.ReplayEntries(r.value, d, pk).Done? {
      var s := R.ReplayEntries(r.value, d, pk).value;
      R.ReplayConcat(s, d, rest, pk);
      ReplayTwice(r.value, d, pk);
    }
  }

  // ------------------------------------------------------------- one table's entries

  /** What an event means to `table`: one entry, or none. */
  function EntryOf(ev: Option<S.Event>, table: string, pk: string): seq<R.Entry> {
    if ev.Some? && ev.value.table == table && S.HasKey(ev.value, pk)
    then [R.Entry(ev.value.op, ev.value.row.fields)] else []
  }

  /** The entries of `table` among these events. */
  function EventEntries(evs: seq<S.Event>, table: string, pk: string): seq<R.Entry> {
    if evs == [] then []
    else EventEntries(evs[..|evs| - 1], table, pk) + EntryOf(Some(evs[|evs| - 1]), table, pk)
  }

  /** The entries of `table` among these change-log rows. */
  function LogEntries(res: D.Resolvers, log: D.Log, ids: seq<nat>, table: string, pk: string): seq<R.Entry>
    requires D.InLog(ids, log)
  {
    if ids == [] then []
    else LogEntries(res, log, ids[..|ids| - 1], table, pk)
         + EntryOf(D.EventFor(res, log[ids[|ids| - 1]], ""), table, pk)
  }

  /** The entries of `table` in the whole log, in id order. */
  function Logged(res: D.Resolvers, log: D.Log, table: string, pk: string): seq<R.Entry> {
    LogEntries(res, log, SortedIds(log.Keys), table, pk)
  }

  lemma {:induction false} EventEntriesConcat(a: seq<S.Event>, b: seq<S.Event>, table: string, pk: string)
    ensures EventEntries(a + b, table, pk) == EventEntries(a, table, pk) + EventEntries(b, table, pk)
    decreases |b|
  {
    hide EntryOf;
    if b == [] {
      assert a + b == a;
    } else {
      assert (a + b)[..|a + b| - 1] == a + b[..|b| - 1];
      EventEntriesConcat(a, b[..|b| - 1], table, pk);
    }
  }

  lemma {:induction false} LogEntriesConcat(res: D.Resolvers, log: D.Log, a: seq<nat>, b: seq<nat>, table: string, pk: string)
    requires D.InLog(a, log) && D.InLog(b, log) && D.InLog(a + b, log)
    ensures LogEntries(res, log, a + b, table, pk) == LogEntries(res, log, a, table, pk) + LogEntries(res, log, b, table, pk)
    decreases |b|
  {
    hide EntryOf, D.EventFor;
    if b == [] {
      assert a + b == a;
    } else {
      assert (a + b)[..|a + b| - 1] == a + b[..|b| - 1];
      LogEntriesConcat(res, log, a, b[..|b| - 1], table, pk);
    }
  }

  /** The same rows in a log that includes this one. */
  lemma {:induction false} SameRows(res: D.Resolvers, log: D.Log, wide: D.Log, ids: seq<nat>, table: string, pk: string)
    requires D.Includes(wide, log) && D.InLog(ids, log)
    ensures D.InLog(ids, wide) && LogEntries(res, log, ids, table, pk) == LogEntries(res, wide, ids, table, pk)
    decreases |ids|
  {
    hide EntryOf, D.EventFor;
    if ids != [] { SameRows(res, log, wide, ids[..|ids| - 1], table, pk); }
  }

  lemma VersionAside(res: D.Resolvers, row: D.LogRow, version: string, table: string, pk: string)
    ensures EntryOf(D.EventFor(res, row, version), table, pk) == EntryOf(D.EventFor(res, row, ""), table, pk)
  {
  }

  /** Events sent for these rows mean what the rows mean: malformed ones nothing. */
  lemma {:induction false} SentMeans(res: D.Resolvers, log: D.Log, ids: seq<nat>, version: string, table: string, pk: string)
    requires D.InLog(ids, log)
    ensures EventEntries(D.EventsFor(res, log, ids, version), table, pk) == LogEntries(res, log, ids, table, pk)
    decreases |ids|
  {
    if ids != [] {
      hide EntryOf, D.EventFor;
      var n := |ids| - 1;
      SentMeans(res, log, ids[..n], version, table, pk);
      VersionAside(res, log[ids[n]], version, table, pk);
      var e := D.EventFor(res, log[ids[n]], version);
      if e.None? { NoEntry(table, pk); }
    }
  }

  lemma NoEntry(table: string, pk: string)
    ensures EntryOf(None, table, pk) == []
  {
  }

  /** Sends that stop early have covered a first part of the rows. */
  lemma {:induction false} CutSends(res: D.Resolvers, log: D.Log, ids: seq<nat>, version: string, sends: nat) returns (n: nat)
    requires D.InLog(ids, log) && sends <= |D.EventsFor(res, log, ids, version)|
    ensures n <= |ids| && D.EventsFor(res, log, ids[..n], version) == D.EventsFor(res, log, ids, version)[..sends]
    decreases |ids|
  {
    hide D.EventFor;
    var evs := D.EventsFor(res, log, ids, version);
    if sends == |evs| {
      n := |ids|;
      assert ids[..n] == ids && evs[..sends] == evs;
    } else {
      var front := ids[..|ids| - 1];
      n := CutSends(res, log, front, version, sends);
      assert front[..n] == ids[..n];
    }
  }

  lemma AllLogged(res: D.Resolvers, log: D.Log, table: string, pk: string)
    ensures D.InLog(SortedIds(log.Keys), log)
    ensures Logged(res, log, table, pk) == LogEntries(res, log, SortedIds(log.Keys), table, pk)
  {
  }

  lemma LoggedCut(res: D.Resolvers, log: D.Log, p: seq<nat>, q: seq<nat>, table: string, pk: string)
    requires SortedIds(log.Keys) == p + q
    ensures D.InLog(p, log) && D.InLog(q, log)
    ensures Logged(res, log, table, pk) == LogEntries(res, log, p, table, pk) + LogEntries(res, log, q, table, pk)
  {
    hide SortedIds, Logged, LogEntries;
    AllLogged(res, log, table, pk);
    assert forall k :: 0 <= k < |p| ==> p[k] == (p + q)[k];
    assert forall k :: 0 <= k < |q| ==> q[k] == (p + q)[|p| + k];
    LogEntriesConcat(res, log, p, q, table, pk);
  }

  lemma LoggedJoin(res: D.Resolvers, log: D.Log, arrivals: D.Log, table: string, pk: string)
    requires AllBelow(log.Keys, arrivals.Keys)
    ensures Logged(res, log + arrivals, table, pk) == Logged(res, log, table, pk) + Logged(res, arrivals, table, pk)
  {
    hide SortedIds, Logged, LogEntries;
    var (all, p, q) := (log + arrivals, SortedIds(log.Keys), SortedIds(arrivals.Keys));
    AllLogged(res, log, table, pk);
    AllLogged(res, arrivals, table, pk);
    D.KeysJoin(log, arrivals);
    SortedJoin(log.Keys, arrivals.Keys);
    LoggedCut(res, all, p, q, table, pk);
    SameRows(res, log, all, p, table, pk);
    SameRows(res, arrivals, all, q, table, pk);
  }

  lemma Regrouped<T>(a: seq<T>, b: seq<T>, c: seq<T>)
    ensures a + (b + c) == a + b + c
  {
  }

  /** What the DELETE leaves. */
  lemma LoggedRest(res: D.Resolvers, log: D.Log, arrivals: D.Log, table: string, pk: string)
    requires D.Positive(log) && D.Batch(log) != [] && AllBelow(log.Keys, arrivals.Keys)
    ensures LogEntries(res, log, D.Batch(log), table, pk)
              + Logged(res, D.Deleted(log + arrivals, D.MaxId(D.Batch(log))), table, pk)
            == Logged(res, log, table, pk) + Logged(res, arrivals, table, pk)
  {
    hide SortedIds, Logged, LogEntries, D.Batch, D.MaxId, D.Deleted, AllBelow, D.Includes, D.Positive;
    var (b, m) := (D.Batch(log), D.MaxId(D.Batch(log)));
    var rest := D.Deleted(log, m);
    D.CutBatch(log, b);
    D.RestAndNew(log, arrivals, m);
    LoggedJoin(res, rest, arrivals, table, pk);
    RestEntries(res, log, b, rest, table, pk);
    Regrouped(LogEntries(res, log, b, table, pk), Logged(res, rest, table, pk), Logged(res, arrivals, table, pk));
  }

  lemma RestEntries(res: D.Resolvers, log: D.Log, b: seq<nat>, rest: D.Log, table: string, pk: string)
    requires D.Includes(log, rest) && SortedIds(log.Keys) == b + SortedIds(rest.Keys)
    ensures D.InLog(b, log)
    ensures Logged(res, log, table, pk) == LogEntries(res, log, b, table, pk) + Logged(res, rest, table, pk)
  {
    hide SortedIds, Logged, LogEntries, D.Includes;
    AllLogged(res, rest, table, pk);
    LoggedCut(res, log, b, SortedIds(rest.Keys), table, pk);
    SameRows(res, rest, log, SortedIds(rest.Keys), table, pk);
  }

  // --------------------------------------------------------------- call by call

  /** One call: it sends a first part of the log's rows, and either leaves all of
      them there or takes away exactly those. */
  lemma OneCall(res: D.Resolvers, log: D.Log, sent: seq<S.Event>, call: D.Call, table: string, pk: string)
    returns (p: seq<nat>, q: seq<nat>)
    requires D.Positive(log)
    ensures SortedIds(log.Keys) == p + q && D.InLog(p, log)
    ensures var a := D.Once(log, sent, res, call.mode, call.round);
            && sent <= a.forwarded
            && EventEntries(a.forwarded[|sent|..], table, pk) == LogEntries(res, log, p, table, pk)
            && (a.log == log + call.round.arrivals ||
                (p == D.Batch(log) && p != [] && a.log == D.Deleted(log + call.round.arrivals, D.MaxId(p))))
  {
    hide SortedIds, LogEntries, EventEntries, D.EventsFor, D.Batch, D.MaxId, D.Deleted, D.Once, D.Positive;
    var a := D.Once(log, sent, res, call.mode, call.round);
    var b := D.Batch(log);
    D.BatchPrefix(log);
    OnceEnds(log, sent, res, call);
    var evs := a.forwarded[|sent|..];
    p := [];
    if evs == [] && a.log == log + call.round.arrivals {
      Nothing(res, log, table, pk);
    } else {
      p := PartSent(res, log, b, evs, call.round.version.value, table, pk);
    }
    q := Tail(p, b, SortedIds(log.Keys));
  }

  lemma Tail(p: seq<nat>, b: seq<nat>, all: seq<nat>) returns (q: seq<nat>)
    requires p <= b <= all
    ensures all == p + q
  {
    q := all[|p|..];
  }

  lemma PartSent(res: D.Resolvers, log: D.Log, b: seq<nat>, evs: seq<S.Event>, version: string, table: string, pk: string)
    returns (p: seq<nat>)
    requires D.InLog(b, log) && evs <= D.EventsFor(res, log, b, version)
    ensures p <= b && D.InLog(p, log) && EventEntries(evs, table, pk) == LogEntries(res, log, p, table, pk)
    ensures evs == D.EventsFor(res, log, b, version) ==> p == b
  {
    hide LogEntries, EventEntries, D.EventsFor;
    p := b;
    if evs != D.EventsFor(res, log, b, version) {
      var n := CutSends(res, log, b, version, |evs|);
      p := b[..n];
      assert evs == D.EventsFor(res, log, b, version)[..|evs|];
    }
    SentMeans(res, log, p, version, table, pk);
  }

  lemma OnceEnds(log: D.Log, sent: seq<S.Event>, res: D.Resolvers, call: D.Call)
    ensures var (a, b) := (D.Once(log, sent, res, call.mode, call.round), D.Batch(log));
            var (evs, kept) := (a.forwarded[|sent|..], a.log == log + call.round.arrivals);
            && sent <= a.forwarded
            && ((evs == [] && kept) ||
                (&& b != [] && call.round.version.Some?
                 && evs <= D.EventsFor(res, log, b, call.round.version.value)
                 && (kept || (a.log == D.Deleted(log + call.round.arrivals, D.MaxId(b))
                              && evs == D.EventsFor(res, log, b, call.round.version.value)))))
  {
    hide D.EventsFor, D.Batch, D.MaxId, D.Deleted, D.Good;
    var a := D.Once(log, sent, res, call.mode, call.round);
    if D.Batch(log) != [] && call.round.version.Some? {
      var all := D.EventsFor(res, log, D.Batch(log), call.round.version.value);
      assert (sent + all)[|sent|..] == all;
      assert |all| > call.round.sends ==> (sent + all[..call.round.sends])[|sent|..] == all[..call.round.sends];
    }
  }

  lemma Nothing(res: D.Resolvers, log: D.Log, table: string, pk: string)
    ensures LogEntries(res, log, [], table, pk) == [] && EventEntries([], table, pk) == []
  {
  }

  /** Entries `y` sent and taken away, or sent and kept, then the new ones. */
  lemma SentOrKept(t: R.Table, x: seq<R.Entry>, y: seq<R.Entry>, z: seq<R.Entry>, w: seq<R.Entry>,
                   total: seq<R.Entry>, pk: string)
    requires R.ReplayEntries(t, x + (y + z), pk) == R.ReplayEntries(t, total, pk)
    ensures R.ReplayEntries(t, x + y + (z + w), pk) == R.ReplayEntries(t, total + w, pk)
    ensures R.ReplayEntries(t, x + y + (y + (z + w)), pk) == R.ReplayEntries(t, total + w, pk)
  {
    hide R.ReplayEntries;
    var rest := z + w;
    R.ReplayConcat(t, x + (y + z), w, pk);
    R.ReplayConcat(t, total, w, pk);
    assert x + (y + z) + w == x + y + rest;
    ResendHarmless(t, x, y, rest, pk);
  }

  /** What was sent, followed by what is still in the log, replays like all rows. */
  ghost predicate Delivers(res: D.Resolvers, tr: D.Trace, t: R.Table, table: string, pk: string) {
    R.ReplayEntries(t, EventEntries(tr.sent, table, pk) + Logged(res, tr.log, table, pk), pk)
    == R.ReplayEntries(t, Logged(res, tr.total, table, pk), pk)
  }

  /** What one call does to the entries: `y` are sent, and then still there or gone. */
  lemma OneCallParts(res: D.Resolvers, tr: D.Trace, call: D.Call, table: string, pk: string)
    returns (y: seq<R.Entry>, z: seq<R.Entry>)
    requires D.Positive(tr.total) && D.Includes(tr.total, tr.log)
    requires D.Positive(call.round.arrivals) && AllBelow(tr.total.Keys, call.round.arrivals.Keys)
    ensures var (next, w) := (D.NextTrace(res, tr, call), Logged(res, call.round.arrivals, table, pk));
            && EventEntries(next.sent, table, pk) == EventEntries(tr.sent, table, pk) + y
            && Logged(res, tr.log, table, pk) == y + z
            && Logged(res, next.total, table, pk) == Logged(res, tr.total, table, pk) + w
            && (Logged(res, next.log, table, pk) == z + w || Logged(res, next.log, table, pk) == y + (z + w))
  {
    hide SortedIds, Logged, LogEntries, EventEntries, D.Once, D.Batch, D.MaxId, D.Deleted, AllBelow, D.Positive, D.Includes;
    var (log, arrivals) := (tr.log, call.round.arrivals);
    var a := D.Once(log, tr.sent, res, call.mode, call.round);
    D.StillPositive(tr.total, log);
    D.BelowSubset(tr.total, log, arrivals);
    var p, q := OneCall(res, log, tr.sent, call, table, pk);
    LoggedCut(res, log, p, q, table, pk);
    LoggedJoin(res, tr.total, arrivals, table, pk);
    assert a.forwarded == tr.sent + a.forwarded[|tr.sent|..];
    EventEntriesConcat(tr.sent, a.forwarded[|tr.sent|..], table, pk);
    y, z := LogEntries(res, log, p, table, pk), LogEntries(res, log, q, table, pk);
    Regrouped(y, z, Logged(res, arrivals, table, pk));
    if a.log == log + arrivals {
      LoggedJoin(res, log, arrivals, table, pk);
    } else {
      LoggedRest(res, log, arrivals, table, pk);
      SameTail(y, Logged(res, a.log, table, pk), z + Logged(res, arrivals, table, pk));
    }
  }

  /** No row is made up: the log stays within the rows there ever were. */
  lemma OneCallKeeps(res: D.Resolvers, tr: D.Trace, call: D.Call)
    requires D.Positive(tr.total) && D.Includes(tr.total, tr.log)
    requires D.Positive(call.round.arrivals) && AllBelow(tr.total.Keys, call.round.arrivals.Keys)
    ensures var next := D.NextTrace(res, tr, call);
            && next.total == tr.total + call.round.arrivals && D.Includes(next.total, tr.total)
            && D.Positive(next.total) && D.Includes(next.total, next.log)
  {
    hide D.Batch, D.EventsFor, D.MaxId, D.Good;
    D.BelowSubset(tr.total, tr.log, call.round.arrivals);
  }

  lemma OneCallDelivers(res: D.Resolvers, tr: D.Trace, call: D.Call, t: R.Table, table: string, pk: string)
    requires D.Positive(tr.total) && D.Includes(tr.total, tr.log) && Delivers(res, tr, t, table, pk)
    requires D.Positive(call.round.arrivals) && AllBelow(tr.total.Keys, call.round.arrivals.Keys)
    ensures Delivers(res, D.NextTrace(res, tr, call), t, table, pk)
  {
    hide Logged, EventEntries, D.NextTrace, AllBelow, R.ReplayEntries, D.Positive, D.Includes;
    var y, z := OneCallParts(res, tr, call, table, pk);
    var (x, w) := (EventEntries(tr.sent, table, pk), Logged(res, call.round.arrivals, table, pk));
    SentOrKept(t, x, y, z, w, Logged(res, tr.total, table, pk), pk);
  }

  lemma SameTail(y: seq<R.Entry>, a: seq<R.Entry>, b: seq<R.Entry>)
    requires y + a == y + b
    ensures a == b
  {
    assert a == (y + a)[|y|..] && b == (y + b)[|y|..];
  }

  /** Poller calls and strict drains in any mix, each ended by a success, a malformed
      row, a lost streamer or a failed DELETE, while rows keep becoming visible in id
      order: what was sent, followed by what is still in the log, replays like all the
      rows there ever were, each once. Rows sent twice make no difference. */
  lemma {:induction false} CallsDeliver(res: D.Resolvers, log0: D.Log, calls: seq<D.Call>, t: R.Table, table: string, pk: string)
    requires D.InTime(res, D.Trace(log0, log0, []), calls)
    ensures var tr := D.Calls(res, D.Trace(log0, log0, []), calls);
            D.Positive(tr.total) && D.Includes(tr.total, tr.log) && Delivers(res, tr, t, table, pk)
  {
    hide R.ReplayEntries, Logged, D.NextTrace;
    var start := D.Trace(log0, log0, []);
    if calls == [] {
      var es := Logged(res, log0, table, pk);
      assert EventEntries([], table, pk) + es == es;
    } else {
      hide EventEntries;
      var n := |calls| - 1;
      CallsDeliver(res, log0, calls[..n], t, table, pk);
      OneCallKeeps(res, D.Calls(res, start, calls[..n]), calls[n]);
      OneCallDelivers(res, D.Calls(res, start, calls[..n]), calls[n], t, table, pk);
    }
  }

  // ------------------------------------------------------- the table the users wrote

  /** The table after these writes, each row as the trigger logged it. */
  function AllApplied(t: R.Table, es: seq<R.Entry>, pk: string): R.Table
    requires forall i :: 0 <= i < |es| ==> R.HasKey(es[i].row, pk)
  {
    if es == [] then t
    else
      var (front, e) := (AllApplied(t, es[..|es| - 1], pk), es[|es| - 1]);
      assert R.HasKey(e.row, pk);
      if e.op.Delete? then front - {e.row[pk]} else front[e.row[pk] := e.row]
  }

  ghost predicate EntriesShaped(es: seq<R.Entry>, cols: set<string>, pk: string) {
    forall i :: 0 <= i < |es| ==> R.HasKey(es[i].row, pk) && (!es[i].op.Delete? ==> es[i].row.Keys == cols)
  }

  /** Every row the log holds for `table` has these columns. */
  ghost predicate LogShaped(res: D.Resolvers, log: D.Log, table: string, cols: set<string>, pk: string) {
    forall id :: id in log ==> EntriesShaped(EntryOf(D.EventFor(res, log[id], ""), table, pk), cols, pk)
  }

  lemma {:induction false} LogEntriesShaped(res: D.Resolvers, log: D.Log, ids: seq<nat>, cols: set<string>,
                                            table: string, pk: string)
    requires D.InLog(ids, log) && LogShaped(res, log, table, cols, pk)
    ensures EntriesShaped(LogEntries(res, log, ids, table, pk), cols, pk)
    decreases |ids|
  {
    hide EntryOf, D.EventFor, R.HasKey;
    if ids != [] {
      assert ids[|ids| - 1] in log;
      LogEntriesShaped(res, log, ids[..|ids| - 1], cols, table, pk);
    }
  }

  lemma BothShaped(a: seq<R.Entry>, b: seq<R.Entry>, cols: set<string>, pk: string)
    requires EntriesShaped(a, cols, pk) && EntriesShaped(b, cols, pk)
    ensures EntriesShaped(a + b, cols, pk)
  {
  }

  lemma LoggedShaped(res: D.Resolvers, log: D.Log, cols: set<string>, table: string, pk: string)
    requires LogShaped(res, log, table, cols, pk)
    ensures EntriesShaped(Logged(res, log, table, pk), cols, pk)
  {
    hide SortedIds, LogShaped, LogEntries, EntriesShaped;
    AllLogged(res, log, table, pk);
    LogEntriesShaped(res, log, SortedIds(log.Keys), cols, table, pk);
  }

  lemma NarrowShaped(res: D.Resolvers, wide: D.Log, log: D.Log, cols: set<string>, table: string, pk: string)
    requires LogShaped(res, wide, table, cols, pk) && D.Includes(wide, log)
    ensures LogShaped(res, log, table, cols, pk)
  {
    hide EntryOf, D.EventFor, EntriesShaped;
  }

  lemma OneCallShaped(res: D.Resolvers, tr: D.Trace, call: D.Call, cols: set<string>, table: string, pk: string)
    requires D.Positive(tr.total) && D.Includes(tr.total, tr.log) && LogShaped(res, tr.total, table, cols, pk)
    requires EntriesShaped(EventEntries(tr.sent, table, pk), cols, pk)
    ensures EntriesShaped(EventEntries(D.NextTrace(res, tr, call).sent, table, pk), cols, pk)
  {
    hide SortedIds, LogEntries, EventEntries, D.Once, D.Batch, D.MaxId, D.Deleted, EntriesShaped, LogShaped;
    var a := D.Once(tr.log, tr.sent, res, call.mode, call.round);
    D.StillPositive(tr.total, tr.log);
    var p, q := OneCall(res, tr.log, tr.sent, call, table, pk);
    NarrowShaped(res, tr.total, tr.log, cols, table, pk);
    LogEntriesShaped(res, tr.log, p, cols, table, pk);
    assert a.forwarded == tr.sent + a.forwarded[|tr.sent|..];
    EventEntriesConcat(tr.sent, a.forwarded[|tr.sent|..], table, pk);
    BothShaped(EventEntries(tr.sent, table, pk), LogEntries(res, tr.log, p, table, pk), cols, pk);
  }

  /** Calls send rows that were in the log, and nothing else. */
  lemma {:induction false} SentShaped(res: D.Resolvers, log0: D.Log, calls: seq<D.Call>, cols: set<string>,
                                      table: string, pk: string)
    requires D.InTime(res, D.Trace(log0, log0, []), calls)
    requires LogShaped(res, D.Calls(res, D.Trace(log0, log0, []), calls).total, table, cols, pk)
    ensures EntriesShaped(EventEntries(D.Calls(res, D.Trace(log0, log0, []), calls).sent, table, pk), cols, pk)
  {
    hide LogShaped, D.NextTrace, R.ReplayEntries;
    if calls != [] {
      hide EventEntries;
      var n := |calls| - 1;
      var tr := D.Calls(res, D.Trace(log0, log0, []), calls[..n]);
      CallsDeliver(res, log0, calls[..n], map[], table, pk);
      OneCallKeeps(res, tr, calls[n]);
      NarrowShaped(res, D.NextTrace(res, tr, calls[n]).total, tr.total, cols, table, pk);
      SentShaped(res, log0, calls[..n], cols, table, pk);
      OneCallShaped(res, tr, calls[n], cols, table, pk);
    }
  }

  /** On a table of one shape, replaying entries is applying the writes. */
  lemma {:induction false} ShapedReplay(t: R.Table, es: seq<R.Entry>, cols: set<string>, pk: string)
    requires EntriesShaped(es, cols, pk) && Live.Shaped(t, cols, pk) && Live.Insertable(cols)
    ensures R.ReplayEntries(t, es, pk) == Done(AllApplied(t, es, pk))
    ensures Live.Shaped(AllApplied(t, es, pk), cols, pk)
  {
    hide R.ApplyOne, Live.Shaped, Live.Insertable;
    if es != [] {
      var (n, e) := (|es| - 1, es[|es| - 1]);
      ShapedReplay(t, es[..n], cols, pk);
      Live.OneEvent(AllApplied(t, es[..n], pk), S.Event("", e.op, Obj(e.row), ""), cols, pk);
    }
  }

  /** The events the streamer is handed, in order. */
  function Received(cmds: seq<S.Cmd>): seq<S.Event> {
    if cmds == [] then []
    else
      var (front, cmd) := (Received(cmds[..|cmds| - 1]), cmds[|cmds| - 1]);
      if cmd.Observe? then front + [cmd.ev] else front
  }

  /** These entries say what these events say. */
  ghost predicate Alike(evs: seq<S.Event>, es: seq<R.Entry>, pk: string) {
    && S.Keyed(evs, pk) && |evs| == |es|
    && forall i :: 0 <= i < |es| ==> es[i] == R.Entry(evs[i].op, evs[i].row.fields)
  }

  lemma AlikeMore(evs: seq<S.Event>, es: seq<R.Entry>, cmd: S.Cmd, table: string, pk: string)
    requires Alike(evs, es, pk)
    ensures Alike(evs + S.AcceptedBy(cmd, table, pk), es + (if cmd.Observe? then EntryOf(Some(cmd.ev), table, pk) else []), pk)
  {
  }

  lemma {:induction false} AcceptedEntries(cmds: seq<S.Cmd>, table: string, pk: string)
    ensures Alike(S.Accepted(cmds, table, pk), EventEntries(Received(cmds), table, pk), pk)
  {
    if cmds != [] {
      hide S.AcceptedBy, EntryOf, Alike;
      var (n, cmd) := (|cmds| - 1, cmds[|cmds| - 1]);
      var front := Received(cmds[..n]);
      AcceptedEntries(cmds[..n], table, pk);
      AlikeMore(S.Accepted(cmds[..n], table, pk), EventEntries(front, table, pk), cmd, table, pk);
      if cmd.Observe? {
        assert (front + [cmd.ev])[..|front|] == front;
      } else {
        assert EventEntries(front, table, pk) + [] == EventEntries(front, table, pk);
      }
    }
  }

  lemma {:induction false} WrittenIsApplied(t: R.Table, evs: seq<S.Event>, es: seq<R.Entry>, pk: string)
    requires Alike(evs, es, pk)
    ensures Live.AllWritten(t, evs, pk) == AllApplied(t, es, pk)
    decreases |es|
  {
    if es != [] { WrittenIsApplied(t, evs[..|es| - 1], es[..|es| - 1], pk); }
  }

  /** Once the log is empty, what was sent applies like all the rows, each once. */
  lemma DrainedApplies(res: D.Resolvers, log0: D.Log, calls: seq<D.Call>, tr: D.Trace, t: R.Table,
                       cols: set<string>, table: string, pk: string)
    requires D.RanTo(res, D.Trace(log0, log0, []), calls, tr) && tr.log == map[]
    requires LogShaped(res, tr.total, table, cols, pk)
    requires Live.Shaped(t, cols, pk) && Live.Insertable(cols)
    ensures EntriesShaped(EventEntries(tr.sent, table, pk), cols, pk) && EntriesShaped(Logged(res, tr.total, table, pk), cols, pk)
    ensures AllApplied(t, EventEntries(tr.sent, table, pk), pk) == AllApplied(t, Logged(res, tr.total, table, pk), pk)
  {
    hide R.ReplayEntries, Logged, EventEntries, LogShaped, AllApplied, Live.Shaped, Live.Insertable, D.Calls, D.InTime;
    SentShaped(res, log0, calls, cols, table, pk);
    LoggedShaped(res, tr.total, cols, table, pk);
    CallsDeliver(res, log0, calls, t, table, pk);
    NoRowsLeft(res, tr.log, EventEntries(tr.sent, table, pk), table, pk);
    ShapedReplay(t, EventEntries(tr.sent, table, pk), cols, pk);
    ShapedReplay(t, Logged(res, tr.total, table, pk), cols, pk);
  }

  /** Bootstrap and seed; let the poller and strict drains run, in any mix and with any
      failures, while users write, until the log is empty; stream what was sent through
      any store failures, with snapshots at any time; snapshot and restore: the restored table is the bootstrapped
      one with the logged writes applied in id order, each once, under the same
      condition on the manifest's order as before. */
  lemma LogRoundTrip(s0: S.State, all: seq<M.SegmentRef>, res: D.Resolvers, log0: D.Log, calls: seq<D.Call>,
                     tr: D.Trace, rest: seq<S.Cmd>, schemaVersion: string, last: nat, c: S.Config,
                     segs: seq<Segment>, rows: seq<R.Row>, plan: B.Plan, cols: set<string>) returns (t: R.Table)
    requires S.Fresh(s0, c) && Live.Spawned(s0) && Restore.Loaded(s0.store, all)
    requires plan.table in c.pkFor && c.pkFor[plan.table] == plan.pk
    requires R.ValidIdentifier(plan.table) && R.ValidIdentifier(plan.pk)
    requires B.Keyed(rows, plan.pk) && Restore.DistinctRows(rows, plan.pk) && B.Partition(segs, rows, plan, true)
    requires Holds(s0.store, segs, c.digest) && Restore.ForTable(all, plan.table) == RefsOf(segs, c.digest)
    requires Live.RowsShaped(rows, cols) && Live.Insertable(cols)
    requires D.RanTo(res, D.Trace(log0, log0, []), calls, tr) && tr.log == map[]
    requires S.NoSeeds(rest) && Received(rest) == tr.sent
    requires LogShaped(res, tr.total, plan.table, cols, plan.pk)
    requires S.Reply(S.Run(s0, [S.SeedSealed(M.PushAll(all))] + rest, c), schemaVersion, last, c).Done?
    ensures Restore.Stores(t, rows, plan.pk) && EntriesShaped(Logged(res, tr.total, plan.table, plan.pk), cols, plan.pk)
    ensures var cmds := [S.SeedSealed(M.PushAll(all))] + rest;
            var s := S.AfterSnapshot(s0, cmds, schemaVersion, last, c);
            var manifest := S.Reply(S.Run(s0, cmds, c), schemaVersion, last, c).value;
            S.OrderKept(s.store, S.ListOf(s, plan.table), plan.pk) ==>
              Restore.Rebuilt(s.store, manifest.entries, Restore.TrackedTable(plan.table, plan.pk)) ==
              Done(AllApplied(t, Logged(res, tr.total, plan.table, plan.pk), plan.pk))
  {
    hide S.AfterSnapshot, S.ListOf, S.OrderKept, S.Run, S.Reply, B.Partition, Restore.Rebuilt, Restore.Stores, Live.Shaped;
    hide R.ReplayEntries, Live.AllWritten, AllApplied, R.ValidIdentifier, Logged, EventEntries, S.Accepted, LogShaped;
    hide Live.Insertable, Live.RowsShaped, Restore.DistinctRows, B.Keyed, M.PushAll, Restore.ForTable, RefsOf;
    hide S.Fresh, Live.Spawned, Received, S.NoSeeds, Live.EventsShaped, D.Calls, D.InTime;
    var (table, pk) := (plan.table, plan.pk);
    var es := EventEntries(tr.sent, table, pk);
    AcceptedEntries(rest, table, pk);
    var accepted := S.Accepted(rest, table, pk);
    SentShaped(res, log0, calls, cols, table, pk);
    AcceptedShaped(accepted, es, cols, pk);
    t := Live.RoundTrip(s0, all, rest, schemaVersion, last, c, segs, rows, plan, cols);
    assert Live.Shaped(t, cols, pk) by { Live.StoredShaped(t, rows, cols, pk); }
    WrittenIsApplied(t, accepted, es, pk);
    DrainedApplies(res, log0, calls, tr, t, cols, table, pk);
  }

  lemma AcceptedShaped(evs: seq<S.Event>, es: seq<R.Entry>, cols: set<string>, pk: string)
    requires Alike(evs, es, pk) && EntriesShaped(es, cols, pk)
    ensures Live.EventsShaped(evs, cols, pk)
  {
    assert forall i :: 0 <= i < |evs| ==> S.HasKey(evs[i], pk) ==> es[i].op == evs[i].op && es[i].row == evs[i].row.fields;
  }

  lemma NoRowsLeft(res: D.Resolvers, log: D.Log, es: seq<R.Entry>, table: string, pk: string)
    requires log == map[]
    ensures es + Logged(res, log, table, pk) == es
  {
  }
}
