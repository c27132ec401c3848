/** Draining the change log into the streamer: the lenient poller tick and the
    strict snapshot fence. */
module Drain {
  import opened Prelude
  import opened Json
  import R = Replay
  import opened Ids
  import S = Streamer

  // -------------------------------------------------------------------- the log

  /** One change-log row as far as its columns decode. */
  datatype LogRow = LogRow(table: Option<string>, op: Option<string>, row: Option<Json>)

  type Log = map<nat, LogRow>

  predicate InLog(ids: seq<nat>, log: Log) { forall k :: 0 <= k < |ids| ==> ids[k] in log }

  const POLL_BATCH_SIZE := 1000

  // ---------------------------------------------------------------- table resolvers

  function AfterDot(s: string): Option<string> {
    if s == "" then None
    else match AfterDot(s[1..])
         case Some(rest) => Some(rest)
         case None => if s[0] == '.' then Some(s[1..]) else None
  }

  /** The name without its schema. */
  function BareName(s: string): string {
    match AfterDot(s) case Some(rest) => rest case None => s
  }

  /** The configured entries with this bare name, in configuration order. */
  function Owners(names: seq<string>, bare: string): seq<string> {
    if names == [] then []
    else Owners(names[..|names| - 1], bare)
         + if BareName(names[|names| - 1]) == bare then [names[|names| - 1]] else []
  }

  datatype Resolvers = Resolvers(keyOf: map<string, string>, bareLookup: map<string, string>)

  /** Exact names resolve to themselves; a bare name only if one entry has it. */
  ghost predicate Resolves(r: Resolvers, names: seq<string>) {
    && (forall n :: n in r.keyOf <==> n in names)
    && (forall n :: n in r.keyOf ==> r.keyOf[n] == n)
    && (forall b :: b in r.bareLookup <==> |Owners(names, b)| == 1)
    && (forall b :: b in r.bareLookup ==> Owners(names, b) == [r.bareLookup[b]])
  }

  method BuildTableResolvers(names: seq<string>) returns (r: Resolvers)
    ensures Resolves(r, names)
  {
    hide BareName;
    var keyOf: map<string, string> := map[];
    for i := 0 to |names|
      invariant forall n :: n in keyOf <==> n in names[..i]
      invariant forall n :: n in keyOf ==> keyOf[n] == n
    {
      assert names[..i + 1] == names[..i] + [names[i]];
      keyOf := keyOf[names[i] := names[i]];
    }
    assert names[..|names|] == names;
    var counts := CountOwners(names);
    var bareLookup := OnlyOwners(counts);
    return Resolvers(keyOf, bareLookup);
  }

  ghost predicate CountsOwners(counts: map<string, seq<string>>, names: seq<string>) {
    && (forall b :: b in counts <==> Owners(names, b) != [])
    && (forall b :: b in counts ==> counts[b] == Owners(names, b))
  }

  method CountOwners(names: seq<string>) returns (counts: map<string, seq<string>>)
    ensures CountsOwners(counts, names)
  {
    hide BareName;
    counts := map[];
    for i := 0 to |names|
      invariant CountsOwners(counts, names[..i])
    {
      assert names[..i + 1][..i] == names[..i];
      var b := BareName(names[i]);
      counts := counts[b := (if b in counts then counts[b] else []) + [names[i]]];
    }
    assert names[..|names|] == names;
  }

  method OnlyOwners(counts: map<string, seq<string>>) returns (only: map<string, string>)
    ensures forall b :: b in only <==> b in counts && |counts[b]| == 1
    ensures forall b :: b in only ==> counts[b] == [only[b]]
  {
    only := map[];
    var todo := counts.Keys;
    while todo != {}
      invariant todo <= counts.Keys
      invariant forall b :: b in only <==> b in counts && b !in todo && |counts[b]| == 1
      invariant forall b :: b in only ==> counts[b] == [only[b]]
    {
      var b :| b in todo;
      if |counts[b]| == 1 { only := only[b := counts[b][0]]; }
      todo := todo - {b};
    }
  }

  function Resolve(r: Resolvers, table: string): Option<string> {
    if table in r.keyOf then Some(r.keyOf[table])
    else if BareName(table) in r.bareLookup then Some(r.bareLookup[BareName(table)])
    else None
  }

  lemma {:induction false} OwnersFacts(names: seq<string>, bare: string)
    ensures forall n :: n in Owners(names, bare) <==> n in names && BareName(n) == bare
  {
    if names != [] {
      OwnersFacts(names[..|names| - 1], bare);
      assert names == names[..|names| - 1] + [names[|names| - 1]];
    }
  }

  /** A name that is configured resolves to itself. Any other resolves exactly if one
      configured entry owns its bare name, and then to that entry, whatever schema
      either of them is in. */
  lemma ResolvesTo(r: Resolvers, names: seq<string>, table: string)
    requires Resolves(r, names)
    ensures table in names ==> Resolve(r, table) == Some(table)
    ensures table !in names ==>
      (Resolve(r, table).Some? <==> |Owners(names, BareName(table))| == 1)
      && (Resolve(r, table).Some? ==> Owners(names, BareName(table)) == [Resolve(r, table).value])
    ensures Resolve(r, table).Some? ==> Resolve(r, table).value in names && BareName(Resolve(r, table).value) == BareName(table)
  {
    hide BareName;
    OwnersFacts(names, BareName(table));
    if table !in names && BareName(table) in r.bareLookup {
      assert Owners(names, BareName(table)) == [r.bareLookup[BareName(table)]];
    }
  }

  predicate Qualified(s: string) { AfterDot(s).Some? }

  /** What stands before the last dot. */
  function SchemaOf(s: string): string
    requires Qualified(s)
  {
    if AfterDot(s[1..]).Some? then [s[0]] + SchemaOf(s[1..]) else ""
  }

  lemma {:induction false} NameParts(s: string)
    requires Qualified(s)
    ensures s == SchemaOf(s) + "." + BareName(s)
  {
    if AfterDot(s[1..]).Some? {
      NameParts(s[1..]);
      assert s == [s[0]] + s[1..];
      assert s == [s[0]] + (SchemaOf(s[1..]) + "." + BareName(s[1..]));
    } else {
      assert s == "" + [s[0]] + s[1..];
    }
  }

  /** The event of a table in one schema is taken for a table in another. */
  predicate CrossesSchemas(r: Resolvers, table: string) {
    && Qualified(table) && Resolve(r, table).Some?
    && Qualified(Resolve(r, table).value) && SchemaOf(Resolve(r, table).value) != SchemaOf(table)
  }

  /** That happens to a qualified name exactly if it is not configured itself, a single
      entry owns its bare name, and that entry is qualified too. */
  lemma CrossesSchemasIff(r: Resolvers, names: seq<string>, table: string)
    requires Resolves(r, names) && Qualified(table)
    ensures CrossesSchemas(r, table) <==>
      table !in names && |Owners(names, BareName(table))| == 1 && Qualified(Owners(names, BareName(table))[0])
  {
    hide BareName, AfterDot, SchemaOf;
    ResolvesTo(r, names, table);
    if Resolve(r, table).Some? && Qualified(Resolve(r, table).value) {
      var n := Resolve(r, table).value;
      NameParts(table);
      NameParts(n);
      if table !in names { assert SchemaOf(n) != SchemaOf(table) by { assert n in names && n != table; } }
    }
  }

  /** Only `a.t` is configured; the trigger of `b.t` is still there. Its rows count as
      well formed, so that even the strict fence sends them to the segments of `a.t`. */
  lemma OtherSchemaIsTakenIn(r: Resolvers, row: Json, version: string)
    requires Resolves(r, ["a.t"])
    ensures var logged := LogRow(Some("b.t"), Some("insert"), Some(row));
            && CrossesSchemas(r, "b.t") && Good(r, logged)
            && EventFor(r, logged, version) == Some(S.Event("a.t", R.Insert, row, version))
  {
    var names := ["a.t"];
    BareOf("a");
    BareOf("b");
    assert names[..0] == [];
    assert Owners(names, "t") == [] + ["a.t"];
    ResolvesTo(r, names, "b.t");
    assert "b.t" != "a.t" by { assert "b.t"[0] != "a.t"[0]; }
    CrossesSchemasIff(r, names, "b.t");
  }

  lemma BareOf(schema: string)
    requires |schema| == 1 && schema[0] != '.'
    ensures Qualified(schema + ".t") && BareName(schema + ".t") == "t"
  {
    var s := schema + ".t";
    assert s[1..] == ".t" && s[1..][1..] == "t" && "t"[1..] == "";
    assert AfterDot("t") == None;
    assert AfterDot(".t") == Some("t");
  }

  // -------------------------------------------------------------------- one batch

  function OpOf(op: string): Option<R.Op> {
    if op == "insert" then Some(R.Insert) else if op == "update" then Some(R.Update)
    else if op == "delete" then Some(R.Delete) else None
  }

  /** The event a row stands for; none if it is malformed or untracked. */
  function EventFor(r: Resolvers, row: LogRow, version: string): Option<S.Event> {
    match (row.table, row.op, row.row)
    case (Some(t), Some(op), Some(json)) =>
      if Resolve(r, t).Some? && OpOf(op).Some?
      then Some(S.Event(Resolve(r, t).value, OpOf(op).value, json, version)) else None
    case _ => None
  }

  predicate Good(r: Resolvers, row: LogRow) { EventFor(r, row, "").Some? }

  function EventsFor(r: Resolvers, log: Log, ids: seq<nat>, version: string): seq<S.Event>
    requires InLog(ids, log)
  {
    if ids == [] then []
    else
      var front := EventsFor(r, log, ids[..|ids| - 1], version);
      match EventFor(r, log[ids[|ids| - 1]], version)
      case Some(e) => front + [e]
      case None => front
  }

  function MaxId(ids: seq<nat>): nat {
    if ids == [] then 0
    else if MaxId(ids[..|ids| - 1]) > ids[|ids| - 1] then MaxId(ids[..|ids| - 1]) else ids[|ids| - 1]
  }

  function Batch(log: Log): (b: seq<nat>)
    ensures InLog(b, log)
  {
    var all := SortedIds(log.Keys);
    if |all| <= POLL_BATCH_SIZE then all else all[..POLL_BATCH_SIZE]
  }

  function Deleted(log: Log, maxId: nat): Log { map i | i in log && i > maxId :: log[i] }

  ghost predicate Positive(log: Log) { forall i :: i in log ==> i >= 1 }

  /** What happens around one call: the schema version can be read or not, `sends`
      events get through before the streamer is gone, the DELETE goes through or
      not, and `arrivals` become visible between the SELECT and the DELETE. */
  datatype Round = Round(version: Option<string>, sends: nat, deletes: bool, arrivals: Log)

  datatype Mode = Lenient | Strict

  datatype Result = Drained(processed: nat, forwarded: nat) | Invalid | NoVersion | StreamerGone | DeleteFailed

  datatype After = After(log: Log, forwarded: seq<S.Event>, result: Result)

  /** One call, from the log and the events forwarded so far. */
  function Once(log: Log, forwarded: seq<S.Event>, res: Resolvers, mode: Mode, round: Round): After {
    var (b, all) := (Batch(log), log + round.arrivals);
    if b == [] then After(all, forwarded, Drained(0, 0))
    else if round.version.None? then After(all, forwarded, NoVersion)
    else if mode.Strict? && exists k :: 0 <= k < |b| && !Good(res, log[b[k]]) then After(all, forwarded, Invalid)
    else
      var evs := EventsFor(res, log, b, round.version.value);
      if |evs| > round.sends then After(all, forwarded + evs[..round.sends], StreamerGone)
      else if !round.deletes then After(all, forwarded + evs, DeleteFailed)
      else After(Deleted(all, MaxId(b)), forwarded + evs, Drained(|b|, |evs|))
  }

  datatype Call = Call(mode: Mode, round: Round)

  /** All rows there ever were, those still in the log, and the events sent. */
  datatype Trace = Trace(total: Log, log: Log, sent: seq<S.Event>)

  function NextTrace(res: Resolvers, t: Trace, call: Call): Trace {
    var a := Once(t.log, t.sent, res, call.mode, call.round);
    Trace(t.total + call.round.arrivals, a.log, a.forwarded)
  }

  /** The poller's calls and the strict fence's, one after another. */
  function Calls(res: Resolvers, t: Trace, calls: seq<Call>): Trace {
    if calls == [] then t else NextTrace(res, Calls(res, t, calls[..|calls| - 1]), calls[|calls| - 1])
  }

  /** Rows become visible in id order. */
  ghost predicate InTime(res: Resolvers, t: Trace, calls: seq<Call>) {
    if calls == [] then Positive(t.total)
    else
      var (front, arrivals) := (calls[..|calls| - 1], calls[|calls| - 1].round.arrivals);
      InTime(res, t, front) && Positive(arrivals) && AllBelow(Calls(res, t, front).total.Keys, arrivals.Keys)
  }

  /** These calls, meeting their rows in id order, lead from `t` to `now`. */
  ghost predicate RanTo(res: Resolvers, t: Trace, calls: seq<Call>, now: Trace) {
    InTime(res, t, calls) && Calls(res, t, calls) == now
  }

  lemma NoCalls(res: Resolvers, t: Trace)
    requires Positive(t.total)
    ensures RanTo(res, t, [], t)
  {
  }

  lemma OneMore(res: Resolvers, t: Trace, calls: seq<Call>, now: Trace, call: Call)
    requires RanTo(res, t, calls, now)
    requires Positive(call.round.arrivals) && AllBelow(now.total.Keys, call.round.arrivals.Keys)
    ensures var a := Once(now.log, now.sent, res, call.mode, call.round);
            RanTo(res, t, calls + [call], Trace(now.total + call.round.arrivals, a.log, a.forwarded))
  {
    hide Once;
    assert (calls + [call])[..|calls|] == calls;
  }

  lemma {:induction false} MaxIsLast(ids: seq<nat>)
    requires Ascends(ids) && forall i :: 0 <= i < |ids| ==> ids[i] >= 1
    ensures MaxId(ids) == if ids == [] then 0 else ids[|ids| - 1]
  {
    if ids != [] { MaxIsLast(ids[..|ids| - 1]); }
  }

  /** The batch is the log's smallest ids; deleting up to its last id leaves the
      rest, in order. */
  lemma BatchFacts(log: Log)
    requires Positive(log)
    ensures var (b, all) := (Batch(log), SortedIds(log.Keys));
            && |b| == (if |log| < POLL_BATCH_SIZE then |log| else POLL_BATCH_SIZE)
            && |b| <= |all| && b == all[..|b|] && (b == [] <==> log == map[])
            && MaxId(b) == (if b == [] then 0 else b[|b| - 1])
            && SortedIds(Deleted(log, MaxId(b)).Keys) == all[|b|..]
  {
    hide SortedIds;
    var b, all := Batch(log), SortedIds(log.Keys);
    assert |all| == |log|;
    MaxIsLast(b);
    RestSorted(log, all, |b|, MaxId(b));
  }

  lemma RestSorted(log: Log, all: seq<nat>, n: nat, cut: nat)
    requires Positive(log) && all == SortedIds(log.Keys) && n <= |all| && cut == if n == 0 then 0 else all[n - 1]
    ensures SortedIds(Deleted(log, cut).Keys) == all[n..]
  {
    hide SortedIds;
    AllSorted(log.Keys);
    var rest := Deleted(log, cut).Keys;
    AllSorted(rest);
    forall x ensures x in all[n..] <==> x in rest { SplitAt(all, n, x); }
    SameIds(SortedIds(rest), all[n..]);
  }

  /** An ascending list cut at `n`: the tail is what lies above the head's last. */
  lemma SplitAt(all: seq<nat>, n: nat, x: nat)
    requires Ascends(all) && n <= |all| && forall k :: 0 <= k < |all| ==> all[k] >= 1
    ensures x in all[n..] <==> x in all && x > (if n == 0 then 0 else all[n - 1])
    ensures x in all[..n] <==> x in all && x <= (if n == 0 then 0 else all[n - 1])
  {
    if x in all {
      var k :| 0 <= k < |all| && all[k] == x;
      if k < n { assert all[..n][k] == x; } else { assert all[n..][k - n] == x; }
    }
    if x in all[n..] { var k :| n <= k < |all| && all[k] == x; }
    if x in all[..n] { var k :| 0 <= k < n && all[k] == x; }
  }

  lemma InBatchIff(log: Log, i: nat)
    requires Positive(log)
    ensures i in Batch(log) <==> i in log && i <= MaxId(Batch(log))
  {
    hide SortedIds;
    BatchFacts(log);
    AllSorted(log.Keys);
    SplitAt(SortedIds(log.Keys), |Batch(log)|, i);
  }

  class ChangeLog {
    var log: Log
    var forwarded: seq<S.Event>

    constructor (l: Log)
      ensures log == l && forwarded == []
    {
      log, forwarded := l, [];
    }

    method DrainOnce(res: Resolvers, mode: Mode, round: Round) returns (r: Result)
      modifies this
      ensures After(log, forwarded, r) == Once(old(log), old(forwarded), res, mode, round)
    {
      hide EventFor, Resolve, Good, Batch, EventsFor, MaxId, Deleted;
      var rows, seen := Batch(log), log;
      log := log + round.arrivals;
      if rows == [] { return Drained(0, 0); }
      if round.version.None? { return NoVersion; }
      if mode.Strict? {
        var ok := AllGood(res, seen, rows);
        if !ok { return Invalid; }
      }
      var ok, maxId, sent := Forward(res, seen, rows, round.version.value, round.sends);
      if !ok { return StreamerGone; }
      if !round.deletes { return DeleteFailed; }
      log := Deleted(log, maxId);
      return Drained(|rows|, sent);
    }

    /** Drain batch after batch until one comes back empty. `rounds` says what each
        call meets; once they are used up nobody writes any more. */
    method DrainToCompletion(res: Resolvers, rounds: seq<Round>, calm: Round)
      returns (last: Result, sent: nat, ghost end: FenceEnd, ghost calls: seq<Call>)
      requires Positive(log) && InOrder(log, rounds) && calm.arrivals == map[]
      modifies this
      ensures Includes(end.total, old(log)) && (NoWriters(rounds) ==> end.total == old(log))
      ensures Fenced(res, end.total, end.done, end.dup, log, old(forwarded), forwarded)
      ensures EndsFor(res, last, end, log)
      ensures sent == |end.done|
      ensures RanTo(res, Trace(old(log), old(log), old(forwarded)), calls, Trace(end.total, log, forwarded))
      ensures NoWriters(rounds) ==> Undisturbed(res, last, end, old(log), log, old(forwarded), forwarded)
    {
      hide Once, OnTrack, EndOf, EndsFor, Fenced, Includes, NoWriters, Undisturbed, RanTo, InOrder, Batch;
      ghost var total, done := log, [];
      var k := 0;
      sent, calls := 0, [];
      StartTrack(res, log, forwarded, rounds);
      while true
        invariant sent == |done| && k <= |rounds|
        invariant OnTrack(res, old(log), old(forwarded), rounds, k, total, done, calls, log, forwarded)
        decreases |rounds| - k, |log|
      {
        var round := if k < |rounds| then rounds[k] else calm;
        ghost var was, sentBefore := log, forwarded;
        last := DrainOnce(res, Strict, round);
        if !last.Drained? || last.processed == 0 {
          TrackStops(res, old(log), old(forwarded), rounds, k, calm, total, done, calls, was, sentBefore);
          end, calls := EndOf(last, total, done, was, round), calls + [Call(Strict, round)];
          return;
        }
        TrackGoes(res, old(log), old(forwarded), rounds, k, calm, total, done, calls, was, sentBefore);
        calls := calls + [Call(Strict, round)];
        total, done, sent := total + round.arrivals, done + Batch(was), sent + last.forwarded;
        k := if k < |rounds| then k + 1 else k;
      }
    }

    /** The strict fence's first pass: nothing is sent while a row looks wrong. */
    method AllGood(res: Resolvers, seen: Log, rows: seq<nat>) returns (ok: bool)
      requires InLog(rows, seen)
      ensures ok <==> !exists k :: 0 <= k < |rows| && !Good(res, seen[rows[k]])
    {
      hide Good;
      for i := 0 to |rows|
        invariant forall k :: 0 <= k < i ==> Good(res, seen[rows[k]])
      {
        if !Good(res, seen[rows[i]]) { return false; }
      }
      return true;
    }

    /** Send what is well formed, skip the rest, track the largest id. */
    method Forward(res: Resolvers, seen: Log, rows: seq<nat>, version: string, sends: nat)
      returns (ok: bool, maxId: nat, sent: nat)
      requires InLog(rows, seen)
      modifies this`forwarded
      ensures var evs := EventsFor(res, seen, rows, version);
              && (ok <==> |evs| <= sends)
              && forwarded == old(forwarded) + (if ok then evs else evs[..sends])
              && (ok ==> maxId == MaxId(rows) && sent == |evs|)
    {
      hide EventFor, Resolve;
      maxId, sent := 0, 0;
      ghost var evs := EventsFor(res, seen, rows, version);
      assert rows[..0] == [];
      for i := 0 to |rows|
        invariant maxId == MaxId(rows[..i])
        invariant sent <= sends && sent == |EventsFor(res, seen, rows[..i], version)|
        invariant forwarded == old(forwarded) + EventsFor(res, seen, rows[..i], version)
      {
        assert rows[..i + 1][..i] == rows[..i];
        EventsGrow(res, seen, rows, i, version);
        EventsGrow(res, seen, rows, i + 1, version);
        var e := EventFor(res, seen[rows[i]], version);
        if e.Some? {
          if sent == sends { return false, maxId, sent; }
          forwarded := forwarded + [e.value];
          sent := sent + 1;
        }
        maxId := if maxId > rows[i] then maxId else rows[i];
      }
      assert rows[..|rows|] == rows;
      return true, maxId, sent;
    }
  }

  lemma {:induction false} EventsGrow(r: Resolvers, log: Log, ids: seq<nat>, n: nat, version: string)
    requires n <= |ids| && InLog(ids, log)
    ensures EventsFor(r, log, ids[..n], version) <= EventsFor(r, log, ids, version)
    decreases |ids|
  {
    hide EventFor;
    if n == |ids| {
      assert ids[..n] == ids;
    } else {
      var front := ids[..|ids| - 1];
      assert front[..n] == ids[..n];
      EventsGrow(r, log, front, n, version);
    }
  }

  // ------------------------------------------------------------- what a row stands for

  /** A row is worth forwarding exactly if all three columns decode, the operation is
      one the trigger writes, and its table resolves. */
  lemma GoodIff(r: Resolvers, names: seq<string>, row: LogRow)
    requires Resolves(r, names)
    ensures Good(r, row) <==>
      && row.table.Some? && row.op.Some? && row.row.Some? && row.op.value in {"insert", "update", "delete"}
      && (row.table.value in names || |Owners(names, BareName(row.table.value))| == 1)
  {
    hide BareName, Owners, Resolve;
    if row.table.Some? { ResolvesTo(r, names, row.table.value); }
  }

  /** The events of a configured table's rows. */
  lemma RowMeans(r: Resolvers, names: seq<string>, table: string, row: Json, version: string)
    requires Resolves(r, names) && table in names
    ensures EventFor(r, LogRow(Some(table), Some("insert"), Some(row)), version) == Some(S.Event(table, R.Insert, row, version))
    ensures EventFor(r, LogRow(Some(table), Some("update"), Some(row)), version) == Some(S.Event(table, R.Update, row, version))
    ensures EventFor(r, LogRow(Some(table), Some("delete"), Some(row)), version) == Some(S.Event(table, R.Delete, row, version))
  {
    hide BareName, Owners, Resolve;
    ResolvesTo(r, names, table);
  }

  // ------------------------------------------------------------- what one call keeps

  /** The rows worth forwarding, in id order. */
  function GoodIds(r: Resolvers, log: Log, ids: seq<nat>): seq<nat>
    requires InLog(ids, log)
  {
    if ids == [] then []
    else GoodIds(r, log, ids[..|ids| - 1]) + if Good(r, log[ids[|ids| - 1]]) then [ids[|ids| - 1]] else []
  }

  /** `evs` are these rows' events, one for one. */
  ghost predicate Matches(r: Resolvers, log: Log, ids: seq<nat>, evs: seq<S.Event>) {
    && |evs| == |ids|
    && forall k :: 0 <= k < |ids| ==> ids[k] in log && Some(evs[k]) == EventFor(r, log[ids[k]], evs[k].schemaVersion)
  }

  lemma VersionIrrelevant(r: Resolvers, row: LogRow, version: string)
    ensures EventFor(r, row, version).Some? <==> Good(r, row)
    ensures Good(r, row) ==> EventFor(r, row, version).value.schemaVersion == version
  {
  }

  lemma {:induction false} EventsAreGood(r: Resolvers, log: Log, ids: seq<nat>, version: string)
    requires InLog(ids, log)
    ensures Matches(r, log, GoodIds(r, log, ids), EventsFor(r, log, ids, version))
    ensures (forall k :: 0 <= k < |ids| ==> Good(r, log[ids[k]])) ==> GoodIds(r, log, ids) == ids
  {
    hide EventFor, Good;
    if ids != [] {
      var n := |ids| - 1;
      EventsAreGood(r, log, ids[..n], version);
      VersionIrrelevant(r, log[ids[n]], version);
      assert ids == ids[..n] + [ids[n]];
    }
  }

  lemma {:induction false} GoodIdsFacts(r: Resolvers, log: Log, ids: seq<nat>, x: nat)
    requires InLog(ids, log) && Ascends(ids)
    ensures x in GoodIds(r, log, ids) <==> x in ids && x in log && Good(r, log[x])
    ensures Ascends(GoodIds(r, log, ids))
  {
    hide Good;
    if ids != [] {
      var n := |ids| - 1;
      var front := GoodIds(r, log, ids[..n]);
      GoodIdsFacts(r, log, ids[..n], x);
      assert ids == ids[..n] + [ids[n]];
      forall k | 0 <= k < |front| ensures front[k] < ids[n] {
        GoodIdsFacts(r, log, ids[..n], front[k]);
        assert front[k] in ids[..n];
      }
    }
  }

  ghost predicate SomeBad(r: Resolvers, log: Log, ids: seq<nat>)
    requires InLog(ids, log)
  {
    exists k :: 0 <= k < |ids| && !Good(r, log[ids[k]])
  }

  /** How a call ends: with nothing to do on an empty log; without a schema version;
      strict, on a malformed row; with more well-formed rows than the streamer takes,
      after exactly those it took; or with the DELETE. */
  lemma EndsBecause(log: Log, forwarded: seq<S.Event>, res: Resolvers, mode: Mode, round: Round)
    requires Positive(log)
    ensures var (a, b) := (Once(log, forwarded, res, mode, round), Batch(log));
            var good := |GoodIds(res, log, b)|;
            if log == map[] then a == After(round.arrivals, forwarded, Drained(0, 0))
            else if round.version.None? then a.result == NoVersion && a.forwarded == forwarded
            else if mode.Strict? && SomeBad(res, log, b) then a.result == Invalid && a.forwarded == forwarded
            else if good > round.sends then a.result == StreamerGone && |a.forwarded| == |forwarded| + round.sends
            else |a.forwarded| == |forwarded| + good
                 && a.result == if round.deletes then Drained(|b|, good) else DeleteFailed
  {
    hide SortedIds, EventFor, Good, GoodIds, EventsFor, Batch, MaxId, Deleted;
    BatchFacts(log);
    if round.version.Some? { EventsAreGood(res, log, Batch(log), round.version.value); }
    if log == map[] { assert log + round.arrivals == round.arrivals; }
  }

  /** A lenient call removes exactly the rows up to its batch's last id, and has
      forwarded the well-formed rows of the batch, in id order. */
  lemma LenientRemoves(log: Log, forwarded: seq<S.Event>, res: Resolvers, round: Round)
    requires Positive(log) && Once(log, forwarded, res, Lenient, round).result.Drained? && log != map[]
    ensures var (a, b) := (Once(log, forwarded, res, Lenient, round), Batch(log));
            && a.log == Deleted(log + round.arrivals, MaxId(b))
            && |forwarded| <= |a.forwarded| && a.forwarded[..|forwarded|] == forwarded
            && Matches(res, log, GoodIds(res, log, b), a.forwarded[|forwarded|..])
            && a.result.processed == |b| && a.result.forwarded == |GoodIds(res, log, b)|
  {
    hide SortedIds, EventFor, Good, GoodIds, EventsFor, Batch, MaxId, Deleted;
    BatchFacts(log);
    EventsAreGood(res, log, Batch(log), round.version.value);
  }

  /** Any other end of a lenient call deletes nothing; what it sent is a first part
      of the well-formed rows of its batch, the whole of it if only the DELETE failed. */
  lemma LenientKeeps(log: Log, forwarded: seq<S.Event>, res: Resolvers, round: Round)
    requires !Once(log, forwarded, res, Lenient, round).result.Drained?
    ensures var (a, good) := (Once(log, forwarded, res, Lenient, round), GoodIds(res, log, Batch(log)));
            && a.log == log + round.arrivals && forwarded <= a.forwarded
            && |a.forwarded| - |forwarded| <= |good|
            && Matches(res, log, good[..|a.forwarded| - |forwarded|], a.forwarded[|forwarded|..])
            && (a.result.DeleteFailed? ==> |a.forwarded| - |forwarded| == |good|)
  {
    hide SortedIds, EventFor, Good, GoodIds, EventsFor, Batch, MaxId, Deleted;
    if round.version.Some? {
      var (b, evs) := (Batch(log), EventsFor(res, log, Batch(log), round.version.value));
      var good := GoodIds(res, log, b);
      EventsAreGood(res, log, b, round.version.value);
      if |evs| > round.sends {
        MatchesPrefix(res, log, good, evs, round.sends);
      } else {
        assert good[..|evs|] == good;
      }
    }
  }

  lemma OnceDeletes(log: Log, forwarded: seq<S.Event>, res: Resolvers, mode: Mode, round: Round)
    requires Positive(log) && log != map[]
    requires Once(log, forwarded, res, mode, round).result.Drained?
    ensures Once(log, forwarded, res, mode, round).log == Deleted(log + round.arrivals, MaxId(Batch(log)))
  {
    hide SortedIds, EventsFor, Good, Batch, MaxId, Deleted;
    BatchFacts(log);
  }

  /** Nothing disappears unseen exactly if every row that became visible meanwhile
      has a larger id than the batch. */
  lemma NothingLostIff(log: Log, forwarded: seq<S.Event>, res: Resolvers, mode: Mode, round: Round)
    requires Positive(log) && log != map[] && log.Keys !! round.arrivals.Keys
    requires Once(log, forwarded, res, mode, round).result.Drained?
    ensures (forall i :: i in log + round.arrivals && i !in Once(log, forwarded, res, mode, round).log ==> i in Batch(log))
            <==> forall i :: i in round.arrivals ==> i > MaxId(Batch(log))
  {
    hide SortedIds, EventsFor, Good, Batch, MaxId, Once, Deleted;
    OnceDeletes(log, forwarded, res, mode, round);
    var b := Batch(log);
    forall i: nat ensures i in b <==> i in log && i <= MaxId(b) { InBatchIff(log, i); }
    DeletedBy(log, round.arrivals, b, MaxId(b));
  }

  lemma DeletedBy(log: Log, arrivals: Log, b: seq<nat>, m: nat)
    requires log.Keys !! arrivals.Keys && forall i :: i in b <==> i in log && i <= m
    ensures (forall i :: i in log + arrivals && i !in Deleted(log + arrivals, m) ==> i in b) <==>
            forall i :: i in arrivals ==> i > m
  {
    if i :| i in arrivals && i <= m {
      assert i in log + arrivals && i !in Deleted(log + arrivals, m) && i !in b;
    }
  }

  // ----------------------------------------------------------------- the strict fence

  ghost predicate NoWriters(rounds: seq<Round>) {
    forall k :: 0 <= k < |rounds| ==> rounds[k].arrivals == map[]
  }

  /** Rows become visible in id order: each round's are larger than all before. */
  ghost predicate InOrder(total: Log, rounds: seq<Round>)
    decreases |rounds|
  {
    Positive(total) &&
    (rounds == [] ||
     (&& Positive(rounds[0].arrivals) && AllBelow(total.Keys, rounds[0].arrivals.Keys)
      && InOrder(total + rounds[0].arrivals, rounds[1..])))
  }

  ghost predicate Includes(total: Log, log: Log) { forall i :: i in log ==> i in total && total[i] == log[i] }

  /** The rows already forwarded and the rows still there are, together and in id
      order, all the rows there ever were; `dup` are rows sent but still there. */
  ghost predicate Fenced(res: Resolvers, total: Log, done: seq<nat>, dup: seq<nat>, log: Log,
                         before: seq<S.Event>, after: seq<S.Event>) {
    && Positive(total) && Includes(total, log)
    && done + SortedIds(log.Keys) == SortedIds(total.Keys)
    && dup <= SortedIds(log.Keys)
    && before <= after && Matches(res, total, done + dup, after[|before|..])
  }

  /** Where a strict drain stopped: all rows there ever were, those forwarded and
      deleted, those sent but still there, and what its last call met. */
  datatype FenceEnd = FenceEnd(total: Log, done: seq<nat>, dup: seq<nat>, at: Log, met: Round)

  /** Which rows a stop leaves both sent and still in the log: none after a success,
      a malformed row or an unreadable version; what got through before the streamer
      went away; the whole batch if its DELETE failed. A malformed row stays. */
  ghost predicate EndsFor(res: Resolvers, last: Result, end: FenceEnd, log: Log) {
    var b := Batch(end.at);
    && (last.Drained? || last.Invalid? || last.NoVersion? ==> end.dup == [])
    && (last.StreamerGone? ==> end.met.sends <= |b| && end.dup == b[..end.met.sends])
    && (last.DeleteFailed? ==> end.dup == b && !end.met.deletes)
    && (last.Drained? ==> log == end.met.arrivals)
    && (!last.Drained? ==> log == end.at + end.met.arrivals)
    && (last.Invalid? ==> exists k :: 0 <= k < |b| && !Good(res, end.at[b[k]]) && b[k] in log)
  }

  lemma StrictEnds(res: Resolvers, log: Log, forwarded: seq<S.Event>, round: Round)
    ensures var a := Once(log, forwarded, res, Strict, round);
            && (!a.result.Drained? ==> a.log == log + round.arrivals)
            && (a.result.DeleteFailed? ==> !round.deletes)
            && (a.result.Invalid? ==>
                exists k :: 0 <= k < |Batch(log)| && !Good(res, log[Batch(log)[k]]) && Batch(log)[k] in a.log)
  {
    hide Batch, Good, EventsFor, MaxId, Deleted;
  }

  /** With no other writer: a success has forwarded the whole log in id order and
      emptied it; a malformed row or an unreadable version leaves forwarded rows
      followed by remaining rows exactly the log there was; nothing is ever lost. */
  ghost predicate Undisturbed(res: Resolvers, last: Result, end: FenceEnd, log0: Log, log: Log,
                              before: seq<S.Event>, after: seq<S.Event>) {
    && before <= after
    && end.done + SortedIds(log.Keys) == SortedIds(log0.Keys)
    && Matches(res, log0, end.done + end.dup, after[|before|..])
    && Includes(log0, log) && end.dup <= SortedIds(log.Keys)
    && (last.Drained? ==> log == map[] && end.done == SortedIds(log0.Keys))
    && (last.Drained? || last.Invalid? || last.NoVersion? ==> Matches(res, log0, end.done, after[|before|..]))
  }

  /** What the fence keeps from call to call. */
  ghost predicate OnTrack(res: Resolvers, log0: Log, before: seq<S.Event>, rounds: seq<Round>, k: nat, total: Log,
                          done: seq<nat>, calls: seq<Call>, log: Log, forwarded: seq<S.Event>) {
    && k <= |rounds| && InOrder(total, rounds[k..])
    && Includes(total, log0) && (NoWriters(rounds) ==> total == log0)
    && Fenced(res, total, done, [], log, before, forwarded)
    && RanTo(res, Trace(log0, log0, before), calls, Trace(total, log, forwarded))
  }

  ghost function EndOf(last: Result, total: Log, done: seq<nat>, at: Log, met: Round): FenceEnd {
    var (b, n) := (Batch(at), if met.sends <= |Batch(at)| then met.sends else 0);
    FenceEnd(total + met.arrivals, done, match last case StreamerGone => b[..n] case DeleteFailed => b case _ => [], at, met)
  }

  lemma StartTrack(res: Resolvers, log: Log, forwarded: seq<S.Event>, rounds: seq<Round>)
    requires Positive(log) && InOrder(log, rounds)
    ensures OnTrack(res, log, forwarded, rounds, 0, log, [], [], log, forwarded)
  {
    hide InOrder, Fenced, NoWriters, RanTo;
    assert rounds[0..] == rounds;
    StartFence(res, log, forwarded);
    NoCalls(res, Trace(log, log, forwarded));
  }

  /** A call that deleted a batch stays on track. */
  lemma TrackGoes(res: Resolvers, log0: Log, before: seq<S.Event>, rounds: seq<Round>, k: nat, calm: Round, total: Log,
                  done: seq<nat>, calls: seq<Call>, log: Log, forwarded: seq<S.Event>)
    requires OnTrack(res, log0, before, rounds, k, total, done, calls, log, forwarded) && calm.arrivals == map[]
    requires var a := Once(log, forwarded, res, Strict, if k < |rounds| then rounds[k] else calm);
             a.result.Drained? && a.result.processed != 0
    ensures var (round, next) := if k < |rounds| then (rounds[k], k + 1) else (calm, k);
            var a := Once(log, forwarded, res, Strict, round);
            && OnTrack(res, log0, before, rounds, next, total + round.arrivals, done + Batch(log),
                       calls + [Call(Strict, round)], a.log, a.forwarded)
            && |Batch(log)| == a.result.forwarded && (k == |rounds| ==> |a.log| < |log|)
  {
    hide Once, InOrder, Fenced, Batch, Includes, NoWriters, RanTo, Positive, AllBelow;
    var round := if k < |rounds| then rounds[k] else calm;
    NextInOrder(total, rounds, k, calm);
    StrictStep(res, total, done, log, before, forwarded, round);
    TotalGrows(log0, total, rounds, k, calm);
    OneMore(res, Trace(log0, log0, before), calls, Trace(total, log, forwarded), Call(Strict, round));
  }

  lemma StopEnds(res: Resolvers, total: Log, done: seq<nat>, log: Log, before: seq<S.Event>, forwarded: seq<S.Event>,
                 round: Round)
    requires Fenced(res, total, done, [], log, before, forwarded)
    requires Positive(round.arrivals) && AllBelow(total.Keys, round.arrivals.Keys)
    requires var a := Once(log, forwarded, res, Strict, round); !(a.result.Drained? && a.result.processed != 0)
    ensures var a := Once(log, forwarded, res, Strict, round);
            var end := EndOf(a.result, total, done, log, round);
            Fenced(res, end.total, done, end.dup, a.log, before, a.forwarded) && EndsFor(res, a.result, end, a.log)
  {
    hide Once, Fenced, Batch, Positive, AllBelow, Good;
    StrictStep(res, total, done, log, before, forwarded, round);
    StrictEnds(res, log, forwarded, round);
  }

  /** Any other call ends the drain where `EndOf` says. */
  lemma TrackStops(res: Resolvers, log0: Log, before: seq<S.Event>, rounds: seq<Round>, k: nat, calm: Round, total: Log,
                   done: seq<nat>, calls: seq<Call>, log: Log, forwarded: seq<S.Event>)
    requires OnTrack(res, log0, before, rounds, k, total, done, calls, log, forwarded) && calm.arrivals == map[]
    requires var a := Once(log, forwarded, res, Strict, if k < |rounds| then rounds[k] else calm);
             !(a.result.Drained? && a.result.processed != 0)
    ensures var round := if k < |rounds| then rounds[k] else calm;
            var a := Once(log, forwarded, res, Strict, round);
            var end := EndOf(a.result, total, done, log, round);
            && end.done == done && Includes(end.total, log0) && (NoWriters(rounds) ==> end.total == log0)
            && Fenced(res, end.total, end.done, end.dup, a.log, before, a.forwarded) && EndsFor(res, a.result, end, a.log)
            && RanTo(res, Trace(log0, log0, before), calls + [Call(Strict, round)], Trace(end.total, a.log, a.forwarded))
            && (NoWriters(rounds) ==> Undisturbed(res, a.result, end, log0, a.log, before, a.forwarded))
  {
    hide Once, InOrder, Fenced, EndsFor, Includes, NoWriters, Undisturbed, RanTo, Positive, AllBelow, Good;
    var round := if k < |rounds| then rounds[k] else calm;
    var a := Once(log, forwarded, res, Strict, round);
    NextInOrder(total, rounds, k, calm);
    StopEnds(res, total, done, log, before, forwarded, round);
    TotalGrows(log0, total, rounds, k, calm);
    OneMore(res, Trace(log0, log0, before), calls, Trace(total, log, forwarded), Call(Strict, round));
    if NoWriters(rounds) {
      FenceMeans(res, a.result, EndOf(a.result, total, done, log, round), log0, a.log, before, a.forwarded);
    }
  }

  lemma TotalGrows(log0: Log, total: Log, rounds: seq<Round>, k: nat, calm: Round)
    requires Includes(total, log0) && (NoWriters(rounds) ==> total == log0) && k <= |rounds| && calm.arrivals == map[]
    requires var round := if k < |rounds| then rounds[k] else calm; AllBelow(total.Keys, round.arrivals.Keys)
    ensures var round := if k < |rounds| then rounds[k] else calm;
            && Includes(total + round.arrivals, log0)
            && (NoWriters(rounds) ==> round.arrivals == map[] && total + round.arrivals == log0)
  {
  }

  lemma FenceMeans(res: Resolvers, last: Result, end: FenceEnd, log0: Log, log: Log, before: seq<S.Event>,
                   after: seq<S.Event>)
    requires Fenced(res, end.total, end.done, end.dup, log, before, after) && end.total == log0
    requires EndsFor(res, last, end, log) && end.met.arrivals == map[]
    ensures Undisturbed(res, last, end, log0, log, before, after)
  {
    hide Matches, Good, Batch;
    assert end.done + [] == end.done;
  }

  lemma StartFence(res: Resolvers, log: Log, forwarded: seq<S.Event>)
    requires Positive(log)
    ensures Fenced(res, log, [], [], log, forwarded, forwarded)
  {
    assert [] + SortedIds(log.Keys) == SortedIds(log.Keys);
  }

  lemma NextInOrder(total: Log, rounds: seq<Round>, k: nat, calm: Round)
    requires k <= |rounds| && InOrder(total, rounds[k..]) && calm.arrivals == map[]
    ensures var round := if k < |rounds| then rounds[k] else calm;
            && Positive(round.arrivals) && AllBelow(total.Keys, round.arrivals.Keys)
            && InOrder(total + round.arrivals, if k < |rounds| then rounds[k + 1..] else rounds[k..])
  {
    if k < |rounds| {
      assert rounds[k..][1..] == rounds[k + 1..];
    } else {
      assert total + map[] == total;
    }
  }

  lemma MatchesJoin(res: Resolvers, log: Log, a: seq<nat>, x: seq<S.Event>, b: seq<nat>, y: seq<S.Event>)
    requires Matches(res, log, a, x) && Matches(res, log, b, y)
    ensures Matches(res, log, a + b, x + y)
  {
    hide EventFor;
  }

  lemma MatchesWider(res: Resolvers, log: Log, total: Log, a: seq<nat>, x: seq<S.Event>)
    requires Matches(res, log, a, x) && Includes(total, log)
    ensures Matches(res, total, a, x)
  {
    hide EventFor;
  }

  lemma MatchesPrefix(res: Resolvers, log: Log, a: seq<nat>, x: seq<S.Event>, n: nat)
    requires Matches(res, log, a, x) && n <= |a|
    ensures Matches(res, log, a[..n], x[..n])
  {
    hide EventFor;
  }

  /** What the whole batch forwards, when all of it is well formed. */
  lemma StrictBatch(res: Resolvers, log: Log, version: string)
    requires Positive(log) && forall k :: 0 <= k < |Batch(log)| ==> Good(res, log[Batch(log)[k]])
    ensures Matches(res, log, Batch(log), EventsFor(res, log, Batch(log), version))
  {
    EventsAreGood(res, log, Batch(log), version);
  }

  lemma KeysJoin(a: Log, b: Log)
    ensures (a + b).Keys == a.Keys + b.Keys
  {
  }

  lemma BelowSubset(total: Log, log: Log, arrivals: Log)
    requires Includes(total, log) && AllBelow(total.Keys, arrivals.Keys)
    ensures AllBelow(log.Keys, arrivals.Keys)
    ensures Includes(total + arrivals, log + arrivals) && Includes(total + arrivals, total)
  {
  }

  lemma Regroup(a: seq<nat>, b: seq<nat>, c: seq<nat>, t: seq<nat>)
    requires a + b == t
    ensures a + (b + c) == t + c
  {
    assert a + (b + c) == a + b + c;
  }

  lemma ArrivalsJoin(total: Log, log: Log, done: seq<nat>, arrivals: Log)
    requires Includes(total, log) && done + SortedIds(log.Keys) == SortedIds(total.Keys)
    requires AllBelow(total.Keys, arrivals.Keys)
    ensures done + SortedIds((log + arrivals).Keys) == SortedIds((total + arrivals).Keys)
    ensures SortedIds((log + arrivals).Keys) == SortedIds(log.Keys) + SortedIds(arrivals.Keys)
    ensures Includes(total + arrivals, log + arrivals) && Includes(total + arrivals, total)
  {
    hide SortedIds, Includes, AllBelow;
    BelowSubset(total, log, arrivals);
    KeysJoin(total, arrivals);
    KeysJoin(log, arrivals);
    SortedJoin(total.Keys, arrivals.Keys);
    SortedJoin(log.Keys, arrivals.Keys);
    Regroup(done, SortedIds(log.Keys), SortedIds(arrivals.Keys), SortedIds(total.Keys));
  }

  /** The call changed nothing but what became visible. */
  lemma StepNothing(res: Resolvers, total: Log, done: seq<nat>, log: Log, before: seq<S.Event>,
                    forwarded: seq<S.Event>, arrivals: Log)
    requires Fenced(res, total, done, [], log, before, forwarded)
    requires Positive(arrivals) && AllBelow(total.Keys, arrivals.Keys)
    ensures Fenced(res, total + arrivals, done, [], log + arrivals, before, forwarded)
  {
    hide SortedIds, Matches, AllBelow, Includes;
    ArrivalsJoin(total, log, done, arrivals);
    assert done + [] == done;
    MatchesWider(res, total, total + arrivals, done, forwarded[|before|..]);
  }

  lemma StepSends(res: Resolvers, total: Log, done: seq<nat>, log: Log, before: seq<S.Event>, forwarded: seq<S.Event>,
                  arrivals: Log, version: string, n: nat)
    requires Fenced(res, total, done, [], log, before, forwarded)
    requires Positive(arrivals) && AllBelow(total.Keys, arrivals.Keys)
    requires forall k :: 0 <= k < |Batch(log)| ==> Good(res, log[Batch(log)[k]])
    ensures var (b, evs) := (Batch(log), EventsFor(res, log, Batch(log), version));
            && |evs| == |b|
            && (n <= |b| ==>
                && before <= forwarded + evs[..n]
                && Matches(res, total + arrivals, done + b[..n], (forwarded + evs[..n])[|before|..]))
  {
    hide SortedIds, Matches, AllBelow, Batch, Good, EventsFor, Positive, Includes;
    var (b, evs) := (Batch(log), EventsFor(res, log, Batch(log), version));
    var total' := total + arrivals;
    assert Includes(total', log) && Includes(total', total) by { WiderStill(total, log, arrivals); }
    assert Positive(log) by { StillPositive(total, log); }
    StrictBatch(res, log, version);
    MatchesWider(res, log, total', b, evs);
    MatchLength(res, total', b, evs);
    if n <= |b| {
      assert done + [] == done;
      MatchesWider(res, total, total', done, forwarded[|before|..]);
      MatchesPrefix(res, total', b, evs, n);
      MatchesJoin(res, total', done, forwarded[|before|..], b[..n], evs[..n]);
      assert (forwarded + evs[..n])[|before|..] == forwarded[|before|..] + evs[..n];
    }
  }

  lemma WiderStill(total: Log, log: Log, arrivals: Log)
    requires Includes(total, log) && AllBelow(total.Keys, arrivals.Keys)
    ensures Includes(total + arrivals, log) && Includes(total + arrivals, total)
  {
  }

  lemma StillPositive(total: Log, log: Log)
    requires Includes(total, log) && Positive(total)
    ensures Positive(log)
  {
  }

  lemma StepDrained(res: Resolvers, total: Log, done: seq<nat>, log: Log, before: seq<S.Event>, forwarded: seq<S.Event>,
                    arrivals: Log, version: string)
    requires Fenced(res, total, done, [], log, before, forwarded) && Batch(log) != []
    requires Positive(arrivals) && AllBelow(total.Keys, arrivals.Keys)
    requires forall k :: 0 <= k < |Batch(log)| ==> Good(res, log[Batch(log)[k]])
    ensures var (b, evs) := (Batch(log), EventsFor(res, log, Batch(log), version));
            var left := Deleted(log + arrivals, MaxId(b));
            && |evs| == |b|
            && Fenced(res, total + arrivals, done + b, [], left, before, forwarded + evs)
            && (arrivals == map[] ==> |left| < |log|)
  {
    hide SortedIds, Matches, AllBelow, Batch, Good, EventsFor, MaxId, Deleted, Includes;
    var (b, evs) := (Batch(log), EventsFor(res, log, Batch(log), version));
    StepSends(res, total, done, log, before, forwarded, arrivals, version, |b|);
    assert b[..|b|] == b && evs[..|b|] == evs;
    StillPositive(total, log);
    DeletedJoin(log, arrivals, b, done, total);
    assert done + b + [] == done + b;
  }

  lemma StepGone(res: Resolvers, total: Log, done: seq<nat>, log: Log, before: seq<S.Event>, forwarded: seq<S.Event>,
                 arrivals: Log, version: string, n: nat)
    requires Fenced(res, total, done, [], log, before, forwarded)
    requires Positive(arrivals) && AllBelow(total.Keys, arrivals.Keys)
    requires forall k :: 0 <= k < |Batch(log)| ==> Good(res, log[Batch(log)[k]])
    requires n <= |Batch(log)|
    ensures var (b, evs) := (Batch(log), EventsFor(res, log, Batch(log), version));
            |evs| == |b| && Fenced(res, total + arrivals, done, b[..n], log + arrivals, before, forwarded + evs[..n])
  {
    hide SortedIds, Matches, AllBelow, Batch, Good, EventsFor, Includes, Fenced, Positive;
    StepSends(res, total, done, log, before, forwarded, arrivals, version, n);
    StepNothing(res, total, done, log, before, forwarded, arrivals);
    var evs := EventsFor(res, log, Batch(log), version);
    BatchLeads(res, total, done, log, before, forwarded, arrivals, n);
    SomeSent(res, total + arrivals, done, Batch(log)[..n], log + arrivals, before, forwarded, forwarded + evs[..n]);
  }

  lemma BatchLeads(res: Resolvers, total: Log, done: seq<nat>, log: Log, before: seq<S.Event>, forwarded: seq<S.Event>,
                   arrivals: Log, n: nat)
    requires Fenced(res, total, done, [], log, before, forwarded) && AllBelow(total.Keys, arrivals.Keys)
    requires n <= |Batch(log)|
    ensures Batch(log)[..n] <= SortedIds((log + arrivals).Keys)
  {
    hide SortedIds, Matches, AllBelow, Batch, Includes, Positive;
    BatchPrefix(log);
    ArrivalsJoin(total, log, done, arrivals);
    PrefixChain(Batch(log), n, SortedIds(log.Keys), SortedIds(arrivals.Keys));
  }

  lemma BatchPrefix(log: Log)
    ensures Batch(log) <= SortedIds(log.Keys)
  {
    hide SortedIds;
  }

  lemma PrefixChain(b: seq<nat>, n: nat, all: seq<nat>, more: seq<nat>)
    requires b <= all && n <= |b|
    ensures b[..n] <= all + more
  {
    assert b == all[..|b|];
  }

  lemma SomeSent(res: Resolvers, total: Log, done: seq<nat>, dup: seq<nat>, log: Log, before: seq<S.Event>,
                 forwarded: seq<S.Event>, more: seq<S.Event>)
    requires Fenced(res, total, done, [], log, before, forwarded) && dup <= SortedIds(log.Keys)
    requires before <= more && Matches(res, total, done + dup, more[|before|..])
    ensures Fenced(res, total, done, dup, log, before, more)
  {
    hide SortedIds, Matches;
  }

  lemma RegroupCut(a: seq<nat>, b: seq<nat>, c: seq<nat>, d: seq<nat>, t: seq<nat>)
    requires a + (b + c) == t
    ensures a + b + (c + d) == t + d
  {
    assert a + b + (c + d) == a + (b + c) + d;
  }

  /** One strict call from a fenced state leads to a fenced state, whatever happens. */
  lemma StrictStep(res: Resolvers, total: Log, done: seq<nat>, log: Log, before: seq<S.Event>,
                   forwarded: seq<S.Event>, round: Round)
    requires Fenced(res, total, done, [], log, before, forwarded)
    requires Positive(round.arrivals) && AllBelow(total.Keys, round.arrivals.Keys)
    ensures var a := Once(log, forwarded, res, Strict, round);
            var total' := total + round.arrivals;
            var b := Batch(log);
            match a.result
            case Drained(processed, sent) =>
              && processed == |b| == sent && Fenced(res, total', done + b, [], a.log, before, a.forwarded)
              && (processed == 0 ==> done + b == done && a.log == round.arrivals)
              && (processed > 0 && round.arrivals == map[] ==> |a.log| < |log|)
            case StreamerGone =>
              round.sends <= |b| && Fenced(res, total', done, b[..round.sends], a.log, before, a.forwarded)
            case DeleteFailed => Fenced(res, total', done, b, a.log, before, a.forwarded)
            case _ => Fenced(res, total', done, [], a.log, before, a.forwarded)
  {
    hide EventsFor, Good, Batch, MaxId, Deleted, Fenced, AllBelow, Positive;
    var a, b := Once(log, forwarded, res, Strict, round), Batch(log);
    StepNothing(res, total, done, log, before, forwarded, round.arrivals);
    if b == [] {
      assert done + b == done;
      NothingLeft(res, total, done, log, before, forwarded);
      assert log + round.arrivals == round.arrivals;
    } else if a.result.Drained? {
      StepDrained(res, total, done, log, before, forwarded, round.arrivals, round.version.value);
    } else if a.result.StreamerGone? {
      StepSends(res, total, done, log, before, forwarded, round.arrivals, round.version.value, 0);
      StepGone(res, total, done, log, before, forwarded, round.arrivals, round.version.value, round.sends);
    } else if a.result.DeleteFailed? {
      var evs := EventsFor(res, log, b, round.version.value);
      StepGone(res, total, done, log, before, forwarded, round.arrivals, round.version.value, |b|);
      assert b[..|b|] == b && evs[..|evs|] == evs;
    }
  }

  lemma NothingLeft(res: Resolvers, total: Log, done: seq<nat>, log: Log, before: seq<S.Event>, forwarded: seq<S.Event>)
    requires Fenced(res, total, done, [], log, before, forwarded) && Batch(log) == []
    ensures log == map[]
  {
    hide SortedIds, Matches, Batch;
    StillPositive(total, log);
    BatchFacts(log);
  }

  lemma MatchLength(res: Resolvers, log: Log, ids: seq<nat>, evs: seq<S.Event>)
    requires Matches(res, log, ids, evs)
    ensures |evs| == |ids|
  {
  }

  lemma RestAndNew(log: Log, arrivals: Log, m: nat)
    requires AllBelow(log.Keys, arrivals.Keys) && m in log
    ensures Deleted(log + arrivals, m) == Deleted(log, m) + arrivals
    ensures m !in Deleted(log, m) && AllBelow(Deleted(log, m).Keys, arrivals.Keys)
    ensures Includes(log, Deleted(log, m))
  {
  }

  /** What is left after the DELETE: the rest of the log, then the new rows. */
  lemma DeletedJoin(log: Log, arrivals: Log, b: seq<nat>, done: seq<nat>, total: Log)
    requires Positive(log) && Includes(total, log) && AllBelow(total.Keys, arrivals.Keys)
    requires b == Batch(log) && b != [] && done + SortedIds(log.Keys) == SortedIds(total.Keys)
    ensures var left := Deleted(log + arrivals, MaxId(b));
            && done + b + SortedIds(left.Keys) == SortedIds((total + arrivals).Keys)
            && Includes(total + arrivals, left)
            && (arrivals == map[] ==> |left| < |log|)
  {
    hide SortedIds, Batch, MaxId, AllBelow, Includes, Deleted, Positive;
    var rest, m := Deleted(log, MaxId(b)), MaxId(b);
    assert m in log && SortedIds(log.Keys) == b + SortedIds(rest.Keys) by { CutBatch(log, b); }
    BelowSubset(total, log, arrivals);
    RestAndNew(log, arrivals, m);
    RestJoin(rest, arrivals, total, done, b, SortedIds(log.Keys));
    IncludesStep(total + arrivals, log, rest, arrivals, total);
    if arrivals == map[] {
      assert rest + arrivals == rest;
      Fewer(rest, log, m);
    }
  }

  lemma CutBatch(log: Log, b: seq<nat>)
    requires Positive(log) && b == Batch(log) && b != []
    ensures MaxId(b) in log && SortedIds(log.Keys) == b + SortedIds(Deleted(log, MaxId(b)).Keys)
  {
    hide SortedIds, Batch, MaxId, Deleted;
    BatchFacts(log);
    var all := SortedIds(log.Keys);
    assert all == all[..|b|] + all[|b|..];
    assert MaxId(b) == all[|b| - 1];
  }

  lemma RestJoin(rest: Log, arrivals: Log, total: Log, done: seq<nat>, b: seq<nat>, all: seq<nat>)
    requires AllBelow(rest.Keys, arrivals.Keys) && AllBelow(total.Keys, arrivals.Keys)
    requires done + all == SortedIds(total.Keys) && all == b + SortedIds(rest.Keys)
    ensures done + b + SortedIds((rest + arrivals).Keys) == SortedIds((total + arrivals).Keys)
  {
    hide SortedIds, AllBelow;
    KeysJoin(rest, arrivals);
    KeysJoin(total, arrivals);
    SortedJoin(rest.Keys, arrivals.Keys);
    SortedJoin(total.Keys, arrivals.Keys);
    RegroupCut(done, b, SortedIds(rest.Keys), SortedIds(arrivals.Keys), SortedIds(total.Keys));
  }

  lemma Fewer(rest: Log, log: Log, m: nat)
    requires Includes(log, rest) && m in log && m !in rest
    ensures |rest| < |log|
  {
    assert rest.Keys <= log.Keys - {m};
    SubsetSize(rest.Keys, log.Keys - {m});
    assert |log| == |log.Keys|;
  }

  lemma IncludesStep(wide: Log, log: Log, rest: Log, arrivals: Log, total: Log)
    requires wide == total + arrivals && Includes(total, log) && Includes(log, rest)
    requires AllBelow(total.Keys, arrivals.Keys)
    ensures Includes(wide, rest + arrivals)
  {
  }

  /** Two writers commit out of id order: row 1 becomes visible after row 2 was
      selected, and the DELETE takes it along. */
  lemma LateRowIsLost(res: Resolvers, seen: LogRow, late: LogRow)
    ensures var round := Round(Some("1"), 1, true, map[1 := late]);
            var a := Once(map[2 := seen], [], res, Lenient, round);
            a.result.Drained? && a.log == map[] && a.forwarded == EventsFor(res, map[2 := seen], [2], "1")
  {
    hide SortedIds, EventFor;
    var log := map[2 := seen];
    AllSorted({2});
    assert SortedIds({2}) == [2] by { assert |SortedIds({2})| == 1 && 2 in SortedIds({2}); }
    assert log.Keys == {2};
    assert Batch(log) == [2];
    assert [2][..0] == [];
    assert MaxId([2]) == 2;
    assert |EventsFor(res, log, [2], "1")| <= 1;
  }
}
