/** Restore's row replay: the envelope decoder, the batch planner of
    `apply_segment_rows`, the SQL statements it emits, and the one-row-at-a-time
    loop that batching replaced. */
module Replay {
  import opened Prelude
  import opened Json

  type Row = map<string, Json>

  /** A table's rows by primary key. `pk_signature` is injective on JSON values,
      so a key value stands for its own signature: two values name the same row
      exactly when they are equal. A column missing from a row holds the
      table's default. */
  type Key = Json
  type Table = map<Key, Row>

  datatype Op = Insert | Update | Delete
  datatype Entry = Entry(op: Op, row: Row)

  const BATCH_MAX_ROWS := 1000
  const BATCH_MAX_PARAMS := 60_000
  const POSTGRES_MAX_PARAMS := 65_535

  predicate ValidIdentifier(s: string) {
    s != "" && forall c :: c in s ==>
      'a' <= c <= 'z' || 'A' <= c <= 'Z' || '0' <= c <= '9' || c == '_' || c == '.'
  }

  // ---------------------------------------------------------------- decoding

  function PeelEnvelope(v: Json): Outcome<(Op, Json)> {
    if v.Obj? && "op" in v.fields && "row" in v.fields then
      match v.fields["op"]
      case Str("insert") => Done((Insert, v.fields["row"]))
      case Str("update") => Done((Update, v.fields["row"]))
      case Str("delete") => Done((Delete, v.fields["row"]))
      case _ => Failed
    else Done((Insert, v))
  }

  function OpName(op: Op): string {
    match op case Insert => "insert" case Update => "update" case Delete => "delete"
  }

  /** The envelope bootstrap and the streamer put around a row. */
  function EnvelopeOf(op: Op, row: Json): Json {
    Obj(map["op" := Str(OpName(op)), "row" := row])
  }

  /** The entries one envelope contributes: one, or none for an empty upsert. */
  function DecodeOne(env: Json): (r: Outcome<seq<Entry>>)
    ensures r.Done? ==> |r.value| <= 1 && forall e :: e in r.value ==> e.row != map[]
  {
    match PeelEnvelope(env)
    case Failed => Failed
    case Done((op, row)) =>
      if !row.Obj? then Failed
      else if row.fields != map[] then Done([Entry(op, row.fields)])
      else if op.Delete? then Failed
      else Done([])
  }

  /** Every bootstrapped row is wrapped as an insert. */
  function Inserted(row: Row): Json { EnvelopeOf(Insert, Obj(row)) }

  /** The decoder inverts the envelope, whatever the operation. */
  lemma EnvelopeDecodes(op: Op, row: Row)
    requires row != map[]
    ensures DecodeOne(EnvelopeOf(op, Obj(row))) == Done([Entry(op, row)])
    ensures DecodeOne(Inserted(row)) == Done([Entry(Insert, row)])
  {
  }

  function Decode(rows: seq<Json>): Outcome<seq<Entry>> {
    if rows == [] then Done([])
    else match (Decode(rows[..|rows| - 1]), DecodeOne(rows[|rows| - 1]))
         case (Done(front), Done(last)) => Done(front + last)
         case _ => Failed
  }

  method DecodeRows(rows: seq<Json>) returns (r: Outcome<seq<Entry>>)
    ensures r == Decode(rows)
  {
    var entries: seq<Entry> := [];
    for i := 0 to |rows|
      invariant Decode(rows[..i]) == Done(entries)
    {
      assert rows[..i + 1][..i] == rows[..i];
      match DecodeOne(rows[i]) {
        case Failed =>
          DecodeFailureSpreads(rows, i + 1);
          return Failed;
        case Done(es) => entries := entries + es;
      }
    }
    assert rows[..|rows|] == rows;
    return Done(entries);
  }

  lemma {:induction false} DecodeFailureSpreads(rows: seq<Json>, n: nat)
    requires n <= |rows| && Decode(rows[..n]).Failed?
    ensures Decode(rows).Failed?
    decreases |rows|
  {
    if n == |rows| {
      assert rows[..n] == rows;
    } else {
      var front := rows[..|rows| - 1];
      assert front[..n] == rows[..n];
      DecodeFailureSpreads(front, n);
    }
  }

  lemma {:induction false} DecodedNonempty(rows: seq<Json>)
    requires Decode(rows).Done?
    ensures forall e :: e in Decode(rows).value ==> e.row != map[]
  {
    if rows != [] { DecodedNonempty(rows[..|rows| - 1]); }
  }

  // ------------------------------------------------- the one-row-at-a-time loop

  predicate HasKey(row: Row, pk: string) {
    pk in row && row[pk] != Null
  }

  function KeyOf(row: Row, pk: string): Key
    requires HasKey(row, pk)
  {
    row[pk]
  }

  /** Whether the statement for this one entry is accepted. It never depends on
      the table. */
  predicate Accepted(e: Entry, pk: string) {
    HasKey(e.row, pk) &&
    (e.op.Delete? ||
     (|e.row| <= POSTGRES_MAX_PARAMS && ValidColumns(e.row.Keys)))
  }

  predicate ValidColumns(cols: set<string>) {
    forall c :: c in cols ==> ValidIdentifier(c)
  }

  /** The row stored under `key` after inserting `row`: on conflict only the
      listed non-key columns are overwritten. */
  function Merged(t: Table, row: Row, pk: string): Row
    requires HasKey(row, pk)
  {
    var k := KeyOf(row, pk);
    if k in t then t[k] + (row - {pk}) else row
  }

  function ApplyOne(t: Table, e: Entry, pk: string): Outcome<Table> {
    if !Accepted(e, pk) then Failed
    else if e.op.Delete? then Done(t - {KeyOf(e.row, pk)})
    else Done(t[KeyOf(e.row, pk) := Merged(t, e.row, pk)])
  }

  function ReplayEntries(t: Table, es: seq<Entry>, pk: string): Outcome<Table> {
    if es == [] then Done(t)
    else match ReplayEntries(t, es[..|es| - 1], pk)
         case Failed => Failed
         case Done(t') => ApplyOne(t', es[|es| - 1], pk)
  }

  /** The loop that decodes and applies each envelope in turn. */
  function ReplayRows(t: Table, rows: seq<Json>, pk: string): Outcome<Table> {
    if rows == [] then Done(t)
    else match (ReplayRows(t, rows[..|rows| - 1], pk), DecodeOne(rows[|rows| - 1]))
         case (Done(t'), Done(es)) => if es == [] then Done(t') else ApplyOne(t', es[0], pk)
         case _ => Failed
  }

  function ReplaySegment(t: Table, rows: seq<Json>, pk: string): Outcome<Table> {
    if rows != [] && !ValidIdentifier(pk) then Failed else ReplayRows(t, rows, pk)
  }

  lemma {:induction false} ReplayConcat(t: Table, a: seq<Entry>, b: seq<Entry>, pk: string)
    ensures ReplayEntries(t, a + b, pk) ==
            match ReplayEntries(t, a, pk)
            case Failed => Failed
            case Done(t') => ReplayEntries(t', b, pk)
    decreases |b|
  {
    hide ApplyOne;
    if b == [] {
      assert a + b == a;
    } else {
      assert (a + b)[..|a + b| - 1] == a + b[..|b| - 1];
      ReplayConcat(t, a, b[..|b| - 1], pk);
    }
  }

  lemma ReplaySnoc(t: Table, es: seq<Entry>, pk: string, n: nat, t': Table)
    requires n + 1 == |es| && ReplayEntries(t, es[..n], pk) == Done(t')
    ensures ReplayEntries(t, es, pk) == ApplyOne(t', es[n], pk)
  {
  }

  lemma ReplayFails(t: Table, es: seq<Entry>, pk: string)
    requires es != []
    ensures ReplayEntries(t, es[..|es| - 1], pk).Failed? ==> ReplayEntries(t, es, pk).Failed?
  {
  }

  /** Decoding everything up front gives the same result as interleaving. */
  lemma {:induction false} InterleavedDecoding(t: Table, rows: seq<Json>, pk: string)
    ensures ReplayRows(t, rows, pk) ==
            match Decode(rows)
            case Failed => Failed
            case Done(es) => ReplayEntries(t, es, pk)
  {
    hide ApplyOne, DecodeOne;
    if rows != [] {
      InterleavedDecoding(t, rows[..|rows| - 1], pk);
      match (Decode(rows[..|rows| - 1]), DecodeOne(rows[|rows| - 1])) {
        case (Done(front), Done(last)) =>
          ReplayConcat(t, front, last, pk);
          if last == [] { assert front + last == front; }
        case _ =>
      }
    }
  }

  // ------------------------------------------------------------ SQL statements

  datatype Stmt =
    | UpsertStmt(cols: set<string>, rows: seq<Row>)
    | DeleteStmt(keys: seq<Json>)

  predicate DistinctKeys(rows: seq<Row>, pk: string)
    requires forall r :: r in rows ==> HasKey(r, pk)
  {
    forall i, j :: 0 <= i < j < |rows| ==> KeyOf(rows[i], pk) != KeyOf(rows[j], pk)
  }

  function KeysOf(rows: seq<Row>, pk: string): set<Key>
    requires forall r :: r in rows ==> HasKey(r, pk)
  {
    set i | 0 <= i < |rows| :: KeyOf(rows[i], pk)
  }

  function RowFor(rows: seq<Row>, pk: string, key: Key): (r: Row)
    requires forall r :: r in rows ==> HasKey(r, pk)
    requires key in KeysOf(rows, pk)
    ensures r in rows && KeyOf(r, pk) == key
  {
    if KeyOf(rows[0], pk) == key then rows[0] else RowFor(rows[1..], pk, key)
  }

  /** All rows of a multi-row upsert act at once on the table the statement
      started from. */
  function Upserted(t: Table, rows: seq<Row>, pk: string): Table
    requires forall r :: r in rows ==> HasKey(r, pk)
  {
    map k | k in t.Keys + KeysOf(rows, pk) ::
      if k in KeysOf(rows, pk) then Merged(t, RowFor(rows, pk, k), pk) else t[k]
  }

  /** Postgres: the statement fails as a whole over the parameter ceiling, on a
      missing or null key, or (SQLSTATE 21000) when two rows hit one key. */
  function Exec(t: Table, s: Stmt, pk: string): Outcome<Table> {
    match s
    case UpsertStmt(cols, rows) =>
      if |cols| * |rows| > POSTGRES_MAX_PARAMS then Failed
      else if exists r :: r in rows && !HasKey(r, pk) then Failed
      else if !DistinctKeys(rows, pk) then Failed
      else Done(Upserted(t, rows, pk))
    case DeleteStmt(keys) =>
      if |keys| > POSTGRES_MAX_PARAMS then Failed
      else Done(t - KeySet(keys))
  }

  function ExecAll(t: Table, log: seq<Stmt>, pk: string): Outcome<Table> {
    if log == [] then Done(t)
    else match ExecAll(t, log[..|log| - 1], pk)
         case Failed => Failed
         case Done(t') => Exec(t', log[|log| - 1], pk)
  }

  /** A batch the planner may emit: at most 1000 rows, at most 60000 parameters
      unless it is one wider row, one column set, no key twice. */
  predicate SafeStmt(s: Stmt, pk: string) {
    match s
    case UpsertStmt(cols, rows) =>
      && 1 <= |rows| <= BATCH_MAX_ROWS
      && (|rows| == 1 || |cols| * |rows| <= BATCH_MAX_PARAMS)
      && (forall r :: r in rows ==> r.Keys == cols)
      && (|rows| == 1 || ((forall r :: r in rows ==> pk in r)
          && forall i, j :: 0 <= i < j < |rows| ==> rows[i][pk] != rows[j][pk]))
    case DeleteStmt(keys) => 1 <= |keys| <= BATCH_MAX_ROWS
  }

  /** What a statement is about: the rows it writes, or the keys it deletes. */
  datatype Effect = Write(row: Row) | Erase(key: Json)

  function EffectOf(e: Entry, pk: string): Effect {
    if e.op.Delete? then Erase(if pk in e.row then e.row[pk] else Null) else Write(e.row)
  }

  function EffectsOf(es: seq<Entry>, pk: string): (r: seq<Effect>)
    ensures |r| == |es|
  {
    seq(|es|, i requires 0 <= i < |es| => EffectOf(es[i], pk))
  }

  function StmtEffects(s: Stmt): seq<Effect> {
    match s
    case UpsertStmt(_, rows) => seq(|rows|, i requires 0 <= i < |rows| => Write(rows[i]))
    case DeleteStmt(keys) => seq(|keys|, i requires 0 <= i < |keys| => Erase(keys[i]))
  }

  function LogEffects(log: seq<Stmt>): seq<Effect> {
    if log == [] then [] else LogEffects(log[..|log| - 1]) + StmtEffects(log[|log| - 1])
  }

  // ----------------------------------------------------------------- planning

  function Cap(e: Entry): (c: nat)
    requires e.row != map[]
    ensures 1 <= c <= BATCH_MAX_ROWS
    ensures !e.op.Delete? && c > 1 ==> |e.row| * c <= BATCH_MAX_PARAMS
  {
    var perRow := if e.op.Delete? then 1 else |e.row|;
    assert perRow >= 1;
    CapBound(perRow);
    Max(Min(BATCH_MAX_ROWS, BATCH_MAX_PARAMS / perRow), 1)
  }

  function Min(a: int, b: int): int { if a < b then a else b }
  function Max(a: int, b: int): int { if a < b then b else a }

  lemma CapBound(perRow: nat)
    requires perRow >= 1
    ensures var c := Max(Min(BATCH_MAX_ROWS, BATCH_MAX_PARAMS / perRow), 1);
            c > 1 ==> perRow * c <= BATCH_MAX_PARAMS
  {
    var q := BATCH_MAX_PARAMS / perRow;
    assert perRow * q <= BATCH_MAX_PARAMS;
    var c := Max(Min(BATCH_MAX_ROWS, q), 1);
    if c > 1 {
      assert c <= q;
      assert perRow * c <= perRow * q;
    }
  }

  predicate SameMode(a: Entry, b: Entry) { a.op.Delete? == b.op.Delete? }

  ghost predicate KeysDistinct(b: seq<Entry>, pk: string) {
    && (forall m :: 0 <= m < |b| ==> pk in b[m].row)
    && (forall m, n :: 0 <= m < n < |b| ==> b[m].row[pk] != b[n].row[pk])
  }

  /** These entries may go out as one statement. */
  ghost predicate Batch(b: seq<Entry>, pk: string) {
    && |b| >= 1
    && (forall m :: 0 <= m < |b| ==> SameMode(b[0], b[m]))
    && (!b[0].op.Delete? ==>
        && (forall m :: 0 <= m < |b| ==> b[m].row.Keys == b[0].row.Keys)
        && (|b| > 1 ==> KeysDistinct(b, pk)))
  }

  function BatchKeys(b: seq<Entry>, pk: string): set<Key> {
    set m | 0 <= m < |b| && pk in b[m].row :: b[m].row[pk]
  }

  /** This entry may still join the batch, the row cap aside. */
  predicate Joins(b: seq<Entry>, e: Entry, pk: string)
    requires b != []
  {
    SameMode(b[0], e) &&
    (!e.op.Delete? ==> e.row.Keys == b[0].row.Keys && pk in e.row && e.row[pk] !in BatchKeys(b, pk))
  }

  lemma BatchExtends(b: seq<Entry>, e: Entry, pk: string)
    requires Batch(b, pk) && Joins(b, e, pk)
    ensures Batch(b + [e], pk)
  {
    var b' := b + [e];
    assert forall m :: 0 <= m < |b| ==> b'[m] == b[m];
    assert b'[|b|] == e;
  }

  lemma KeysExtend(b: seq<Entry>, e: Entry, pk: string)
    ensures BatchKeys(b + [e], pk) == BatchKeys(b, pk) + if pk in e.row then {e.row[pk]} else {}
  {
    var b' := b + [e];
    assert b'[|b|] == e;
    assert forall m :: 0 <= m < |b| ==> b'[m] == b[m];
  }

  lemma NoKeys(pk: string)
    ensures BatchKeys([], pk) == {}
  {
  }

  /** Equal size and inclusion make the column sets equal: the set test the
      planner uses in place of comparing two lists. */
  lemma SameColumns(a: set<string>, b: set<string>)
    requires |a| == |b| && a <= b
    ensures a == b
  {
    assert b == a + (b - a);
    assert |b - a| == |b| - |a|;
  }

  /** The inner loop: how far the run starting at `i` extends. It is never cut short:
      it ends at the cap, at the last entry, or before one that cannot join. */
  method RunEnd(es: seq<Entry>, i: nat, pk: string) returns (j: nat)
    requires i < |es| && es[i].row != map[]
    ensures i < j <= |es| && Batch(es[i..j], pk) && es[i..j][0] == es[i]
    ensures j - i <= Cap(es[i])
    ensures j < |es| && j - i < Cap(es[i]) ==> !Joins(es[i..j], es[j], pk)
  {
    hide Cap, BatchKeys;
    var first := es[i];
    var cap := Cap(first);
    var seen: set<Key> := {};
    if !first.op.Delete? && pk in first.row {
      seen := {first.row[pk]};
    }
    j := i + 1;
    KeysExtend([], first, pk);
    NoKeys(pk);
    assert es[i..j] == [] + [first];
    while j < |es| && j - i < cap
      invariant i < j <= |es| && Batch(es[i..j], pk) && es[i..j][0] == first
      invariant j - i <= cap
      invariant !first.op.Delete? ==> seen == BatchKeys(es[i..j], pk)
    {
      var next := es[j];
      if next.op.Delete? != first.op.Delete? { break; }
      if !first.op.Delete? {
        if |next.row| != |first.row| { break; }
        if !(forall c :: c in next.row.Keys ==> c in first.row.Keys) { break; }
        assert |next.row.Keys| == |first.row.Keys|;
        SameColumns(next.row.Keys, first.row.Keys);
        if pk !in next.row { break; }
        if next.row[pk] in seen { break; }
        seen := seen + {next.row[pk]};
      }
      BatchExtends(es[i..j], next, pk);
      KeysExtend(es[i..j], next, pk);
      assert es[i..j + 1] == es[i..j] + [next];
      j := j + 1;
    }
  }

  // -------------------------------------------------- a batch means its entries

  function RowsOf(es: seq<Entry>): (r: seq<Row>)
    ensures |r| == |es|
  {
    seq(|es|, i requires 0 <= i < |es| => es[i].row)
  }

  /** Adding one row with a new key to a multi-row upsert is one more step. */
  lemma UpsertedSnoc(t: Table, rows: seq<Row>, last: Row, pk: string)
    requires forall r :: r in rows ==> HasKey(r, pk)
    requires HasKey(last, pk) && DistinctKeys(rows + [last], pk)
    ensures Upserted(t, rows + [last], pk) ==
            Upserted(t, rows, pk)[KeyOf(last, pk) := Merged(Upserted(t, rows, pk), last, pk)]
  {
    hide RowFor;
    var k := KeyOf(last, pk);
    var all := rows + [last];
    assert k !in KeysOf(rows, pk) by {
      assert all[|rows|] == last;
      assert forall i :: 0 <= i < |rows| ==> all[i] == rows[i];
    }
    assert KeysOf(all, pk) == KeysOf(rows, pk) + {k} by {
      assert all[|rows|] == last;
      assert forall i :: 0 <= i < |rows| ==> all[i] == rows[i];
    }
    assert DistinctKeys(rows, pk) by { assert forall i :: 0 <= i < |rows| ==> all[i] == rows[i]; }
    forall x | x in KeysOf(all, pk)
      ensures RowFor(all, pk, x) == if x == k then last else RowFor(rows, pk, x)
    {
      if x == k { SameRow(all, pk, RowFor(all, pk, x), last); }
      else { SameRow(all, pk, RowFor(all, pk, x), RowFor(rows, pk, x)); }
    }
  }

  lemma SameRow(rows: seq<Row>, pk: string, a: Row, b: Row)
    requires forall r :: r in rows ==> HasKey(r, pk)
    requires DistinctKeys(rows, pk) && a in rows && b in rows && KeyOf(a, pk) == KeyOf(b, pk)
    ensures a == b
  {
    var i :| 0 <= i < |rows| && rows[i] == a;
    var j :| 0 <= j < |rows| && rows[j] == b;
    assert i == j;
  }

  lemma {:induction false} UpsertBatchReplays(t: Table, es: seq<Entry>, pk: string)
    requires forall i :: 0 <= i < |es| ==> !es[i].op.Delete? && Accepted(es[i], pk)
    requires forall r :: r in RowsOf(es) ==> HasKey(r, pk)
    requires DistinctKeys(RowsOf(es), pk)
    ensures ReplayEntries(t, es, pk) == Done(Upserted(t, RowsOf(es), pk))
  {
    hide ValidColumns, RowFor, Merged;
    if es == [] {
      assert Upserted(t, [], pk) == t;
    } else {
      var n := |es| - 1;
      var front := RowsOf(es[..n]);
      assert RowsOf(es) == front + [es[n].row];
      assert forall i :: 0 <= i < n ==> front[i] == RowsOf(es)[i];
      assert DistinctKeys(front, pk);
      UpsertBatchReplays(t, es[..n], pk);
      UpsertedSnoc(t, front, es[n].row, pk);
      ReplaySnoc(t, es, pk, n, Upserted(t, front, pk));
    }
  }

  function KeySet(keys: seq<Json>): set<Key> { set k | k in keys }

  lemma {:induction false} DeleteBatchReplays(t: Table, es: seq<Entry>, pk: string, keys: seq<Json>)
    requires |keys| == |es| && forall i :: 0 <= i < |es| ==> es[i].op.Delete?
    requires forall i :: 0 <= i < |es| ==> HasKey(es[i].row, pk) && keys[i] == es[i].row[pk]
    ensures ReplayEntries(t, es, pk) == Done(t - KeySet(keys))
  {
    if es == [] {
      assert t - KeySet(keys) == t;
    } else {
      var n := |es| - 1;
      DeleteBatchReplays(t, es[..n], pk, keys[..n]);
      ReplaySnoc(t, es, pk, n, t - KeySet(keys[..n]));
      KeySetSnoc(t, keys, n);
    }
  }

  lemma KeySetSnoc(t: Table, keys: seq<Json>, n: nat)
    requires n + 1 == |keys|
    ensures t - KeySet(keys) == t - KeySet(keys[..n]) - {keys[n]}
  {
    assert keys == keys[..n] + [keys[n]];
    assert KeySet(keys) == KeySet(keys[..n]) + {keys[n]};
  }

  ghost predicate AllAccepted(es: seq<Entry>, pk: string) {
    forall i :: 0 <= i < |es| ==> Accepted(es[i], pk)
  }

  /** One refused entry fails the whole replay, wherever it stands. */
  lemma {:induction false} RefusedFails(t: Table, es: seq<Entry>, pk: string)
    ensures ReplayEntries(t, es, pk).Done? <==> AllAccepted(es, pk)
  {
    hide Accepted, Merged;
    if es != [] {
      var n := |es| - 1;
      RefusedFails(t, es[..n], pk);
      assert AllAccepted(es, pk) <==> AllAccepted(es[..n], pk) && Accepted(es[n], pk) by {
        assert forall i :: 0 <= i < n ==> es[..n][i] == es[i];
      }
    }
  }

  /** Entry by entry, a planned upsert batch is accepted exactly when its one
      statement is. */
  lemma BatchAccepted(es: seq<Entry>, pk: string)
    requires Batch(es, pk) && !es[0].op.Delete?
    requires |es| > 1 ==> |es[0].row| * |es| <= BATCH_MAX_PARAMS
    ensures AllAccepted(es, pk) <==>
      && ValidColumns(es[0].row.Keys)
      && |es[0].row.Keys| * |es| <= POSTGRES_MAX_PARAMS
      && forall i :: 0 <= i < |es| ==> HasKey(es[i].row, pk)
  {
    hide ValidColumns;
    var cols := es[0].row.Keys;
    assert |cols| == |es[0].row|;
    forall i | 0 <= i < |es| ensures |es[i].row| == |cols| {
      assert |es[i].row| == |es[i].row.Keys|;
    }
    if |es| > 1 {
      assert |cols| <= |cols| * |es|;
    }
    assert AllAccepted(es, pk) ==> Accepted(es[0], pk);
  }

  method BatchUpsert(t: Table, pk: string, es: seq<Entry>) returns (r: Outcome<Table>, s: Stmt)
    requires 1 <= |es| <= BATCH_MAX_ROWS && Batch(es, pk) && !es[0].op.Delete?
    requires |es| > 1 ==> |es[0].row| * |es| <= BATCH_MAX_PARAMS
    ensures r == ReplayEntries(t, es, pk)
    ensures r.Done? ==> Exec(t, s, pk) == r
    ensures SafeStmt(s, pk) && StmtEffects(s) == EffectsOf(es, pk)
  {
    var cols := es[0].row.Keys;
    var rows := RowsOf(es);
    s := UpsertStmt(cols, rows);
    RefusedFails(t, es, pk);
    BatchAccepted(es, pk);
    BatchIsSafe(es, pk);
    if !ValidColumns(cols) {
      return Failed, s;
    }
    r := Exec(t, s, pk);
    UpsertStmtReplays(t, es, pk);
  }

  lemma BatchIsSafe(es: seq<Entry>, pk: string)
    requires 1 <= |es| <= BATCH_MAX_ROWS && Batch(es, pk) && !es[0].op.Delete?
    requires |es| > 1 ==> |es[0].row| * |es| <= BATCH_MAX_PARAMS
    ensures SafeStmt(UpsertStmt(es[0].row.Keys, RowsOf(es)), pk)
    ensures StmtEffects(UpsertStmt(es[0].row.Keys, RowsOf(es))) == EffectsOf(es, pk)
  {
    assert |es[0].row.Keys| == |es[0].row|;
  }

  lemma UpsertStmtReplays(t: Table, es: seq<Entry>, pk: string)
    requires Batch(es, pk) && !es[0].op.Delete?
    requires |es| > 1 ==> |es[0].row| * |es| <= BATCH_MAX_PARAMS
    requires ValidColumns(es[0].row.Keys)
    ensures Exec(t, UpsertStmt(es[0].row.Keys, RowsOf(es)), pk) == ReplayEntries(t, es, pk)
  {
    hide Upserted, ReplayEntries, Accepted;
    var rows := RowsOf(es);
    RefusedFails(t, es, pk);
    BatchAccepted(es, pk);
    assert forall i :: 0 <= i < |es| ==> rows[i] == es[i].row && rows[i] in rows;
    if AllAccepted(es, pk) {
      assert forall r :: r in rows ==> HasKey(r, pk);
      assert DistinctKeys(rows, pk);
      UpsertBatchReplays(t, es, pk);
    }
  }

  method BatchDelete(t: Table, pk: string, es: seq<Entry>) returns (r: Outcome<Table>, s: Stmt)
    requires 1 <= |es| <= BATCH_MAX_ROWS
    requires forall i :: 0 <= i < |es| ==> es[i].op.Delete?
    ensures r == ReplayEntries(t, es, pk)
    ensures r.Done? ==> Exec(t, s, pk) == r && SafeStmt(s, pk) && StmtEffects(s) == EffectsOf(es, pk)
  {
    RefusedFails(t, es, pk);
    var keys: seq<Json> := [];
    s := DeleteStmt([]);
    for i := 0 to |es|
      invariant |keys| == i
      invariant forall m :: 0 <= m < i ==> HasKey(es[m].row, pk) && keys[m] == es[m].row[pk]
    {
      if pk !in es[i].row || es[i].row[pk] == Null {
        assert !Accepted(es[i], pk);
        return Failed, s;
      }
      keys := keys + [es[i].row[pk]];
    }
    s := DeleteStmt(keys);
    r := Exec(t, s, pk);
    DeleteBatchReplays(t, es, pk, keys);
  }

  // ------------------------------------------------------------- the main loop

  /** Batched replay of one segment. On success the emitted statements, run in
      order, give the table the one-row loop gives, and they carry exactly the
      decoded entries; on failure both fail. */
  method ApplySegmentRows(t0: Table, pk: string, rows: seq<Json>)
    returns (r: Outcome<Table>, log: seq<Stmt>)
    ensures r == ReplaySegment(t0, rows, pk)
    ensures r.Done? ==> ExecAll(t0, log, pk) == r
    ensures r.Done? ==> Decode(rows).Done? && LogEffects(log) == EffectsOf(Decode(rows).value, pk)
    ensures forall s :: s in log ==> SafeStmt(s, pk)
  {
    log := [];
    InterleavedDecoding(t0, rows, pk);
    if rows == [] { return Done(t0), []; }
    if !ValidIdentifier(pk) { return Failed, []; }
    var decoded := DecodeRows(rows);
    if decoded.Failed? { return Failed, []; }
    DecodedNonempty(rows);
    r, log := ApplyEntries(t0, pk, decoded.value);
  }

  /** The outer loop: cut the entries into runs, one statement a run. */
  method ApplyEntries(t0: Table, pk: string, es: seq<Entry>)
    returns (r: Outcome<Table>, log: seq<Stmt>)
    requires forall e :: e in es ==> e.row != map[]
    ensures r == ReplayEntries(t0, es, pk)
    ensures r.Done? ==> ExecAll(t0, log, pk) == r && LogEffects(log) == EffectsOf(es, pk)
    ensures forall s :: s in log ==> SafeStmt(s, pk)
  {
    log := [];
    var t := t0;
    var i := 0;
    while i < |es|
      invariant 0 <= i <= |es|
      invariant ReplayEntries(t0, es[..i], pk) == Done(t)
      invariant ExecAll(t0, log, pk) == Done(t)
      invariant LogEffects(log) == EffectsOf(es[..i], pk)
      invariant forall s :: s in log ==> SafeStmt(s, pk)
    {
      var j := RunEnd(es, i, pk);
      var step, s := ApplyBatch(t, pk, es[i..j]);
      ReplayPrefix(t0, es, i, j, pk, t);
      if step.Failed? { return Failed, log; }
      LogSnoc(t0, log, s, t, step.value, pk);
      EffectsConcat(es, i, j, pk);
      t, log, i := step.value, log + [s], j;
    }
    assert es[..|es|] == es;
    return Done(t), log;
  }

  lemma EffectsConcat(es: seq<Entry>, i: nat, j: nat, pk: string)
    requires i <= j <= |es|
    ensures EffectsOf(es[..j], pk) == EffectsOf(es[..i], pk) + EffectsOf(es[i..j], pk)
  {
  }

  method ApplyBatch(t: Table, pk: string, batch: seq<Entry>) returns (r: Outcome<Table>, s: Stmt)
    requires Batch(batch, pk) && batch[0].row != map[] && |batch| <= Cap(batch[0])
    ensures r == ReplayEntries(t, batch, pk)
    ensures r.Done? ==> Exec(t, s, pk) == r && SafeStmt(s, pk) && StmtEffects(s) == EffectsOf(batch, pk)
  {
    if batch[0].op.Delete? {
      r, s := BatchDelete(t, pk, batch);
    } else {
      assert |batch| > 1 ==> |batch[0].row| * |batch| <= |batch[0].row| * Cap(batch[0]);
      r, s := BatchUpsert(t, pk, batch);
    }
  }

  /** Replaying a batch after the entries before it replays the longer prefix;
      if the batch fails, so does everything. */
  lemma ReplayPrefix(t0: Table, es: seq<Entry>, i: nat, j: nat, pk: string, t: Table)
    requires i <= j <= |es| && ReplayEntries(t0, es[..i], pk) == Done(t)
    ensures ReplayEntries(t0, es[..j], pk) == ReplayEntries(t, es[i..j], pk)
    ensures ReplayEntries(t, es[i..j], pk).Failed? ==> ReplayEntries(t0, es, pk).Failed?
  {
    assert es[..j] == es[..i] + es[i..j];
    ReplayConcat(t0, es[..i], es[i..j], pk);
    assert es == es[..j] + es[j..];
    ReplayConcat(t0, es[..j], es[j..], pk);
  }

  lemma LogSnoc(t0: Table, log: seq<Stmt>, s: Stmt, t: Table, t': Table, pk: string)
    requires ExecAll(t0, log, pk) == Done(t) && Exec(t, s, pk) == Done(t')
    ensures ExecAll(t0, log + [s], pk) == Done(t')
    ensures LogEffects(log + [s]) == LogEffects(log) + StmtEffects(s)
  {
    assert (log + [s])[..|log|] == log;
  }

  // ----------------------------------------------------------- statements, exactly

  /** What Postgres does with an upsert: it fails over the parameter ceiling, on a
      missing or null key, or when two rows hit one key. */
  lemma UpsertFailsIff(t: Table, cols: set<string>, rows: seq<Row>, pk: string)
    ensures Exec(t, UpsertStmt(cols, rows), pk).Failed? <==>
      || |cols| * |rows| > 65535
      || (exists i :: 0 <= i < |rows| && !(pk in rows[i] && rows[i][pk] != Null))
      || (exists i, j :: 0 <= i < j < |rows| && pk in rows[i] && pk in rows[j] && rows[i][pk] == rows[j][pk])
  {
    if i :| 0 <= i < |rows| && !(pk in rows[i] && rows[i][pk] != Null) {
      assert rows[i] in rows && !HasKey(rows[i], pk);
    } else {
      assert forall r :: r in rows ==> HasKey(r, pk);
      if !DistinctKeys(rows, pk) {
        var i, j :| 0 <= i < j < |rows| && KeyOf(rows[i], pk) == KeyOf(rows[j], pk);
        assert rows[i] in rows && rows[j] in rows;
      } else {
        forall i, j | 0 <= i < j < |rows| ensures rows[i][pk] != rows[j][pk] {
          assert KeyOf(rows[i], pk) != KeyOf(rows[j], pk);
        }
      }
    }
  }

  /** And with a delete: it fails over the ceiling only, and removes exactly the keys. */
  lemma DeleteIs(t: Table, keys: seq<Json>, pk: string)
    ensures Exec(t, DeleteStmt(keys), pk).Failed? <==> |keys| > 65535
    ensures |keys| <= 65535 ==>
      var r := Exec(t, DeleteStmt(keys), pk).value;
      forall k :: (k in r <==> k in t && k !in keys) && (k in r ==> r[k] == t[k])
  {
  }

  /** The batch limit: 1000 deletes; for upserts as many rows, at least one and at most
      1000, as fit into 60000 parameters. */
  lemma CapIs(e: Entry)
    requires e.row != map[]
    ensures e.op.Delete? ==> Cap(e) == 1000
    ensures !e.op.Delete? ==>
      && 1 <= Cap(e) <= 1000 && (Cap(e) == 1 || Cap(e) * |e.row| <= 60_000)
      && (Cap(e) == 1000 || (Cap(e) + 1) * |e.row| > 60_000)
  {
    var n := |e.row|;
    CapBound(n);
    var q := BATCH_MAX_PARAMS / n;
    assert (q + 1) * n > BATCH_MAX_PARAMS && q * n <= BATCH_MAX_PARAMS;
    if q == 0 { assert 2 * n > BATCH_MAX_PARAMS; }
  }

  // ------------------------------------------------------------------ identifiers

  const LOWER: string := "abcdefghijklmnopqrstuvwxyz"
  const UPPER: string := "ABCDEFGHIJKLMNOPQRSTUVWXYZ"
  const OTHERS: string := "0123456789_."

  /** A name SQL may quote: not empty, and every character from the alphabet. */
  ghost predicate Spelled(s: string) {
    s != "" && forall i :: 0 <= i < |s| ==> s[i] in LOWER || s[i] in UPPER || s[i] in OTHERS
  }

  lemma InRange(alphabet: string, first: char, c: char)
    requires 0 < |alphabet| && first as int + |alphabet| < 0x100
    requires forall i :: 0 <= i < |alphabet| ==> alphabet[i] as int == first as int + i
    ensures c in alphabet <==> first <= c && c as int < first as int + |alphabet|
  {
    if first <= c && c as int < first as int + |alphabet| { assert alphabet[c as int - first as int] == c; }
  }

  lemma InAlphabet(c: char)
    ensures c in LOWER <==> 'a' <= c <= 'z'
    ensures c in UPPER <==> 'A' <= c <= 'Z'
    ensures c in OTHERS <==> '0' <= c <= '9' || c == '_' || c == '.'
  {
    InRange(LOWER, 'a', c);
    InRange(UPPER, 'A', c);
    InRange("0123456789", '0', c);
    assert OTHERS == "0123456789" + "_.";
  }

  lemma SpelledIff(s: string)
    ensures ValidIdentifier(s) <==> Spelled(s)
  {
    if ValidIdentifier(s) {
      forall i | 0 <= i < |s| ensures s[i] in LOWER || s[i] in UPPER || s[i] in OTHERS {
        assert s[i] in s;
        InAlphabet(s[i]);
      }
    }
    if Spelled(s) {
      forall c | c in s ensures 'a' <= c <= 'z' || 'A' <= c <= 'Z' || '0' <= c <= '9' || c == '_' || c == '.' { InAlphabet(c); }
    }
  }

  lemma OneRow(t: Table, env: Json, pk: string)
    requires ValidIdentifier(pk) && DecodeOne(env).Done? && |DecodeOne(env).value| == 1
    ensures ReplaySegment(t, [env], pk) == ApplyOne(t, DecodeOne(env).value[0], pk)
  {
    hide ApplyOne, DecodeOne, ValidIdentifier;
    var rows := [env];
    assert rows[..0] == [] && rows[|rows| - 1] == env;
    assert ReplayRows(t, [], pk) == Done(t);
  }

  /** What a segment of one upsert does to any table: it fails exactly if the key is
      missing or null, a name is not spelled right or there are too many columns;
      otherwise the row is stored under its key, over a row already there the given
      columns except the key, and nothing else changes. */
  lemma OneUpsert(t: Table, op: Op, row: Row, pk: string)
    requires row != map[] && !op.Delete?
    ensures var r := ReplaySegment(t, [Obj(map["op" := Str(if op.Insert? then "insert" else "update"), "row" := Obj(row)])], pk);
            && (r.Done? <==> pk in row && row[pk] != Null && |row| <= 65535 && Spelled(pk) && forall c :: c in row ==> Spelled(c))
            && (r.Done? ==>
                && r.value.Keys == t.Keys + {row[pk]}
                && (forall k :: k in t && k != row[pk] ==> r.value[k] == t[k])
                && (row[pk] !in t ==> r.value[row[pk]] == row)
                && (row[pk] in t ==>
                    var was, now := t[row[pk]], r.value[row[pk]];
                    && now.Keys == was.Keys + (row.Keys - {pk})
                    && forall c :: c in now ==> now[c] == if c in row && c != pk then row[c] else was[c]))
  {
    hide ValidIdentifier;
    var env := EnvelopeOf(op, Obj(row));
    SpelledIff(pk);
    forall c ensures ValidIdentifier(c) <==> Spelled(c) { SpelledIff(c); }
    EnvelopeDecodes(op, row);
    if ValidIdentifier(pk) {
      OneRow(t, env, pk);
    }
  }

  /** A segment of one delete removes the row under its key, if there is one, and fails
      exactly if the envelope has no key or the key's name is not spelled right. */
  lemma OneDelete(t: Table, row: Row, pk: string)
    ensures var r := ReplaySegment(t, [Obj(map["op" := Str("delete"), "row" := Obj(row)])], pk);
            && (r.Done? <==> pk in row && row[pk] != Null && Spelled(pk))
            && (r.Done? ==> r.value.Keys == t.Keys - {row[pk]} && forall k :: k in r.value ==> r.value[k] == t[k])
  {
    hide ValidIdentifier;
    var env := EnvelopeOf(Delete, Obj(row));
    SpelledIff(pk);
    if row == map[] {
      var rows := [env];
      assert rows[|rows| - 1] == env && DecodeOne(env).Failed?;
    } else {
      EnvelopeDecodes(Delete, row);
      if ValidIdentifier(pk) { OneRow(t, env, pk); }
    }
  }

  /** Envelopes without `op` and `row` together are plain rows to insert; an unknown or
      non-string operation, or a row that is no object, fails; an empty upsert is skipped. */
  lemma OddEnvelopes(env: Json)
    requires env.Obj?
    ensures "op" !in env.fields || "row" !in env.fields ==>
      DecodeOne(env) == if env.fields == map[] then Done([]) else Done([Entry(Insert, env.fields)])
    ensures "op" in env.fields && "row" in env.fields ==>
      var (op, row) := (env.fields["op"], env.fields["row"]);
      && (op !in {Str("insert"), Str("update"), Str("delete")} ==> DecodeOne(env).Failed?)
      && (!row.Obj? ==> DecodeOne(env).Failed?)
      && (row == Obj(map[]) && op in {Str("insert"), Str("update")} ==> DecodeOne(env) == Done([]))
      && (row == Obj(map[]) && op == Str("delete") ==> DecodeOne(env).Failed?)
  {
  }

  lemma NoObject(v: Json)
    requires !v.Obj?
    ensures DecodeOne(v).Failed?
  {
  }
}
