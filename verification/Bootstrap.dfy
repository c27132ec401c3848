/** Bootstrap: cutting a table into sealed segments with a running byte counter. */
module Bootstrap {
  import opened Prelude
  import opened Json
  import opened Segments
  import opened Order
  import R = Replay

  type Row = map<string, Json>

  function EnvelopesOf(rows: seq<Row>): (r: seq<Json>)
    ensures |r| == |rows|
  {
    seq(|rows|, i requires 0 <= i < |rows| => R.Inserted(rows[i]))
  }

  /** What is fixed for one table: its name, key column, schema version and the
      seal threshold. */
  datatype Plan = Plan(table: string, pk: string, schemaVersion: string, target: nat)

  ghost predicate Keyed(rows: seq<Row>, pk: string) {
    forall i :: 0 <= i < |rows| ==> R.HasKey(rows[i], pk)
  }

  /** The segment that holds exactly these rows. */
  function SegmentOf(rows: seq<Row>, plan: Plan): Segment
    requires rows != [] && R.HasKey(rows[0], plan.pk) && R.HasKey(rows[|rows| - 1], plan.pk)
  {
    Segment(plan.table, plan.schemaVersion, rows[0][plan.pk], rows[|rows| - 1][plan.pk],
            |rows|, EnvelopesOf(rows))
  }

  /** The value the running counter has once these rows are in the segment. */
  function Counter(rows: seq<Row>, plan: Plan): int
    requires rows != [] && R.HasKey(rows[0], plan.pk) && R.HasKey(rows[|rows| - 1], plan.pk)
  {
    CanonicalSize(SegmentOf(rows, plan)) + 2 - Digits(|rows|)
  }

  /** A segment is cut when the counter first reaches the target, and only then. */
  ghost predicate CutRight(rows: seq<Row>, plan: Plan, last: bool)
    requires Keyed(rows, plan.pk) && rows != []
  {
    && (forall k :: 1 <= k < |rows| ==> Counter(rows[..k], plan) < plan.target)
    && (!last ==> Counter(rows, plan) >= plan.target)
  }

  /** `segs` are the segments of consecutive slices of `rows`, none empty, each
      cut where the counter says; only the final one may be short. */
  ghost predicate Partition(segs: seq<Segment>, rows: seq<Row>, plan: Plan, mayBeShort: bool)
    requires Keyed(rows, plan.pk)
    decreases |segs|
  {
    if segs == [] then rows == []
    else
      var s := segs[|segs| - 1];
      var n := s.rowCount;
      && 1 <= n <= |rows|
      && s == SegmentOf(rows[|rows| - n..], plan)
      && CutRight(rows[|rows| - n..], plan, mayBeShort)
      && Partition(segs[..|segs| - 1], rows[..|rows| - n], plan, false)
  }

  function Max0(i: int): nat { if i < 0 then 0 else i }

  /** How the counter moves when one more row joins a nonempty segment. */
  lemma CounterStep(rows: seq<Row>, row: Row, plan: Plan)
    requires Keyed(rows, plan.pk) && rows != [] && R.HasKey(row, plan.pk)
    ensures Counter(rows + [row], plan) ==
            Counter(rows, plan) + EncodedLen(row[plan.pk]) - EncodedLen(rows[|rows| - 1][plan.pk])
            + EncodedLen(R.Inserted(row)) + 1
    ensures Counter(rows, plan) >= EncodedLen(rows[|rows| - 1][plan.pk])
  {
    hide Encode, Bytes, CanonicalSize;
    var a, b := SegmentOf(rows, plan), SegmentOf(rows + [row], plan);
    SizeIs(a);
    SizeIs(b);
    RowsSizeSnoc(EnvelopesOf(rows), R.Inserted(row));
    assert b.rows == EnvelopesOf(rows) + [R.Inserted(row)];
  }

  lemma RowsSizeSnoc(rows: seq<Json>, r: Json)
    ensures RowsSize(rows + [r]) == RowsSize(rows) + EncodedLen(r) + (if rows == [] then 0 else 1)
  {
    assert (rows + [r])[..|rows|] == rows;
  }

  /** The counter right after the first row, from the rebaselined empty segment. */
  lemma CounterStart(row: Row, plan: Plan)
    requires R.HasKey(row, plan.pk)
    ensures Counter([row], plan) ==
            CanonicalSize(Segment(plan.table, plan.schemaVersion, row[plan.pk], row[plan.pk], 0, []))
            + EncodedLen(R.Inserted(row)) + 1
  {
    hide Encode, Bytes, CanonicalSize;
    var s := SegmentOf([row], plan);
    var empty := Segment(plan.table, plan.schemaVersion, row[plan.pk], row[plan.pk], 0, []);
    SizeIs(s);
    SizeIs(empty);
    RowsSizeSnoc([], R.Inserted(row));
    assert s.rows == [] + [R.Inserted(row)];
  }

  /** The segment under construction, with its byte counter. */
  datatype Head = Head(current: Segment, running: int, prevHi: nat)

  /** `h` holds exactly `slice`, and its counter is exact. */
  ghost predicate Tracks(h: Head, slice: seq<Row>, plan: Plan) {
    if slice == [] then h.current == BlankSegment(plan.table, plan.schemaVersion)
    else
      && Keyed(slice, plan.pk)
      && h.current == SegmentOf(slice, plan)
      && h.running == Counter(slice, plan)
      && h.prevHi == EncodedLen(h.current.pkHi)
  }

  /** One iteration up to the seal test: key bounds, counter, row. */
  method PushRow(h: Head, row: Row, plan: Plan, haveLo: bool, ghost slice: seq<Row>) returns (h': Head)
    requires R.HasKey(row, plan.pk) && Tracks(h, slice, plan) && (haveLo <==> slice != [])
    ensures Tracks(h', slice + [row], plan)
  {
    hide Encode, Bytes, CanonicalSize, R.Inserted, Counter;
    var current, running := h.current, h.running;
    var pkValue := row[plan.pk];
    var first := !haveLo;
    if first {
      current := current.(pkLo := pkValue);
    }
    current := current.(pkHi := pkValue);
    var newHi := EncodedLen(current.pkHi);
    if first {
      running := CanonicalSize(current);
    } else if newHi != h.prevHi {
      var delta := newHi as int - h.prevHi as int;
      running := Max0(running + delta);
    }
    var envelope := R.Inserted(row);
    running := running + (EncodedLen(envelope) + 1);
    current := current.(rows := current.rows + [envelope], rowCount := |current.rows| + 1);
    h' := Head(current, running, newHi);
    if first {
      CounterStart(row, plan);
      assert slice + [row] == [row];
      assert EnvelopesOf([row]) == [envelope];
    } else {
      CounterStep(slice, row, plan);
      assert EnvelopesOf(slice + [row]) == EnvelopesOf(slice) + [envelope];
    }
  }

  /** Where the first segment ends: at the first row from `k` on where the counter
      reaches the target, or with the table. */
  function CutAt(rows: seq<Row>, plan: Plan, k: nat): (n: nat)
    requires (forall i :: 0 <= i < |rows| ==> R.HasKey(rows[i], plan.pk)) && 1 <= k <= |rows|
    ensures k <= n <= |rows|
    decreases |rows| - k
  {
    if k == |rows| || Counter(rows[..k], plan) >= plan.target then k else CutAt(rows, plan, k + 1)
  }

  /** The table in segments. */
  function Cuts(rows: seq<Row>, plan: Plan): seq<Segment>
    requires forall i :: 0 <= i < |rows| ==> R.HasKey(rows[i], plan.pk)
  {
    if rows == [] then []
    else
      var n := CutAt(rows, plan, 1);
      [SegmentOf(rows[..n], plan)] + Cuts(rows[n..], plan)
  }

  lemma {:induction false} CutIs(rows: seq<Row>, plan: Plan, k: nat, n: nat)
    requires Keyed(rows, plan.pk) && 1 <= k <= n <= |rows|
    requires forall m :: k <= m < n ==> Counter(rows[..m], plan) < plan.target
    requires n == |rows| || Counter(rows[..n], plan) >= plan.target
    ensures CutAt(rows, plan, k) == n
    decreases n - k
  {
    if k < n { CutIs(rows, plan, k + 1, n); }
  }

  lemma {:induction false} CutsAtMost(rows: seq<Row>, plan: Plan)
    requires Keyed(rows, plan.pk)
    ensures |Cuts(rows, plan)| <= |rows|
  {
    hide CutAt, SegmentOf;
    if rows != [] { CutsAtMost(rows[CutAt(rows, plan, 1)..], plan); }
  }

  /** So far `sealed` covers the rows before `start`. */
  ghost predicate CutSoFar(sealed: seq<Segment>, rows: seq<Row>, start: nat, plan: Plan)
    requires start <= |rows|
  {
    Keyed(rows, plan.pk) ==> Cuts(rows, plan) == sealed + Cuts(rows[start..], plan)
  }

  lemma CutStart(rows: seq<Row>, plan: Plan)
    ensures CutSoFar([], rows, 0, plan)
  {
    hide Cuts;
    assert rows[0..] == rows;
    if Keyed(rows, plan.pk) { assert [] + Cuts(rows, plan) == Cuts(rows, plan); }
  }

  /** The head holds the next segment of the table. */
  lemma CutNext(sealed: seq<Segment>, rows: seq<Row>, start: nat, end: nat, plan: Plan, h: Head)
    requires start < end <= |rows| && CutSoFar(sealed, rows, start, plan)
    requires Tracks(h, rows[start..end], plan) && EarlierUnder(rows, start, end, plan)
    requires end == |rows| || h.running >= plan.target
    ensures CutSoFar(sealed + [h.current], rows, end, plan)
    ensures Keyed(rows, plan.pk) ==> |Cuts(rows, plan)| >= |sealed| + 1
  {
    hide Counter, SegmentOf;
    if Keyed(rows, plan.pk) {
      var rest := rows[start..];
      forall m | 1 <= m < end - start ensures Counter(rest[..m], plan) < plan.target {
        assert rest[..m] == rows[start..start + m];
        assert UnderTarget(rows[start..start + m], plan);
      }
      assert rest[..end - start] == rows[start..end] && rest[end - start..] == rows[end..];
      CutIs(rest, plan, 1, end - start);
      assert Cuts(rest, plan) == [h.current] + Cuts(rows[end..], plan);
    }
  }

  lemma CutEnd(sealed: seq<Segment>, rows: seq<Row>, plan: Plan)
    requires CutSoFar(sealed, rows, |rows|, plan) && Keyed(rows, plan.pk)
    ensures Cuts(rows, plan) == sealed
  {
    assert Cuts(rows[|rows|..], plan) == [];
  }

  /** Reads the rows in key order, seals whenever the counter reaches the target
      and once more at the end. `puts` segments can be stored before the object
      store fails. It succeeds exactly if both names are spelled right, every row has
      a usable key, and the store takes all the segments. */
  method BootstrapTable(rows: seq<Row>, plan: Plan, puts: nat) returns (r: Outcome<seq<Segment>>)
    ensures r.Done? <==>
      R.Spelled(plan.table) && R.Spelled(plan.pk) && Keyed(rows, plan.pk) && |Cuts(rows, plan)| <= puts
    ensures r.Done? ==> r.value == Cuts(rows, plan) && Partition(r.value, rows, plan, true)
  {
    hide R.ValidIdentifier, R.Spelled, Cuts, Going, CanonicalSize, Partition, EncodedLen, Bytes, Encode, Tracks, Keyed;
    R.SpelledIff(plan.table);
    R.SpelledIff(plan.pk);
    if !R.ValidIdentifier(plan.table) || !R.ValidIdentifier(plan.pk) { return Failed; }
    var sealed: seq<Segment> := [];
    var blank := BlankSegment(plan.table, plan.schemaVersion);
    var h := Head(blank, CanonicalSize(blank), EncodedLen(Null));
    ghost var start := 0;
    StartGoing(h, rows, plan);
    var i := 0;
    var haveLo := false;
    while i < |rows|
      invariant 0 <= start <= i <= |rows| && |sealed| <= puts && (haveLo <==> start < i)
      invariant Going(h, rows, start, i, plan, sealed)
    {
      var row := rows[i];
      if plan.pk !in row || row[plan.pk] == Null {
        assert !Keyed(rows, plan.pk) by { NotKeyed(rows, i, plan.pk); }
        return Failed;
      }
      ghost var was := h;
      assert Tracks(h, rows[start..i], plan) by { GoingTracks(h, rows, start, i, plan, sealed); }
      h := PushRow(h, row, plan, haveLo, rows[start..i]);
      haveLo := true;
      if h.running >= plan.target {
        GoingSeals(was, h, rows, start, i, plan, sealed, Head(blank, h.running, EncodedLen(Null)));
        if |sealed| == puts { return Failed; }
        sealed := sealed + [h.current];
        h := Head(blank, h.running, EncodedLen(Null));
        haveLo := false;
        start := i + 1;
      } else {
        GoingOn(was, h, rows, start, i, plan, sealed);
      }
      i := i + 1;
    }
    GoingEnds(h, rows, start, plan, sealed);
    if h.current.rows != [] {
      if |sealed| == puts { return Failed; }
      sealed := sealed + [h.current];
    }
    return Done(sealed);
  }

  lemma NotKeyed(rows: seq<Row>, i: nat, pk: string)
    requires i < |rows| && (pk !in rows[i] || rows[i][pk] == Null)
    ensures !Keyed(rows, pk)
  {
  }

  /** The loop's state: what is sealed covers the rows before `start`, the head holds
      the rows from there to `i`, and no shorter head had reached the target. */
  ghost predicate Going(h: Head, rows: seq<Row>, start: nat, i: nat, plan: Plan, sealed: seq<Segment>) {
    && start <= i <= |rows| && Keyed(rows[..i], plan.pk) && Tracks(h, rows[start..i], plan)
    && (h.running < plan.target || start == i)
    && EarlierUnder(rows, start, i, plan) && CutSoFar(sealed, rows, start, plan)
  }

  lemma GoingTracks(h: Head, rows: seq<Row>, start: nat, i: nat, plan: Plan, sealed: seq<Segment>)
    requires Going(h, rows, start, i, plan, sealed)
    ensures Tracks(h, rows[start..i], plan)
  {
    hide Tracks, EarlierUnder, CutSoFar;
  }

  lemma StartGoing(h: Head, rows: seq<Row>, plan: Plan)
    requires h.current == BlankSegment(plan.table, plan.schemaVersion)
    ensures Going(h, rows, 0, 0, plan, [])
  {
    hide CutSoFar, EarlierUnder;
    NothingYet(h, plan);
    EarlierStart(rows, 0, plan);
    CutStart(rows, plan);
  }

  lemma GoingOn(was: Head, h: Head, rows: seq<Row>, start: nat, i: nat, plan: Plan, sealed: seq<Segment>)
    requires Going(was, rows, start, i, plan, sealed) && i < |rows| && R.HasKey(rows[i], plan.pk)
    requires Tracks(h, rows[start..i] + [rows[i]], plan) && h.running < plan.target
    ensures Going(h, rows, start, i + 1, plan, sealed)
  {
    hide Tracks, EarlierUnder, CutSoFar;
    SliceGrows(rows, start, i, plan, was);
  }

  lemma GoingSeals(was: Head, h: Head, rows: seq<Row>, start: nat, i: nat, plan: Plan, sealed: seq<Segment>, next: Head)
    requires Going(was, rows, start, i, plan, sealed) && i < |rows| && R.HasKey(rows[i], plan.pk)
    requires Tracks(h, rows[start..i] + [rows[i]], plan) && h.running >= plan.target
    requires next.current == BlankSegment(plan.table, plan.schemaVersion)
    ensures Going(next, rows, i + 1, i + 1, plan, sealed + [h.current])
    ensures Keyed(rows, plan.pk) ==> |Cuts(rows, plan)| > |sealed|
  {
    hide Tracks, EarlierUnder, CutSoFar, Cuts;
    SliceGrows(rows, start, i, plan, was);
    CutNext(sealed, rows, start, i + 1, plan, h);
    NothingYet(next, plan);
    EarlierStart(rows, i + 1, plan);
    assert rows[i + 1..i + 1] == [];
  }

  /** At the end what is sealed, and the head if it holds rows, is the whole table. */
  lemma GoingEnds(h: Head, rows: seq<Row>, start: nat, plan: Plan, sealed: seq<Segment>)
    requires Going(h, rows, start, |rows|, plan, sealed)
    ensures Keyed(rows, plan.pk)
    ensures Cuts(rows, plan) == (if h.current.rows != [] then sealed + [h.current] else sealed)
    ensures Partition(Cuts(rows, plan), rows, plan, true)
  {
    hide Tracks, EarlierUnder, CutSoFar, Cuts, Partition;
    assert rows[..|rows|] == rows;
    HeadRows(h, rows[start..], plan);
    assert rows[start..|rows|] == rows[start..];
    if start < |rows| {
      CutNext(sealed, rows, start, |rows|, plan, h);
      CutEnd(sealed + [h.current], rows, plan);
    } else {
      CutEnd(sealed, rows, plan);
    }
    CutsPartition(rows, plan);
  }

  /** Every shorter slice from `start` is under the target. */
  ghost predicate EarlierUnder(rows: seq<Row>, start: nat, end: nat, plan: Plan)
    requires start <= end <= |rows|
  {
    forall k :: start < k < end ==> UnderTarget(rows[start..k], plan)
  }

  ghost predicate UnderTarget(rows: seq<Row>, plan: Plan) {
    rows != [] && Keyed(rows, plan.pk) && Counter(rows, plan) < plan.target
  }

  lemma SliceGrows(rows: seq<Row>, start: nat, i: nat, plan: Plan, h: Head)
    requires start <= i < |rows| && Tracks(h, rows[start..i], plan)
    requires Keyed(rows[..i], plan.pk) && R.HasKey(rows[i], plan.pk) && EarlierUnder(rows, start, i, plan)
    ensures rows[start..i + 1] == rows[start..i] + [rows[i]]
    ensures Keyed(rows[..i + 1], plan.pk) && Keyed(rows[start..i], plan.pk)
    ensures h.running < plan.target || start == i ==> EarlierUnder(rows, start, i + 1, plan)
  {
    hide Counter, SegmentOf;
    assert rows[..i + 1] == rows[..i] + [rows[i]];
    assert forall m :: 0 <= m < i - start ==> rows[start..i][m] == rows[..i][start + m];
  }

  lemma HeadRows(h: Head, slice: seq<Row>, plan: Plan)
    requires Tracks(h, slice, plan)
    ensures h.current.rows != [] <==> slice != []
  {
    hide Counter;
  }

  lemma EarlierStart(rows: seq<Row>, start: nat, plan: Plan)
    requires start <= |rows|
    ensures EarlierUnder(rows, start, start, plan)
  {
  }

  lemma NothingYet(h: Head, plan: Plan)
    requires h.current == BlankSegment(plan.table, plan.schemaVersion)
    ensures Tracks(h, [], plan)
  {
  }

  lemma PartitionGrows(segs: seq<Segment>, rows: seq<Row>, start: nat, end: nat, plan: Plan, s: Segment, last: bool)
    requires start < end <= |rows| && Keyed(rows[..end], plan.pk)
    requires Partition(segs, rows[..start], plan, false)
    requires s == SegmentOf(rows[start..end], plan) && CutRight(rows[start..end], plan, last)
    ensures Partition(segs + [s], rows[..end], plan, last)
  {
    hide Encode, Bytes, CanonicalSize, Counter, EnvelopesOf;
    assert (segs + [s])[..|segs|] == segs;
    assert rows[..end][start..] == rows[start..end];
    assert rows[..end][..start] == rows[..start];
  }

  lemma CutFacts(rows: seq<Row>, plan: Plan, k: nat)
    requires Keyed(rows, plan.pk) && 1 <= k <= |rows|
    ensures var n := CutAt(rows, plan, k);
            && (forall m :: k <= m < n ==> Counter(rows[..m], plan) < plan.target)
            && (n == |rows| || Counter(rows[..n], plan) >= plan.target)
    decreases |rows| - k
  {
    hide Counter;
    if k < |rows| && Counter(rows[..k], plan) < plan.target { CutFacts(rows, plan, k + 1); }
  }

  lemma {:induction false} CutsFrom(segs: seq<Segment>, rows: seq<Row>, start: nat, plan: Plan)
    requires start <= |rows| && Keyed(rows, plan.pk) && Partition(segs, rows[..start], plan, false)
    ensures Partition(segs + Cuts(rows[start..], plan), rows, plan, true)
    decreases |rows| - start
  {
    hide Counter, SegmentOf, CutAt, Partition;
    var rest := rows[start..];
    if rest == [] {
      assert rows[..start] == rows && segs + [] == segs;
      PartitionWeakens(segs, rows, plan);
    } else {
      var n := CutAt(rest, plan, 1);
      CutFacts(rest, plan, 1);
      var (slice, s) := (rest[..n], SegmentOf(rest[..n], plan));
      assert slice == rows[start..start + n];
      assert forall m :: 1 <= m < n ==> slice[..m] == rest[..m];
      PartitionGrows(segs, rows, start, start + n, plan, s, start + n == |rows|);
      assert rest[n..] == rows[start + n..] && rows[..|rows|] == rows;
      assert segs + Cuts(rest, plan) == segs + [s] + Cuts(rest[n..], plan);
      if start + n == |rows| {
        assert Cuts(rest[n..], plan) == [] && segs + [s] + [] == segs + [s];
      } else {
        CutsFrom(segs + [s], rows, start + n, plan);
      }
    }
  }

  lemma CutsPartition(rows: seq<Row>, plan: Plan)
    requires Keyed(rows, plan.pk)
    ensures Partition(Cuts(rows, plan), rows, plan, true)
  {
    hide Cuts;
    CutsFrom([], rows, 0, plan);
    assert rows[0..] == rows && [] + Cuts(rows, plan) == Cuts(rows, plan);
  }

  lemma PartitionWeakens(segs: seq<Segment>, rows: seq<Row>, plan: Plan)
    requires Keyed(rows, plan.pk) && Partition(segs, rows, plan, false)
    ensures Partition(segs, rows, plan, true)
  {
  }

  // ------------------------------------------------------------ how late a seal can be

  /** After `k` rows the segment had reached the target, and another row was added. */
  ghost predicate Overlooked(rows: seq<Row>, plan: Plan, k: nat)
    requires Keyed(rows, plan.pk)
  {
    1 <= k < |rows| && CanonicalSize(SegmentOf(rows[..k], plan)) >= plan.target
  }

  /** The size after `k` rows falls into the gap the counter cannot see. */
  ghost predicate InGap(rows: seq<Row>, plan: Plan, k: nat)
    requires Keyed(rows, plan.pk)
  {
    100 <= k < |rows| &&
    plan.target <= CanonicalSize(SegmentOf(rows[..k], plan)) <= plan.target + Digits(k) - 3
  }

  /** The counter is documented as early at worst, never late. A segment had reached
      the target before its last row exactly if, after at least 100 rows, its size
      stood in the gap that the digits of the row count open. */
  lemma SealLateIff(rows: seq<Row>, plan: Plan, last: bool, k: nat)
    requires Keyed(rows, plan.pk) && rows != [] && CutRight(rows, plan, last)
    ensures Overlooked(rows, plan, k) <==> InGap(rows, plan, k)
  {
    hide CanonicalSize;
    assert 1 <= k < |rows| ==> Counter(rows[..k], plan) < plan.target;
  }

  ghost predicate LateInGap(rows: seq<Row>, plan: Plan)
    requires Keyed(rows, plan.pk)
  {
    forall k: nat :: Overlooked(rows, plan, k) <==> InGap(rows, plan, k)
  }

  /** Every segment of the table is late exactly where a size fell into the gap. */
  ghost predicate LateOnlyInGap(segs: seq<Segment>, rows: seq<Row>, plan: Plan)
    requires Keyed(rows, plan.pk)
    decreases |segs|
  {
    segs == [] ||
    var n := segs[|segs| - 1].rowCount;
    && 1 <= n <= |rows|
    && LateInGap(rows[|rows| - n..], plan)
    && LateOnlyInGap(segs[..|segs| - 1], rows[..|rows| - n], plan)
  }

  /** So it is for every segment of every bootstrap. */
  lemma {:induction false} LateSealsIff(segs: seq<Segment>, rows: seq<Row>, plan: Plan, short: bool)
    requires Keyed(rows, plan.pk) && Partition(segs, rows, plan, short)
    ensures LateOnlyInGap(segs, rows, plan)
    decreases |segs|
  {
    hide CutRight, SegmentOf, CanonicalSize, Overlooked, InGap;
    if segs != [] {
      var n := segs[|segs| - 1].rowCount;
      var slice := rows[|rows| - n..];
      forall k: nat ensures Overlooked(slice, plan, k) <==> InGap(slice, plan, k) {
        SealLateIff(slice, plan, short, k);
      }
      assert LateInGap(slice, plan);
      LateSealsIff(segs[..|segs| - 1], rows[..|rows| - n], plan, false);
    }
  }

  /** Keys and envelopes all of one length. */
  ghost predicate Uniform(rows: seq<Row>, pk: string, key: nat, envelope: nat) {
    Keyed(rows, pk) &&
    forall i :: 0 <= i < |rows| ==> EncodedLen(rows[i][pk]) == key && EncodedLen(R.Inserted(rows[i])) == envelope
  }

  /** The counter over `n` uniform rows. */
  function UniformSize(plan: Plan, key: nat, envelope: nat, n: nat): int {
    FixedSize(plan.table, plan.schemaVersion) + 2 * key + 1 + n * (envelope + 1)
  }

  lemma UniformGrows(plan: Plan, key: nat, envelope: nat, m: nat, n: nat)
    requires m <= n
    ensures UniformSize(plan, key, envelope, m) <= UniformSize(plan, key, envelope, n)
    ensures UniformSize(plan, key, envelope, n + 1) == UniformSize(plan, key, envelope, n) + envelope + 1
  {
    hide FixedSize;
    assert (n + 1) * (envelope + 1) == n * (envelope + 1) + (envelope + 1);
    assert m * (envelope + 1) <= n * (envelope + 1);
  }

  lemma FirstCounter(row: Row, plan: Plan)
    requires R.HasKey(row, plan.pk)
    ensures Counter([row], plan) == UniformSize(plan, EncodedLen(row[plan.pk]), EncodedLen(R.Inserted(row)), 1)
  {
    hide CanonicalSize, EncodedLen, Counter, FixedSize, R.Inserted;
    CounterStart(row, plan);
    SizeIs(Segment(plan.table, plan.schemaVersion, row[plan.pk], row[plan.pk], 0, []));
    assert RowsSize([]) == 0;
  }

  lemma {:induction false} UniformCounter(rows: seq<Row>, plan: Plan, key: nat, envelope: nat)
    requires rows != [] && Uniform(rows, plan.pk, key, envelope)
    ensures Counter(rows, plan) == UniformSize(plan, key, envelope, |rows|)
  {
    hide CanonicalSize, EncodedLen, Counter, UniformSize, R.Inserted;
    var n := |rows| - 1;
    if n == 0 {
      assert rows == [rows[0]];
      FirstCounter(rows[0], plan);
    } else {
      assert rows == rows[..n] + [rows[n]];
      UniformCounter(rows[..n], plan, key, envelope);
      CounterStep(rows[..n], rows[n], plan);
      UniformGrows(plan, key, envelope, n, n);
    }
  }

  /** A slice of at most `n` uniform rows stays under a target its first `n` rows
      reach in size only. */
  lemma StillUnder(rows: seq<Row>, plan: Plan, key: nat, envelope: nat, slice: seq<Row>, n: nat)
    requires Uniform(rows, plan.pk, key, envelope) && 100 <= n <= |rows|
    requires plan.target == CanonicalSize(SegmentOf(rows[..n], plan))
    requires slice != [] && |slice| <= n && Uniform(slice, plan.pk, key, envelope)
    ensures Counter(slice, plan) < plan.target
  {
    hide CanonicalSize, EncodedLen, UniformSize, SegmentOf, R.Inserted;
    var first := rows[..n];
    UniformCounter(slice, plan, key, envelope);
    UniformCounter(first, plan, key, envelope);
    UniformGrows(plan, key, envelope, |slice|, n);
    assert Counter(first, plan) == plan.target + 2 - Digits(n);
  }

  /** Exactly the comment's claim fails: one more than `n` uniform rows, `n` at least
      100, with the size of the first `n` as target, end up in a single segment. */
  lemma LateSeal(segs: seq<Segment>, rows: seq<Row>, plan: Plan, key: nat, envelope: nat, n: nat)
    requires Uniform(rows, plan.pk, key, envelope) && 100 <= n && |rows| == n + 1
    requires plan.target == CanonicalSize(SegmentOf(rows[..n], plan))
    requires Partition(segs, rows, plan, true)
    ensures segs == [SegmentOf(rows, plan)] && Overlooked(rows, plan, n)
  {
    hide CanonicalSize, EncodedLen, Counter, SegmentOf;
    var last := |segs| - 1;
    var cut := |rows| - segs[last].rowCount;
    if cut > 0 {
      var before := segs[..last];
      var m := before[|before| - 1].rowCount;
      var slice := rows[..cut][cut - m..];
      assert Counter(slice, plan) >= plan.target;
      StillUnder(rows, plan, key, envelope, slice, n);
      assert false;
    }
    assert rows[cut..] == rows && segs == segs[..last] + [segs[last]];
    assert segs[..last] == [];
  }

  // ---------------------------------------------------------------- a late segment

  /** One row for each id from 100 to 200. */
  function Hundreds(): (r: seq<Row>)
    ensures |r| == 101 && Keyed(r, "id")
  {
    seq(101, i => map["id" := Num(I64(100 + i))])
  }

  lemma KeyOrder()
    ensures SortedKeys({"id"}) == ["id"] && SortedKeys({"op", "row"}) == ["op", "row"]
  {
    assert StrLess("op", "row") by { assert "op"[0] == 'o' && "row"[0] == 'r'; }
    AscendingUnique(SortedKeys({"id"}), ["id"]);
    AscendingUnique(SortedKeys({"op", "row"}), ["op", "row"]);
  }

  lemma ObjectLength(o: Json)
    requires o.Obj?
    ensures EncodedLen(o) == 2 + Bytes(EncodeFields(o, SortedKeys(o.fields.Keys)))
  {
    hide EncodeFields, Bytes;
    var fields := EncodeFields(o, SortedKeys(o.fields.Keys));
    assert Encode(o) == "{" + fields + "}";
    BytesConcat("{" + fields, "}");
    BytesConcat("{", fields);
    BytesAscii("{");
    BytesAscii("}");
  }

  /** The length of one field, without the comma. */
  function FieldLength(o: Json, k: string): nat
    requires o.Obj? && k in o.fields
  {
    Bytes(Quote(k)) + 1 + EncodedLen(o.fields[k])
  }

  lemma FieldsLength(o: Json, keys: seq<string>)
    requires o.Obj? && keys != [] && forall k :: k in keys ==> k in o.fields
    ensures Bytes(EncodeFields(o, keys)) == FieldLength(o, keys[0]) +
            (if |keys| == 1 then 0 else 1 + Bytes(EncodeFields(o, keys[1..])))
  {
    hide Encode, Quote, Bytes;
    var (name, value, rest) := (Quote(keys[0]), Encode(o.fields[keys[0]]), EncodeFields(o, keys[1..]));
    var comma := if |keys| == 1 then "" else ",";
    assert EncodeFields(o, keys) == name + ":" + value + comma + rest;
    BytesConcat(name + ":" + value + comma, rest);
    BytesConcat(name + ":" + value, comma);
    BytesConcat(name + ":", value);
    BytesConcat(name, ":");
    BytesAscii(":");
    BytesAscii(comma);
    if |keys| == 1 {
      assert keys[1..] == [] && rest == "";
      BytesAscii(rest);
    }
  }

  /** What an envelope adds to the text of its row's one value. */
  function Wrapping(): nat {
    5 + Bytes(Quote("op")) + 1 + EncodedLen(Str("insert")) + Bytes(Quote("row")) + 1 + Bytes(Quote("id")) + 1
  }

  lemma EnvelopeLength(v: Json)
    ensures EncodedLen(R.Inserted(map["id" := v])) == Wrapping() + EncodedLen(v)
  {
    hide EncodedLen, Bytes, EncodeFields, Quote;
    var (row, o) := (Obj(map["id" := v]), R.Inserted(map["id" := v]));
    KeyOrder();
    assert row.fields.Keys == {"id"} && o.fields.Keys == {"op", "row"};
    ObjectLength(row);
    ObjectLength(o);
    FieldsLength(row, ["id"]);
    FieldsLength(o, ["op", "row"]);
    assert ["op", "row"][1..] == ["row"];
    FieldsLength(o, ["row"]);
  }

  lemma HundredsUniform()
    ensures Uniform(Hundreds(), "id", 3, Wrapping() + 3)
  {
    hide EncodedLen, Wrapping, R.Inserted;
    forall i | 0 <= i < 101
      ensures EncodedLen(Hundreds()[i]["id"]) == 3
      ensures EncodedLen(R.Inserted(Hundreds()[i])) == Wrapping() + 3
    {
      ThreeDigits(100 + i);
      EnvelopeLength(Num(I64(100 + i)));
    }
  }

  lemma ThreeDigits(x: nat)
    requires 100 <= x < 1000
    ensures EncodedLen(Num(I64(x))) == 3
  {
    NatTextBytes(x);
    assert Digits(x) == 1 + Digits(x / 10) && Digits(x / 10) == 2;
  }

  /** Bootstrapping these 101 rows with the size of the first 100 as target leaves one
      segment: the target had been reached at row 100, and the counter missed it. */
  method LateBootstrap(table: string, schemaVersion: string) returns (r: Outcome<seq<Segment>>, plan: Plan)
    requires R.Spelled(table)
    ensures plan.table == table && plan.pk == "id" && plan.schemaVersion == schemaVersion
    ensures r == Done([SegmentOf(Hundreds(), plan)]) && Overlooked(Hundreds(), plan, 100)
  {
    hide CanonicalSize, Partition, SegmentOf, CutRight, Overlooked, Uniform, Bytes, Hundreds;
    var rows := Hundreds();
    HundredsUniform();
    var first := rows[..100];
    var p := Plan(table, "id", schemaVersion, 0);
    p := p.(target := CanonicalSize(SegmentOf(first, p)));
    plan := p;
    SameSegment(first, p.(target := 0), p);
    CutsAtMost(rows, p);
    SpelledId();
    r := BootstrapTable(rows, p, 101);
    LateSeal(r.value, rows, p, 3, Wrapping() + 3, 100);
  }

  lemma SpelledId()
    ensures R.Spelled("id")
  {
    R.InAlphabet('i');
    R.InAlphabet('d');
  }

  lemma SameSegment(rows: seq<Row>, p: Plan, q: Plan)
    requires rows != [] && Keyed(rows, p.pk) && p.(target := 0) == q.(target := 0)
    ensures SegmentOf(rows, p) == SegmentOf(rows, q)
  {
  }
}
