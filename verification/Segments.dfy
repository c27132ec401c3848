/** Segments and their canonical JSON form. */
module Segments {
  import opened Prelude
  import opened Json
  import M = Manifest

  /** `embeddings` and `metadata` are empty on every path modelled here. */
  datatype Segment = Segment(
    table: string, schemaVersion: string, pkLo: Json, pkHi: Json, rowCount: nat, rows: seq<Json>)

  function BlankSegment(table: string, schemaVersion: string): Segment {
    Segment(table, schemaVersion, Null, Null, 0, [])
  }

  function RowsText(rows: seq<Json>): string {
    if rows == [] then ""
    else if |rows| == 1 then Encode(rows[0])
    else RowsText(rows[..|rows| - 1]) + "," + Encode(rows[|rows| - 1])
  }

  function HeadText(table: string, schemaVersion: string): string {
    "{\"table\":" + Quote(table) + ",\"schema_version\":" + Quote(schemaVersion)
  }

  const LO := ",\"pk_lo\":"
  const HI := ",\"pk_hi\":"
  const COUNT := ",\"row_count\":"
  const ROWS := ",\"rows\":["
  const END := "],\"embeddings\":[],\"metadata\":{}}"

  function CanonicalText(s: Segment): string {
    HeadText(s.table, s.schemaVersion) + (LO + Encode(s.pkLo)) + (HI + Encode(s.pkHi))
    + (COUNT + NatText(s.rowCount)) + (ROWS + RowsText(s.rows) + END)
  }

  function CanonicalSize(s: Segment): nat { Bytes(CanonicalText(s)) }

  function EncodedLen(v: Json): nat { Bytes(Encode(v)) }

  /** Bytes of the rows between the brackets, commas included. */
  function RowsSize(rows: seq<Json>): nat {
    if rows == [] then 0
    else RowsSize(rows[..|rows| - 1]) + EncodedLen(rows[|rows| - 1]) + (if |rows| == 1 then 0 else 1)
  }

  /** Everything that does not change while rows are added. */
  function FixedSize(table: string, schemaVersion: string): nat {
    Bytes(HeadText(table, schemaVersion)) + Bytes(LO) + Bytes(HI) + Bytes(COUNT) + Bytes(ROWS) + Bytes(END)
  }

  lemma {:induction false} RowsSizeIs(rows: seq<Json>)
    ensures Bytes(RowsText(rows)) == RowsSize(rows)
  {
    hide Encode;
    if |rows| == 1 {
      assert rows[..0] == [];
    } else if |rows| > 1 {
      hide Bytes;
      assert Bytes(",") == 1 by { BytesAscii(","); }
      var front, last := rows[..|rows| - 1], Encode(rows[|rows| - 1]);
      RowsSizeIs(front);
      BytesConcat(RowsText(front) + ",", last);
      BytesConcat(RowsText(front), ",");
    }
  }

  lemma NatTextBytes(n: nat)
    ensures Bytes(NatText(n)) == Digits(n)
  {
    BytesAscii(NatText(n));
  }

  /** The moving parts of a segment's size add up. */
  lemma SizeIs(s: Segment)
    ensures CanonicalSize(s) == FixedSize(s.table, s.schemaVersion) + EncodedLen(s.pkLo)
                                + EncodedLen(s.pkHi) + Digits(s.rowCount) + RowsSize(s.rows)
  {
    hide Bytes, Encode, NatText, RowsText, Quote, RowsSize, Digits;
    var head, lo, hi := HeadText(s.table, s.schemaVersion), Encode(s.pkLo), Encode(s.pkHi);
    var count, rows := NatText(s.rowCount), RowsText(s.rows);
    BytesConcat(head + (LO + lo) + (HI + hi) + (COUNT + count), ROWS + rows + END);
    BytesConcat(head + (LO + lo) + (HI + hi), COUNT + count);
    BytesConcat(head + (LO + lo), HI + hi);
    BytesConcat(head, LO + lo);
    BytesConcat(LO, lo);
    BytesConcat(HI, hi);
    BytesConcat(COUNT, count);
    BytesConcat(ROWS + rows, END);
    BytesConcat(ROWS, rows);
    NatTextBytes(s.rowCount);
    RowsSizeIs(s.rows);
  }

  /** A whole segment, written out. */
  lemma SampleSegment()
    ensures CanonicalText(Segment("t", "v", Num(I64(1)), Num(I64(2)), 2, [Null, Bool(true), Bool(false)])) ==
      "{\"table\":\"t\",\"schema_version\":\"v\"" + ",\"pk_lo\":1" + ",\"pk_hi\":2" + ",\"row_count\":2"
      + (",\"rows\":[" + "null,true,false" + "],\"embeddings\":[],\"metadata\":{}}")
  {
    hide Quote, Encode;
    var rows := [Null, Bool(true), Bool(false)];
    EscapePlain('t');
    EscapePlain('v');
    assert Encode(Num(I64(1))) == "1" && Encode(Num(I64(2))) == "2" && Encode(Null) == "null" by { SampleScalars(); }
    assert Encode(Bool(true)) == "true" && Encode(Bool(false)) == "false" by { SampleScalars(); }
    assert rows[..2] == [Null, Bool(true)] && rows[..2][..1] == [Null];
    assert RowsText([Null]) == "null";
    assert RowsText(rows[..2]) == "null,true";
    assert RowsText(rows) == "null,true,false";
    assert HeadText("t", "v") == "{\"table\":\"t\",\"schema_version\":\"v\"";
    assert LO + "1" == ",\"pk_lo\":1" && HI + "2" == ",\"pk_hi\":2";
    assert COUNT + NatText(2) == ",\"row_count\":2" && NatText(2) == "2";
    assert ROWS == ",\"rows\":[" && END == "],\"embeddings\":[],\"metadata\":{}}";
  }

  lemma SampleScalars()
    ensures Encode(Num(I64(1))) == "1" && Encode(Num(I64(2))) == "2" && Encode(Null) == "null"
    ensures Encode(Bool(true)) == "true" && Encode(Bool(false)) == "false"
  {
  }

  // ------------------------------------------------------------ segment storage

  /** Raw objects by content address. */
  type SegmentStore = map<Hash, Segment>

  ghost predicate Injective(digest: Segment -> Hash) {
    forall a, b :: digest(a) == digest(b) ==> a == b
  }

  /** Every stored segment sits at its own address. */
  ghost predicate Sound(store: SegmentStore, digest: Segment -> Hash) {
    forall h :: h in store ==> digest(store[h]) == h
  }

  /** First write wins. */
  function Put(store: SegmentStore, s: Segment, digest: Segment -> Hash): SegmentStore {
    PutNew(store, digest(s), s)
  }

  lemma PutKeeps(store: SegmentStore, s: Segment, digest: Segment -> Hash)
    requires Injective(digest) && Sound(store, digest)
    ensures Sound(Put(store, s, digest), digest)
    ensures digest(s) in Put(store, s, digest) && Put(store, s, digest)[digest(s)] == s
    ensures forall h :: h in store ==> h in Put(store, s, digest) && Put(store, s, digest)[h] == store[h]
  {
  }

  function RefOf(s: Segment, digest: Segment -> Hash): M.SegmentRef {
    M.SegmentRef(s.table, s.pkLo, s.pkHi, digest(s), s.rowCount)
  }

  function RefsOf(segs: seq<Segment>, digest: Segment -> Hash): (r: seq<M.SegmentRef>)
    ensures |r| == |segs|
  {
    seq(|segs|, i requires 0 <= i < |segs| => RefOf(segs[i], digest))
  }

  /** Everything in `segs` can be fetched by its address. */
  ghost predicate Holds(store: SegmentStore, segs: seq<Segment>, digest: Segment -> Hash) {
    forall i :: 0 <= i < |segs| ==> digest(segs[i]) in store && store[digest(segs[i])] == segs[i]
  }
}
