/**
 * Value pointers and footers of prepared envelopes: a pointer decodes, lies within its page and file
 * and leads to exactly the key and the value; the footer is found from the end of the envelope.
 */
module VLogPointers {
  import opened Basics
  import opened Index
  import opened CommitProtocol
  import opened Topology
  import opened History
  import opened ByteCodec
  import opened VLogCodec
  import opened VLogRoundTrip
  import opened VLogLayout
  import opened VLogScanner
  import opened VLogEnvelope
  import opened VLogAgreement
  import opened VLogTheorems
  import opened Running
  import opened Coordinator

  // ---------------------------------------------------------------- the pointer codec

  const POINTER_LEN: nat := 16

  /** ValuePointer::validate_fields. */
  predicate PointerValid(p: ValuePointer) {
    && p.version == 0 && p.file <= 999_999 && 56 <= p.recordLen <= 60_055 && p.valueLen <= MAX_KEY_VALUE_SIZE
    && p.valueLen < p.recordLen - KV_RECORD_FIXED_LEN <= MAX_KEY_VALUE_SIZE
  }

  function PointerFields(p: ValuePointer): seq<Bytes> {
    [Le(p.version, 2), Le(p.file, 4), Le(p.recordOffset, 4), Le(p.recordLen, 4), Le(p.valueLen, 2)]
  }

  function EncodePointer(p: ValuePointer): Bytes {
    Join(PointerFields(p))
  }

  function DecodePointer(b: Bytes): Result<ValuePointer> {
    if |b| != POINTER_LEN then Err(Corruption)
    else if ReadLe(b, 0, 2) != 0 then Err(IncompatibleFormat)
    else
      var p := ValuePointer(0, ReadLe(b, 2, 4), ReadLe(b, 6, 4), ReadLe(b, 10, 4), ReadLe(b, 14, 2));
      if PointerValid(p) then Ok(p) else Err(Corruption)
  }

  lemma {:induction false} PointerReads(f: seq<Bytes>, p: ValuePointer)
    requires PointerValid(p) && p.recordOffset <= U32_MAX
    requires |f| == 5 && f[0] == Le(p.version, 2) && f[1] == Le(p.file, 4) && f[2] == Le(p.recordOffset, 4)
    requires f[3] == Le(p.recordLen, 4) && f[4] == Le(p.valueLen, 2)
    ensures DecodePointer(Join(f)) == Ok(p)
  {
    Ranges();
    assert Start(f, 0) == 0;
    assert Start(f, 1) == 2;
    assert Start(f, 2) == 6;
    assert Start(f, 3) == 10;
    assert Start(f, 4) == 14;
    assert Start(f, 5) == 16;
    JoinLength(f);
    var b := Join(f);
    assert ReadLe(b, 0, 2) == p.version by { NumberIn(f, 0, p.version, 2, b); }
    assert ReadLe(b, 2, 4) == p.file by { NumberIn(f, 1, p.file, 4, b); }
    assert ReadLe(b, 6, 4) == p.recordOffset by { NumberIn(f, 2, p.recordOffset, 4, b); }
    assert ReadLe(b, 10, 4) == p.recordLen by { NumberIn(f, 3, p.recordLen, 4, b); }
    assert ReadLe(b, 14, 2) == p.valueLen by { NumberIn(f, 4, p.valueLen, 2, b); }
  }

  lemma {:induction false} PointerRoundTrip(p: ValuePointer)
    requires PointerValid(p) && p.recordOffset <= U32_MAX
    ensures DecodePointer(EncodePointer(p)) == Ok(p)
  {
    PointerReads(PointerFields(p), p);
  }

  // ---------------------------------------------------------------- following a pointer

  datatype PointerLayout = PointerLayout(keyLen: nat, valueStart: nat, valueEnd: nat, recordEnd: nat)

  function LayoutOf(p: ValuePointer): Result<PointerLayout> {
    if p.version != 0 then Err(IncompatibleFormat)
    else if !PointerValid(p) then Err(Corruption)
    else
      Ok(PointerLayout(p.recordLen - KV_RECORD_FIXED_LEN - p.valueLen, p.recordOffset + p.recordLen - 4 - p.valueLen,
                       p.recordOffset + p.recordLen - 4, p.recordOffset + p.recordLen))
  }

  /** ValuePointer::validate_file_bounds, which always uses the production page size. */
  function ValidateFileBounds(p: ValuePointer, fileSize: nat): Result<PointerLayout> {
    var layout :- LayoutOf(p);
    var g := PRODUCTION;
    var page := p.recordOffset / g.pageSize;
    var areaStart := if page == 0 then FIRST_AREA_START else page * g.pageSize + OTHER_AREA_START;
    if fileSize > g.maxFileSize || layout.recordEnd > g.maxFileSize || layout.recordEnd > fileSize then Err(Corruption)
    else if p.recordOffset < areaStart || layout.recordEnd > page * g.pageSize + g.pageSize then Err(Corruption)
    else Ok(layout)
  }

  /** A put record that stands in a production file gives a pointer that passes every check. */
  lemma {:induction false} PlacedPointerIsValid(placement: Placement, after: Pos, op: Operation, fileSize: nat)
    requires op.Put? && OperationValid(op) && placement.len == OperationLength(op)
    requires GeometryValid(PRODUCTION) && PlacedWell(placement, after, PRODUCTION)
    requires after.offset <= fileSize <= PRODUCTION.maxFileSize
    ensures var p := PointerTo(placement, op).value;
            && PointerValid(p) && p.recordOffset <= U32_MAX && DecodePointer(EncodePointer(p)) == Ok(p)
            && ValidateFileBounds(p, fileSize)
               == Ok(PointerLayout(|op.key|, p.recordOffset + 51 + |op.key|, p.recordOffset + 51 + |op.key| + |op.value|, after.offset))
  {
    var p := PointerTo(placement, op).value;
    PointerRoundTrip(p);
    PageBounds(p.recordOffset, PRODUCTION.pageSize);
  }

  /** The bytes between the layout's bounds are the value, and the key comes right before them. */
  lemma {:induction false} PointerReadsValue(t: Txn, i: nat, layout: PointerLayout, offset: nat)
    requires TxnValid(t) && i < |t.ops| && t.ops[i].Put?
    requires var op := t.ops[i];
             layout == PointerLayout(|op.key|, offset + 51 + |op.key|, offset + 51 + |op.key| + |op.value|,
                                     offset + KV_RECORD_FIXED_LEN + |op.key| + |op.value|)
    ensures var image := EncodeRecord(OperationRecord(t.seqNo, t.uuid, i, t.ops[i]));
            && |image| == layout.recordEnd - offset
            && image[layout.valueStart - offset..layout.valueEnd - offset] == t.ops[i].value
            && image[layout.valueStart - offset - layout.keyLen..layout.valueStart - offset] == t.ops[i].key
  {
    var r := OperationRecord(t.seqNo, t.uuid, i, t.ops[i]);
    assert OperationValid(t.ops[i]);
    KvReads(KvFields(r), r);
  }

  /** Where operation `i` of a prepared envelope went. */
  lemma {:induction false} PutIsPlaced(t: Txn, begin: Pos, g: Geometry, i: nat) returns (placement: Placement, at: Pos, after: Pos)
    requires RoomForLargest(g) && Reachable(begin, g) && TxnValid(t) && i < |t.ops|
    requires PlanAll(Lengths(t), |t.ops| + 2, begin, g).Ok?
    ensures placement == PlanAll(Lengths(t), |t.ops| + 2, begin, g).value.0[i + 1]
    ensures PlannedAt(t, begin, g, i + 1, placement, at, after) && placement.len == OperationLength(t.ops[i])
  {
    at, after := PlannedRecord(t, begin, g, i + 1);
    placement := PlanAll(Lengths(t), |t.ops| + 2, begin, g).value.0[i + 1];
    assert Lengths(t)[i + 1] == OperationLengths(t.ops)[i];
  }

  /**
   * The pointer encodes and decodes, passes the bounds check of a file of this length, and cuts
   * exactly `value` out of the record's bytes, with exactly `key` right before it.
   */
  predicate PointerSound(p: ValuePointer, image: Bytes, key: Bytes, value: Bytes, fileSize: nat) {
    && DecodePointer(EncodePointer(p)) == Ok(p) && |image| == p.recordLen
    && CutsOut(ValidateFileBounds(p, fileSize), p.recordOffset, image, key, value)
  }

  /** The bounds, taken from the start of the record, cut the key and the value out of its bytes. */
  predicate CutsOut(bounds: Result<PointerLayout>, recordOffset: nat, image: Bytes, key: Bytes, value: Bytes) {
    && bounds.Ok?
    && var start, end := bounds.value.valueStart - recordOffset, bounds.value.valueEnd - recordOffset;
       && 0 <= start - bounds.value.keyLen && start <= end <= |image|
       && image[start..end] == value && image[start - bounds.value.keyLen..start] == key
  }

  lemma {:induction false} PlacedPointerIsSound(t: Txn, i: nat, placement: Placement, after: Pos, fileSize: nat)
    requires TxnValid(t) && i < |t.ops| && t.ops[i].Put? && placement.len == OperationLength(t.ops[i])
    requires GeometryValid(PRODUCTION) && PlacedWell(placement, after, PRODUCTION)
    requires after.offset <= fileSize <= PRODUCTION.maxFileSize
    ensures PointerSound(PointerTo(placement, t.ops[i]).value, EncodeRecord(OperationRecord(t.seqNo, t.uuid, i, t.ops[i])),
                         t.ops[i].key, t.ops[i].value, fileSize)
  {
    var op := t.ops[i];
    assert OperationValid(op);
    PlacedPointerIsValid(placement, after, op, fileSize);
    var p := PointerTo(placement, op).value;
    var layout := PointerLayout(|op.key|, p.recordOffset + 51 + |op.key|, p.recordOffset + 51 + |op.key| + |op.value|, after.offset);
    PointerReadsValue(t, i, layout, p.recordOffset);
    LayoutCutsOut(layout, p.recordOffset, EncodeRecord(OperationRecord(t.seqNo, t.uuid, i, op)), op.key, op.value);
  }

  lemma {:induction false} LayoutCutsOut(layout: PointerLayout, recordOffset: nat, image: Bytes, key: Bytes, value: Bytes)
    requires recordOffset + layout.keyLen <= layout.valueStart <= layout.valueEnd <= recordOffset + |image|
    requires image[layout.valueStart - recordOffset..layout.valueEnd - recordOffset] == value
    requires image[layout.valueStart - recordOffset - layout.keyLen..layout.valueStart - recordOffset] == key
    ensures CutsOut(Ok(layout), recordOffset, image, key, value)
  {
  }

  /** Every record of a prepared envelope is one of its chunks, at the place that was planned for it; the footer is the last. */
  lemma {:induction false} RecordIsWritten(t: Txn, begin: Pos, g: Geometry, n: nat)
    requires GeometryValid(g) && Prepared(t, begin, g).Ok? && n < |t.ops| + 2
    ensures var p, placements := Prepared(t, begin, g).value, PlanAll(Lengths(t), |t.ops| + 2, begin, g).value.0;
            var written := Chunk(placements[n].start, EncodeRecord(Records(t, begin, p.end)[n]));
            && written in p.chunks
            && (n == |t.ops| + 1 ==> p.chunks != [] && p.chunks[|p.chunks| - 1] == written)
  {
    var p, placements := Prepared(t, begin, g).value, PlanAll(Lengths(t), |t.ops| + 2, begin, g).value.0;
    WrittenPiece(placements, Records(t, begin, p.end), |t.ops| + 2, t, n, piece => ChunkOf(piece), p.chunks);
  }

  lemma {:induction false} WrittenPiece(
    placements: seq<Placement>, records: seq<Record>, total: nat, t: Txn, n: nat, chunk: Piece -> Chunk, chunks: seq<Chunk>)
    requires n < total == |placements| == |records|
    requires var pieces := PiecesThrough(placements, records, total, t);
             |chunks| == |pieces| && forall i :: 0 <= i < |pieces| ==> chunks[i] == chunk(pieces[i])
    ensures var written := chunk(Piece(placements[n].start, RecordContent(records[n])));
            && written in chunks && (n == total - 1 ==> chunks != [] && chunks[|chunks| - 1] == written)
  {
    var own := PlacementPieces(placements[n], records[n], t);
    PiecesOfRecord(placements, records, n, total, t, |own| - 1);
    var k := |PiecesThrough(placements, records, n, t)| + |own| - 1;
    assert chunks[k] == chunk(own[|own| - 1]);
  }

  lemma {:induction false} PutIsWritten(t: Txn, begin: Pos, g: Geometry, i: nat)
    requires GeometryValid(g) && Prepared(t, begin, g).Ok? && i < |t.ops|
    ensures Chunk(PlanAll(Lengths(t), |t.ops| + 2, begin, g).value.0[i + 1].start,
                  EncodeRecord(OperationRecord(t.seqNo, t.uuid, i, t.ops[i]))) in Prepared(t, begin, g).value.chunks
  {
    RecordIsWritten(t, begin, g, i + 1);
    var p := Prepared(t, begin, g).value;
    assert Records(t, begin, p.end)[i + 1] == OperationRecord(t.seqNo, t.uuid, i, t.ops[i]);
  }

  /**
   * Pointer soundness: for every Put of every prepared envelope, its record is what the writer puts at
   * the position in its value pointer, and that value pointer reads the value out of every file that
   * reaches the record.
   */
  lemma {:induction false} PointersAreSound(t: Txn, begin: Pos, i: nat, fileSize: nat)
    requires GeometryValid(PRODUCTION) && Reachable(begin, PRODUCTION) && Prepared(t, begin, PRODUCTION).Ok?
    requires i < |t.ops| && t.ops[i].Put?
    ensures Prepared(t, begin, PRODUCTION).value.pointers[i].Some?
    ensures var p := Prepared(t, begin, PRODUCTION).value.pointers[i].value;
            Chunk(Pos(p.file, p.recordOffset), EncodeRecord(OperationRecord(t.seqNo, t.uuid, i, t.ops[i])))
            in Prepared(t, begin, PRODUCTION).value.chunks
    ensures var p := Prepared(t, begin, PRODUCTION).value.pointers[i].value;
            p.recordOffset + p.recordLen <= fileSize <= PRODUCTION.maxFileSize ==>
              PointerSound(p, EncodeRecord(OperationRecord(t.seqNo, t.uuid, i, t.ops[i])), t.ops[i].key, t.ops[i].value, fileSize)
  {
    ProductionHasRoom();
    var placement, at, after := PutIsPlaced(t, begin, PRODUCTION, i);
    var p := Prepared(t, begin, PRODUCTION).value.pointers[i];
    assert p == PointerTo(placement, t.ops[i]);
    PutIsWritten(t, begin, PRODUCTION, i);
    if after.offset <= fileSize <= PRODUCTION.maxFileSize {
      PlacedPointerIsSound(t, i, placement, after, fileSize);
    }
  }

  // ---------------------------------------------------------------- the contract the commit relies on

  /** Later positions are further on. */
  lemma {:induction false} WalkGrows(t: Txn, begin: Pos, g: Geometry, placements: seq<Placement>, positions: seq<Pos>, m: nat, n: nat)
    requires GeometryValid(g) && Walks(t, begin, g, placements, positions) && m <= n <= |placements|
    ensures PosLeq(positions[m], positions[n])
    decreases n
  {
    if m < n {
      WalkGrows(t, begin, g, placements, positions, m, n - 1);
      var i := n - 1;
      assert WalkStep(positions[i], placements[i], positions[i + 1], Lengths(t)[i], g);
      PosLeqTransitive(positions[m], positions[i], positions[n]);
    }
  }

  /** The record of operation `i` lies in the envelope. */
  lemma {:induction false} RecordInEnvelope(t: Txn, begin: Pos, g: Geometry, placements: seq<Placement>, positions: seq<Pos>, i: nat)
    requires GeometryValid(g) && Walks(t, begin, g, placements, positions) && i < |t.ops|
    ensures var a := placements[i + 1];
            && a.len == OperationLength(t.ops[i]) && PosLeq(begin, a.start)
            && Pos(a.start.file, a.start.offset + a.len) == positions[i + 2]
            && PosLeq(positions[i + 2], positions[|t.ops| + 2])
  {
    WalkGrows(t, begin, g, placements, positions, 0, i + 1);
    WalkGrows(t, begin, g, placements, positions, i + 2, |t.ops| + 2);
    assert WalkStep(positions[i + 1], placements[i + 1], positions[i + 1 + 1], Lengths(t)[i + 1], g);
    PosLeqTransitive(begin, positions[i + 1], placements[i + 1].start);
    assert Lengths(t)[i + 1] == OperationLengths(t.ops)[i];
  }

  /** The record of a later operation starts after the record of an earlier one. */
  lemma {:induction false} RecordsInOrder(
    t: Txn, begin: Pos, g: Geometry, placements: seq<Placement>, positions: seq<Pos>, i: nat, j: nat)
    requires GeometryValid(g) && Walks(t, begin, g, placements, positions) && i < j < |t.ops|
    ensures PosLeq(positions[i + 2], placements[j + 1].start)
  {
    WalkGrows(t, begin, g, placements, positions, i + 2, j + 1);
    assert WalkStep(positions[j + 1], placements[j + 1], positions[j + 1 + 1], Lengths(t)[j + 1], g);
    PosLeqTransitive(positions[i + 2], positions[j + 1], placements[j + 1].start);
  }

  /** What the commit coordinator assumes of a layout is what the writer delivers. */
  lemma {:induction false} PreparedLayoutFits(t: Txn, begin: Pos, g: Geometry)
    requires RoomForLargest(g) && Reachable(begin, g) && Prepared(t, begin, g).Ok?
    ensures var p := Prepared(t, begin, g).value;
            LayoutFits(t.ops, begin, EnvelopeLayout(p.pointers, p.end, p.crc), g)
  {
    var p := Prepared(t, begin, g).value;
    EndsValid(t, begin, g);
    var positions := PlanWalks(t, begin, g);
    PointersInside(t, begin, g, PlanAll(Lengths(t), |t.ops| + 2, begin, g).value.0, positions, p.pointers);
  }

  lemma {:induction false} PointersInside(
    t: Txn, begin: Pos, g: Geometry, placements: seq<Placement>, positions: seq<Pos>, pointers: Pointers)
    requires GeometryValid(g) && Walks(t, begin, g, placements, positions) && pointers == PointersFor(placements, t.ops)
    ensures RecordsInside(t.ops, pointers, begin, positions[|t.ops| + 2])
  {
    var end := positions[|t.ops| + 2];
    forall i | 0 <= i < |t.ops| && pointers[i].Some?
      ensures var v := pointers[i].value;
              && v.version == 0 && v.valueLen == |t.ops[i].value|
              && v.recordLen == KV_RECORD_FIXED_LEN + |t.ops[i].key| + |t.ops[i].value|
              && PosLeq(begin, RecordStart(v)) && PosLeq(RecordEnd(v), end)
    {
      RecordInEnvelope(t, begin, g, placements, positions, i);
    }
    forall i, j | 0 <= i < j < |t.ops| && pointers[i].Some? && pointers[j].Some?
      ensures PosLeq(RecordEnd(pointers[i].value), RecordStart(pointers[j].value))
    {
      RecordInEnvelope(t, begin, g, placements, positions, i);
      RecordsInOrder(t, begin, g, placements, positions, i, j);
    }
  }

  // ---------------------------------------------------------------- the footer from the end

  datatype LocatedFooter = LocatedFooter(start: Pos, footer: Record)

  /** Where the trailer at the end of the tail says that the footer starts. */
  function FooterStart(tailStart: Pos, tail: Bytes, end: Pos, g: Geometry): (r: Result<nat>)
    requires GeometryValid(g)
    ensures r.Ok? ==> tailStart.offset <= r.value <= end.offset == tailStart.offset + |tail|
  {
    if tailStart.file != end.file || |tail| < 8 || tailStart.offset + |tail| != end.offset || end.offset > g.maxFileSize
    then Err(Corruption)
    else if tail[|tail| - 4..] != TRAILER_MAGIC then Err(Corruption)
    else
      var len := ReadLe(tail, |tail| - 8, 4);
      if len > end.offset || end.offset - len < tailStart.offset
         || (end.offset - len) / g.pageSize != (end.offset - 1) / g.pageSize
      then Err(Corruption) else Ok(end.offset - len)
  }

  /** locate_footer_from_end. */
  function LocateFooter(tailStart: Pos, tail: Bytes, end: Pos, g: Geometry): Result<LocatedFooter> {
    if !GeometryValid(g) then Err(Corruption)
    else
      var offset :- FooterStart(tailStart, tail, end, g);
      FooterReadBy((b, p) => DecodeRecordAt(b, p, g), tail[offset - tailStart.offset..], Pos(end.file, offset), end)
  }

  /** The record at `start`, if it decodes to a footer that ends at `end`. */
  function FooterReadBy(decode: (Bytes, Pos) -> Result<Record>, b: Bytes, start: Pos, end: Pos): Result<LocatedFooter> {
    var r :- decode(b, start);
    if r.TxPreparedEnd? && r.end == end then Ok(LocatedFooter(start, r)) else Err(Corruption)
  }

  lemma {:induction false} FooterTail(footer: Record, pre: Bytes)
    requires RecordValid(footer) && footer.TxPreparedEnd?
    ensures var tail := pre + EncodeRecord(footer);
            && |tail| == |pre| + TX_PREPARED_END_LEN && tail[|tail| - 4..] == TRAILER_MAGIC
            && ReadLe(tail, |tail| - 8, 4) == TX_PREPARED_END_LEN && tail[|pre|..] == EncodeRecord(footer)
  {
    FooterFieldsAre(footer);
    FooterReads(FooterFields(footer), footer);
    var b := EncodeRecord(footer);
    var tail := pre + b;
    assert tail[|tail| - 4..] == b[107..111];
    assert tail[|tail| - 8..|tail| - 8 + 4] == b[103..107];
  }

  lemma {:induction false} SamePageAsEnd(start: nat, len: nat, g: Geometry)
    requires GeometryValid(g) && len > 0 && start + len <= PageEndOf(start, g)
    ensures (start + len - 1) / g.pageSize == start / g.pageSize
  {
    PageEndForm(start, g);
    ShiftWithin(start, len - 1, g.pageSize);
  }

  /** A footer that stands somewhere is found from any tail that ends with it. */
  lemma {:induction false} StandingFooterIsLocated(footer: Record, start: Pos, pre: Bytes, g: Geometry)
    requires RecordValid(footer) && footer.TxPreparedEnd? && StandsAt(footer, start, g) && |pre| <= start.offset
    ensures LocateFooter(Pos(start.file, start.offset - |pre|), pre + EncodeRecord(footer), footer.end, g)
         == Ok(LocatedFooter(start, footer))
  {
    FooterTail(footer, pre);
    RecordRoundTrip(footer, start, g);
    var tailStart, tail := Pos(start.file, start.offset - |pre|), pre + EncodeRecord(footer);
    FooterStartFound(tailStart, tail, footer.end, g, start.offset);
    FooterIsFound((b, p) => DecodeRecordAt(b, p, g), EncodeRecord(footer), start, footer);
  }

  lemma {:induction false} FooterStartFound(tailStart: Pos, tail: Bytes, end: Pos, g: Geometry, start: nat)
    requires GeometryValid(g) && tailStart.file == end.file && tailStart.offset + |tail| == end.offset <= g.maxFileSize
    requires tailStart.offset <= start && end.offset == start + TX_PREPARED_END_LEN <= PageEndOf(start, g)
    requires tail[|tail| - 4..] == TRAILER_MAGIC && ReadLe(tail, |tail| - 8, 4) == TX_PREPARED_END_LEN
    ensures FooterStart(tailStart, tail, end, g) == Ok(start)
  {
    SamePageAsEnd(start, TX_PREPARED_END_LEN, g);
  }

  lemma {:induction false} FooterIsFound(decode: (Bytes, Pos) -> Result<Record>, b: Bytes, start: Pos, footer: Record)
    requires decode(b, start) == Ok(footer) && footer.TxPreparedEnd?
    ensures FooterReadBy(decode, b, start, footer.end) == Ok(LocatedFooter(start, footer))
  {
  }

  lemma {:induction false} FooterIsWritten(t: Txn, begin: Pos, g: Geometry, start: Pos)
    requires GeometryValid(g) && Prepared(t, begin, g).Ok?
    requires start == PlanAll(Lengths(t), |t.ops| + 2, begin, g).value.0[|t.ops| + 1].start
    ensures var p := Prepared(t, begin, g).value;
            p.chunks != [] && p.chunks[|p.chunks| - 1] == Chunk(start, EncodeRecord(FooterRecord(t, begin, p.end, p.crc)))
  {
    RecordIsWritten(t, begin, g, |t.ops| + 1);
    var p := Prepared(t, begin, g).value;
    assert Records(t, begin, p.end)[|t.ops| + 1] == FooterRecord(t, begin, p.end, p.crc);
  }

  /**
   * The footer is the last chunk of every prepared envelope, and it is found from any tail of the last
   * file that ends with that chunk.
   */
  lemma {:induction false} FooterIsLocated(t: Txn, begin: Pos, g: Geometry, pre: Bytes)
    requires RoomForLargest(g) && Reachable(begin, g) && Prepared(t, begin, g).Ok?
    requires |pre| + TX_PREPARED_END_LEN <= Prepared(t, begin, g).value.end.offset
    ensures var p := Prepared(t, begin, g).value;
            && p.chunks != []
            && p.chunks[|p.chunks| - 1]
               == Chunk(Pos(p.end.file, p.end.offset - TX_PREPARED_END_LEN), EncodeRecord(FooterRecord(t, begin, p.end, p.crc)))
    ensures var p := Prepared(t, begin, g).value;
            var footer := FooterRecord(t, begin, p.end, p.crc);
            LocateFooter(Pos(p.end.file, p.end.offset - TX_PREPARED_END_LEN - |pre|), pre + EncodeRecord(footer), p.end, g)
            == Ok(LocatedFooter(Pos(p.end.file, p.end.offset - TX_PREPARED_END_LEN), footer))
  {
    var p := Prepared(t, begin, g).value;
    var start := FooterStands(t, begin, g);
    FooterIsWritten(t, begin, g, start);
    StandingFooterIsLocated(FooterRecord(t, begin, p.end, p.crc), start, pre, g);
  }

  /** Where the footer of a prepared envelope stands. */
  lemma {:induction false} FooterStands(t: Txn, begin: Pos, g: Geometry) returns (start: Pos)
    requires RoomForLargest(g) && Reachable(begin, g) && Prepared(t, begin, g).Ok?
    ensures start == PlanAll(Lengths(t), |t.ops| + 2, begin, g).value.0[|t.ops| + 1].start
    ensures var p := Prepared(t, begin, g).value;
            var footer := FooterRecord(t, begin, p.end, p.crc);
            && TX_PREPARED_END_LEN <= p.end.offset && start == Pos(p.end.file, p.end.offset - TX_PREPARED_END_LEN)
            && RecordValid(footer) && StandsAt(footer, start, g)
  {
    var p := Prepared(t, begin, g).value;
    var n := |t.ops| + 1;
    var at, after := PlannedRecord(t, begin, g, n);
    EndsValid(t, begin, g);
    var placement := PlanAll(Lengths(t), |t.ops| + 2, begin, g).value.0[n];
    PlannedRecordStands(t, begin, p.end, g, n, placement, at, after);
    assert Records(t, begin, p.end)[n] == FooterRecord(t, begin, p.end, p.crc);
    start := placement.start;
  }
}
