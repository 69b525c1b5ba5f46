/** Every record the writer can encode is read back exactly, at every place it may legally stand. */
module VLogRoundTrip {
  import opened Basics
  import opened Index
  import opened CommitProtocol
  import opened Topology
  import opened History
  import opened ByteCodec
  import opened VLogCodec

  function HeaderFor(r: Record): Header {
    Header(TypeByte(r), RecordLen(r), r.seqNo, r.uuid)
  }

  /** A record that starts with its encoded header decodes to that header. */
  lemma {:induction false} HeaderOfRecord(b: Bytes, r: Record)
    requires RecordValid(r) && |b| >= 39 && b[0..39] == HeaderOf(r)
    ensures DecodeHeader(b) == Ok(HeaderFor(r))
  {
    HeaderRoundTrip(TypeByte(r), RecordLen(r), r.seqNo, r.uuid, b[39..]);
    assert b == HeaderOf(r) + b[39..];
  }

  lemma {:induction false} HeaderOfLength(r: Record)
    requires RecordValid(r)
    ensures |HeaderOf(r)| == 39
  {
    HeaderRoundTrip(TypeByte(r), RecordLen(r), r.seqNo, r.uuid, []);
  }

  lemma {:induction false} TxBeginReads(f: seq<Bytes>, r: Record)
    requires RecordValid(r) && r.TxBegin?
    requires |f| == 5 && f[0] == HeaderOf(r) && f[1] == Le(r.begin.file, 4) && f[2] == Le(r.begin.offset, 8)
    requires f[3] == Le(r.opCount, 8) && f[4] == Le(r.keyCount, 8)
    ensures |Sealed(f)| == TX_BEGIN_LEN && Sealed(f)[0..39] == HeaderOf(r)
    ensures DecodeTxBegin(Sealed(f), HeaderFor(r)) == Ok(r)
  {
    Ranges();
    HeaderOfLength(r);
    assert Start(f, 0) == 0;
    assert Start(f, 1) == 39;
    assert Start(f, 2) == 43;
    assert Start(f, 3) == 51;
    assert Start(f, 4) == 59;
    assert Start(f, 5) == 67;
    SealedHolds(f);
    var b := Sealed(f);
    assert b[0..39] == HeaderOf(r) by { SealedField(f, 0); }
    assert ReadLe(b, 39, 4) == r.begin.file by { SealedNumber(f, 1, r.begin.file, 4); }
    assert ReadLe(b, 43, 8) == r.begin.offset by { SealedNumber(f, 2, r.begin.offset, 8); }
    assert ReadLe(b, 51, 8) == r.opCount by { SealedNumber(f, 3, r.opCount, 8); }
    assert ReadLe(b, 59, 8) == r.keyCount by { SealedNumber(f, 4, r.keyCount, 8); }
    TxBeginDecodes(b, r);
  }

  lemma {:induction false} TxBeginDecodes(b: Bytes, r: Record)
    requires RecordValid(r) && r.TxBegin? && |b| == TX_BEGIN_LEN && SealHolds(b)
    requires ReadLe(b, 39, 4) == r.begin.file && ReadLe(b, 43, 8) == r.begin.offset
    requires ReadLe(b, 51, 8) == r.opCount && ReadLe(b, 59, 8) == r.keyCount
    ensures DecodeTxBegin(b, HeaderFor(r)) == Ok(r)
  {
  }

  lemma {:induction false} KvReads(f: seq<Bytes>, r: Record)
    requires RecordValid(r) && r.KvRecord?
    requires |f| == 6 && f[0] == HeaderOf(r) && f[1] == Le(r.opIndex, 8) && f[2] == Le(|r.key|, 2)
    requires f[3] == Le(|r.value|, 2) && f[4] == r.key && f[5] == r.value
    ensures |Sealed(f)| == RecordLen(r) && Sealed(f)[0..39] == HeaderOf(r)
    ensures Sealed(f)[51..51 + |r.key|] == r.key && Sealed(f)[51 + |r.key|..51 + |r.key| + |r.value|] == r.value
    ensures DecodeKv(Sealed(f), HeaderFor(r)) == Ok(r)
  {
    Ranges();
    HeaderOfLength(r);
    assert Start(f, 0) == 0;
    assert Start(f, 1) == 39;
    assert Start(f, 2) == 47;
    assert Start(f, 3) == 49;
    assert Start(f, 4) == 51;
    assert Start(f, 5) == 51 + |r.key|;
    assert Start(f, 6) == 51 + |r.key| + |r.value|;
    SealedHolds(f);
    var b := Sealed(f);
    assert b[0..39] == HeaderOf(r) by { SealedField(f, 0); }
    assert ReadLe(b, 39, 8) == r.opIndex by { SealedNumber(f, 1, r.opIndex, 8); }
    assert ReadLe(b, 47, 2) == |r.key| by { SealedNumber(f, 2, |r.key|, 2); }
    assert ReadLe(b, 49, 2) == |r.value| by { SealedNumber(f, 3, |r.value|, 2); }
    assert b[51..51 + |r.key|] == r.key by { SealedField(f, 4); }
    assert b[51 + |r.key|..51 + |r.key| + |r.value|] == r.value by { SealedField(f, 5); }
    KvDecodes(b, r);
  }

  lemma {:induction false} KvDecodes(b: Bytes, r: Record)
    requires RecordValid(r) && r.KvRecord? && |b| == RecordLen(r) && SealHolds(b)
    requires ReadLe(b, 39, 8) == r.opIndex && ReadLe(b, 47, 2) == |r.key| && ReadLe(b, 49, 2) == |r.value|
    requires b[51..51 + |r.key|] == r.key && b[51 + |r.key|..51 + |r.key| + |r.value|] == r.value
    ensures DecodeKv(b, HeaderFor(r)) == Ok(r)
  {
  }

  lemma {:induction false} DeleteReads(f: seq<Bytes>, r: Record)
    requires RecordValid(r) && r.DeleteRecord?
    requires |f| == 4 && f[0] == HeaderOf(r) && f[1] == Le(r.opIndex, 8) && f[2] == Le(|r.key|, 2) && f[3] == r.key
    ensures |Sealed(f)| == RecordLen(r) && Sealed(f)[0..39] == HeaderOf(r)
    ensures DecodeDelete(Sealed(f), HeaderFor(r)) == Ok(r)
  {
    Ranges();
    HeaderOfLength(r);
    assert Start(f, 0) == 0;
    assert Start(f, 1) == 39;
    assert Start(f, 2) == 47;
    assert Start(f, 3) == 49;
    assert Start(f, 4) == 49 + |r.key|;
    SealedHolds(f);
    var b := Sealed(f);
    assert b[0..39] == HeaderOf(r) by { SealedField(f, 0); }
    assert ReadLe(b, 39, 8) == r.opIndex by { SealedNumber(f, 1, r.opIndex, 8); }
    assert ReadLe(b, 47, 2) == |r.key| by { SealedNumber(f, 2, |r.key|, 2); }
    assert b[49..49 + |r.key|] == r.key by { SealedField(f, 3); }
    DeleteDecodes(b, r);
  }

  lemma {:induction false} DeleteDecodes(b: Bytes, r: Record)
    requires RecordValid(r) && r.DeleteRecord? && |b| == RecordLen(r) && SealHolds(b)
    requires ReadLe(b, 39, 8) == r.opIndex && ReadLe(b, 47, 2) == |r.key| && b[49..49 + |r.key|] == r.key
    ensures DecodeDelete(b, HeaderFor(r)) == Ok(r)
  {
  }

  lemma {:induction false} PageEndReads(f: seq<Bytes>, r: Record, start: Pos, g: Geometry)
    requires RecordValid(r) && r.PageEnd? && GeometryValid(g) && start.offset + r.len == PageEndOf(start.offset, g)
    requires |f| == 2 && f[0] == HeaderOf(r) && f[1] == Zeros(r.len - 43)
    ensures |Sealed(f)| == r.len && Sealed(f)[0..39] == HeaderOf(r)
    ensures DecodePageEnd(Sealed(f), HeaderFor(r), start, g) == Ok(r)
  {
    HeaderOfLength(r);
    assert Start(f, 0) == 0;
    assert Start(f, 1) == 39;
    assert Start(f, 2) == r.len - 4;
    SealedHolds(f);
    var b := Sealed(f);
    assert b[0..39] == HeaderOf(r) by { SealedField(f, 0); }
    assert b[39..r.len - 4] == Zeros(r.len - 43) by { SealedField(f, 1); }
  }

  // ---------------------------------------------------------------- the footer

  /** The first 99 bytes of the footer. */
  lemma {:induction false} FooterHeadReads(f: seq<Bytes>, r: Record, b: Bytes)
    requires RecordValid(r) && r.TxPreparedEnd?
    requires |f| == 10 && f[0] == HeaderOf(r) && f[1] == Le(r.begin.file, 4) && f[2] == Le(r.begin.offset, 8)
    requires f[3] == Le(r.end.file, 4) && f[4] == Le(r.end.offset, 8) && f[5] == Le(r.opCount, 8)
    requires f[6] == Le(r.keyCount, 8) && f[7] == Le(r.kvCount, 8) && f[8] == Le(r.deleteCount, 8)
    requires f[9] == CrcBytes(r.crc) && Join(f) <= b
    ensures |Join(f)| == 99 && b[0..39] == HeaderOf(r)
    ensures ReadLe(b, 39, 4) == r.begin.file && ReadLe(b, 43, 8) == r.begin.offset
    ensures ReadLe(b, 51, 4) == r.end.file && ReadLe(b, 55, 8) == r.end.offset
    ensures ReadLe(b, 63, 8) == r.opCount && ReadLe(b, 71, 8) == r.keyCount
    ensures ReadLe(b, 79, 8) == r.kvCount && ReadLe(b, 87, 8) == r.deleteCount && ReadLe(b, 95, 4) == r.crc
  {
    Ranges();
    HeaderOfLength(r);
    assert Start(f, 0) == 0;
    assert Start(f, 1) == 39;
    assert Start(f, 2) == 43;
    assert Start(f, 3) == 51;
    assert Start(f, 4) == 55;
    assert Start(f, 5) == 63;
    assert Start(f, 6) == 71;
    assert Start(f, 7) == 79;
    assert Start(f, 8) == 87;
    assert Start(f, 9) == 95;
    assert Start(f, 10) == 99;
    JoinLength(f);
    assert b[0..39] == HeaderOf(r) by { FieldIn(f, 0, b); }
    assert ReadLe(b, 39, 4) == r.begin.file by { NumberIn(f, 1, r.begin.file, 4, b); }
    assert ReadLe(b, 43, 8) == r.begin.offset by { NumberIn(f, 2, r.begin.offset, 8, b); }
    assert ReadLe(b, 51, 4) == r.end.file by { NumberIn(f, 3, r.end.file, 4, b); }
    assert ReadLe(b, 55, 8) == r.end.offset by { NumberIn(f, 4, r.end.offset, 8, b); }
    assert ReadLe(b, 63, 8) == r.opCount by { NumberIn(f, 5, r.opCount, 8, b); }
    assert ReadLe(b, 71, 8) == r.keyCount by { NumberIn(f, 6, r.keyCount, 8, b); }
    assert ReadLe(b, 79, 8) == r.kvCount by { NumberIn(f, 7, r.kvCount, 8, b); }
    assert ReadLe(b, 87, 8) == r.deleteCount by { NumberIn(f, 8, r.deleteCount, 8, b); }
    assert ReadLe(b, 95, 4) == r.crc by { NumberIn(f, 9, r.crc, 4, b); }
  }

  lemma {:induction false} FieldIn(f: seq<Bytes>, i: nat, b: Bytes)
    requires i < |f| && Join(f) <= b
    ensures Start(f, i) + |f[i]| <= |b| && b[Start(f, i)..Start(f, i) + |f[i]|] == f[i]
  {
    FieldAt(f, i);
    var j := Join(f);
    assert b[Start(f, i)..Start(f, i) + |f[i]|] == j[Start(f, i)..Start(f, i) + |f[i]|];
  }

  lemma {:induction false} NumberIn(f: seq<Bytes>, i: nat, value: nat, width: nat, b: Bytes)
    requires i < |f| && f[i] == Le(value, width) && value < Range(width) && Join(f) <= b
    ensures Start(f, i) + width <= |b| && ReadLe(b, Start(f, i), width) == value
  {
    FieldIn(f, i, b);
    ReadsBack(b, Start(f, i), width, value);
  }

  lemma {:induction false} TrailerReads(head: Bytes, crc: Word)
    requires |head| == 99 && crc == CrcAppend(Crc(head), Trailer())
    ensures var b := head + CrcBytes(crc) + Trailer();
            && |b| == TX_PREPARED_END_LEN && b[107..111] == TRAILER_MAGIC && ReadLe(b, 103, 4) == TX_PREPARED_END_LEN
            && FooterSealHolds(b)
  {
    var b := head + CrcBytes(crc) + Trailer();
    Ranges();
    assert |Trailer()| == 8;
    assert b[..99] == head && b[99..103] == CrcBytes(crc) && b[103..111] == Trailer();
    assert b[103..107] == Le(TX_PREPARED_END_LEN, 4) && b[107..111] == TRAILER_MAGIC;
    ReadsBack(b, 103, 4, TX_PREPARED_END_LEN);
    ReadsBack(b, 99, 4, crc);
  }

  lemma {:induction false} FooterReads(f: seq<Bytes>, r: Record)
    requires RecordValid(r) && r.TxPreparedEnd?
    requires |f| == 10 && f[0] == HeaderOf(r) && f[1] == Le(r.begin.file, 4) && f[2] == Le(r.begin.offset, 8)
    requires f[3] == Le(r.end.file, 4) && f[4] == Le(r.end.offset, 8) && f[5] == Le(r.opCount, 8)
    requires f[6] == Le(r.keyCount, 8) && f[7] == Le(r.kvCount, 8) && f[8] == Le(r.deleteCount, 8)
    requires f[9] == CrcBytes(r.crc)
    ensures |FooterSealed(f)| == TX_PREPARED_END_LEN && FooterSealed(f)[0..39] == HeaderOf(r)
    ensures FooterSealed(f)[107..111] == TRAILER_MAGIC && ReadLe(FooterSealed(f), 103, 4) == TX_PREPARED_END_LEN
    ensures DecodeFooter(FooterSealed(f), HeaderFor(r)) == Ok(r)
  {
    var b := FooterSealed(f);
    assert Join(f) <= b;
    FooterHeadReads(f, r, b);
    TrailerReads(Join(f), CrcAppend(Crc(Join(f)), Trailer()));
    FooterDecodes(b, r);
  }

  lemma {:induction false} FooterDecodes(b: Bytes, r: Record)
    requires RecordValid(r) && r.TxPreparedEnd? && |b| == TX_PREPARED_END_LEN
    requires b[107..111] == TRAILER_MAGIC && ReadLe(b, 103, 4) == TX_PREPARED_END_LEN && FooterSealHolds(b)
    requires ReadLe(b, 39, 4) == r.begin.file && ReadLe(b, 43, 8) == r.begin.offset
    requires ReadLe(b, 51, 4) == r.end.file && ReadLe(b, 55, 8) == r.end.offset
    requires ReadLe(b, 63, 8) == r.opCount && ReadLe(b, 71, 8) == r.keyCount
    requires ReadLe(b, 79, 8) == r.kvCount && ReadLe(b, 87, 8) == r.deleteCount && ReadLe(b, 95, 4) == r.crc
    ensures DecodeFooter(b, HeaderFor(r)) == Ok(r)
  {
    assert FooterFrom(b, HeaderFor(r)) == r;
  }

  // ---------------------------------------------------------------- all records

  /** Where a record may stand: inside one page; a footer where it says it ends, a filler up to its page end. */
  predicate StandsAt(r: Record, start: Pos, g: Geometry) {
    && GeometryValid(g) && RecordBoundsValid(RecordLen(r), start, g)
    && (r.TxPreparedEnd? ==> r.end == Pos(start.file, start.offset + TX_PREPARED_END_LEN))
    && (r.PageEnd? ==> start.offset + r.len == PageEndOf(start.offset, g))
  }

  lemma {:induction false} EncodedShape(r: Record, start: Pos, g: Geometry)
    requires RecordValid(r) && StandsAt(r, start, g)
    ensures |EncodeRecord(r)| == RecordLen(r) && RecordLen(r) >= 39 && EncodeRecord(r)[0..39] == HeaderOf(r)
    ensures DecodeBody(EncodeRecord(r), HeaderFor(r), start, g) == Ok(r)
  {
    match r
    case TxBegin(_, _, _, _, _) => EncodedTxBegin(r, start, g);
    case KvRecord(_, _, _, _, _) => EncodedKv(r, start, g);
    case DeleteRecord(_, _, _, _) => EncodedDelete(r, start, g);
    case TxPreparedEnd(_, _, _, _, _, _, _, _, _) => EncodedFooter(r, start, g);
    case PageEnd(_, _, _) => EncodedPageEnd(r, start, g);
  }

  lemma {:induction false} EncodedTxBegin(r: Record, start: Pos, g: Geometry)
    requires RecordValid(r) && GeometryValid(g) && r.TxBegin?
    ensures |EncodeRecord(r)| == RecordLen(r) && EncodeRecord(r)[0..39] == HeaderOf(r)
    ensures DecodeBody(EncodeRecord(r), HeaderFor(r), start, g) == Ok(r)
  {
    TxBeginReads(TxBeginFields(r), r);
  }

  lemma {:induction false} EncodedKv(r: Record, start: Pos, g: Geometry)
    requires RecordValid(r) && GeometryValid(g) && r.KvRecord?
    ensures |EncodeRecord(r)| == RecordLen(r) && EncodeRecord(r)[0..39] == HeaderOf(r)
    ensures DecodeBody(EncodeRecord(r), HeaderFor(r), start, g) == Ok(r)
  {
    KvReads(KvFields(r), r);
  }

  lemma {:induction false} EncodedDelete(r: Record, start: Pos, g: Geometry)
    requires RecordValid(r) && GeometryValid(g) && r.DeleteRecord?
    ensures |EncodeRecord(r)| == RecordLen(r) && EncodeRecord(r)[0..39] == HeaderOf(r)
    ensures DecodeBody(EncodeRecord(r), HeaderFor(r), start, g) == Ok(r)
  {
    DeleteReads(DeleteFields(r), r);
  }

  lemma {:induction false} EncodedFooter(r: Record, start: Pos, g: Geometry)
    requires RecordValid(r) && GeometryValid(g) && r.TxPreparedEnd?
    requires r.end == Pos(start.file, start.offset + TX_PREPARED_END_LEN)
    ensures |EncodeRecord(r)| == RecordLen(r) && EncodeRecord(r)[0..39] == HeaderOf(r)
    ensures DecodeBody(EncodeRecord(r), HeaderFor(r), start, g) == Ok(r)
  {
    FooterFieldsAre(r);
    FooterReads(FooterFields(r), r);
  }

  lemma {:induction false} FooterFieldsAre(r: Record)
    requires r.TxPreparedEnd?
    ensures var f := FooterFields(r);
            && |f| == 10 && f[0] == HeaderOf(r) && f[1] == Le(r.begin.file, 4) && f[2] == Le(r.begin.offset, 8)
            && f[3] == Le(r.end.file, 4) && f[4] == Le(r.end.offset, 8) && f[5] == Le(r.opCount, 8)
            && f[6] == Le(r.keyCount, 8) && f[7] == Le(r.kvCount, 8) && f[8] == Le(r.deleteCount, 8)
            && f[9] == CrcBytes(r.crc)
  {
    var p, c := FooterPlaces(r), FooterCounts(r);
    assert |p| == 5 && |c| == 5;
  }

  lemma {:induction false} EncodedPageEnd(r: Record, start: Pos, g: Geometry)
    requires RecordValid(r) && GeometryValid(g) && r.PageEnd? && start.offset + r.len == PageEndOf(start.offset, g)
    ensures |EncodeRecord(r)| == RecordLen(r) && EncodeRecord(r)[0..39] == HeaderOf(r)
    ensures DecodeBody(EncodeRecord(r), HeaderFor(r), start, g) == Ok(r)
  {
    PageEndReads([HeaderOf(r), Zeros(r.len - 43)], r, start, g);
  }

  /** Round trip: whatever is encoded decodes to itself wherever it may stand. */
  lemma {:induction false} RecordRoundTrip(r: Record, start: Pos, g: Geometry)
    requires RecordValid(r) && StandsAt(r, start, g)
    ensures |EncodeRecord(r)| == RecordLen(r)
    ensures DecodeRecordAt(EncodeRecord(r), start, g) == Ok(r)
  {
    EncodedShape(r, start, g);
    HeaderOfRecord(EncodeRecord(r), r);
    DispatchDecodes(EncodeRecord(r), r, start, g);
  }

  lemma {:induction false} DispatchDecodes(b: Bytes, r: Record, start: Pos, g: Geometry)
    requires StandsAt(r, start, g) && |b| == RecordLen(r) && DecodeHeader(b) == Ok(HeaderFor(r))
    requires DecodeBody(b, HeaderFor(r), start, g) == Ok(r)
    ensures DecodeRecordAt(b, start, g) == Ok(r)
  {
  }
}
