/**
 * What the Value Log decoders reject: everything but encodings. Accepted bytes are exactly the encoding
 * of what they decode to, so no damaged record is ever read as another one.
 */
module VLogDecoded {
  import opened Basics
  import opened Index
  import opened CommitProtocol
  import opened Topology
  import opened History
  import opened ByteCodec
  import opened VLogCodec
  import opened VLogRoundTrip

  // ---------------------------------------------------------------- headers

  lemma {:induction false} PageHeaderIsCut(f: seq<Bytes>, b: Bytes, file: nat, page: nat)
    requires DecodePageHeader(b) == Ok((file, page))
    requires |f| == 3 && f[0] == PAGE_MAGIC && f[1] == Le(file, 4) && f[2] == Le(page, 4)
    ensures Sealed(f) == b
  {
    assert Start(f, 1) == 4;
    assert Start(f, 2) == 8;
    assert Start(f, 3) == 12;
    NumberIsCut(b, 4, 4);
    NumberIsCut(b, 8, 4);
    forall i | 0 <= i < 3 ensures CutAt(f, b, i) {
      assert i == 0 || i == 1 || i == 2;
    }
    SealedIsCut(f, b);
  }

  lemma {:induction false} DecodedPageHeaderIsEncoded(b: Bytes)
    requires DecodePageHeader(b).Ok?
    ensures var (file, page) := DecodePageHeader(b).value;
            file <= 999_999 && page <= 65_535 && EncodePageHeader(file, page) == b
  {
    var (file, page) := DecodePageHeader(b).value;
    PageHeaderIsCut(PageHeaderFields(file, page), b, file, page);
  }

  lemma {:induction false} FileHeaderIsCut(f: seq<Bytes>, b: Bytes, uuid: Bytes, file: nat)
    requires DecodeFileHeader(b) == Ok((uuid, file))
    requires |f| == 6 && f[0] == FILE_MAGIC && f[1] == Le(0, 4) && f[2] == uuid && f[3] == Le(file, 4)
    requires f[4] == Le(65_536, 4) && f[5] == Le(0x1_0000_0000, 8)
    ensures Sealed(f) == b
  {
    assert Start(f, 1) == 8;
    assert Start(f, 2) == 12;
    assert Start(f, 3) == 28;
    assert Start(f, 4) == 32;
    assert Start(f, 5) == 36;
    assert Start(f, 6) == 44;
    NumberIsCut(b, 8, 4);
    NumberIsCut(b, 28, 4);
    NumberIsCut(b, 32, 4);
    NumberIsCut(b, 36, 8);
    forall i | 0 <= i < 6 ensures CutAt(f, b, i) {
      assert i == 0 || i == 1 || i == 2 || i == 3 || i == 4 || i == 5;
    }
    SealedIsCut(f, b);
  }

  lemma {:induction false} DecodedFileHeaderIsEncoded(b: Bytes)
    requires DecodeFileHeader(b).Ok?
    ensures var (uuid, file) := DecodeFileHeader(b).value;
            UuidValid(uuid) && file <= 999_999 && EncodeFileHeader(uuid, file) == b
  {
    var (uuid, file) := DecodeFileHeader(b).value;
    FileHeaderIsCut(FileHeaderFields(uuid, file), b, uuid, file);
  }

  predicate HeaderFieldsOf(f: seq<Bytes>, h: Header) {
    && |f| == 6 && f[0] == RECORD_MAGIC && f[1] == Le(0, 2) && f[2] == [h.kind] && f[3] == Le(h.len, 4)
    && f[4] == Le(h.seqNo, 8) && f[5] == h.uuid && |h.uuid| == 16
  }

  predicate HeaderReadFrom(b: Bytes, h: Header) {
    && |b| == RECORD_HEADER_LEN && b[..4] == RECORD_MAGIC && ReadLe(b, 4, 2) == 0
    && h == Header(b[6], ReadLe(b, 7, 4), ReadLe(b, 11, 8), b[19..35])
  }

  lemma {:induction false} HeaderOffsets(f: seq<Bytes>, h: Header)
    requires HeaderFieldsOf(f, h)
    ensures Start(f, 0) == 0 && Start(f, 1) == 4 && Start(f, 2) == 6 && Start(f, 3) == 7 && Start(f, 4) == 11
    ensures Start(f, 5) == 19 && Start(f, 6) == 35
  {
    assert Start(f, 1) == 4;
    assert Start(f, 2) == 6;
    assert Start(f, 3) == 7;
    assert Start(f, 4) == 11;
    assert Start(f, 5) == 19;
  }

  lemma {:induction false} HeaderFieldIsCut(f: seq<Bytes>, b: Bytes, h: Header, i: nat)
    requires HeaderReadFrom(b, h) && HeaderFieldsOf(f, h) && i < 6
    ensures CutAt(f, b, i)
  {
    HeaderOffsets(f, h);
    if i == 1 { NumberIsCut(b, 4, 2); }
    else if i == 2 { assert b[6..7] == [b[6]]; }
    else if i == 3 { NumberIsCut(b, 7, 4); }
    else if i == 4 { NumberIsCut(b, 11, 8); }
  }

  lemma {:induction false} HeaderIsCut(f: seq<Bytes>, b: Bytes, h: Header)
    requires HeaderReadFrom(b, h) && SealHolds(b) && HeaderFieldsOf(f, h)
    ensures Sealed(f) == b && h.len <= U32_MAX && h.seqNo <= U64_MAX
  {
    Ranges();
    HeaderOffsets(f, h);
    NumberIsCut(b, 7, 4);
    NumberIsCut(b, 11, 8);
    forall i | 0 <= i < 6 ensures CutAt(f, b, i) {
      HeaderFieldIsCut(f, b, h, i);
    }
    SealedIsCut(f, b);
  }

  /** An accepted record header is exactly the encoding of its fields. */
  lemma {:induction false} DecodedHeaderIsEncoded(b: Bytes)
    requires DecodeHeader(b).Ok?
    ensures var h := DecodeHeader(b).value;
            && |b| >= RECORD_HEADER_LEN && b[..RECORD_HEADER_LEN] == EncodeHeader(h.kind, h.len, h.seqNo, h.uuid)
            && 1 <= h.kind <= 5 && h.len <= U32_MAX && 0 < h.seqNo <= U64_MAX && UuidValid(h.uuid)
  {
    var h, front := DecodeHeader(b).value, b[..RECORD_HEADER_LEN];
    assert front[..4] == b[..4] && front[4..6] == b[4..6] && front[7..11] == b[7..11];
    assert front[11..19] == b[11..19] && front[19..35] == b[19..35];
    HeaderIsCut(HeaderFields(h.kind, h.len, h.seqNo, h.uuid), front, h);
  }

  // ---------------------------------------------------------------- record bodies

  /** The header is the first field of a record. */
  predicate HeaderIn(b: Bytes, r: Record) {
    |b| >= RECORD_HEADER_LEN && b[0..39] == HeaderOf(r) && |HeaderOf(r)| == 39
  }

  lemma {:induction false} TxBeginIsCut(f: seq<Bytes>, b: Bytes, r: Record)
    requires r.TxBegin? && HeaderIn(b, r) && |b| == TX_BEGIN_LEN && SealHolds(b)
    requires r.begin == Pos(ReadLe(b, 39, 4), ReadLe(b, 43, 8)) && r.opCount == ReadLe(b, 51, 8) && r.keyCount == ReadLe(b, 59, 8)
    requires |f| == 5 && f[0] == HeaderOf(r) && f[1] == Le(r.begin.file, 4) && f[2] == Le(r.begin.offset, 8)
    requires f[3] == Le(r.opCount, 8) && f[4] == Le(r.keyCount, 8)
    ensures Sealed(f) == b
  {
    assert Start(f, 1) == 39;
    assert Start(f, 2) == 43;
    assert Start(f, 3) == 51;
    assert Start(f, 4) == 59;
    assert Start(f, 5) == 67;
    NumberIsCut(b, 39, 4);
    NumberIsCut(b, 43, 8);
    NumberIsCut(b, 51, 8);
    NumberIsCut(b, 59, 8);
    forall i | 0 <= i < 5 ensures CutAt(f, b, i) {
      assert i == 0 || i == 1 || i == 2 || i == 3 || i == 4;
    }
    SealedIsCut(f, b);
  }

  predicate KvReadFrom(b: Bytes, r: Record) {
    && r.KvRecord? && HeaderIn(b, r) && |b| == RecordLen(r)
    && r.opIndex == ReadLe(b, 39, 8) && |r.key| == ReadLe(b, 47, 2) && |r.value| == ReadLe(b, 49, 2)
    && b[51..51 + |r.key|] == r.key && b[51 + |r.key|..51 + |r.key| + |r.value|] == r.value
  }

  predicate KvFieldsOf(f: seq<Bytes>, r: Record)
    requires r.KvRecord?
  {
    && |f| == 6 && f[0] == HeaderOf(r) && |HeaderOf(r)| == 39 && f[1] == Le(r.opIndex, 8) && f[2] == Le(|r.key|, 2)
    && f[3] == Le(|r.value|, 2) && f[4] == r.key && f[5] == r.value
  }

  lemma {:induction false} KvOffsets(f: seq<Bytes>, r: Record)
    requires r.KvRecord? && KvFieldsOf(f, r)
    ensures Start(f, 0) == 0 && Start(f, 1) == 39 && Start(f, 2) == 47 && Start(f, 3) == 49 && Start(f, 4) == 51
    ensures Start(f, 5) == 51 + |r.key| && Start(f, 6) == 51 + |r.key| + |r.value|
  {
    assert Start(f, 1) == 39;
    assert Start(f, 2) == 47;
    assert Start(f, 3) == 49;
    assert Start(f, 4) == 51;
    assert Start(f, 5) == 51 + |r.key|;
  }

  lemma {:induction false} KvFieldIsCut(f: seq<Bytes>, b: Bytes, r: Record, i: nat)
    requires KvReadFrom(b, r) && KvFieldsOf(f, r) && i < 6
    ensures CutAt(f, b, i)
  {
    KvOffsets(f, r);
    if i == 1 { NumberIsCut(b, 39, 8); }
    else if i == 2 { NumberIsCut(b, 47, 2); }
    else if i == 3 { NumberIsCut(b, 49, 2); }
  }

  lemma {:induction false} KvIsCut(f: seq<Bytes>, b: Bytes, r: Record)
    requires KvReadFrom(b, r) && SealHolds(b) && KvFieldsOf(f, r)
    ensures Sealed(f) == b
  {
    KvOffsets(f, r);
    forall i | 0 <= i < 6 ensures CutAt(f, b, i) {
      KvFieldIsCut(f, b, r, i);
    }
    SealedIsCut(f, b);
  }

  lemma {:induction false} DeleteIsCut(f: seq<Bytes>, b: Bytes, r: Record)
    requires r.DeleteRecord? && HeaderIn(b, r) && |b| == RecordLen(r) && SealHolds(b)
    requires r.opIndex == ReadLe(b, 39, 8) && |r.key| == ReadLe(b, 47, 2) && b[49..49 + |r.key|] == r.key
    requires |f| == 4 && f[0] == HeaderOf(r) && f[1] == Le(r.opIndex, 8) && f[2] == Le(|r.key|, 2) && f[3] == r.key
    ensures Sealed(f) == b
  {
    assert Start(f, 1) == 39;
    assert Start(f, 2) == 47;
    assert Start(f, 3) == 49;
    assert Start(f, 4) == 49 + |r.key|;
    NumberIsCut(b, 39, 8);
    NumberIsCut(b, 47, 2);
    forall i | 0 <= i < 4 ensures CutAt(f, b, i) {
      assert i == 0 || i == 1 || i == 2 || i == 3;
    }
    SealedIsCut(f, b);
  }

  lemma {:induction false} PageEndIsCut(f: seq<Bytes>, b: Bytes, r: Record)
    requires r.PageEnd? && HeaderIn(b, r) && |b| == r.len >= 43 && SealHolds(b) && b[39..|b| - 4] == Zeros(|b| - 43)
    requires |f| == 2 && f[0] == HeaderOf(r) && f[1] == Zeros(r.len - 43)
    ensures Sealed(f) == b
  {
    assert Start(f, 1) == 39;
    assert Start(f, 2) == r.len - 4;
    forall i | 0 <= i < 2 ensures CutAt(f, b, i) {
      assert i == 0 || i == 1;
    }
    SealedIsCut(f, b);
  }

  predicate FooterFieldsOf(f: seq<Bytes>, r: Record)
    requires r.TxPreparedEnd?
  {
    && |f| == 10 && f[0] == HeaderOf(r) && f[1] == Le(r.begin.file, 4) && f[2] == Le(r.begin.offset, 8)
    && f[3] == Le(r.end.file, 4) && f[4] == Le(r.end.offset, 8) && f[5] == Le(r.opCount, 8)
    && f[6] == Le(r.keyCount, 8) && f[7] == Le(r.kvCount, 8) && f[8] == Le(r.deleteCount, 8)
    && f[9] == CrcBytes(r.crc)
  }

  lemma {:induction false} FooterOffsets(f: seq<Bytes>, r: Record)
    requires r.TxPreparedEnd? && FooterFieldsOf(f, r) && |HeaderOf(r)| == 39
    ensures Start(f, 0) == 0 && Start(f, 1) == 39 && Start(f, 2) == 43 && Start(f, 3) == 51 && Start(f, 4) == 55
    ensures Start(f, 5) == 63 && Start(f, 6) == 71 && Start(f, 7) == 79 && Start(f, 8) == 87 && Start(f, 9) == 95
    ensures Start(f, 10) == 99
  {
    assert Start(f, 1) == 39;
    assert Start(f, 2) == 43;
    assert Start(f, 3) == 51;
    assert Start(f, 4) == 55;
    assert Start(f, 5) == 63;
    assert Start(f, 6) == 71;
    assert Start(f, 7) == 79;
    assert Start(f, 8) == 87;
    assert Start(f, 9) == 95;
  }

  predicate FooterReadFrom(b: Bytes, r: Record) {
    && r.TxPreparedEnd? && |b| == TX_PREPARED_END_LEN && HeaderIn(b, r)
    && r.begin == Pos(ReadLe(b, 39, 4), ReadLe(b, 43, 8)) && r.end == Pos(ReadLe(b, 51, 4), ReadLe(b, 55, 8))
    && r.opCount == ReadLe(b, 63, 8) && r.keyCount == ReadLe(b, 71, 8)
    && r.kvCount == ReadLe(b, 79, 8) && r.deleteCount == ReadLe(b, 87, 8) && r.crc == ReadLe(b, 95, 4)
  }

  lemma {:induction false} FooterFieldIsCut(f: seq<Bytes>, b: Bytes, r: Record, i: nat)
    requires FooterReadFrom(b, r) && FooterFieldsOf(f, r) && i < 10
    ensures CutAt(f, b, i)
  {
    FooterOffsets(f, r);
    if i == 1 { NumberIsCut(b, 39, 4); }
    else if i == 2 { NumberIsCut(b, 43, 8); }
    else if i == 3 { NumberIsCut(b, 51, 4); }
    else if i == 4 { NumberIsCut(b, 55, 8); }
    else if i == 5 { NumberIsCut(b, 63, 8); }
    else if i == 6 { NumberIsCut(b, 71, 8); }
    else if i == 7 { NumberIsCut(b, 79, 8); }
    else if i == 8 { NumberIsCut(b, 87, 8); }
    else if i == 9 { NumberIsCut(b, 95, 4); }
  }

  lemma {:induction false} FooterIsCut(f: seq<Bytes>, b: Bytes, r: Record)
    requires FooterReadFrom(b, r) && FooterFieldsOf(f, r)
    requires b[107..111] == TRAILER_MAGIC && ReadLe(b, 103, 4) == TX_PREPARED_END_LEN && FooterSealHolds(b)
    ensures FooterSealed(f) == b
  {
    FooterOffsets(f, r);
    forall i | 0 <= i < 10 ensures CutAt(f, b, i) {
      FooterFieldIsCut(f, b, r, i);
    }
    CutJoin(f, b, 10);
    assert f[..10] == f;
    TrailerIsCut(b);
    NumberIsCut(b, 99, 4);
    assert b == b[..99] + b[99..103] + b[103..111];
  }

  lemma {:induction false} TrailerIsCut(b: Bytes)
    requires |b| == TX_PREPARED_END_LEN && b[107..111] == TRAILER_MAGIC && ReadLe(b, 103, 4) == TX_PREPARED_END_LEN
    ensures b[103..111] == Trailer()
  {
    NumberIsCut(b, 103, 4);
    assert b[103..111] == b[103..107] + b[107..111];
  }

  // ---------------------------------------------------------------- all records

  lemma {:induction false} HeaderIsIn(b: Bytes, h: Header, r: Record)
    requires DecodeHeader(b) == Ok(h) && HeaderFor(r) == h
    ensures HeaderIn(b, r) && h.seqNo <= U64_MAX && UuidValid(h.uuid) && h.seqNo > 0
  {
    DecodedHeaderIsEncoded(b);
    assert b[0..39] == b[..RECORD_HEADER_LEN];
  }

  lemma {:induction false} DecodedTxBeginIsEncoded(b: Bytes, h: Header)
    requires DecodeHeader(b) == Ok(h) && h.len == |b| && h.kind == 1 && DecodeTxBegin(b, h).Ok?
    ensures var r := DecodeTxBegin(b, h).value; r.TxBegin? && RecordValid(r) && RecordLen(r) == |b| && EncodeRecord(r) == b
  {
    var r := DecodeTxBegin(b, h).value;
    HeaderIsIn(b, h, r);
    TxBeginIsCut(TxBeginFields(r), b, r);
  }

  lemma {:induction false} DecodedKvIsEncoded(b: Bytes, h: Header)
    requires DecodeHeader(b) == Ok(h) && h.len == |b| && h.kind == 2 && DecodeKv(b, h).Ok?
    ensures var r := DecodeKv(b, h).value; r.KvRecord? && RecordValid(r) && RecordLen(r) == |b| && EncodeRecord(r) == b
  {
    var r := DecodeKv(b, h).value;
    Ranges();
    NumberIsCut(b, 39, 8);
    HeaderIsIn(b, h, r);
    KvIsCut(KvFields(r), b, r);
  }

  lemma {:induction false} DecodedDeleteIsEncoded(b: Bytes, h: Header)
    requires DecodeHeader(b) == Ok(h) && h.len == |b| && h.kind == 3 && DecodeDelete(b, h).Ok?
    ensures var r := DecodeDelete(b, h).value; r.DeleteRecord? && RecordValid(r) && RecordLen(r) == |b| && EncodeRecord(r) == b
  {
    var r := DecodeDelete(b, h).value;
    Ranges();
    NumberIsCut(b, 39, 8);
    HeaderIsIn(b, h, r);
    DeleteIsCut(DeleteFields(r), b, r);
  }

  lemma {:induction false} DecodedFooterIsEncoded(b: Bytes, h: Header)
    requires DecodeHeader(b) == Ok(h) && h.len == |b| && h.kind == 4 && DecodeFooter(b, h).Ok?
    ensures var r := DecodeFooter(b, h).value; r.TxPreparedEnd? && RecordValid(r) && RecordLen(r) == |b| && EncodeRecord(r) == b
  {
    var r := DecodeFooter(b, h).value;
    HeaderIsIn(b, h, r);
    FooterFieldsAre(r);
    FooterIsCut(FooterFields(r), b, r);
  }

  lemma {:induction false} DecodedPageEndIsEncoded(b: Bytes, h: Header, start: Pos, g: Geometry)
    requires GeometryValid(g) && RecordStartValid(start, g)
    requires DecodeHeader(b) == Ok(h) && h.len == |b| && h.kind == 5 && DecodePageEnd(b, h, start, g).Ok?
    ensures var r := DecodePageEnd(b, h, start, g).value;
            && r.PageEnd? && RecordValid(r) && RecordLen(r) == |b| && EncodeRecord(r) == b
            && start.offset + r.len == PageEndOf(start.offset, g)
  {
    var r := DecodePageEnd(b, h, start, g).value;
    PageHoldsFiller(start.offset, |b|, g);
    HeaderIsIn(b, h, r);
    PageEndIsCut([HeaderOf(r), Zeros(r.len - 43)], b, r);
  }

  lemma {:induction false} PageHoldsFiller(offset: nat, len: nat, g: Geometry)
    requires GeometryValid(g) && offset + len == PageEndOf(offset, g)
    ensures len <= g.pageSize
  {
    assert offset == (offset / g.pageSize) * g.pageSize + offset % g.pageSize;
    assert PageEndOf(offset, g) == (offset / g.pageSize) * g.pageSize + g.pageSize;
  }

  /**
   * Nothing but an encoding decodes: bytes that are accepted at a position are exactly the encoding of
   * a valid record that may stand there.
   */
  lemma {:induction false} DecodedRecordIsEncoded(b: Bytes, start: Pos, g: Geometry)
    requires DecodeRecordAt(b, start, g).Ok?
    ensures var r := DecodeRecordAt(b, start, g).value;
            RecordValid(r) && StandsAt(r, start, g) && EncodeRecord(r) == b && RecordLen(r) == |b|
  {
    var h := DecodeHeader(b).value;
    if h.kind == 1 { DecodedTxBeginIsEncoded(b, h); }
    else if h.kind == 2 { DecodedKvIsEncoded(b, h); }
    else if h.kind == 3 { DecodedDeleteIsEncoded(b, h); }
    else if h.kind == 4 { DecodedFooterIsEncoded(b, h); }
    else {
      DecodedHeaderIsEncoded(b);
      DecodedPageEndIsEncoded(b, h, start, g);
    }
  }

  /** Decoding accepts exactly the encodings of the records that may stand at the position. */
  lemma {:induction false} DecodesExactlyEncodings(b: Bytes, start: Pos, g: Geometry, r: Record)
    ensures DecodeRecordAt(b, start, g) == Ok(r) <==> RecordValid(r) && StandsAt(r, start, g) && EncodeRecord(r) == b
  {
    if DecodeRecordAt(b, start, g) == Ok(r) {
      DecodedRecordIsEncoded(b, start, g);
    }
    if RecordValid(r) && StandsAt(r, start, g) && EncodeRecord(r) == b {
      RecordRoundTrip(r, start, g);
    }
  }
}
