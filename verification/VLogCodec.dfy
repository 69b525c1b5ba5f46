/**
 * The byte formats of the Value Log (src/vlog/format.rs): page and file headers and the five record
 * types, each with its own checksum, and the decoder that must read back what was encoded.
 */
module VLogCodec {
  import opened Basics
  import opened Index
  import opened CommitProtocol
  import opened Topology
  import opened History
  import opened ByteCodec

  const PAGE_HEADER_LEN: nat := 16
  const FILE_HEADER_LEN: nat := 48
  const RECORD_HEADER_LEN: nat := 39
  const TX_BEGIN_LEN: nat := 71
  const TX_PREPARED_END_LEN: nat := 111
  const PAGE_END_MIN_LEN: nat := 43
  const DELETE_FIXED_LEN: nat := 53
  const FIRST_AREA_START: nat := 64
  const OTHER_AREA_START: nat := 16

  const PAGE_MAGIC: Bytes := [0x52, 0x4B, 0x56, 0x50]
  const FILE_MAGIC: Bytes := [0x52, 0x4B, 0x56, 0x4C, 0x4F, 0x47, 0x30, 0x30]
  const RECORD_MAGIC: Bytes := [0x52, 0x4B, 0x56, 0x52]
  const TRAILER_MAGIC: Bytes := [0x52, 0x4B, 0x54, 0x45]
  const ENVELOPE_MAGIC: Bytes := [0x52, 0x4B, 0x45, 0x4E, 0x56, 0x30]

  /** VLogGeometry::validate. */
  predicate GeometryValid(g: Geometry) {
    && FIRST_AREA_START < g.pageSize <= 65_536
    && 0 < g.maxFileSize <= 0x1_0000_0000 && g.maxFileSize % g.pageSize == 0
    && g.maxFileId <= 999_999
    && 0 < g.maxFileSize / g.pageSize <= 65_536
  }

  // ---------------------------------------------------------------- concatenated fields

  function Join(fields: seq<Bytes>): Bytes {
    if fields == [] then [] else Join(fields[..|fields| - 1]) + fields[|fields| - 1]
  }

  /** Where field `i` starts. */
  function Start(fields: seq<Bytes>, i: nat): nat
    requires i <= |fields|
  {
    if i == 0 then 0 else Start(fields, i - 1) + |fields[i - 1]|
  }

  lemma {:induction false} JoinLength(fields: seq<Bytes>)
    ensures |Join(fields)| == Start(fields, |fields|)
  {
    if fields != [] {
      var n := |fields| - 1;
      JoinLength(fields[..n]);
      StartOfPrefix(fields, n, n);
    }
  }

  lemma {:induction false} StartOfPrefix(fields: seq<Bytes>, n: nat, i: nat)
    requires i <= n <= |fields|
    ensures Start(fields[..n], i) == Start(fields, i)
    decreases i
  {
    if i > 0 { StartOfPrefix(fields, n, i - 1); }
  }

  /** Field `i` is found at its start. */
  lemma {:induction false} FieldAt(fields: seq<Bytes>, i: nat)
    requires i < |fields|
    ensures Start(fields, i) + |fields[i]| <= |Join(fields)|
    ensures Join(fields)[Start(fields, i)..Start(fields, i) + |fields[i]|] == fields[i]
    decreases |fields|
  {
    var n := |fields| - 1;
    JoinLength(fields[..n]);
    StartOfPrefix(fields, n, n);
    if i < n {
      FieldAt(fields[..n], i);
      StartOfPrefix(fields, n, i);
      var init, last := Join(fields[..n]), fields[n];
      assert (init + last)[Start(fields, i)..Start(fields, i) + |fields[i]|]
          == init[Start(fields, i)..Start(fields, i) + |fields[i]|];
    }
  }

  lemma {:induction false} ReadsBack(b: Bytes, offset: nat, width: nat, value: nat)
    requires offset + width <= |b| && b[offset..offset + width] == Le(value, width) && value < Range(width)
    ensures ReadLe(b, offset, width) == value
  {
    LeRoundTrip(value, width);
  }

  /** A record that ends with the checksum of everything before it. */
  function Sealed(fields: seq<Bytes>): Bytes {
    Join(fields) + CrcBytes(Crc(Join(fields)))
  }

  /** verify_standard_record_crc, and the same check of the three headers. */
  predicate SealHolds(b: Bytes) {
    |b| >= 4 && ReadLe(b, |b| - 4, 4) == Crc(b[..|b| - 4])
  }

  lemma {:induction false} SealedHolds(fields: seq<Bytes>)
    ensures SealHolds(Sealed(fields))
    ensures |Sealed(fields)| == Start(fields, |fields|) + 4
    ensures Sealed(fields)[..|Join(fields)|] == Join(fields)
  {
    JoinLength(fields);
    CrcBytesRoundTrip(Crc(Join(fields)));
    var b := Sealed(fields);
    assert b[..|b| - 4] == Join(fields);
    assert b[|b| - 4..|b|] == CrcBytes(Crc(Join(fields)));
  }

  lemma {:induction false} SealedField(fields: seq<Bytes>, i: nat)
    requires i < |fields|
    ensures Start(fields, i) + |fields[i]| <= |Sealed(fields)|
    ensures Sealed(fields)[Start(fields, i)..Start(fields, i) + |fields[i]|] == fields[i]
  {
    FieldAt(fields, i);
  }

  lemma {:induction false} SealedNumber(fields: seq<Bytes>, i: nat, value: nat, width: nat)
    requires i < |fields| && fields[i] == Le(value, width) && value < Range(width)
    ensures Start(fields, i) + width <= |Sealed(fields)|
    ensures ReadLe(Sealed(fields), Start(fields, i), width) == value
  {
    SealedField(fields, i);
    ReadsBack(Sealed(fields), Start(fields, i), width, value);
  }

  // ---------------------------------------------------------------- cutting and joining

  /** Field `i` is what the bytes hold at its place. */
  predicate CutAt(f: seq<Bytes>, b: Bytes, i: nat) {
    i < |f| && Start(f, i) + |f[i]| <= |b| && f[i] == b[Start(f, i)..Start(f, i) + |f[i]|]
  }

  /** Bytes that are cut along the fields are the fields joined again. */
  lemma {:induction false} CutJoin(f: seq<Bytes>, b: Bytes, n: nat)
    requires n <= |f| && forall i :: 0 <= i < n ==> CutAt(f, b, i)
    ensures Start(f, n) <= |b| && Join(f[..n]) == b[..Start(f, n)]
  {
    if n > 0 {
      CutJoin(f, b, n - 1);
      assert CutAt(f, b, n - 1);
      assert f[..n][..n - 1] == f[..n - 1];
      assert Join(f[..n]) == Join(f[..n - 1]) + f[n - 1];
      var s, e := Start(f, n - 1), Start(f, n);
      assert b[..s] + b[s..e] == b[..e];
    }
  }

  lemma {:induction false} NumberIsCut(b: Bytes, offset: nat, width: nat)
    requires offset + width <= |b|
    ensures Le(ReadLe(b, offset, width), width) == b[offset..offset + width]
    ensures ReadLe(b, offset, width) < Range(width)
  {
    FromLeRoundTrip(b[offset..offset + width]);
  }

  /** Sealed bytes that are cut along the fields are the fields sealed again. */
  lemma {:induction false} SealedIsCut(f: seq<Bytes>, b: Bytes)
    requires SealHolds(b) && |b| == Start(f, |f|) + 4 && forall i :: 0 <= i < |f| ==> CutAt(f, b, i)
    ensures Sealed(f) == b
  {
    var n := |b| - 4;
    CutJoin(f, b, |f|);
    assert f[..|f|] == f;
    NumberIsCut(b, n, 4);
    assert b[n..n + 4] == b[n..];
    assert b == b[..n] + b[n..];
  }

  // ---------------------------------------------------------------- page and file headers

  function PageHeaderFields(file: nat, page: nat): seq<Bytes> {
    [PAGE_MAGIC, Le(file, 4), Le(page, 4)]
  }

  function EncodePageHeader(file: nat, page: nat): Bytes {
    Sealed(PageHeaderFields(file, page))
  }

  function DecodePageHeader(b: Bytes): Result<(nat, nat)> {
    if |b| != PAGE_HEADER_LEN || b[..4] != PAGE_MAGIC || !SealHolds(b) then Err(Corruption)
    else
      var file, page := ReadLe(b, 4, 4), ReadLe(b, 8, 4);
      if file > 999_999 || page > 65_535 then Err(Corruption) else Ok((file, page))
  }

  lemma {:induction false} PageHeaderRoundTrip(file: nat, page: nat)
    requires file <= 999_999 && page <= 65_535
    ensures |EncodePageHeader(file, page)| == PAGE_HEADER_LEN
    ensures DecodePageHeader(EncodePageHeader(file, page)) == Ok((file, page))
  {
    PageHeaderReads(PageHeaderFields(file, page), file, page);
  }

  lemma {:induction false} PageHeaderReads(f: seq<Bytes>, file: nat, page: nat)
    requires file <= 999_999 && page <= 65_535
    requires |f| == 3 && f[0] == PAGE_MAGIC && f[1] == Le(file, 4) && f[2] == Le(page, 4)
    ensures |Sealed(f)| == PAGE_HEADER_LEN && DecodePageHeader(Sealed(f)) == Ok((file, page))
  {
    Ranges();
    assert Start(f, 0) == 0;
    assert |f[0]| == 4;
    assert Start(f, 1) == 4;
    assert Start(f, 2) == 8;
    assert Start(f, 3) == 12;
    SealedHolds(f);
    var b := Sealed(f);
    assert b[0..4] == PAGE_MAGIC by { SealedField(f, 0); }
    assert ReadLe(b, 4, 4) == file by { SealedNumber(f, 1, file, 4); }
    assert ReadLe(b, 8, 4) == page by { SealedNumber(f, 2, page, 4); }
    PageHeaderDecodes(b, file, page);
  }

  lemma {:induction false} PageHeaderDecodes(b: Bytes, file: nat, page: nat)
    requires file <= 999_999 && page <= 65_535
    requires |b| == PAGE_HEADER_LEN && b[0..4] == PAGE_MAGIC && SealHolds(b)
    requires ReadLe(b, 4, 4) == file && ReadLe(b, 8, 4) == page
    ensures DecodePageHeader(b) == Ok((file, page))
  {
  }

  function FileHeaderFields(uuid: Bytes, file: nat): seq<Bytes> {
    [FILE_MAGIC, Le(0, 4), uuid, Le(file, 4), Le(65_536, 4), Le(0x1_0000_0000, 8)]
  }

  function EncodeFileHeader(uuid: Bytes, file: nat): Bytes {
    Sealed(FileHeaderFields(uuid, file))
  }

  function DecodeFileHeader(b: Bytes): Result<(Bytes, nat)> {
    if |b| != FILE_HEADER_LEN || b[..8] != FILE_MAGIC || !SealHolds(b) then Err(Corruption)
    else if ReadLe(b, 8, 4) != 0 then Err(IncompatibleFormat)
    else
      var uuid, file := b[12..28], ReadLe(b, 28, 4);
      if !UuidValid(uuid) || file > 999_999 || ReadLe(b, 32, 4) != 65_536 || ReadLe(b, 36, 8) != 0x1_0000_0000
      then Err(Corruption) else Ok((uuid, file))
  }

  lemma {:induction false} FileHeaderRoundTrip(uuid: Bytes, file: nat)
    requires UuidValid(uuid) && file <= 999_999
    ensures |EncodeFileHeader(uuid, file)| == FILE_HEADER_LEN
    ensures DecodeFileHeader(EncodeFileHeader(uuid, file)) == Ok((uuid, file))
  {
    FileHeaderReads(FileHeaderFields(uuid, file), uuid, file);
  }

  lemma {:induction false} FileHeaderReads(f: seq<Bytes>, uuid: Bytes, file: nat)
    requires UuidValid(uuid) && file <= 999_999
    requires |f| == 6 && f[0] == FILE_MAGIC && f[1] == Le(0, 4) && f[2] == uuid && f[3] == Le(file, 4)
    requires f[4] == Le(65_536, 4) && f[5] == Le(0x1_0000_0000, 8)
    ensures |Sealed(f)| == FILE_HEADER_LEN && DecodeFileHeader(Sealed(f)) == Ok((uuid, file))
  {
    Ranges();
    SealedHolds(f);
    assert Start(f, 1) == 8;
    assert Start(f, 2) == 12;
    assert Start(f, 3) == 28;
    assert Start(f, 4) == 32;
    assert Start(f, 5) == 36;
    assert Start(f, 6) == 44;
    SealedField(f, 0);
    SealedNumber(f, 1, 0, 4);
    SealedField(f, 2);
    SealedNumber(f, 3, file, 4);
    SealedNumber(f, 4, 65_536, 4);
    SealedNumber(f, 5, 0x1_0000_0000, 8);
  }

  // ---------------------------------------------------------------- records

  /** The five record types. `PageEnd` fills the rest of a page and carries only its identity. */
  datatype Record =
    | TxBegin(seqNo: nat, uuid: Bytes, begin: Pos, opCount: nat, keyCount: nat)
    | KvRecord(seqNo: nat, uuid: Bytes, opIndex: nat, key: Bytes, value: Bytes)
    | DeleteRecord(seqNo: nat, uuid: Bytes, opIndex: nat, key: Bytes)
    | TxPreparedEnd(seqNo: nat, uuid: Bytes, begin: Pos, end: Pos, opCount: nat, keyCount: nat,
                    kvCount: nat, deleteCount: nat, crc: Word)
    | PageEnd(seqNo: nat, uuid: Bytes, len: nat)

  function TypeByte(r: Record): byte {
    match r
    case TxBegin(_, _, _, _, _) => 1
    case KvRecord(_, _, _, _, _) => 2
    case DeleteRecord(_, _, _, _) => 3
    case TxPreparedEnd(_, _, _, _, _, _, _, _, _) => 4
    case PageEnd(_, _, _) => 5
  }

  function RecordLen(r: Record): nat {
    match r
    case TxBegin(_, _, _, _, _) => TX_BEGIN_LEN
    case KvRecord(_, _, _, key, value) => KV_RECORD_FIXED_LEN + |key| + |value|
    case DeleteRecord(_, _, _, key) => DELETE_FIXED_LEN + |key|
    case TxPreparedEnd(_, _, _, _, _, _, _, _, _) => TX_PREPARED_END_LEN
    case PageEnd(_, _, len) => len
  }

  predicate CountsValid(opCount: nat, keyCount: nat) {
    0 < keyCount <= opCount <= U64_MAX
  }

  /** What the encoders and the decoder both demand of a record's contents. */
  predicate RecordValid(r: Record) {
    && 0 < r.seqNo <= U64_MAX && UuidValid(r.uuid)
    && match r
       case TxBegin(_, _, begin, opCount, keyCount) => PosValid(begin) && CountsValid(opCount, keyCount)
       case KvRecord(_, _, opIndex, key, value) =>
         opIndex <= U64_MAX && 0 < |key| && |key| + |value| <= MAX_KEY_VALUE_SIZE
       case DeleteRecord(_, _, opIndex, key) => opIndex <= U64_MAX && 0 < |key| <= MAX_KEY_VALUE_SIZE
       case TxPreparedEnd(_, _, begin, end, opCount, keyCount, kvCount, deleteCount, _) =>
         && PosValid(begin) && PosValid(end) && PosLess(begin, end) && CountsValid(opCount, keyCount)
         && kvCount + deleteCount == opCount
       case PageEnd(_, _, len) => PAGE_END_MIN_LEN <= len <= 65_536
  }

  function HeaderFields(kind: byte, len: nat, seqNo: nat, uuid: Bytes): seq<Bytes> {
    [RECORD_MAGIC, Le(0, 2), [kind], Le(len, 4), Le(seqNo, 8), uuid]
  }

  function EncodeHeader(kind: byte, len: nat, seqNo: nat, uuid: Bytes): Bytes {
    Sealed(HeaderFields(kind, len, seqNo, uuid))
  }

  datatype Header = Header(kind: byte, len: nat, seqNo: nat, uuid: Bytes)

  /** RecordHeader::decode, from the first 39 bytes. */
  function DecodeHeader(b: Bytes): Result<Header> {
    if |b| < RECORD_HEADER_LEN || b[..4] != RECORD_MAGIC || !SealHolds(b[..RECORD_HEADER_LEN]) then Err(Corruption)
    else if ReadLe(b, 4, 2) != 0 then Err(IncompatibleFormat)
    else
      var kind, len, seqNo, uuid := b[6], ReadLe(b, 7, 4), ReadLe(b, 11, 8), b[19..35];
      if !(1 <= kind <= 5) || seqNo == 0 || !UuidValid(uuid) then Err(Corruption)
      else Ok(Header(kind, len, seqNo, uuid))
  }

  lemma {:induction false} HeaderRoundTrip(kind: byte, len: nat, seqNo: nat, uuid: Bytes, rest: Bytes)
    requires 1 <= kind <= 5 && len <= U32_MAX && 0 < seqNo <= U64_MAX && UuidValid(uuid)
    ensures |EncodeHeader(kind, len, seqNo, uuid)| == RECORD_HEADER_LEN
    ensures DecodeHeader(EncodeHeader(kind, len, seqNo, uuid) + rest) == Ok(Header(kind, len, seqNo, uuid))
  {
    HeaderReads(HeaderFields(kind, len, seqNo, uuid), kind, len, seqNo, uuid);
    HeaderReadsThrough(EncodeHeader(kind, len, seqNo, uuid), rest);
  }

  lemma {:induction false} HeaderReads(f: seq<Bytes>, kind: byte, len: nat, seqNo: nat, uuid: Bytes)
    requires 1 <= kind <= 5 && len <= U32_MAX && 0 < seqNo <= U64_MAX && UuidValid(uuid)
    requires |f| == 6 && f[0] == RECORD_MAGIC && f[1] == Le(0, 2) && f[2] == [kind] && f[3] == Le(len, 4)
    requires f[4] == Le(seqNo, 8) && f[5] == uuid
    ensures |Sealed(f)| == RECORD_HEADER_LEN && DecodeHeader(Sealed(f)) == Ok(Header(kind, len, seqNo, uuid))
  {
    Ranges();
    SealedHolds(f);
    assert Start(f, 1) == 4;
    assert Start(f, 2) == 6;
    assert Start(f, 3) == 7;
    assert Start(f, 4) == 11;
    assert Start(f, 5) == 19;
    assert Start(f, 6) == 35;
    SealedField(f, 0);
    SealedNumber(f, 1, 0, 2);
    SealedField(f, 2);
    SealedNumber(f, 3, len, 4);
    SealedNumber(f, 4, seqNo, 8);
    SealedField(f, 5);
    HeaderDecodes(Sealed(f), kind, len, seqNo, uuid);
  }

  lemma {:induction false} HeaderDecodes(b: Bytes, kind: byte, len: nat, seqNo: nat, uuid: Bytes)
    requires 1 <= kind <= 5 && 0 < seqNo && UuidValid(uuid)
    requires |b| == RECORD_HEADER_LEN && b[0..4] == RECORD_MAGIC && SealHolds(b)
    requires ReadLe(b, 4, 2) == 0 && b[6..7] == [kind] && ReadLe(b, 7, 4) == len && ReadLe(b, 11, 8) == seqNo
    requires b[19..35] == uuid
    ensures DecodeHeader(b) == Ok(Header(kind, len, seqNo, uuid))
  {
    assert b[..39] == b;
    assert b[6] == b[6..7][0];
  }

  /** Bytes after the header do not matter to it. */
  lemma {:induction false} HeaderReadsThrough(header: Bytes, rest: Bytes)
    requires |header| == RECORD_HEADER_LEN
    ensures DecodeHeader(header + rest) == DecodeHeader(header)
  {
    var b := header + rest;
    assert b[..RECORD_HEADER_LEN] == header == header[..RECORD_HEADER_LEN];
    assert b[..4] == header[..4] && b[4..6] == header[4..6] && b[7..11] == header[7..11];
    assert b[11..19] == header[11..19] && b[19..35] == header[19..35];
  }

  // ---------------------------------------------------------------- record positions

  function PageEndOf(offset: nat, g: Geometry): nat
    requires GeometryValid(g)
  {
    (offset / g.pageSize + 1) * g.pageSize
  }

  function AreaStart(offset: nat, g: Geometry): nat {
    if offset < g.pageSize then FIRST_AREA_START else OTHER_AREA_START
  }

  /** validate_record_start. */
  predicate RecordStartValid(p: Pos, g: Geometry)
    requires GeometryValid(g)
  {
    p.file <= g.maxFileId && p.offset < g.maxFileSize && p.offset % g.pageSize >= AreaStart(p.offset, g)
  }

  /** validate_record_bounds: inside the record area of one page. */
  predicate RecordBoundsValid(len: nat, p: Pos, g: Geometry)
    requires GeometryValid(g)
  {
    RecordStartValid(p, g) && p.offset + len <= g.maxFileSize && p.offset + len <= PageEndOf(p.offset, g)
  }

  // ---------------------------------------------------------------- encoding records

  function Zeros(n: nat): (b: Bytes)
    ensures |b| == n
  {
    seq(n, _ => 0)
  }

  function HeaderOf(r: Record): Bytes {
    EncodeHeader(TypeByte(r), RecordLen(r), r.seqNo, r.uuid)
  }

  function TxBeginFields(r: Record): seq<Bytes>
    requires r.TxBegin?
  {
    [HeaderOf(r), Le(r.begin.file, 4), Le(r.begin.offset, 8), Le(r.opCount, 8), Le(r.keyCount, 8)]
  }

  function KvFields(r: Record): seq<Bytes>
    requires r.KvRecord?
  {
    [HeaderOf(r), Le(r.opIndex, 8), Le(|r.key|, 2), Le(|r.value|, 2), r.key, r.value]
  }

  function DeleteFields(r: Record): seq<Bytes>
    requires r.DeleteRecord?
  {
    [HeaderOf(r), Le(r.opIndex, 8), Le(|r.key|, 2), r.key]
  }

  function FooterPlaces(r: Record): (f: seq<Bytes>)
    requires r.TxPreparedEnd?
  {
    [HeaderOf(r), Le(r.begin.file, 4), Le(r.begin.offset, 8), Le(r.end.file, 4), Le(r.end.offset, 8)]
  }

  function FooterCounts(r: Record): (f: seq<Bytes>)
    requires r.TxPreparedEnd?
  {
    [Le(r.opCount, 8), Le(r.keyCount, 8), Le(r.kvCount, 8), Le(r.deleteCount, 8), CrcBytes(r.crc)]
  }

  function FooterFields(r: Record): seq<Bytes>
    requires r.TxPreparedEnd?
  {
    FooterPlaces(r) + FooterCounts(r)
  }

  function Trailer(): Bytes {
    Le(TX_PREPARED_END_LEN, 4) + TRAILER_MAGIC
  }

  /** The footer's checksum lies between what it covers: the fields before it and the trailer after it. */
  function FooterSealed(fields: seq<Bytes>): Bytes {
    Join(fields) + CrcBytes(CrcAppend(Crc(Join(fields)), Trailer())) + Trailer()
  }

  function EncodeRecord(r: Record): Bytes {
    match r
    case TxBegin(_, _, _, _, _) => Sealed(TxBeginFields(r))
    case KvRecord(_, _, _, _, _) => Sealed(KvFields(r))
    case DeleteRecord(_, _, _, _) => Sealed(DeleteFields(r))
    case TxPreparedEnd(_, _, _, _, _, _, _, _, _) =>
      FooterSealed(FooterFields(r))
    case PageEnd(_, _, len) => Sealed([HeaderOf(r), Zeros(if len < 43 then 0 else len - 43)])
  }

  // ---------------------------------------------------------------- decoding records

  function DecodeTxBegin(b: Bytes, h: Header): Result<Record> {
    if h.len != TX_BEGIN_LEN || |b| != TX_BEGIN_LEN || !SealHolds(b) then Err(Corruption)
    else
      var r := TxBegin(h.seqNo, h.uuid, Pos(ReadLe(b, 39, 4), ReadLe(b, 43, 8)), ReadLe(b, 51, 8), ReadLe(b, 59, 8));
      if RecordValid(r) then Ok(r) else Err(Corruption)
  }

  function DecodeKv(b: Bytes, h: Header): Result<Record> {
    if h.len < 56 || h.len > 60_055 || |b| < 56 then Err(Corruption)
    else
      var keyLen, valueLen := ReadLe(b, 47, 2), ReadLe(b, 49, 2);
      if keyLen == 0 || keyLen + valueLen > MAX_KEY_VALUE_SIZE || KV_RECORD_FIXED_LEN + keyLen + valueLen != |b|
         || !SealHolds(b)
      then Err(Corruption)
      else Ok(KvRecord(h.seqNo, h.uuid, ReadLe(b, 39, 8), b[51..51 + keyLen], b[51 + keyLen..51 + keyLen + valueLen]))
  }

  function DecodeDelete(b: Bytes, h: Header): Result<Record> {
    if h.len < 54 || h.len > 60_053 || |b| < 54 then Err(Corruption)
    else
      var keyLen := ReadLe(b, 47, 2);
      if keyLen == 0 || keyLen > MAX_KEY_VALUE_SIZE || DELETE_FIXED_LEN + keyLen != |b| || !SealHolds(b)
      then Err(Corruption)
      else Ok(DeleteRecord(h.seqNo, h.uuid, ReadLe(b, 39, 8), b[49..49 + keyLen]))
  }

  /** The footer's checksum skips its own four bytes and covers the trailer after them. */
  predicate FooterSealHolds(b: Bytes) {
    |b| == TX_PREPARED_END_LEN && ReadLe(b, 99, 4) == CrcAppend(Crc(b[..99]), b[103..111])
  }

  function FooterFrom(b: Bytes, h: Header): Record
    requires |b| == TX_PREPARED_END_LEN
  {
    TxPreparedEnd(h.seqNo, h.uuid, Pos(ReadLe(b, 39, 4), ReadLe(b, 43, 8)), Pos(ReadLe(b, 51, 4), ReadLe(b, 55, 8)),
                  ReadLe(b, 63, 8), ReadLe(b, 71, 8), ReadLe(b, 79, 8), ReadLe(b, 87, 8), ReadCrc(b, 95))
  }

  function ReadCrc(b: Bytes, offset: nat): Word
    requires offset + 4 <= |b|
  {
    FromLeRoundTrip(b[offset..offset + 4]);
    Ranges();
    ReadLe(b, offset, 4)
  }

  function DecodeFooter(b: Bytes, h: Header): Result<Record> {
    if h.len != TX_PREPARED_END_LEN || |b| != TX_PREPARED_END_LEN || b[107..111] != TRAILER_MAGIC
       || ReadLe(b, 103, 4) != TX_PREPARED_END_LEN || !FooterSealHolds(b)
    then Err(Corruption)
    else
      var r := FooterFrom(b, h);
      if RecordValid(r) then Ok(r) else Err(Corruption)
  }

  function DecodePageEnd(b: Bytes, h: Header, start: Pos, g: Geometry): Result<Record>
    requires GeometryValid(g)
  {
    if |b| < PAGE_END_MIN_LEN || start.offset + |b| != PageEndOf(start.offset, g)
       || b[39..|b| - 4] != Zeros(|b| - 43) || !SealHolds(b)
    then Err(Corruption)
    else Ok(PageEnd(h.seqNo, h.uuid, |b|))
  }

  /** The type-specific part of decode_record_at. */
  function DecodeBody(b: Bytes, h: Header, start: Pos, g: Geometry): Result<Record>
    requires GeometryValid(g)
  {
    if h.kind == 1 then DecodeTxBegin(b, h)
    else if h.kind == 2 then DecodeKv(b, h)
    else if h.kind == 3 then DecodeDelete(b, h)
    else if h.kind == 4 then
      var footer :- DecodeFooter(b, h);
      if footer.end != Pos(start.file, start.offset + |b|) then Err(Corruption) else Ok(footer)
    else DecodePageEnd(b, h, start, g)
  }

  /** decode_record_at. */
  function DecodeRecordAt(b: Bytes, start: Pos, g: Geometry): Result<Record> {
    if !GeometryValid(g) || !RecordBoundsValid(|b|, start, g) then Err(Corruption)
    else
      var h :- DecodeHeader(b);
      if h.len != |b| then Err(Corruption) else DecodeBody(b, h, start, g)
  }
}
