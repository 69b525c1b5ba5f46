/**
 * The envelope scanner (scan_prepared_envelope in src/vlog/format.rs): one pass over physical chunks
 * that accepts a complete prepared envelope and nothing else.
 */
module VLogScanner {
  import opened Basics
  import opened Index
  import opened CommitProtocol
  import opened Topology
  import opened History
  import opened ByteCodec
  import opened VLogCodec
  import opened VLogRoundTrip
  import opened VLogLayout

  datatype Chunk = Chunk(position: Pos, bytes: Bytes)

  /** What one chunk holds. */
  datatype Content =
    | PageHeaderContent(file: nat, page: nat)
    | FileHeaderContent(database: Bytes, file: nat)
    | RecordContent(r: Record)

  datatype Piece = Piece(position: Pos, content: Content)

  function ContentLen(c: Content): nat {
    match c
    case PageHeaderContent(_, _) => PAGE_HEADER_LEN
    case FileHeaderContent(_, _) => FILE_HEADER_LEN
    case RecordContent(r) => RecordLen(r)
  }

  function EncodeContent(c: Content): Bytes {
    match c
    case PageHeaderContent(file, page) => EncodePageHeader(file, page)
    case FileHeaderContent(database, file) => EncodeFileHeader(database, file)
    case RecordContent(r) => EncodeRecord(r)
  }

  function ChunkOf(p: Piece): Chunk {
    Chunk(p.position, EncodeContent(p.content))
  }

  // ---------------------------------------------------------------- the envelope checksum

  function Place(p: Pos): seq<Bytes> {
    [Le(p.file, 4), Le(p.offset, 8)]
  }

  /** The canonical form of a record under the envelope checksum: no filler, no footer checksum. */
  function CanonicalFields(r: Record): seq<Bytes> {
    match r
    case TxBegin(seqNo, uuid, begin, opCount, keyCount) =>
      [[1], Le(52, 4), Le(seqNo, 8), uuid] + Place(begin) + [Le(opCount, 8), Le(keyCount, 8)]
    case KvRecord(seqNo, uuid, opIndex, key, value) =>
      [[2], Le(36 + |key| + |value|, 4), Le(seqNo, 8), uuid, Le(opIndex, 8), Le(|key|, 2), Le(|value|, 2), key, value]
    case DeleteRecord(seqNo, uuid, opIndex, key) =>
      [[3], Le(34 + |key|, 4), Le(seqNo, 8), uuid, Le(opIndex, 8), Le(|key|, 2), key]
    case TxPreparedEnd(seqNo, uuid, begin, end, opCount, keyCount, kvCount, deleteCount, _) =>
      [[4], Le(80, 4), Le(seqNo, 8), uuid] + Place(begin) + Place(end)
      + [Le(opCount, 8), Le(keyCount, 8), Le(kvCount, 8), Le(deleteCount, 8)]
    case PageEnd(_, _, _) => []
  }

  /** EnvelopeCrc32c::update, field by field. */
  function AppendFields(crc: Word, fields: seq<Bytes>): Word {
    if fields == [] then crc
    else CrcAppend(AppendFields(crc, fields[..|fields| - 1]), fields[|fields| - 1])
  }

  lemma {:induction false} AppendFieldsIsOneAppend(crc: Word, fields: seq<Bytes>)
    ensures AppendFields(crc, fields) == CrcAppend(crc, Join(fields))
  {
    if fields != [] {
      var n := |fields| - 1;
      AppendFieldsIsOneAppend(crc, fields[..n]);
      CrcConcat(crc, Join(fields[..n]), fields[n]);
    }
  }

  function UpdateCrc(crc: Word, r: Record): Word {
    AppendFields(crc, CanonicalFields(r))
  }

  // ---------------------------------------------------------------- scanner state

  datatype Scan = Scan(
    end: Pos, identity: Option<(nat, Bytes)>, begin: Option<Record>, footer: Option<Record>, crc: Word,
    ops: nat, kvs: nat, deletes: nat, keys: set<Bytes>, afterFiller: bool, expectFile: bool)

  /** What is being scanned: bounds and checksum as the caller expects them, and the number of chunks. */
  datatype Job = Job(
    g: Geometry, database: Bytes, begin: Pos, end: Pos, expected: Option<Word>, chunks: nat)

  function InitialScan(begin: Pos): Scan {
    Scan(begin, None, None, None, Crc(ENVELOPE_MAGIC), 0, 0, 0, {}, false, false)
  }

  /** next_chunk_position. */
  function NextChunk(end: Pos, g: Geometry): Result<Pos> {
    if end.offset < g.maxFileSize then Ok(end)
    else if end.offset != g.maxFileSize || end.file >= g.maxFileId then Err(Corruption)
    else Ok(Pos(end.file + 1, 0))
  }

  /** validate_transaction_record_end. */
  predicate RecordEndValid(end: Pos, g: Geometry)
    requires GeometryValid(g)
  {
    && end.file <= g.maxFileId && end.offset <= g.maxFileSize
    && (end.offset == g.maxFileSize || end.offset % g.pageSize == 0 || Remaining(end.offset, g) >= PAGE_END_MIN_LEN)
  }

  predicate FooterFits(s: Scan, r: Record, job: Job, index: nat)
    requires r.TxPreparedEnd?
  {
    && s.begin.Some? && s.begin.value.TxBegin? && s.footer.None?
    && r.seqNo == s.begin.value.seqNo && r.uuid == s.begin.value.uuid && r.begin == s.begin.value.begin
    && r.end == job.end
    && r.opCount == s.begin.value.opCount && r.keyCount == s.begin.value.keyCount
    && r.opCount == s.ops && r.keyCount == |s.keys| && r.kvCount == s.kvs && r.deleteCount == s.deletes
    && index + 1 == job.chunks
    && UpdateCrc(s.crc, r) == r.crc && (job.expected.Some? ==> job.expected.value == r.crc)
  }

  /** The record-type branch of the scan loop. */
  function ScanRecord(s: Scan, r: Record, job: Job, index: nat): Result<Scan> {
    if s.identity.Some? && s.identity.value != (r.seqNo, r.uuid) then Err(Corruption)
    else if r.PageEnd? then
      if s.footer.Some? || s.afterFiller then Err(Corruption)
      else Ok(s.(identity := Some((r.seqNo, r.uuid)), afterFiller := true))
    else ScanTransaction(Identified(s, r), r, job, index)
  }

  /** A transaction record fixes the identity and ends a filler. */
  function Identified(s: Scan, r: Record): Scan {
    s.(identity := Some((r.seqNo, r.uuid)), afterFiller := false)
  }

  function ScanTransaction(s: Scan, r: Record, job: Job, index: nat): Result<Scan>
    requires !r.PageEnd?
  {
    match r
    case TxBegin(_, _, begin, _, _) =>
      if s.begin.Some? || s.footer.Some? || s.ops != 0 || begin != job.begin then Err(Corruption)
      else Ok(s.(crc := UpdateCrc(s.crc, r), begin := Some(r)))
    case KvRecord(_, _, opIndex, key, _) =>
      if s.begin.None? || s.footer.Some? || opIndex != s.ops then Err(Corruption)
      else Ok(s.(crc := UpdateCrc(s.crc, r), keys := s.keys + {key}, ops := s.ops + 1, kvs := s.kvs + 1))
    case DeleteRecord(_, _, opIndex, key) =>
      if s.begin.None? || s.footer.Some? || opIndex != s.ops then Err(Corruption)
      else Ok(s.(crc := UpdateCrc(s.crc, r), keys := s.keys + {key}, ops := s.ops + 1, deletes := s.deletes + 1))
    case TxPreparedEnd(_, _, _, _, _, _, _, _, _) =>
      if FooterFits(s, r, job, index) then Ok(s.(footer := Some(r))) else Err(Corruption)
  }

  /** The end of the chunk becomes the physical end, if it lies in the file and suits a record end. */
  function Advance(s: Scan, position: Pos, len: nat, isRecord: bool, g: Geometry): Result<Scan>
    requires GeometryValid(g)
  {
    var end := Pos(position.file, position.offset + len);
    if end.file > g.maxFileId || end.offset > g.maxFileSize then Err(Corruption)
    else if isRecord && !RecordEndValid(end, g) then Err(Corruption)
    else Ok(s.(end := end))
  }

  predicate IsTransactionRecord(c: Content) {
    c.RecordContent? && !c.r.PageEnd?
  }

  /** What the scanner does with decoded content. */
  function ScanContent(s: Scan, position: Pos, c: Content, job: Job, index: nat): Result<Scan>
    requires GeometryValid(job.g)
  {
    match c
    case PageHeaderContent(file, page) =>
      if file != position.file || page != position.offset / job.g.pageSize then Err(Corruption)
      else Ok(s.(expectFile := page == 0))
    case FileHeaderContent(database, file) =>
      if database != job.database || file != position.file then Err(Corruption) else Ok(s.(expectFile := false))
    case RecordContent(r) => ScanRecord(s, r, job, index)
  }

  /** Which decoder a chunk gets depends on where it stands. */
  function DecodeChunk(chunk: Chunk, expectFile: bool, g: Geometry): Result<Content>
    requires GeometryValid(g)
  {
    if chunk.position.offset % g.pageSize == 0 then
      if expectFile then Err(Corruption)
      else
        var h :- DecodePageHeader(chunk.bytes);
        Ok(PageHeaderContent(h.0, h.1))
    else if chunk.position.offset == PAGE_HEADER_LEN then
      if !expectFile then Err(Corruption)
      else
        var h :- DecodeFileHeader(chunk.bytes);
        Ok(FileHeaderContent(h.0, h.1))
    else if expectFile then Err(Corruption)
    else
      var r :- DecodeRecordAt(chunk.bytes, chunk.position, g);
      Ok(RecordContent(r))
  }

  /** One round of the scan loop. */
  function ScanChunk(s: Scan, chunk: Chunk, job: Job, index: nat): Result<Scan>
    requires GeometryValid(job.g)
  {
    if chunk.bytes == [] then Err(Corruption)
    else
      var expected :- NextChunk(s.end, job.g);
      if chunk.position != expected then Err(Corruption)
      else
        var c :- DecodeChunk(chunk, s.expectFile, job.g);
        var t :- ScanContent(s, chunk.position, c, job, index);
        Advance(t, chunk.position, |chunk.bytes|, IsTransactionRecord(c), job.g)
  }

  function ScanFrom(s: Scan, chunks: seq<Chunk>, job: Job, index: nat): Result<Scan>
    requires GeometryValid(job.g) && index <= |chunks|
    decreases |chunks| - index
  {
    if index == |chunks| then Ok(s)
    else
      var t :- ScanChunk(s, chunks[index], job, index);
      ScanFrom(t, chunks, job, index + 1)
  }

  datatype Scanned = Scanned(
    seqNo: nat, uuid: Bytes, begin: Pos, end: Pos, opCount: nat, keyCount: nat, kvCount: nat, deleteCount: nat, crc: Word)

  /** The checks after the loop. */
  function Conclude(s: Scan, job: Job): Result<Scanned> {
    if s.end != job.end || s.begin.None? || s.footer.None? || !s.footer.value.TxPreparedEnd? then Err(Corruption)
    else Ok(Scanned(s.begin.value.seqNo, s.begin.value.uuid, job.begin, job.end, s.ops,
                    s.footer.value.keyCount, s.kvs, s.deletes, s.footer.value.crc))
  }

  /** The whole scan as a function of the chunks. */
  function ScanEnvelope(chunks: seq<Chunk>, job: Job): Result<Scanned> {
    if !GeometryValid(job.g) || chunks == [] || !UuidValid(job.database) || !PosLess(job.begin, job.end)
       || job.chunks != |chunks|
    then Err(Corruption)
    else
      var s :- ScanFrom(InitialScan(job.begin), chunks, job, 0);
      Conclude(s, job)
  }

  method ScanPreparedEnvelope(
    chunks: seq<Chunk>, g: Geometry, database: Bytes, begin: Pos, end: Pos, expected: Option<Word>)
    returns (r: Result<Scanned>)
    ensures r == ScanEnvelope(chunks, Job(g, database, begin, end, expected, |chunks|))
  {
    var job := Job(g, database, begin, end, expected, |chunks|);
    if !GeometryValid(g) || |chunks| == 0 || !UuidValid(database) || !PosLess(begin, end) {
      return Err(Corruption);
    }
    var scan := InitialScan(begin);
    for i := 0 to |chunks|
      invariant ScanFrom(scan, chunks, job, i) == ScanFrom(InitialScan(begin), chunks, job, 0)
    {
      var next := ScanChunk(scan, chunks[i], job, i);
      if next.Err? {
        return Err(next.error);
      }
      scan := next.value;
    }
    return Conclude(scan, job);
  }

  // ---------------------------------------------------------------- pieces and their chunks

  /** A piece that stands where a writer may put it. */
  predicate PieceStands(p: Piece, g: Geometry) {
    && GeometryValid(g)
    && match p.content
       case PageHeaderContent(file, page) =>
         file <= 999_999 && page <= 65_535 && p.position.offset % g.pageSize == 0
       case FileHeaderContent(database, file) =>
         UuidValid(database) && file <= 999_999 && p.position.offset == PAGE_HEADER_LEN
         && p.position.offset % g.pageSize != 0
       case RecordContent(r) =>
         RecordValid(r) && StandsAt(r, p.position, g)
         && p.position.offset % g.pageSize != 0 && p.position.offset != PAGE_HEADER_LEN
  }

  /** Decoding an encoded piece where it stands gives the piece back. */
  lemma {:induction false} PieceDecodes(p: Piece, expectFile: bool, g: Geometry)
    requires PieceStands(p, g) && expectFile == p.content.FileHeaderContent?
    ensures DecodeChunk(ChunkOf(p), expectFile, g) == Ok(p.content)
    ensures |ChunkOf(p).bytes| == ContentLen(p.content) > 0
  {
    match p.content
    case PageHeaderContent(file, page) => PageHeaderRoundTrip(file, page);
    case FileHeaderContent(database, file) => FileHeaderRoundTrip(database, file);
    case RecordContent(r) => RecordRoundTrip(r, p.position, g);
  }

  /** One round over an encoded piece, without the bytes. */
  function ScanPiece(s: Scan, p: Piece, job: Job, index: nat): Result<Scan>
    requires GeometryValid(job.g)
  {
    var t :- ScanContent(s, p.position, p.content, job, index);
    Advance(t, p.position, ContentLen(p.content), IsTransactionRecord(p.content), job.g)
  }

  lemma {:induction false} ChunkScansAsPiece(s: Scan, p: Piece, job: Job, index: nat)
    requires PieceStands(p, job.g) && NextChunk(s.end, job.g) == Ok(p.position)
    requires s.expectFile == p.content.FileHeaderContent?
    ensures ScanChunk(s, ChunkOf(p), job, index) == ScanPiece(s, p, job, index)
  {
    PieceDecodes(p, s.expectFile, job.g);
  }

  // ---------------------------------------------------------------- the scan as a fold

  type ScanStep = (Scan, Chunk, nat) -> Result<Scan>

  /** The scan loop over an arbitrary step. */
  function FoldFrom(f: ScanStep, s: Scan, chunks: seq<Chunk>, index: nat): Result<Scan>
    requires index <= |chunks|
    decreases |chunks| - index
  {
    if index == |chunks| then Ok(s)
    else
      var t :- f(s, chunks[index], index);
      FoldFrom(f, t, chunks, index + 1)
  }

  function StepOf(job: Job): ScanStep
    requires GeometryValid(job.g)
  {
    (s: Scan, chunk: Chunk, index: nat) => if GeometryValid(job.g) then ScanChunk(s, chunk, job, index) else Err(Corruption)
  }

  lemma {:induction false} FoldIsScan(s: Scan, chunks: seq<Chunk>, job: Job, index: nat)
    requires GeometryValid(job.g) && index <= |chunks|
    ensures FoldFrom(StepOf(job), s, chunks, index) == ScanFrom(s, chunks, job, index)
    decreases |chunks| - index
  {
    if index < |chunks| {
      var t := ScanChunk(s, chunks[index], job, index);
      if t.Ok? { FoldIsScan(t.value, chunks, job, index + 1); }
    }
  }

  /** A scan in progress: its step, how pieces are encoded, the chunks and what is expected of them. */
  datatype Tape = Tape(f: ScanStep, encode: Piece -> Chunk, chunks: seq<Chunk>, job: Job)

  /** The step handles encoded pieces as pieces. */
  ghost predicate HandlesPieces(tape: Tape) {
    GeometryValid(tape.job.g) && forall s, p, index :: HandlesPiece(tape, s, p, index)
  }

  ghost predicate HandlesPiece(tape: Tape, s: Scan, p: Piece, index: nat)
    requires GeometryValid(tape.job.g)
  {
    var g := tape.job.g;
    PieceStands(p, g) && NextChunk(s.end, g) == Ok(p.position) && s.expectFile == p.content.FileHeaderContent? ==>
      tape.f(s, tape.encode(p), index) == ScanPiece(s, p, tape.job, index)
  }

  function ScannerTape(chunks: seq<Chunk>, job: Job): Tape
    requires GeometryValid(job.g)
  {
    Tape(StepOf(job), p => ChunkOf(p), chunks, job)
  }

  lemma {:induction false} ScannerHandlesPieces(chunks: seq<Chunk>, job: Job)
    requires GeometryValid(job.g)
    ensures HandlesPieces(ScannerTape(chunks, job))
  {
    forall s, p, index ensures HandlesPiece(ScannerTape(chunks, job), s, p, index) {
      ScannerHandlesPiece(chunks, job, s, p, index);
    }
  }

  lemma {:induction false} ScannerHandlesPiece(chunks: seq<Chunk>, job: Job, s: Scan, p: Piece, index: nat)
    requires GeometryValid(job.g)
    ensures HandlesPiece(ScannerTape(chunks, job), s, p, index)
  {
    if PieceStands(p, job.g) && NextChunk(s.end, job.g) == Ok(p.position) && s.expectFile == p.content.FileHeaderContent? {
      ChunkScansAsPiece(s, p, job, index);
    }
  }
}
