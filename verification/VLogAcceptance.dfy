/**
 * What the envelope scanner rejects: every accepted sequence of chunks is the encoding of one valid
 * transaction, record by record, with nothing but the right headers and fillers in between.
 */
module VLogAcceptance {
  import opened Basics
  import opened Index
  import opened CommitProtocol
  import opened Topology
  import opened History
  import opened ByteCodec
  import opened VLogCodec
  import opened VLogRoundTrip
  import opened VLogLayout
  import opened VLogScanner
  import opened VLogEnvelope
  import opened VLogDecoded

  // ---------------------------------------------------------------- one chunk

  /** The piece that a chunk holds if it is decoded where it stands. */
  lemma {:induction false} DecodedChunkIsEncoded(chunk: Chunk, expectFile: bool, g: Geometry)
    requires GeometryValid(g) && DecodeChunk(chunk, expectFile, g).Ok?
    ensures var p := Piece(chunk.position, DecodeChunk(chunk, expectFile, g).value);
            && ChunkOf(p) == chunk && PieceStands(p, g) && ContentLen(p.content) == |chunk.bytes|
            && expectFile == p.content.FileHeaderContent?
  {
    if chunk.position.offset % g.pageSize == 0 {
      DecodedPageHeaderIsEncoded(chunk.bytes);
    } else if chunk.position.offset == PAGE_HEADER_LEN {
      DecodedFileHeaderIsEncoded(chunk.bytes);
    } else {
      DecodedRecordIsEncoded(chunk.bytes, chunk.position, g);
    }
  }

  /** The step takes the chunk as the encoding of the piece `p`. */
  ghost predicate TakesPiece(tape: Tape, s: Scan, chunk: Chunk, index: nat, s': Scan, p: Piece) {
    && GeometryValid(tape.job.g) && chunk == tape.encode(p) && PieceStands(p, tape.job.g)
    && NextChunk(s.end, tape.job.g) == Ok(p.position) && ScanPiece(s, p, tape.job, index) == Ok(s')
    && s.expectFile == p.content.FileHeaderContent?
  }

  ghost predicate Takes(tape: Tape, s: Scan, chunk: Chunk, index: nat) {
    tape.f(s, chunk, index).Ok? ==> exists p :: TakesPiece(tape, s, chunk, index, tape.f(s, chunk, index).value, p)
  }

  ghost predicate TakesOnlyPieces(tape: Tape) {
    GeometryValid(tape.job.g) && forall s, chunk, index :: Takes(tape, s, chunk, index)
  }

  lemma {:induction false} ScannedChunkIsPiece(s: Scan, chunk: Chunk, job: Job, index: nat)
    requires GeometryValid(job.g) && ScanChunk(s, chunk, job, index).Ok?
    ensures DecodeChunk(chunk, s.expectFile, job.g).Ok?
    ensures var p := Piece(chunk.position, DecodeChunk(chunk, s.expectFile, job.g).value);
            && ChunkOf(p) == chunk && PieceStands(p, job.g) && NextChunk(s.end, job.g) == Ok(p.position)
            && s.expectFile == p.content.FileHeaderContent?
            && ScanPiece(s, p, job, index) == ScanChunk(s, chunk, job, index)
  {
    DecodedChunkIsEncoded(chunk, s.expectFile, job.g);
  }

  lemma {:induction false} ScannerTakesPiece(chunks: seq<Chunk>, job: Job, s: Scan, chunk: Chunk, index: nat)
    requires GeometryValid(job.g)
    ensures Takes(ScannerTape(chunks, job), s, chunk, index)
  {
    var tape := ScannerTape(chunks, job);
    if tape.f(s, chunk, index).Ok? {
      ScannedChunkIsPiece(s, chunk, job, index);
      var p := Piece(chunk.position, DecodeChunk(chunk, s.expectFile, job.g).value);
      assert TakesPiece(tape, s, chunk, index, tape.f(s, chunk, index).value, p);
    }
  }

  lemma {:induction false} ScannerTakesOnlyPieces(chunks: seq<Chunk>, job: Job)
    requires GeometryValid(job.g)
    ensures TakesOnlyPieces(ScannerTape(chunks, job))
  {
    forall s, chunk, index ensures Takes(ScannerTape(chunks, job), s, chunk, index) {
      ScannerTakesPiece(chunks, job, s, chunk, index);
    }
  }

  // ---------------------------------------------------------------- what was scanned so far

  /** The transaction records among the pieces, in order. */
  function TransactionRecords(pieces: seq<Piece>): seq<Record> {
    if pieces == [] then []
    else
      var earlier, c := TransactionRecords(pieces[..|pieces| - 1]), pieces[|pieces| - 1].content;
      if IsTransactionRecord(c) then earlier + [c.r] else earlier
  }

  lemma {:induction false} OneMorePiece(pieces: seq<Piece>, p: Piece)
    ensures TransactionRecords(pieces + [p])
         == TransactionRecords(pieces) + if IsTransactionRecord(p.content) then [p.content.r] else []
  {
    assert (pieces + [p])[..|pieces|] == pieces;
  }

  /** Every piece lies in a file; after a record the page is used up or has room for a filler. */
  predicate EndsWell(p: Piece, g: Geometry)
    requires GeometryValid(g)
  {
    var end := EndOf(p).offset;
    && p.position.file <= g.maxFileId && end <= g.maxFileSize
    && (IsTransactionRecord(p.content) ==>
          end == g.maxFileSize || end % g.pageSize == 0 || end + PAGE_END_MIN_LEN <= PageEndOf(end, g))
  }

  predicate IsFiller(p: Piece) {
    p.content.RecordContent? && p.content.r.PageEnd?
  }

  /** The last piece is the header of a file's first page. */
  predicate ExpectsFile(pieces: seq<Piece>) {
    pieces != [] && pieces[|pieces| - 1].content.PageHeaderContent? && pieces[|pieces| - 1].content.page == 0
  }

  /** The last record or filler is a filler. */
  predicate AfterFiller(pieces: seq<Piece>) {
    pieces != []
    && var p := pieces[|pieces| - 1];
       if p.content.RecordContent? then p.content.r.PageEnd? else AfterFiller(pieces[..|pieces| - 1])
  }

  /** A file header comes exactly after the header of page 0, and a filler never after a filler. */
  predicate FitsAfter(pieces: seq<Piece>, p: Piece) {
    (p.content.FileHeaderContent? <==> ExpectsFile(pieces)) && (IsFiller(p) ==> !AfterFiller(pieces))
  }

  predicate LaidAt(pieces: seq<Piece>, g: Geometry, i: nat)
    requires GeometryValid(g) && i < |pieces|
  {
    EndsWell(pieces[i], g) && FitsAfter(pieces[..i], pieces[i])
  }

  predicate LaidOut(pieces: seq<Piece>, g: Geometry) {
    GeometryValid(g) && forall i :: 0 <= i < |pieces| ==> LaidAt(pieces, g, i)
  }

  /** The scanner remembers what the order of the pieces demands next; the footer is the last of all chunks. */
  predicate Remembered(s: Scan, pieces: seq<Piece>, job: Job) {
    && s.expectFile == ExpectsFile(pieces) && s.afterFiller == AfterFiller(pieces)
    && (s.footer.Some? ==>
          |pieces| == job.chunks && pieces != [] && pieces[|pieces| - 1].content == RecordContent(s.footer.value))
  }

  /** A header of the right page or file, or a record or filler of the right transaction. */
  predicate Belongs(p: Piece, database: Bytes, identity: Option<(nat, Bytes)>, g: Geometry) {
    && PieceStands(p, g)
    && match p.content
       case PageHeaderContent(file, page) => file == p.position.file && page == p.position.offset / g.pageSize
       case FileHeaderContent(found, file) => found == database && file == p.position.file
       case RecordContent(r) => identity == Some((r.seqNo, r.uuid))
  }

  function EndOf(p: Piece): Pos {
    Pos(p.position.file, p.position.offset + ContentLen(p.content))
  }

  /** Each piece begins where the one before it ends, the first at `begin`. */
  predicate Tiled(pieces: seq<Piece>, begin: Pos, g: Geometry) {
    forall i :: 0 <= i < |pieces| ==> TileAt(pieces, begin, g, i)
  }

  predicate TileAt(pieces: seq<Piece>, begin: Pos, g: Geometry, i: nat)
    requires i < |pieces|
  {
    pieces[i].position == FollowingPlace(if i == 0 then begin else EndOf(pieces[i - 1]), g)
  }

  /** Where the byte after `end` goes: a full file continues at the start of the next one. */
  function FollowingPlace(end: Pos, g: Geometry): Pos {
    if end.offset == g.maxFileSize then Pos(end.file + 1, 0) else end
  }

  /** The body of an envelope that begins with `b`: the begin record and the operations so far. */
  function Body(b: Record, ops: seq<Operation>): seq<Record> {
    [b] + OperationRecords(b.seqNo, b.uuid, ops)
  }

  predicate OpsCounted(s: Scan, ops: seq<Operation>) {
    && s.ops == |ops| && s.kvs == PutCount(ops) && s.deletes == DeleteCount(ops) && s.keys == KeySet(ops)
    && forall i :: 0 <= i < |ops| ==> OperationValid(ops[i])
  }

  /** The records so far are a begin record, the operations, and at last the footer that fits them. */
  predicate RecordsTracked(s: Scan, records: seq<Record>, ops: seq<Operation>, job: Job) {
    if s.begin.None? then records == [] && ops == [] && s.footer.None? && s.crc == Crc(ENVELOPE_MAGIC)
    else
      var b := s.begin.value;
      && b.TxBegin? && RecordValid(b) && b.begin == job.begin && s.identity == Some((b.seqNo, b.uuid))
      && s.crc == CrcThrough(Body(b, ops), |ops| + 1)
      && if s.footer.None? then records == Body(b, ops)
         else
           && s.footer.value == TxPreparedEnd(b.seqNo, b.uuid, job.begin, job.end, |ops|, |KeySet(ops)|,
                                              PutCount(ops), DeleteCount(ops), UpdateCrc(s.crc, s.footer.value))
           && b.opCount == |ops| && b.keyCount == |KeySet(ops)|
           && records == Body(b, ops) + [s.footer.value]
           && (job.expected.Some? ==> job.expected.value == UpdateCrc(s.crc, s.footer.value))
  }

  ghost predicate Tracks(s: Scan, pieces: seq<Piece>, ops: seq<Operation>, job: Job) {
    && (forall i :: 0 <= i < |pieces| ==> Belongs(pieces[i], job.database, s.identity, job.g))
    && Tiled(pieces, job.begin, job.g) && s.end == (if pieces == [] then job.begin else EndOf(pieces[|pieces| - 1]))
    && OpsCounted(s, ops) && RecordsTracked(s, TransactionRecords(pieces), ops, job)
    && LaidOut(pieces, job.g) && Remembered(s, pieces, job)
  }

  // ---------------------------------------------------------------- one step

  /** One more operation record extends the body, its checksum and the counts. */
  lemma {:induction false} BodyGrows(b: Record, ops: seq<Operation>, op: Operation)
    ensures Body(b, ops + [op]) == Body(b, ops) + [OperationRecord(b.seqNo, b.uuid, |ops|, op)]
    ensures CrcThrough(Body(b, ops + [op]), |ops| + 2)
         == UpdateCrc(CrcThrough(Body(b, ops), |ops| + 1), OperationRecord(b.seqNo, b.uuid, |ops|, op))
    ensures PutCount(ops + [op]) == PutCount(ops) + if op.Put? then 1 else 0
    ensures DeleteCount(ops + [op]) == DeleteCount(ops) + if op.Delete? then 1 else 0
    ensures KeySet(ops + [op]) == KeySet(ops) + {op.key}
  {
    var more := ops + [op];
    assert more[..|ops|] == ops;
    var body, longer := Body(b, ops), Body(b, more);
    assert longer == body + [OperationRecord(b.seqNo, b.uuid, |ops|, op)];
    CrcOfPrefix(body, longer, |ops| + 1);
  }

  lemma {:induction false} CrcOfPrefix(a: seq<Record>, b: seq<Record>, n: nat)
    requires a <= b && n <= |a|
    ensures CrcThrough(a, n) == CrcThrough(b, n)
  {
    if n > 0 { CrcOfPrefix(a, b, n - 1); }
  }

  lemma {:induction false} TransactionStepTracks(
    s: Scan, r: Record, job: Job, index: nat, s': Scan, records: seq<Record>, ops: seq<Operation>) returns (ops': seq<Operation>)
    requires !r.PageEnd? && RecordValid(r) && s.identity == Some((r.seqNo, r.uuid))
    requires OpsCounted(s, ops) && RecordsTracked(s, records, ops, job) && ScanTransaction(s, r, job, index) == Ok(s')
    ensures OpsCounted(s', ops') && RecordsTracked(s', records + [r], ops', job) && s'.identity == s.identity
  {
    match r
    case TxBegin(_, _, _, _, _) =>
      ops' := [];
      assert Body(r, []) == [r];
      assert CrcThrough(Body(r, []), 1) == UpdateCrc(CrcThrough(Body(r, []), 0), r);
    case KvRecord(_, _, _, key, value) =>
      ops' := ops + [Put(key, value)];
      OperationTracks(s, r, Put(key, value), s', records, ops, job);
    case DeleteRecord(_, _, _, key) =>
      ops' := ops + [Delete(key)];
      OperationTracks(s, r, Delete(key), s', records, ops, job);
    case TxPreparedEnd(_, _, _, _, _, _, _, _, _) =>
      ops' := ops;
      FooterTracks(s, r, job, index, s', records, ops);
  }

  lemma {:induction false} OperationTracks(
    s: Scan, r: Record, op: Operation, s': Scan, records: seq<Record>, ops: seq<Operation>, job: Job)
    requires RecordValid(r) && s.begin.Some? && s.footer.None? && s.identity == Some((r.seqNo, r.uuid))
    requires r == OperationRecord(r.seqNo, r.uuid, |ops|, op)
    requires OpsCounted(s, ops) && RecordsTracked(s, records, ops, job)
    requires s' == s.(crc := UpdateCrc(s.crc, r), keys := s.keys + {op.key}, ops := s.ops + 1,
                      kvs := s.kvs + (if op.Put? then 1 else 0), deletes := s.deletes + if op.Delete? then 1 else 0)
    ensures OpsCounted(s', ops + [op]) && RecordsTracked(s', records + [r], ops + [op], job)
  {
    BodyGrows(s.begin.value, ops, op);
    OneMoreCounted(s, s', ops, op);
  }

  lemma {:induction false} OneMoreCounted(s: Scan, s': Scan, ops: seq<Operation>, op: Operation)
    requires OpsCounted(s, ops) && OperationValid(op)
    requires s'.ops == s.ops + 1 && s'.kvs == (s.kvs + if op.Put? then 1 else 0)
    requires s'.deletes == (s.deletes + if op.Delete? then 1 else 0) && s'.keys == s.keys + {op.key}
    ensures OpsCounted(s', ops + [op])
  {
    var more := ops + [op];
    assert more[..|ops|] == ops;
    forall i | 0 <= i < |more| ensures OperationValid(more[i]) {
      if i < |ops| { assert more[i] == ops[i]; }
    }
  }

  lemma {:induction false} FooterTracks(
    s: Scan, r: Record, job: Job, index: nat, s': Scan, records: seq<Record>, ops: seq<Operation>)
    requires r.TxPreparedEnd? && FooterFits(s, r, job, index) && s' == s.(footer := Some(r))
    requires OpsCounted(s, ops) && RecordsTracked(s, records, ops, job)
    ensures OpsCounted(s', ops) && RecordsTracked(s', records + [r], ops, job)
  {
  }

  lemma {:induction false} PieceTracks(
    s: Scan, p: Piece, job: Job, index: nat, s': Scan, pieces: seq<Piece>, more: seq<Piece>, ops: seq<Operation>)
    returns (ops': seq<Operation>)
    requires GeometryValid(job.g) && PieceStands(p, job.g) && NextChunk(s.end, job.g) == Ok(p.position)
    requires ScanPiece(s, p, job, index) == Ok(s') && Tracks(s, pieces, ops, job)
    requires s.expectFile == p.content.FileHeaderContent? && |pieces| == index < job.chunks && more == pieces + [p]
    ensures Tracks(s', more, ops', job)
  {
    var u := ScanContent(s, p.position, p.content, job, index).value;
    ops' := ContentTracks(s, p, job, index, u, pieces, ops);
    EndMoves(u, EndOf(p), TransactionRecords(pieces) + if IsTransactionRecord(p.content) then [p.content.r] else [], ops', job);
    OneMorePiece(pieces, p);
    OneMoreBelongs(s, p, u.identity, job, pieces);
    OneMoreTile(pieces, p, job.begin, job.g);
    OneMoreLaid(s, p, job, index, u, pieces);
  }

  lemma {:induction false} OneMoreLaid(s: Scan, p: Piece, job: Job, index: nat, u: Scan, pieces: seq<Piece>)
    requires GeometryValid(job.g) && ScanContent(s, p.position, p.content, job, index) == Ok(u)
    requires LaidOut(pieces, job.g) && Remembered(s, pieces, job) && s.footer.None?
    requires s.expectFile == p.content.FileHeaderContent? && |pieces| == index
    requires Advance(u, p.position, ContentLen(p.content), IsTransactionRecord(p.content), job.g).Ok?
    ensures LaidOut(pieces + [p], job.g) && Remembered(u.(end := EndOf(p)), pieces + [p], job)
  {
    var more := pieces + [p];
    assert more[..|pieces|] == pieces;
    forall i | 0 <= i < |more| ensures LaidAt(more, job.g, i) {
      if i < |pieces| {
        assert LaidAt(pieces, job.g, i);
        assert more[..i] == pieces[..i];
      }
    }
  }

  lemma {:induction false} EndMoves(u: Scan, end: Pos, records: seq<Record>, ops: seq<Operation>, job: Job)
    requires OpsCounted(u, ops) && RecordsTracked(u, records, ops, job)
    ensures OpsCounted(u.(end := end), ops) && RecordsTracked(u.(end := end), records, ops, job)
  {
  }

  lemma {:induction false} OneMoreTile(pieces: seq<Piece>, p: Piece, begin: Pos, g: Geometry)
    requires Tiled(pieces, begin, g)
    requires p.position == FollowingPlace(if pieces == [] then begin else EndOf(pieces[|pieces| - 1]), g)
    ensures Tiled(pieces + [p], begin, g)
  {
    var more := pieces + [p];
    forall i | 0 <= i < |more| ensures TileAt(more, begin, g, i) {
      if i < |pieces| { assert TileAt(pieces, begin, g, i); }
    }
  }

  lemma {:induction false} OneMoreBelongs(s: Scan, p: Piece, identity: Option<(nat, Bytes)>, job: Job, pieces: seq<Piece>)
    requires forall i :: 0 <= i < |pieces| ==> Belongs(pieces[i], job.database, s.identity, job.g)
    requires Belongs(p, job.database, identity, job.g) && (s.identity.Some? ==> identity == s.identity)
    ensures forall i :: 0 <= i < |pieces + [p]| ==> Belongs((pieces + [p])[i], job.database, identity, job.g)
  {
    forall i | 0 <= i < |pieces + [p]| ensures Belongs((pieces + [p])[i], job.database, identity, job.g) {
      if i < |pieces| { assert Belongs(pieces[i], job.database, s.identity, job.g); }
    }
  }

  lemma {:induction false} ContentTracks(
    s: Scan, p: Piece, job: Job, index: nat, u: Scan, pieces: seq<Piece>, ops: seq<Operation>) returns (ops': seq<Operation>)
    requires GeometryValid(job.g) && PieceStands(p, job.g) && ScanContent(s, p.position, p.content, job, index) == Ok(u)
    requires OpsCounted(s, ops) && RecordsTracked(s, TransactionRecords(pieces), ops, job)
    ensures OpsCounted(u, ops') && Belongs(p, job.database, u.identity, job.g) && (s.identity.Some? ==> u.identity == s.identity)
    ensures RecordsTracked(u, TransactionRecords(pieces) + if IsTransactionRecord(p.content) then [p.content.r] else [], ops', job)
  {
    ops' := ops;
    if p.content.RecordContent? && !p.content.r.PageEnd? {
      var r, records := p.content.r, TransactionRecords(pieces);
      assert RecordsTracked(Identified(s, r), records, ops, job);
      ops' := TransactionStepTracks(Identified(s, r), r, job, index, u, records, ops);
    } else {
      assert TransactionRecords(pieces) + [] == TransactionRecords(pieces);
    }
  }

  // ---------------------------------------------------------------- whole scans

  ghost predicate EncodedThrough(tape: Tape, pieces: seq<Piece>) {
    |pieces| <= |tape.chunks| && forall i :: 0 <= i < |pieces| ==> tape.chunks[i] == tape.encode(pieces[i])
  }

  /** Scanning to the end, from any point, adds the pieces that the remaining chunks encode. */
  lemma {:induction false} ScanTracks(tape: Tape, s: Scan, pieces: seq<Piece>, ops: seq<Operation>)
    returns (all: seq<Piece>, done: seq<Operation>)
    requires TakesOnlyPieces(tape) && EncodedThrough(tape, pieces) && Tracks(s, pieces, ops, tape.job)
    requires FoldFrom(tape.f, s, tape.chunks, |pieces|).Ok? && |tape.chunks| == tape.job.chunks
    ensures EncodedThrough(tape, all) && |all| == |tape.chunks|
    ensures Tracks(FoldFrom(tape.f, s, tape.chunks, |pieces|).value, all, done, tape.job)
    decreases |tape.chunks| - |pieces|
  {
    var n := |pieces|;
    if n == |tape.chunks| {
      all, done := pieces, ops;
    } else {
      var p, s', ops' := RoundTracks(tape, s, pieces, ops);
      all, done := ScanTracks(tape, s', pieces + [p], ops');
    }
  }

  lemma {:induction false} RoundTracks(tape: Tape, s: Scan, pieces: seq<Piece>, ops: seq<Operation>)
    returns (p: Piece, s': Scan, ops': seq<Operation>)
    requires TakesOnlyPieces(tape) && EncodedThrough(tape, pieces) && Tracks(s, pieces, ops, tape.job)
    requires |pieces| < |tape.chunks| == tape.job.chunks && tape.f(s, tape.chunks[|pieces|], |pieces|).Ok?
    ensures EncodedThrough(tape, pieces + [p])
    ensures tape.f(s, tape.chunks[|pieces|], |pieces|) == Ok(s') && Tracks(s', pieces + [p], ops', tape.job)
  {
    p, s' := PieceTaken(tape, s, |pieces|);
    OneMoreEncoded(tape, pieces, p);
    ops' := PieceTracks(s, p, tape.job, |pieces|, s', pieces, pieces + [p], ops);
  }

  lemma {:induction false} OneMoreEncoded(tape: Tape, pieces: seq<Piece>, p: Piece)
    requires EncodedThrough(tape, pieces) && |pieces| < |tape.chunks| && tape.chunks[|pieces|] == tape.encode(p)
    ensures EncodedThrough(tape, pieces + [p])
  {
    var more := pieces + [p];
    forall i | 0 <= i < |more| ensures tape.chunks[i] == tape.encode(more[i]) {
      if i < |pieces| { assert more[i] == pieces[i]; }
    }
  }

  lemma {:induction false} PieceTaken(tape: Tape, s: Scan, n: nat) returns (p: Piece, s': Scan)
    requires TakesOnlyPieces(tape) && n < |tape.chunks| && tape.f(s, tape.chunks[n], n).Ok?
    ensures tape.f(s, tape.chunks[n], n) == Ok(s') && TakesPiece(tape, s, tape.chunks[n], n, s', p)
  {
    assert Takes(tape, s, tape.chunks[n], n);
    s' := tape.f(s, tape.chunks[n], n).value;
    p :| TakesPiece(tape, s, tape.chunks[n], n, s', p);
  }

  lemma {:induction false} InitialTracks(job: Job)
    requires GeometryValid(job.g)
    ensures Tracks(InitialScan(job.begin), [], [], job)
  {
  }

  /** The chunks are the encoding of the transaction: its records in order, tiled with its headers and fillers. */
  ghost predicate IsEnvelopeOf(chunks: seq<Chunk>, pieces: seq<Piece>, t: Txn, begin: Pos, end: Pos, g: Geometry) {
    && |chunks| == |pieces| && (forall i :: 0 <= i < |chunks| ==> chunks[i] == ChunkOf(pieces[i]))
    && Arranged(pieces, t, begin, end, g)
  }

  /** The pieces of an envelope, wherever records, headers and fillers may go. */
  predicate Arranged(pieces: seq<Piece>, t: Txn, begin: Pos, end: Pos, g: Geometry) {
    && TransactionRecords(pieces) == Records(t, begin, end)
    && (forall i :: 0 <= i < |pieces| ==> Belongs(pieces[i], t.database, Some((t.seqNo, t.uuid)), g))
    && Tiled(pieces, begin, g) && LaidOut(pieces, g)
    && pieces != [] && EndOf(pieces[|pieces| - 1]) == end
    && pieces[|pieces| - 1].content == RecordContent(FooterRecord(t, begin, end, EnvelopeCrc(t, begin, end)))
  }

  /** What a scan of that transaction's envelope must report. */
  function ScannedOf(t: Txn, begin: Pos, end: Pos): Scanned {
    Scanned(t.seqNo, t.uuid, begin, end, |t.ops|, |KeySet(t.ops)|, PutCount(t.ops), DeleteCount(t.ops), EnvelopeCrc(t, begin, end))
  }

  /** A finished scan has seen the envelope of a transaction. */
  lemma {:induction false} FinishedIsTransaction(s: Scan, pieces: seq<Piece>, ops: seq<Operation>, job: Job) returns (t: Txn)
    requires Tracks(s, pieces, ops, job) && Conclude(s, job).Ok? && UuidValid(job.database)
    ensures TxnValid(t) && t.database == job.database && Conclude(s, job).value == ScannedOf(t, job.begin, job.end)
    ensures TransactionRecords(pieces) == Records(t, job.begin, job.end) && s.identity == Some((t.seqNo, t.uuid))
    ensures job.expected.Some? ==> job.expected.value == EnvelopeCrc(t, job.begin, job.end)
    ensures pieces != []
    ensures pieces[|pieces| - 1].content == RecordContent(FooterRecord(t, job.begin, job.end, EnvelopeCrc(t, job.begin, job.end)))
  {
    var b, f := s.begin.value, s.footer.value;
    t := Txn(job.database, b.seqNo, b.uuid, ops);
    assert b == BeginRecord(t, job.begin) && Body(b, ops) == BodyRecords(t, job.begin);
    assert CanonicalFields(f) == CanonicalFields(FooterRecord(t, job.begin, job.end, 0));
    assert f == FooterRecord(t, job.begin, job.end, EnvelopeCrc(t, job.begin, job.end));
  }

  /**
   * Acceptance is exact in its other direction too: whatever chunks the scanner accepts are the
   * envelope of a valid transaction of this database between these bounds, record for record, and the
   * scanner reports that transaction's identity, counts and checksum.
   */
  lemma {:induction false} AcceptedScanIsEnvelope(chunks: seq<Chunk>, job: Job) returns (t: Txn, pieces: seq<Piece>)
    requires ScanEnvelope(chunks, job).Ok?
    ensures TxnValid(t) && t.database == job.database
    ensures IsEnvelopeOf(chunks, pieces, t, job.begin, job.end, job.g)
    ensures ScanEnvelope(chunks, job).value == ScannedOf(t, job.begin, job.end)
    ensures job.expected.Some? ==> job.expected.value == EnvelopeCrc(t, job.begin, job.end)
  {
    var tape, start := ScannerTape(chunks, job), InitialScan(job.begin);
    ScannerTakesOnlyPieces(chunks, job);
    FoldIsScan(start, chunks, job, 0);
    InitialTracks(job);
    var s := ScanFrom(start, chunks, job, 0).value;
    var ops: seq<Operation>;
    pieces, ops := ScanTracks(tape, start, [], []);
    t := FinishedIsTransaction(s, pieces, ops, job);
    EncodedIsChunks(chunks, pieces, job);
  }

  lemma {:induction false} EncodedIsChunks(chunks: seq<Chunk>, pieces: seq<Piece>, job: Job)
    requires GeometryValid(job.g) && EncodedThrough(ScannerTape(chunks, job), pieces)
    ensures forall i :: 0 <= i < |pieces| ==> chunks[i] == ChunkOf(pieces[i])
  {
  }

  // ---------------------------------------------------------------- every envelope is accepted

  lemma {:induction false} RecordsOfPrefix(pieces: seq<Piece>, i: nat)
    requires i <= |pieces|
    ensures TransactionRecords(pieces[..i]) <= TransactionRecords(pieces)
    decreases |pieces|
  {
    if i == |pieces| {
      assert pieces[..i] == pieces;
    } else {
      assert pieces[..|pieces| - 1][..i] == pieces[..i];
      RecordsOfPrefix(pieces[..|pieces| - 1], i);
    }
  }

  /** The next transaction record is the next one of the envelope. */
  lemma {:induction false} NextRecord(pieces: seq<Piece>, i: nat)
    requires i < |pieces| && IsTransactionRecord(pieces[i].content)
    ensures var k := |TransactionRecords(pieces[..i])|;
            k < |TransactionRecords(pieces)| && TransactionRecords(pieces)[k] == pieces[i].content.r
    ensures |TransactionRecords(pieces[..i])| + 1 == |TransactionRecords(pieces)| && IsTransactionRecord(pieces[|pieces| - 1].content) ==>
              i == |pieces| - 1
  {
    assert pieces[..i + 1] == pieces[..i] + [pieces[i]];
    OneMorePiece(pieces[..i], pieces[i]);
    RecordsOfPrefix(pieces, i + 1);
    if i < |pieces| - 1 {
      var init := pieces[..|pieces| - 1];
      assert init[..i + 1] == pieces[..i + 1];
      RecordsOfPrefix(init, i + 1);
    }
  }

  /** What the operations so far must be if the records so far are the beginning of the envelope. */
  lemma {:induction false} OpsSoFar(t: Txn, begin: Pos, end: Pos, b: Record, ops: seq<Operation>)
    requires Body(b, ops) <= Records(t, begin, end) && |ops| <= |t.ops|
    ensures b == BeginRecord(t, begin) && ops == t.ops[..|ops|]
  {
    var body, all := Body(b, ops), Records(t, begin, end);
    assert body[0] == all[0];
    forall i | 0 <= i < |ops| ensures ops[i] == t.ops[i] {
      assert body[i + 1] == OperationRecord(b.seqNo, b.uuid, i, ops[i]);
      assert all[i + 1] == OperationRecord(t.seqNo, t.uuid, i, t.ops[i]);
      assert body[i + 1] == all[i + 1];
    }
  }

  /** The scan has seen nothing that does not belong to the transaction. */
  predicate Identifies(s: Scan, t: Txn) {
    s.identity.None? || s.identity == Some((t.seqNo, t.uuid))
  }

  /** The records so far are those of the envelope, up to the next one. */
  ghost predicate OnTrack(s: Scan, records: seq<Record>, ops: seq<Operation>, t: Txn, job: Job) {
    && RecordsTracked(s, records, ops, job) && OpsCounted(s, ops) && s.footer.None? && Identifies(s, t)
    && records <= Records(t, job.begin, job.end)
  }

  lemma {:induction false} RecordScans(
    s: Scan, r: Record, job: Job, index: nat, records: seq<Record>, ops: seq<Operation>, t: Txn)
    requires TxnValid(t) && t.database == job.database && OnTrack(s, records, ops, t, job)
    requires |records| < |t.ops| + 2 && r == Records(t, job.begin, job.end)[|records|]
    requires |records| == |t.ops| + 1 ==> index + 1 == job.chunks
    requires job.expected.Some? ==> job.expected.value == EnvelopeCrc(t, job.begin, job.end)
    ensures !r.PageEnd? && r.seqNo == t.seqNo && r.uuid == t.uuid
    ensures ScanRecord(s, r, job, index).Ok? && Identifies(ScanRecord(s, r, job, index).value, t)
  {
    var k := |records|;
    EnvelopeRecord(t, job.begin, job.end, k);
    if k > 0 {
      OpsSoFar(t, job.begin, job.end, s.begin.value, ops);
      if k == |t.ops| + 1 { FooterScans(s, r, job, index, ops, t); }
    }
    TransactionScans(s, r, job, index, k, ops, t);
  }

  /** The records of an envelope by their place. */
  lemma {:induction false} EnvelopeRecord(t: Txn, begin: Pos, end: Pos, k: nat)
    requires k < |t.ops| + 2
    ensures var r := Records(t, begin, end)[k];
            && !r.PageEnd? && r.seqNo == t.seqNo && r.uuid == t.uuid
            && (k == 0 ==> r == BeginRecord(t, begin))
            && (0 < k <= |t.ops| ==> r == OperationRecord(t.seqNo, t.uuid, k - 1, t.ops[k - 1]))
            && (k == |t.ops| + 1 ==> r == FooterRecord(t, begin, end, EnvelopeCrc(t, begin, end)))
  {
    RecordBefore(t, begin, FooterRecord(t, begin, end, EnvelopeCrc(t, begin, end)), k);
  }

  lemma {:induction false} RecordBefore(t: Txn, begin: Pos, footer: Record, k: nat)
    requires k < |t.ops| + 2 && footer.TxPreparedEnd? && footer.seqNo == t.seqNo && footer.uuid == t.uuid
    ensures var r := (BodyRecords(t, begin) + [footer])[k];
            && !r.PageEnd? && r.seqNo == t.seqNo && r.uuid == t.uuid
            && (k == 0 ==> r == BeginRecord(t, begin))
            && (0 < k <= |t.ops| ==> r == OperationRecord(t.seqNo, t.uuid, k - 1, t.ops[k - 1]))
            && (k == |t.ops| + 1 ==> r == footer)
  {
    if 0 < k <= |t.ops| { assert BodyRecords(t, begin)[k] == OperationRecords(t.seqNo, t.uuid, t.ops)[k - 1]; }
  }

  lemma {:induction false} TransactionScans(s: Scan, r: Record, job: Job, index: nat, k: nat, ops: seq<Operation>, t: Txn)
    requires !r.PageEnd? && r.seqNo == t.seqNo && r.uuid == t.uuid && Identifies(s, t) && s.footer.None? && s.ops == |ops|
    requires k == 0 ==> r == BeginRecord(t, job.begin) && s.begin.None? && ops == []
    requires 0 < k <= |t.ops| ==> r == OperationRecord(t.seqNo, t.uuid, k - 1, t.ops[k - 1]) && s.begin.Some? && |ops| == k - 1
    requires k > |t.ops| ==> r.TxPreparedEnd? && FooterFits(Identified(s, r), r, job, index)
    ensures ScanRecord(s, r, job, index).Ok? && Identifies(ScanRecord(s, r, job, index).value, t)
  {
  }

  lemma {:induction false} FooterScans(s: Scan, r: Record, job: Job, index: nat, ops: seq<Operation>, t: Txn)
    requires s.begin == Some(BeginRecord(t, job.begin)) && s.footer.None? && ops == t.ops && OpsCounted(s, ops)
    requires s.crc == CrcThrough(Body(BeginRecord(t, job.begin), ops), |ops| + 1) && index + 1 == job.chunks
    requires r == FooterRecord(t, job.begin, job.end, EnvelopeCrc(t, job.begin, job.end))
    requires job.expected.Some? ==> job.expected.value == EnvelopeCrc(t, job.begin, job.end)
    ensures FooterFits(Identified(s, r), r, job, index)
  {
    assert Body(BeginRecord(t, job.begin), ops) == BodyRecords(t, job.begin);
    assert CanonicalFields(r) == CanonicalFields(FooterRecord(t, job.begin, job.end, 0));
  }

  /** The next piece of an envelope is scanned without complaint. */
  lemma {:induction false} NextPieceScans(pieces: seq<Piece>, i: nat, t: Txn, job: Job, s: Scan, ops: seq<Operation>)
    requires GeometryValid(job.g) && TxnValid(t) && t.database == job.database && i < |pieces| == job.chunks
    requires TransactionRecords(pieces) == Records(t, job.begin, job.end) && IsTransactionRecord(pieces[|pieces| - 1].content)
    requires job.expected.Some? ==> job.expected.value == EnvelopeCrc(t, job.begin, job.end)
    requires Belongs(pieces[i], t.database, Some((t.seqNo, t.uuid)), job.g) && LaidAt(pieces, job.g, i)
    requires OpsCounted(s, ops) && RecordsTracked(s, TransactionRecords(pieces[..i]), ops, job) && Remembered(s, pieces[..i], job)
    requires Identifies(s, t) && s.footer.None?
    ensures s.expectFile == pieces[i].content.FileHeaderContent?
    ensures ScanPiece(s, pieces[i], job, i).Ok? && Identifies(ScanPiece(s, pieces[i], job, i).value, t)
  {
    var p := pieces[i];
    ContentScans(pieces, i, t, job, s, ops);
    AdvanceFits(ScanContent(s, p.position, p.content, job, i).value, p, job.g);
  }

  lemma {:induction false} AdvanceFits(u: Scan, p: Piece, g: Geometry)
    requires GeometryValid(g) && EndsWell(p, g)
    ensures Advance(u, p.position, ContentLen(p.content), IsTransactionRecord(p.content), g) == Ok(u.(end := EndOf(p)))
  {
  }

  lemma {:induction false} NextPieceFollows(pieces: seq<Piece>, i: nat, s: Scan, job: Job)
    requires GeometryValid(job.g) && i < |pieces| && TileAt(pieces, job.begin, job.g, i)
    requires LaidAt(pieces, job.g, i) && (i > 0 ==> LaidAt(pieces, job.g, i - 1))
    requires s.end == (if i == 0 then job.begin else EndOf(pieces[i - 1])) && (i == 0 ==> PieceStands(pieces[0], job.g))
    ensures NextChunk(s.end, job.g) == Ok(pieces[i].position)
  {
  }

  lemma {:induction false} ContentScans(pieces: seq<Piece>, i: nat, t: Txn, job: Job, s: Scan, ops: seq<Operation>)
    requires GeometryValid(job.g) && TxnValid(t) && t.database == job.database && i < |pieces| == job.chunks
    requires TransactionRecords(pieces) == Records(t, job.begin, job.end) && IsTransactionRecord(pieces[|pieces| - 1].content)
    requires job.expected.Some? ==> job.expected.value == EnvelopeCrc(t, job.begin, job.end)
    requires Belongs(pieces[i], t.database, Some((t.seqNo, t.uuid)), job.g) && FitsAfter(pieces[..i], pieces[i])
    requires OpsCounted(s, ops) && RecordsTracked(s, TransactionRecords(pieces[..i]), ops, job) && Remembered(s, pieces[..i], job)
    requires Identifies(s, t) && s.footer.None?
    ensures var u := ScanContent(s, pieces[i].position, pieces[i].content, job, i); u.Ok? && Identifies(u.value, t)
  {
    var p := pieces[i];
    if IsTransactionRecord(p.content) {
      RecordsOfPrefix(pieces, i);
      NextRecord(pieces, i);
      RecordScans(s, p.content.r, job, i, TransactionRecords(pieces[..i]), ops, t);
    }
  }

  /** From any point of an envelope the scan runs to its end. */
  lemma {:induction false} EnvelopeScansFrom(
    tape: Tape, pieces: seq<Piece>, t: Txn, s: Scan, before: seq<Piece>, ops: seq<Operation>)
    returns (last: Scan, done: seq<Operation>)
    requires HandlesPieces(tape) && TxnValid(t) && t.database == tape.job.database && tape.job.chunks == |tape.chunks|
    requires Arranged(pieces, t, tape.job.begin, tape.job.end, tape.job.g) && |pieces| == |tape.chunks|
    requires EncodedThrough(tape, pieces) && before <= pieces
    requires tape.job.expected.Some? ==> tape.job.expected.value == EnvelopeCrc(t, tape.job.begin, tape.job.end)
    requires Tracks(s, before, ops, tape.job) && Identifies(s, t)
    ensures FoldFrom(tape.f, s, tape.chunks, |before|) == Ok(last) && Tracks(last, pieces, done, tape.job)
    decreases |pieces| - |before|
  {
    if |before| == |pieces| {
      last, done := s, ops;
      assert before == pieces;
    } else {
      var more, s', ops' := EnvelopeRound(tape, pieces, t, s, before, ops);
      last, done := EnvelopeScansFrom(tape, pieces, t, s', more, ops');
    }
  }

  lemma {:induction false} EnvelopeRound(
    tape: Tape, pieces: seq<Piece>, t: Txn, s: Scan, before: seq<Piece>, ops: seq<Operation>)
    returns (more: seq<Piece>, s': Scan, ops': seq<Operation>)
    requires HandlesPieces(tape) && TxnValid(t) && t.database == tape.job.database && tape.job.chunks == |tape.chunks|
    requires Arranged(pieces, t, tape.job.begin, tape.job.end, tape.job.g) && |pieces| == |tape.chunks|
    requires EncodedThrough(tape, pieces) && before <= pieces && |before| < |pieces|
    requires tape.job.expected.Some? ==> tape.job.expected.value == EnvelopeCrc(t, tape.job.begin, tape.job.end)
    requires Tracks(s, before, ops, tape.job) && Identifies(s, t)
    ensures more <= pieces && |more| == |before| + 1 && Tracks(s', more, ops', tape.job) && Identifies(s', t)
    ensures tape.f(s, tape.chunks[|before|], |before|) == Ok(s')
  {
    var p := pieces[|before|];
    s', ops' := RoundFits(pieces, t, tape.job, s, before, ops);
    PieceHandled(tape, s, p, |before|);
    OnePieceFurther(pieces, before);
    more := before + [p];
  }

  lemma {:induction false} OnePieceFurther(pieces: seq<Piece>, before: seq<Piece>)
    requires before <= pieces && |before| < |pieces|
    ensures before + [pieces[|before|]] <= pieces && before == pieces[..|before|]
  {
  }

  /** One round over the pieces of an envelope, without the bytes. */
  lemma {:induction false} RoundFits(pieces: seq<Piece>, t: Txn, job: Job, s: Scan, before: seq<Piece>, ops: seq<Operation>)
    returns (s': Scan, ops': seq<Operation>)
    requires GeometryValid(job.g) && TxnValid(t) && t.database == job.database && before <= pieces && |before| < |pieces| == job.chunks
    requires Arranged(pieces, t, job.begin, job.end, job.g)
    requires job.expected.Some? ==> job.expected.value == EnvelopeCrc(t, job.begin, job.end)
    requires Tracks(s, before, ops, job) && Identifies(s, t)
    ensures var p := pieces[|before|];
            && PieceStands(p, job.g) && NextChunk(s.end, job.g) == Ok(p.position)
            && s.expectFile == p.content.FileHeaderContent? && ScanPiece(s, p, job, |before|) == Ok(s')
    ensures Tracks(s', before + [pieces[|before|]], ops', job) && Identifies(s', t)
  {
    var i := |before|;
    OnePieceFurther(pieces, before);
    TrackedAt(s, before, ops, job);
    RoundScans(pieces, t, job, s, i, ops);
    s' := ScanPiece(s, pieces[i], job, i).value;
    ops' := PieceTracks(s, pieces[i], job, i, s', before, before + [pieces[i]], ops);
  }

  lemma {:induction false} RoundScans(pieces: seq<Piece>, t: Txn, job: Job, s: Scan, i: nat, ops: seq<Operation>)
    requires GeometryValid(job.g) && TxnValid(t) && t.database == job.database && i < |pieces| == job.chunks
    requires Arranged(pieces, t, job.begin, job.end, job.g)
    requires job.expected.Some? ==> job.expected.value == EnvelopeCrc(t, job.begin, job.end)
    requires s.footer.None? && s.end == (if i == 0 then job.begin else EndOf(pieces[i - 1])) && Identifies(s, t)
    requires OpsCounted(s, ops) && RecordsTracked(s, TransactionRecords(pieces[..i]), ops, job) && Remembered(s, pieces[..i], job)
    ensures var p := pieces[i];
            && PieceStands(p, job.g) && NextChunk(s.end, job.g) == Ok(p.position)
            && s.expectFile == p.content.FileHeaderContent? && ScanPiece(s, p, job, i).Ok?
            && Identifies(ScanPiece(s, p, job, i).value, t)
  {
    ArrangedAt(pieces, t, job, i);
    NextPieceFollows(pieces, i, s, job);
    NextPieceScans(pieces, i, t, job, s, ops);
  }

  lemma {:induction false} PieceHandled(tape: Tape, s: Scan, p: Piece, i: nat)
    requires HandlesPieces(tape) && PieceStands(p, tape.job.g) && NextChunk(s.end, tape.job.g) == Ok(p.position)
    requires s.expectFile == p.content.FileHeaderContent?
    ensures tape.f(s, tape.encode(p), i) == ScanPiece(s, p, tape.job, i)
  {
    assert HandlesPiece(tape, s, p, i);
  }

  lemma {:induction false} ArrangedAt(pieces: seq<Piece>, t: Txn, job: Job, i: nat)
    requires Arranged(pieces, t, job.begin, job.end, job.g) && i < |pieces|
    ensures GeometryValid(job.g) && LaidAt(pieces, job.g, i) && TileAt(pieces, job.begin, job.g, i)
    ensures i > 0 ==> LaidAt(pieces, job.g, i - 1)
    ensures TransactionRecords(pieces) == Records(t, job.begin, job.end)
    ensures Belongs(pieces[i], t.database, Some((t.seqNo, t.uuid)), job.g) && PieceStands(pieces[0], job.g)
    ensures IsTransactionRecord(pieces[|pieces| - 1].content)
  {
    if i > 0 { assert LaidAt(pieces, job.g, i - 1); }
    assert Belongs(pieces[0], t.database, Some((t.seqNo, t.uuid)), job.g);
  }

  lemma {:induction false} TrackedAt(s: Scan, pieces: seq<Piece>, ops: seq<Operation>, job: Job)
    requires Tracks(s, pieces, ops, job) && |pieces| < job.chunks
    ensures s.footer.None? && s.end == (if pieces == [] then job.begin else EndOf(pieces[|pieces| - 1]))
    ensures OpsCounted(s, ops) && RecordsTracked(s, TransactionRecords(pieces), ops, job) && Remembered(s, pieces, job)
  {
  }

  lemma {:induction false} EnvelopeIsAccepted(chunks: seq<Chunk>, pieces: seq<Piece>, t: Txn, job: Job)
    requires GeometryValid(job.g) && TxnValid(t) && t.database == job.database && job.chunks == |chunks| && PosLess(job.begin, job.end)
    requires IsEnvelopeOf(chunks, pieces, t, job.begin, job.end, job.g)
    requires job.expected.Some? ==> job.expected.value == EnvelopeCrc(t, job.begin, job.end)
    ensures ScanEnvelope(chunks, job) == Ok(ScannedOf(t, job.begin, job.end))
  {
    var last, ops := EnvelopeScans(chunks, pieces, t, job);
    LastPieceEnds(chunks, pieces, t, job);
    EndsWithItsTransaction(last, pieces, ops, t, job);
    ScanConcludes(chunks, job, last, ScannedOf(t, job.begin, job.end));
  }

  lemma {:induction false} LastPieceEnds(chunks: seq<Chunk>, pieces: seq<Piece>, t: Txn, job: Job)
    requires IsEnvelopeOf(chunks, pieces, t, job.begin, job.end, job.g)
    ensures pieces != [] && chunks != [] && EndOf(pieces[|pieces| - 1]) == job.end
    ensures TransactionRecords(pieces) == Records(t, job.begin, job.end)
  {
  }

  lemma {:induction false} ScanConcludes(chunks: seq<Chunk>, job: Job, s: Scan, report: Scanned)
    requires GeometryValid(job.g) && chunks != [] && UuidValid(job.database) && PosLess(job.begin, job.end) && job.chunks == |chunks|
    requires ScanFrom(InitialScan(job.begin), chunks, job, 0) == Ok(s) && Conclude(s, job) == Ok(report)
    ensures ScanEnvelope(chunks, job) == Ok(report)
  {
  }

  lemma {:induction false} EnvelopeScans(chunks: seq<Chunk>, pieces: seq<Piece>, t: Txn, job: Job)
    returns (last: Scan, ops: seq<Operation>)
    requires GeometryValid(job.g) && TxnValid(t) && t.database == job.database && job.chunks == |chunks|
    requires IsEnvelopeOf(chunks, pieces, t, job.begin, job.end, job.g)
    requires job.expected.Some? ==> job.expected.value == EnvelopeCrc(t, job.begin, job.end)
    ensures ScanFrom(InitialScan(job.begin), chunks, job, 0) == Ok(last) && Tracks(last, pieces, ops, job)
  {
    ChunksAreEncoded(chunks, pieces, job);
    ScannerHandlesPieces(chunks, job);
    FoldIsScan(InitialScan(job.begin), chunks, job, 0);
    last, ops := TapeScans(ScannerTape(chunks, job), pieces, t);
  }

  lemma {:induction false} TapeScans(tape: Tape, pieces: seq<Piece>, t: Txn) returns (last: Scan, ops: seq<Operation>)
    requires HandlesPieces(tape) && TxnValid(t) && t.database == tape.job.database && tape.job.chunks == |tape.chunks|
    requires Arranged(pieces, t, tape.job.begin, tape.job.end, tape.job.g) && |pieces| == |tape.chunks| && EncodedThrough(tape, pieces)
    requires tape.job.expected.Some? ==> tape.job.expected.value == EnvelopeCrc(t, tape.job.begin, tape.job.end)
    ensures FoldFrom(tape.f, InitialScan(tape.job.begin), tape.chunks, 0) == Ok(last) && Tracks(last, pieces, ops, tape.job)
  {
    InitialTracks(tape.job);
    last, ops := EnvelopeScansFrom(tape, pieces, t, InitialScan(tape.job.begin), [], []);
  }

  lemma {:induction false} ChunksAreEncoded(chunks: seq<Chunk>, pieces: seq<Piece>, job: Job)
    requires GeometryValid(job.g) && |chunks| == |pieces| && forall i :: 0 <= i < |chunks| ==> chunks[i] == ChunkOf(pieces[i])
    ensures EncodedThrough(ScannerTape(chunks, job), pieces)
  {
  }

  lemma {:induction false} EndsWithItsTransaction(s: Scan, pieces: seq<Piece>, ops: seq<Operation>, t: Txn, job: Job)
    requires Tracks(s, pieces, ops, job) && TransactionRecords(pieces) == Records(t, job.begin, job.end) && UuidValid(job.database)
    requires pieces != [] && EndOf(pieces[|pieces| - 1]) == job.end && t.database == job.database
    ensures Conclude(s, job) == Ok(ScannedOf(t, job.begin, job.end))
  {
    EnvelopeRecord(t, job.begin, job.end, |t.ops| + 1);
    FooterWasSeen(s, TransactionRecords(pieces), ops, job);
    var found := FinishedIsTransaction(s, pieces, ops, job);
    SameRecordsSameScan(found, t, job.begin, job.end);
  }

  lemma {:induction false} FooterWasSeen(s: Scan, records: seq<Record>, ops: seq<Operation>, job: Job)
    requires RecordsTracked(s, records, ops, job) && records != [] && records[|records| - 1].TxPreparedEnd?
    ensures s.begin.Some? && s.footer.Some?
  {
    if s.begin.Some? { BodyHasNoFooter(s.begin.value, ops); }
  }

  lemma {:induction false} BodyHasNoFooter(b: Record, ops: seq<Operation>)
    ensures b.TxBegin? ==> !Body(b, ops)[|ops|].TxPreparedEnd?
  {
  }

  lemma {:induction false} SameRecordsSameScan(a: Txn, b: Txn, begin: Pos, end: Pos)
    requires Records(a, begin, end) == Records(b, begin, end)
    ensures ScannedOf(a, begin, end) == ScannedOf(b, begin, end)
  {
    var n := |a.ops| + 1;
    assert Records(a, begin, end)[n] == FooterRecord(a, begin, end, EnvelopeCrc(a, begin, end));
    assert Records(b, begin, end)[n] == FooterRecord(b, begin, end, EnvelopeCrc(b, begin, end));
  }

  /** What the scanner accepts, said without the scanner. */
  ghost predicate IsEnvelope(chunks: seq<Chunk>, t: Txn, job: Job) {
    && TxnValid(t) && t.database == job.database && PosLess(job.begin, job.end)
    && (exists pieces :: IsEnvelopeOf(chunks, pieces, t, job.begin, job.end, job.g))
    && (job.expected.Some? ==> job.expected.value == EnvelopeCrc(t, job.begin, job.end))
  }

  /**
   * The scanner accepts exactly the envelopes: chunks are accepted with a report if and only if they
   * are the envelope of a valid transaction that has this report.
   */
  lemma {:induction false} ScansExactlyEnvelopes(chunks: seq<Chunk>, job: Job, report: Scanned)
    requires GeometryValid(job.g) && job.chunks == |chunks|
    ensures ScanEnvelope(chunks, job) == Ok(report)
       <==> exists t :: IsEnvelope(chunks, t, job) && ScannedOf(t, job.begin, job.end) == report
  {
    if ScanEnvelope(chunks, job) == Ok(report) {
      var t, pieces := AcceptedScanIsEnvelope(chunks, job);
      assert IsEnvelope(chunks, t, job);
    }
    if exists t :: IsEnvelope(chunks, t, job) && ScannedOf(t, job.begin, job.end) == report {
      var t :| IsEnvelope(chunks, t, job) && ScannedOf(t, job.begin, job.end) == report;
      var pieces :| IsEnvelopeOf(chunks, pieces, t, job.begin, job.end, job.g);
      EnvelopeIsAccepted(chunks, pieces, t, job);
    }
  }
}
