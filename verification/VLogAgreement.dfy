/**
 * Writer and scanner agree: every envelope that can be prepared, from any reachable position and
 * across any number of pages and files, is accepted with the same identity, bounds, counts and CRC.
 */
module VLogAgreement {
  import opened Basics
  import opened Index
  import opened CommitProtocol
  import opened Topology
  import opened History
  import opened ByteCodec
  import opened VLogCodec
  import opened VLogRoundTrip
  import opened VLogLayout
  import opened VLogScanner
  import opened VLogEnvelope

  /** What the scan makes of the chunks from index `k` on. */
  function Rest(tape: Tape, s: Scan, k: nat): Result<Scan>
    requires k <= |tape.chunks|
  {
    FoldFrom(tape.f, s, tape.chunks, k)
  }

  // ---------------------------------------------------------------- scanning preludes

  /** From index `k` on, the chunks are the encodings of `pieces`. */
  predicate PiecesAt(tape: Tape, k: nat, pieces: seq<Piece>) {
    k + |pieces| <= |tape.chunks| && forall i :: 0 <= i < |pieces| ==> tape.chunks[k + i] == tape.encode(pieces[i])
  }

  lemma {:induction false} PieceScans(s: Scan, tape: Tape, k: nat, p: Piece, t: Scan)
    requires HandlesPieces(tape) && PiecesAt(tape, k, [p]) && PieceStands(p, tape.job.g)
    requires NextChunk(s.end, tape.job.g) == Ok(p.position) && s.expectFile == p.content.FileHeaderContent?
    requires ScanPiece(s, p, tape.job, k) == Ok(t)
    ensures k < |tape.chunks| && Rest(tape, s, k) == Rest(tape, t, k + 1)
  {
    assert tape.chunks[k + 0] == tape.encode([p][0]);
    assert HandlesPiece(tape, s, p, k);
  }

  lemma {:induction false} BoundaryPageNumber(offset: nat, g: Geometry)
    requires GeometryValid(g) && offset % g.pageSize == 0 && offset < g.maxFileSize
    ensures offset / g.pageSize <= 65_535 && (offset / g.pageSize == 0 <==> offset == 0)
    ensures offset + g.pageSize <= g.maxFileSize
  {
    var m := g.pageSize;
    assert offset == m * (offset / m) && g.maxFileSize == m * (g.maxFileSize / m);
    TimesGrows(g.maxFileSize / m, offset / m, m);
    TimesGrows(0, offset / m, m);
    MultiplesAreApart(offset, g.maxFileSize, m);
    if offset / m == g.maxFileSize / m { assert false; }
  }

  lemma {:induction false} PageHeaderScans(s: Scan, q: Pos, tape: Tape, k: nat)
    requires HandlesPieces(tape)
    requires q.file <= tape.job.g.maxFileId && q.offset < tape.job.g.maxFileSize && q.offset % tape.job.g.pageSize == 0
    requires NextChunk(s.end, tape.job.g) == Ok(q) && !s.expectFile
    requires PiecesAt(tape, k, [Piece(q, PageHeaderContent(q.file, q.offset / tape.job.g.pageSize))])
    ensures k < |tape.chunks| && Rest(tape, s, k)
         == Rest(tape, s.(end := Pos(q.file, q.offset + PAGE_HEADER_LEN), expectFile := q.offset == 0), k + 1)
  {
    BoundaryPageNumber(q.offset, tape.job.g);
    PieceScans(s, tape, k, Piece(q, PageHeaderContent(q.file, q.offset / tape.job.g.pageSize)),
               s.(end := Pos(q.file, q.offset + PAGE_HEADER_LEN), expectFile := q.offset == 0));
  }

  lemma {:induction false} FileHeaderScans(s: Scan, file: nat, tape: Tape, k: nat)
    requires HandlesPieces(tape) && file <= tape.job.g.maxFileId && UuidValid(tape.job.database)
    requires s.end == Pos(file, PAGE_HEADER_LEN) && s.expectFile
    requires PiecesAt(tape, k, [Piece(s.end, FileHeaderContent(tape.job.database, file))])
    ensures k < |tape.chunks| && Rest(tape, s, k)
         == Rest(tape, s.(end := Pos(file, FIRST_AREA_START), expectFile := false), k + 1)
  {
    DivisionIsUnique(PAGE_HEADER_LEN, tape.job.g.pageSize, 0, PAGE_HEADER_LEN);
    DivisionIsUnique(0, tape.job.g.pageSize, 0, 0);
    MultiplesAreApart(0, tape.job.g.maxFileSize, tape.job.g.pageSize);
    PieceScans(s, tape, k, Piece(s.end, FileHeaderContent(tape.job.database, file)),
               s.(end := Pos(file, FIRST_AREA_START), expectFile := false));
  }

  lemma {:induction false} FirstPageScans(
    s: Scan, q: Pos, start: Pos, preludes: seq<Prelude>, t: Txn, tape: Tape, k: nat)
    requires HandlesPieces(tape) && q.file <= tape.job.g.maxFileId && q.offset == 0
    requires NextChunk(s.end, tape.job.g) == Ok(q) && !s.expectFile && UuidValid(tape.job.database) && t.database == tape.job.database
    requires preludes == [PageHeaderAt(q, 0), FileHeaderAt(Pos(q.file, PAGE_HEADER_LEN))]
    requires start == Pos(q.file, FIRST_AREA_START) && PiecesAt(tape, k, PreludePieces(preludes, t))
    ensures k + |preludes| <= |tape.chunks|
    ensures Rest(tape, s, k) == Rest(tape, s.(end := start), k + |preludes|)
  {
    var pieces := PreludePieces(preludes, t);
    DivisionIsUnique(0, tape.job.g.pageSize, 0, 0);
    assert tape.chunks[k + 0] == tape.encode(pieces[0]) && tape.chunks[k + 1] == tape.encode(pieces[1]);
    PageHeaderScans(s, q, tape, k);
    var next := s.(end := Pos(q.file, PAGE_HEADER_LEN), expectFile := true);
    FileHeaderScans(next, q.file, tape, k + 1);
    assert next.(end := start, expectFile := false) == s.(end := start);
  }

  lemma {:induction false} OtherPageScans(
    s: Scan, q: Pos, start: Pos, preludes: seq<Prelude>, t: Txn, tape: Tape, k: nat)
    requires HandlesPieces(tape)
    requires q.file <= tape.job.g.maxFileId && 0 < q.offset < tape.job.g.maxFileSize && q.offset % tape.job.g.pageSize == 0
    requires NextChunk(s.end, tape.job.g) == Ok(q) && !s.expectFile
    requires preludes == [PageHeaderAt(q, q.offset / tape.job.g.pageSize)]
    requires start == Pos(q.file, q.offset + OTHER_AREA_START) && PiecesAt(tape, k, PreludePieces(preludes, t))
    ensures k + |preludes| <= |tape.chunks|
    ensures Rest(tape, s, k) == Rest(tape, s.(end := start), k + |preludes|)
  {
    var pieces := PreludePieces(preludes, t);
    assert tape.chunks[k + 0] == tape.encode(pieces[0]);
    PageHeaderScans(s, q, tape, k);
  }

  /** Crossing a page boundary scans its one or two headers. */
  lemma {:induction false} BoundaryScans(
    s: Scan, b: Pos, start: Pos, preludes: seq<Prelude>, t: Txn, tape: Tape, k: nat)
    requires HandlesPieces(tape)
    requires Entered(b, start, preludes, tape.job.g) && s.end == b && !s.expectFile
    requires UuidValid(tape.job.database) && t.database == tape.job.database
    requires PiecesAt(tape, k, PreludePieces(preludes, t))
    ensures k + |preludes| <= |tape.chunks|
    ensures Rest(tape, s, k) == Rest(tape, s.(end := start), k + |preludes|)
  {
    var q := NextChunkStart(b, tape.job.g);
    EnteredPosition(b, start, preludes, tape.job.g);
    if q.offset == 0 {
      FirstPageScans(s, q, start, preludes, t, tape, k);
    } else {
      OtherPageScans(s, q, start, preludes, t, tape, k);
    }
  }

  lemma {:induction false} EnteredPosition(b: Pos, start: Pos, preludes: seq<Prelude>, g: Geometry)
    requires GeometryValid(g) && Entered(b, start, preludes, g)
    ensures var q := NextChunkStart(b, g);
            && NextChunk(b, g) == Ok(q) && q.file <= g.maxFileId && q.offset < g.maxFileSize && q.offset % g.pageSize == 0
            && (if q.offset == 0
                then preludes == [PageHeaderAt(q, 0), FileHeaderAt(Pos(q.file, PAGE_HEADER_LEN))]
                     && start == Pos(q.file, FIRST_AREA_START)
                else preludes == [PageHeaderAt(q, q.offset / g.pageSize)]
                     && start == Pos(q.file, q.offset + OTHER_AREA_START))
  {
    DivisionIsUnique(0, g.pageSize, 0, 0);
  }

  /** Whether the scanner may see a filler or another record of this transaction next. */
  predicate Ready(s: Scan, t: Txn) {
    && !s.expectFile && !s.afterFiller && s.footer.None?
    && (s.identity.None? || s.identity.value == (t.seqNo, t.uuid))
  }

  lemma {:induction false} FillerScans(s: Scan, t: Txn, tape: Tape, k: nat)
    requires HandlesPieces(tape)
    requires TxnValid(t) && Reachable(s.end, tape.job.g) && s.end.offset % tape.job.g.pageSize != 0
    requires Ready(s, t)
    requires PiecesAt(tape, k, [Piece(s.end, RecordContent(PageEnd(t.seqNo, t.uuid, Remaining(s.end.offset, tape.job.g))))])
    ensures k < |tape.chunks| && Rest(tape, s, k)
         == Rest(tape, s.(identity := Some((t.seqNo, t.uuid)), afterFiller := true,
                        end := Pos(s.end.file, PageEndOf(s.end.offset, tape.job.g))), k + 1)
  {
    var len := Remaining(s.end.offset, tape.job.g);
    InsidePage(s.end, tape.job.g);
    PageEndForm(s.end.offset, tape.job.g);
    RecordAreaIsNotHeader(s.end, tape.job.g);
    PieceScans(s, tape, k, Piece(s.end, RecordContent(PageEnd(t.seqNo, t.uuid, len))),
               s.(identity := Some((t.seqNo, t.uuid)), afterFiller := true,
                  end := Pos(s.end.file, PageEndOf(s.end.offset, tape.job.g))));
  }

  lemma {:induction false} RecordAreaIsNotHeader(p: Pos, g: Geometry)
    requires GeometryValid(g) && RecordStartValid(p, g)
    ensures p.offset % g.pageSize != 0 && p.offset != PAGE_HEADER_LEN
  {
    DivisionIsUnique(PAGE_HEADER_LEN, g.pageSize, 0, PAGE_HEADER_LEN);
  }

  /** The state after the preludes of a placement: at the record, possibly just after a filler. */
  function AtRecord(s: Scan, placement: Placement, t: Txn): Scan {
    if placement.preludes != [] && placement.preludes[0].PageEndAt?
    then s.(identity := Some((t.seqNo, t.uuid)), afterFiller := true, end := placement.start)
    else s.(end := placement.start)
  }

  lemma {:induction false} PreludesScan(s: Scan, placement: Placement, t: Txn, tape: Tape, k: nat)
    requires HandlesPieces(tape)
    requires TxnValid(t) && t.database == tape.job.database && Reachable(s.end, tape.job.g) && Ready(s, t)
    requires PlacementShape(s.end, placement, tape.job.g) && PiecesAt(tape, k, PreludePieces(placement.preludes, t))
    ensures k + |placement.preludes| <= |tape.chunks|
    ensures Rest(tape, s, k) == Rest(tape, AtRecord(s, placement, t), k + |placement.preludes|)
  {
    if s.end.offset % tape.job.g.pageSize == 0 {
      BoundaryOnlyScan(s, placement, t, tape, k);
    } else if placement.preludes == [] {
      NoPreludes(s, placement, t);
    } else {
      FillerAndBoundaryScan(s, placement, t, tape, k);
    }
  }

  lemma {:induction false} NoPreludes(s: Scan, placement: Placement, t: Txn)
    requires placement.preludes == [] && placement.start == s.end
    ensures AtRecord(s, placement, t) == s
  {
  }

  lemma {:induction false} BoundaryOnlyScan(s: Scan, placement: Placement, t: Txn, tape: Tape, k: nat)
    requires HandlesPieces(tape)
    requires TxnValid(t) && t.database == tape.job.database && Ready(s, t)
    requires Entered(s.end, placement.start, placement.preludes, tape.job.g)
    requires PiecesAt(tape, k, PreludePieces(placement.preludes, t))
    ensures k + |placement.preludes| <= |tape.chunks|
    ensures Rest(tape, s, k) == Rest(tape, AtRecord(s, placement, t), k + |placement.preludes|)
  {
    EnteredWithoutFiller(s, placement, t, tape.job.g);
    BoundaryScans(s, s.end, placement.start, placement.preludes, t, tape, k);
  }

  lemma {:induction false} EnteredWithoutFiller(s: Scan, placement: Placement, t: Txn, g: Geometry)
    requires GeometryValid(g) && Entered(s.end, placement.start, placement.preludes, g)
    ensures AtRecord(s, placement, t) == s.(end := placement.start)
  {
    EnteredPosition(s.end, placement.start, placement.preludes, g);
  }

  lemma {:induction false} EnteredAfterFiller(s: Scan, b: Pos, placement: Placement, t: Txn)
    requires placement.preludes != [] && placement.preludes[0].PageEndAt?
    ensures AtRecord(s, placement, t)
         == s.(identity := Some((t.seqNo, t.uuid)), afterFiller := true, end := b).(end := placement.start)
  {
  }

  lemma {:induction false} FillerAndBoundaryScan(s: Scan, placement: Placement, t: Txn, tape: Tape, k: nat)
    requires HandlesPieces(tape)
    requires TxnValid(t) && t.database == tape.job.database && Reachable(s.end, tape.job.g) && Ready(s, t)
    requires s.end.offset % tape.job.g.pageSize != 0 && placement.preludes != []
    requires placement.preludes[0] == PageEndAt(s.end, Remaining(s.end.offset, tape.job.g))
    requires Entered(Pos(s.end.file, PageEndOf(s.end.offset, tape.job.g)), placement.start, placement.preludes[1..], tape.job.g)
    requires PiecesAt(tape, k, PreludePieces(placement.preludes, t))
    ensures k + |placement.preludes| <= |tape.chunks|
    ensures Rest(tape, s, k) == Rest(tape, AtRecord(s, placement, t), k + |placement.preludes|)
  {
    var preludes := placement.preludes;
    var pieces := PreludePieces(preludes, t);
    assert tape.chunks[k + 0] == tape.encode(pieces[0]);
    FillerScans(s, t, tape, k);
    var b := Pos(s.end.file, PageEndOf(s.end.offset, tape.job.g));
    var next := s.(identity := Some((t.seqNo, t.uuid)), afterFiller := true, end := b);
    RestOfPieces(tape, k, preludes, t);
    EnteredAfterFiller(s, b, placement, t);
    BoundaryScans(next, b, placement.start, preludes[1..], t, tape, k + 1);
  }

  lemma {:induction false} RestOfPieces(tape: Tape, k: nat, preludes: seq<Prelude>, t: Txn)
    requires preludes != [] && PiecesAt(tape, k, PreludePieces(preludes, t))
    ensures PiecesAt(tape, k + 1, PreludePieces(preludes[1..], t))
  {
    var all, rest := PreludePieces(preludes, t), PreludePieces(preludes[1..], t);
    forall i | 0 <= i < |rest| ensures tape.chunks[k + 1 + i] == tape.encode(rest[i]) {
      assert tape.chunks[k + (i + 1)] == tape.encode(all[i + 1]);
    }
  }

  // ---------------------------------------------------------------- scanning one record

  lemma {:induction false} RecordScans(s: Scan, r: Record, placement: Placement, after: Pos, tape: Tape, k: nat, u: Scan)
    requires HandlesPieces(tape)
    requires PlacedWell(placement, after, tape.job.g) && RecordValid(r) && !r.PageEnd?
    requires RecordLen(r) == placement.len && StandsAt(r, placement.start, tape.job.g)
    requires s.end == placement.start && !s.expectFile
    requires PiecesAt(tape, k, [Piece(placement.start, RecordContent(r))])
    requires ScanRecord(s, r, tape.job, k) == Ok(u)
    ensures k < |tape.chunks| && Rest(tape, s, k) == Rest(tape, u.(end := after), k + 1)
  {
    RecordAreaIsNotHeader(placement.start, tape.job.g);
    PieceScans(s, tape, k, Piece(placement.start, RecordContent(r)), u.(end := after));
  }

  /** A filler before a record leaves no trace once the record is scanned. */
  lemma {:induction false} FillerIsForgotten(s: Scan, placement: Placement, t: Txn, r: Record, job: Job, k: nat)
    requires Ready(s, t) && r.seqNo == t.seqNo && r.uuid == t.uuid && !r.PageEnd?
    ensures ScanRecord(AtRecord(s, placement, t), r, job, k) == ScanRecord(s.(end := placement.start), r, job, k)
  {
    assert Identified(AtRecord(s, placement, t), r) == Identified(s.(end := placement.start), r);
  }

  // ---------------------------------------------------------------- the whole envelope

  /** The state after the begin record and `m` operations of the transaction. */
  function AfterOperations(t: Txn, begin: Pos, m: nat, at: Pos): Scan
    requires m <= |t.ops|
  {
    Scan(at, Some((t.seqNo, t.uuid)), Some(BeginRecord(t, begin)), None, CrcThrough(BodyRecords(t, begin), m + 1),
         m, PutCount(t.ops[..m]), DeleteCount(t.ops[..m]), KeySet(t.ops[..m]), false, false)
  }

  lemma {:induction false} BeginScans(t: Txn, begin: Pos, at: Pos, job: Job, k: nat)
    requires job.begin == begin
    ensures ScanRecord(InitialScan(begin).(end := at), BeginRecord(t, begin), job, k) == Ok(AfterOperations(t, begin, 0, at))
  {
    assert t.ops[..0] == [];
    var body := BodyRecords(t, begin);
    assert body[0] == BeginRecord(t, begin);
    assert CrcThrough(body, 1) == UpdateCrc(CrcThrough(body, 0), body[0]);
  }

  lemma {:induction false} TallyStep(ops: seq<Operation>, i: nat)
    requires i < |ops|
    ensures PutCount(ops[..i + 1]) == PutCount(ops[..i]) + if ops[i].Put? then 1 else 0
    ensures DeleteCount(ops[..i + 1]) == DeleteCount(ops[..i]) + if ops[i].Delete? then 1 else 0
    ensures KeySet(ops[..i + 1]) == KeySet(ops[..i]) + {ops[i].key}
  {
    assert ops[..i + 1][..i] == ops[..i];
  }

  lemma {:induction false} BodyCrcStep(t: Txn, begin: Pos, i: nat)
    requires i < |t.ops|
    ensures CrcThrough(BodyRecords(t, begin), i + 2)
         == UpdateCrc(CrcThrough(BodyRecords(t, begin), i + 1), OperationRecord(t.seqNo, t.uuid, i, t.ops[i]))
  {
    assert BodyRecords(t, begin)[i + 1] == OperationRecord(t.seqNo, t.uuid, i, t.ops[i]);
  }

  lemma {:induction false} AfterOneMore(t: Txn, begin: Pos, i: nat, at: Pos)
    requires i < |t.ops|
    ensures var s, next := AfterOperations(t, begin, i, at), AfterOperations(t, begin, i + 1, at);
            next == s.(crc := next.crc, keys := s.keys + {t.ops[i].key}, ops := s.ops + 1,
                       kvs := s.kvs + (if t.ops[i].Put? then 1 else 0),
                       deletes := s.deletes + (if t.ops[i].Delete? then 1 else 0))
  {
    TallyStep(t.ops, i);
  }

  lemma {:induction false} OperationScans(t: Txn, begin: Pos, i: nat, at: Pos, job: Job, k: nat)
    requires i < |t.ops|
    ensures ScanRecord(AfterOperations(t, begin, i, at), OperationRecord(t.seqNo, t.uuid, i, t.ops[i]), job, k)
         == Ok(AfterOperations(t, begin, i + 1, at))
  {
    AfterOneMore(t, begin, i, at);
    BodyCrcStep(t, begin, i);
    OperationLeads(AfterOperations(t, begin, i, at), OperationRecord(t.seqNo, t.uuid, i, t.ops[i]), job, k,
                   AfterOperations(t, begin, i + 1, at));
  }

  lemma {:induction false} OperationLeads(s: Scan, r: Record, job: Job, k: nat, next: Scan)
    requires (r.KvRecord? || r.DeleteRecord?) && s.begin.Some? && s.footer.None? && r.opIndex == s.ops && !s.afterFiller
    requires s.identity == Some((r.seqNo, r.uuid)) && next.crc == UpdateCrc(s.crc, r)
    requires next == s.(crc := next.crc, keys := s.keys + {r.key}, ops := s.ops + 1,
                        kvs := s.kvs + (if r.KvRecord? then 1 else 0), deletes := s.deletes + (if r.DeleteRecord? then 1 else 0))
    ensures ScanRecord(s, r, job, k) == Ok(next)
  {
    assert Identified(s, r) == s;
    if r.KvRecord? { KvTransaction(s, r, job, k); } else { DeleteTransaction(s, r, job, k); }
  }

  lemma {:induction false} KvTransaction(s: Scan, r: Record, job: Job, k: nat)
    requires r.KvRecord? && s.begin.Some? && s.footer.None? && r.opIndex == s.ops
    requires s.identity == Some((r.seqNo, r.uuid)) && Identified(s, r) == s
    ensures ScanRecord(s, r, job, k)
         == Ok(s.(crc := UpdateCrc(s.crc, r), keys := s.keys + {r.key}, ops := s.ops + 1, kvs := s.kvs + 1))
  {
  }

  lemma {:induction false} DeleteTransaction(s: Scan, r: Record, job: Job, k: nat)
    requires r.DeleteRecord? && s.begin.Some? && s.footer.None? && r.opIndex == s.ops
    requires s.identity == Some((r.seqNo, r.uuid)) && Identified(s, r) == s
    ensures ScanRecord(s, r, job, k)
         == Ok(s.(crc := UpdateCrc(s.crc, r), keys := s.keys + {r.key}, ops := s.ops + 1, deletes := s.deletes + 1))
  {
  }

  lemma {:induction false} FooterScans(t: Txn, begin: Pos, end: Pos, at: Pos, job: Job, k: nat)
    requires job.begin == begin && job.end == end && k + 1 == job.chunks
    requires job.expected.Some? ==> job.expected.value == EnvelopeCrc(t, begin, end)
    ensures var footer := FooterRecord(t, begin, end, EnvelopeCrc(t, begin, end));
            ScanRecord(AfterOperations(t, begin, |t.ops|, at), footer, job, k)
            == Ok(AfterOperations(t, begin, |t.ops|, at).(footer := Some(footer)))
  {
    var n := |t.ops|;
    assert t.ops[..n] == t.ops;
    var footer := FooterRecord(t, begin, end, EnvelopeCrc(t, begin, end));
    var s := AfterOperations(t, begin, n, at);
    CrcIgnoresFooterCrc(s.crc, t, begin, end, footer.crc);
    assert Identified(s, footer) == s;
    assert FooterFits(s, footer, job, k);
  }

  lemma {:induction false} CrcIgnoresFooterCrc(crc: Word, t: Txn, begin: Pos, end: Pos, a: Word)
    ensures UpdateCrc(crc, FooterRecord(t, begin, end, a)) == UpdateCrc(crc, FooterRecord(t, begin, end, 0))
  {
    assert CanonicalFields(FooterRecord(t, begin, end, a)) == CanonicalFields(FooterRecord(t, begin, end, 0));
  }

  // ---------------------------------------------------------------- plans of whole envelopes

  /** A page has room for the largest record after its headers and before a filler. */
  predicate RoomForLargest(g: Geometry) {
    GeometryValid(g) && g.pageSize >= 60_055 + FIRST_AREA_START + PAGE_END_MIN_LEN
  }

  lemma {:induction false} ProductionHasRoom()
    ensures RoomForLargest(PRODUCTION)
  {
  }

  lemma {:induction false} LengthsPlaceable(t: Txn, i: nat, g: Geometry)
    requires TxnValid(t) && RoomForLargest(g) && i < |t.ops| + 2
    ensures Placeable(Lengths(t)[i], g)
  {
    if 0 < i <= |t.ops| {
      assert Lengths(t)[i] == OperationLength(t.ops[i - 1]);
      assert OperationValid(t.ops[i - 1]);
    }
  }

  /** The plan of a whole envelope contains the plans of its beginnings. */
  lemma {:induction false} PlanPrefix(lengths: seq<nat>, n: nat, total: nat, p: Pos, g: Geometry)
    requires GeometryValid(g) && n <= total <= |lengths| && PlanAll(lengths, total, p, g).Ok?
    ensures PlanAll(lengths, n, p, g).Ok?
    ensures PlanAll(lengths, n, p, g).value.0 == PlanAll(lengths, total, p, g).value.0[..n]
    decreases total
  {
    if n < total {
      PlanPrefix(lengths, n, total - 1, p, g);
      var all, init := PlanAll(lengths, total, p, g).value.0, PlanAll(lengths, total - 1, p, g).value.0;
      assert all[..n] == init[..n];
    }
  }

  /** One planned record: from where, placed how, to where. */
  ghost predicate WalkStep(at: Pos, placement: Placement, after: Pos, len: nat, g: Geometry)
    requires GeometryValid(g)
  {
    && Reachable(at, g) && PlacementShape(at, placement, g) && PlacedWell(placement, after, g)
    && placement.len == len && PosLeq(at, placement.start) && PosLess(at, after)
  }

  /** Position and shape of record `n` in the plan of an envelope. */
  ghost predicate PlannedAt(t: Txn, begin: Pos, g: Geometry, n: nat, placement: Placement, at: Pos, after: Pos)
    requires GeometryValid(g) && n < |t.ops| + 2
  {
    && PlanAll(Lengths(t), n, begin, g).Ok? && PlanAll(Lengths(t), n, begin, g).value.1 == at
    && PlanAll(Lengths(t), n + 1, begin, g).Ok? && PlanAll(Lengths(t), n + 1, begin, g).value.1 == after
    && WalkStep(at, placement, after, Lengths(t)[n], g) && PosLeq(begin, at)
  }

  lemma {:induction false} PositionsReachable(t: Txn, begin: Pos, g: Geometry, n: nat)
    requires TxnValid(t) && RoomForLargest(g) && Reachable(begin, g) && n <= |t.ops| + 2
    requires PlanAll(Lengths(t), n, begin, g).Ok?
    ensures Reachable(PlanAll(Lengths(t), n, begin, g).value.1, g)
    ensures PosLeq(begin, PlanAll(Lengths(t), n, begin, g).value.1)
  {
    if n > 0 {
      PositionsReachable(t, begin, g, n - 1);
      var at := PlanAll(Lengths(t), n - 1, begin, g).value.1;
      LengthsPlaceable(t, n - 1, g);
      PlacementHasShape(at, Lengths(t)[n - 1], g);
      PlanAdvances(at, Lengths(t)[n - 1], g);
      PosLeqTransitive(begin, at, PlanAll(Lengths(t), n, begin, g).value.1);
    }
  }

  lemma {:induction false} PlannedRecord(t: Txn, begin: Pos, g: Geometry, n: nat) returns (at: Pos, after: Pos)
    requires TxnValid(t) && RoomForLargest(g) && Reachable(begin, g) && n < |t.ops| + 2
    requires PlanAll(Lengths(t), |t.ops| + 2, begin, g).Ok?
    ensures PlannedAt(t, begin, g, n, PlanAll(Lengths(t), |t.ops| + 2, begin, g).value.0[n], at, after)
  {
    PlanPrefix(Lengths(t), n, |t.ops| + 2, begin, g);
    PlanPrefix(Lengths(t), n + 1, |t.ops| + 2, begin, g);
    PositionsReachable(t, begin, g, n);
    at := PlanAll(Lengths(t), n, begin, g).value.1;
    after := PlanAll(Lengths(t), n + 1, begin, g).value.1;
    LengthsPlaceable(t, n, g);
    PlacementHasShape(at, Lengths(t)[n], g);
    PlanAdvances(at, Lengths(t)[n], g);
    var all := PlanAll(Lengths(t), |t.ops| + 2, begin, g).value.0;
    assert all[n] == all[..n + 1][n];
  }

  // ---------------------------------------------------------------- scanning a planned record

  lemma {:induction false} PlacedRecordScans(
    s: Scan, r: Record, u: Scan, placement: Placement, after: Pos, t: Txn, tape: Tape, k: nat)
    requires HandlesPieces(tape) && TxnValid(t) && t.database == tape.job.database
    requires Reachable(s.end, tape.job.g) && Ready(s, t) && PlacementShape(s.end, placement, tape.job.g)
    requires PlacedWell(placement, after, tape.job.g) && RecordLen(r) == placement.len
    requires RecordValid(r) && !r.PageEnd? && r.seqNo == t.seqNo && r.uuid == t.uuid && StandsAt(r, placement.start, tape.job.g)
    requires PiecesAt(tape, k, PlacementPieces(placement, r, t))
    requires ScanRecord(s.(end := placement.start), r, tape.job, k + |placement.preludes|) == Ok(u)
    ensures k + |placement.preludes| + 1 <= |tape.chunks|
    ensures Rest(tape, s, k) == Rest(tape, u.(end := after), k + |placement.preludes| + 1)
  {
    var n := |placement.preludes|;
    SplitPieces(tape, k, placement, r, t);
    PreludesScan(s, placement, t, tape, k);
    FillerIsForgotten(s, placement, t, r, tape.job, k + n);
    RecordScans(AtRecord(s, placement, t), r, placement, after, tape, k + n, u);
  }

  lemma {:induction false} SplitPieces(tape: Tape, k: nat, placement: Placement, r: Record, t: Txn)
    requires PiecesAt(tape, k, PlacementPieces(placement, r, t))
    ensures PiecesAt(tape, k, PreludePieces(placement.preludes, t))
    ensures PiecesAt(tape, k + |placement.preludes|, [Piece(placement.start, RecordContent(r))])
  {
    var all, preludes, n := PlacementPieces(placement, r, t), PreludePieces(placement.preludes, t), |placement.preludes|;
    forall i | 0 <= i < n ensures tape.chunks[k + i] == tape.encode(preludes[i]) {
      assert tape.chunks[k + i] == tape.encode(all[i]);
    }
    assert tape.chunks[k + n] == tape.encode(all[n]);
  }

  /** The records of a planned transaction are encodable and stand where they are planned. */
  lemma {:induction false} PlannedRecordStands(t: Txn, begin: Pos, end: Pos, g: Geometry, n: nat, placement: Placement, at: Pos, after: Pos)
    requires TxnValid(t) && GeometryValid(g) && n < |t.ops| + 2 && WalkStep(at, placement, after, Lengths(t)[n], g)
    requires PosValid(begin) && (n == |t.ops| + 1 ==> after == end && PosLess(begin, end) && PosValid(end))
    ensures var r := Records(t, begin, end)[n];
            && RecordValid(r) && !r.PageEnd? && r.seqNo == t.seqNo && r.uuid == t.uuid
            && RecordLen(r) == placement.len && StandsAt(r, placement.start, g)
  {
    CountsAddUp(t.ops);
    LengthsAreRecordLengths(t, begin, end, n);
    if 0 < n <= |t.ops| {
      assert Records(t, begin, end)[n] == OperationRecord(t.seqNo, t.uuid, n - 1, t.ops[n - 1]);
      assert OperationValid(t.ops[n - 1]);
    }
  }
}
