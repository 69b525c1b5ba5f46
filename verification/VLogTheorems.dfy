/** What holds of every prepared envelope: it is scanned back, its footer is found, its pointers are sound. */
module VLogTheorems {
  import opened Basics
  import opened Index
  import opened CommitProtocol
  import opened Topology
  import opened History
  import opened ByteCodec
  import opened VLogCodec
  import opened VLogRoundTrip
  import opened VLogLayout
  import opened VLogScanner
  import opened VLogEnvelope
  import opened VLogAgreement

  // ---------------------------------------------------------------- the scan, record by record

  /** The scanner's state after `n` records. */
  function StateAfter(t: Txn, begin: Pos, end: Pos, n: nat, at: Pos): Scan
    requires n <= |t.ops| + 2
  {
    if n == 0 then InitialScan(begin).(end := at)
    else if n <= |t.ops| + 1 then AfterOperations(t, begin, n - 1, at)
    else AfterOperations(t, begin, |t.ops|, at).(footer := Some(FooterRecord(t, begin, end, EnvelopeCrc(t, begin, end))))
  }

  lemma {:induction false} StateMoves(t: Txn, begin: Pos, end: Pos, n: nat, at: Pos, x: Pos)
    requires n <= |t.ops| + 2
    ensures StateAfter(t, begin, end, n, at).(end := x) == StateAfter(t, begin, end, n, x)
  {
  }

  predicate JobFits(job: Job, t: Txn, begin: Pos, end: Pos) {
    && job.begin == begin && job.end == end && job.database == t.database
    && (job.expected.Some? ==> job.expected.value == EnvelopeCrc(t, begin, end))
  }

  lemma {:induction false} RecordLeads(t: Txn, begin: Pos, end: Pos, n: nat, at: Pos, job: Job, k: nat)
    requires n < |t.ops| + 2 && JobFits(job, t, begin, end) && (n == |t.ops| + 1 ==> k + 1 == job.chunks)
    ensures ScanRecord(StateAfter(t, begin, end, n, at), Records(t, begin, end)[n], job, k)
         == Ok(StateAfter(t, begin, end, n + 1, at))
  {
    if n == 0 {
      BeginScans(t, begin, at, job, k);
    } else if n <= |t.ops| {
      assert Records(t, begin, end)[n] == OperationRecord(t.seqNo, t.uuid, n - 1, t.ops[n - 1]);
      OperationScans(t, begin, n - 1, at, job, k);
    } else {
      FooterScans(t, begin, end, at, job, k);
    }
  }

  lemma {:induction false} StateIsReady(t: Txn, begin: Pos, end: Pos, n: nat, at: Pos)
    requires n < |t.ops| + 2
    ensures Ready(StateAfter(t, begin, end, n, at), t) && StateAfter(t, begin, end, n, at).end == at
  {
  }

  /** The pieces of record `n` lie where the pieces of the records before it end. */
  lemma {:induction false} PiecesOfRecord(placements: seq<Placement>, records: seq<Record>, n: nat, total: nat, t: Txn, i: nat)
    requires n < total <= |placements| && total <= |records|
    requires i < |PlacementPieces(placements[n], records[n], t)|
    ensures |PiecesThrough(placements, records, n, t)| + i < |PiecesThrough(placements, records, total, t)|
    ensures PiecesThrough(placements, records, total, t)[|PiecesThrough(placements, records, n, t)| + i]
         == PlacementPieces(placements[n], records[n], t)[i]
    decreases total
  {
    if n < total - 1 { PiecesOfRecord(placements, records, n, total - 1, t, i); }
  }

  lemma {:induction false} RecordPiecesAt(
    tape: Tape, placements: seq<Placement>, records: seq<Record>, total: nat, t: Txn, n: nat)
    requires n < total <= |placements| && total <= |records|
    requires PiecesAt(tape, 0, PiecesThrough(placements, records, total, t))
    ensures PiecesAt(tape, |PiecesThrough(placements, records, n, t)|, PlacementPieces(placements[n], records[n], t))
    ensures |PiecesThrough(placements, records, n + 1, t)|
         == |PiecesThrough(placements, records, n, t)| + |placements[n].preludes| + 1
  {
    var k := |PiecesThrough(placements, records, n, t)|;
    var own, all := PlacementPieces(placements[n], records[n], t), PiecesThrough(placements, records, total, t);
    PiecesOfRecord(placements, records, n, total, t, |own| - 1);
    forall i | 0 <= i < |own| ensures tape.chunks[k + i] == tape.encode(own[i]) {
      PiecesOfRecord(placements, records, n, total, t, i);
      assert tape.chunks[0 + (k + i)] == tape.encode(all[k + i]);
    }
  }

  lemma {:induction false} EndsValid(t: Txn, begin: Pos, g: Geometry)
    requires RoomForLargest(g) && Reachable(begin, g) && TxnValid(t) && PlanAll(Lengths(t), |t.ops| + 2, begin, g).Ok?
    ensures var end := PlanAll(Lengths(t), |t.ops| + 2, begin, g).value.1;
            PosValid(begin) && PosValid(end) && PosLess(begin, end) && Reachable(end, g) && end.offset > 0
  {
    var at, after := PlannedRecord(t, begin, g, |t.ops| + 1);
    PosLeqTransitive(begin, at, after);
    PositionsReachable(t, begin, g, |t.ops| + 2);
  }

  /** What scanning record `n` needs and gives, apart from its bytes. */
  lemma {:induction false} RecordFacts(
    t: Txn, begin: Pos, end: Pos, n: nat, placement: Placement, at: Pos, after: Pos, job: Job, k: nat)
    requires RoomForLargest(job.g) && TxnValid(t) && n < |t.ops| + 2 && JobFits(job, t, begin, end)
    requires WalkStep(at, placement, after, Lengths(t)[n], job.g)
    requires PosValid(begin) && (n == |t.ops| + 1 ==> after == end && PosLess(begin, end) && PosValid(end) && k + 1 == job.chunks)
    ensures var s, r := StateAfter(t, begin, end, n, at), Records(t, begin, end)[n];
            && Ready(s, t) && s.end == at && RecordValid(r) && !r.PageEnd? && r.seqNo == t.seqNo && r.uuid == t.uuid
            && RecordLen(r) == placement.len && StandsAt(r, placement.start, job.g)
            && ScanRecord(s.(end := placement.start), r, job, k) == Ok(StateAfter(t, begin, end, n + 1, placement.start))
            && StateAfter(t, begin, end, n + 1, placement.start).(end := after) == StateAfter(t, begin, end, n + 1, after)
  {
    PlannedRecordStands(t, begin, end, job.g, n, placement, at, after);
    StateIsReady(t, begin, end, n, at);
    StateMoves(t, begin, end, n, at, placement.start);
    RecordLeads(t, begin, end, n, placement.start, job, k);
    StateMoves(t, begin, end, n + 1, placement.start, after);
  }

  // ---------------------------------------------------------------- the plan as a walk

  function PositionAfter(t: Txn, begin: Pos, g: Geometry, n: nat): Pos
    requires GeometryValid(g) && n <= |t.ops| + 2
  {
    var plan := PlanAll(Lengths(t), n, begin, g);
    if plan.Ok? then plan.value.1 else begin
  }

  /** The plan of an envelope as a walk from position to position. */
  ghost predicate Walks(t: Txn, begin: Pos, g: Geometry, placements: seq<Placement>, positions: seq<Pos>)
    requires GeometryValid(g)
  {
    && |placements| == |t.ops| + 2 && |positions| == |t.ops| + 3 && positions[0] == begin
    && forall n :: 0 <= n < |placements| ==> WalkStep(positions[n], placements[n], positions[n + 1], Lengths(t)[n], g)
  }

  lemma {:induction false} PlanWalks(t: Txn, begin: Pos, g: Geometry) returns (positions: seq<Pos>)
    requires RoomForLargest(g) && Reachable(begin, g) && TxnValid(t) && PlanAll(Lengths(t), |t.ops| + 2, begin, g).Ok?
    ensures Walks(t, begin, g, PlanAll(Lengths(t), |t.ops| + 2, begin, g).value.0, positions)
    ensures positions[|t.ops| + 2] == PlanAll(Lengths(t), |t.ops| + 2, begin, g).value.1
  {
    positions := seq(|t.ops| + 3, n requires 0 <= n < |t.ops| + 3 => PositionAfter(t, begin, g, n));
    var placements := PlanAll(Lengths(t), |t.ops| + 2, begin, g).value.0;
    forall n | 0 <= n < |placements| ensures WalkStep(positions[n], placements[n], positions[n + 1], Lengths(t)[n], g) {
      var at, after := PlannedRecord(t, begin, g, n);
    }
  }

  // ---------------------------------------------------------------- following a script

  /** The expected course of a scan: the state before record `n` at a position, and the record. */
  datatype Script = Script(state: (nat, Pos) -> Scan, record: nat -> Record)

  /** Where the envelope's records go: position and chunk index before each record, and its placement. */
  datatype Course = Course(placements: seq<Placement>, positions: seq<Pos>, counts: seq<nat>)

  predicate CourseFits(c: Course) {
    |c.positions| == |c.counts| == |c.placements| + 1
  }

  /** Record `n` of the script is placed on the course and its chunks are on the tape. */
  ghost predicate ScriptPlaced(tape: Tape, t: Txn, script: Script, c: Course, n: nat)
    requires GeometryValid(tape.job.g) && CourseFits(c) && n < |c.placements|
  {
    && CourseShaped(c, n, tape.job.g)
    && PiecesAt(tape, c.counts[n], PlacementPieces(c.placements[n], script.record(n), t))
    && c.counts[n + 1] == c.counts[n] + |c.placements[n].preludes| + 1
  }

  ghost predicate CourseShaped(c: Course, n: nat, g: Geometry)
    requires GeometryValid(g) && CourseFits(c) && n < |c.placements|
  {
    WalkStep(c.positions[n], c.placements[n], c.positions[n + 1], c.placements[n].len, g)
  }

  /** Record `n` of the script is one the scanner accepts in its state, and leads to the next state. */
  ghost predicate ScriptScanned(tape: Tape, t: Txn, script: Script, c: Course, n: nat)
    requires GeometryValid(tape.job.g) && CourseFits(c) && n < |c.placements|
  {
    var placement, at, after, k := c.placements[n], c.positions[n], c.positions[n + 1], c.counts[n];
    var s, r, u := script.state(n, at), script.record(n), script.state(n + 1, placement.start);
    && s.end == at && Ready(s, t) && RecordLen(r) == placement.len
    && RecordValid(r) && !r.PageEnd? && r.seqNo == t.seqNo && r.uuid == t.uuid && StandsAt(r, placement.start, tape.job.g)
    && ScanRecord(s.(end := placement.start), r, tape.job, k + |placement.preludes|) == Ok(u)
    && u.(end := after) == script.state(n + 1, after)
  }

  ghost predicate Scripted(tape: Tape, t: Txn, script: Script, c: Course, n: nat)
    requires GeometryValid(tape.job.g) && CourseFits(c) && n < |c.placements|
  {
    ScriptPlaced(tape, t, script, c, n) && ScriptScanned(tape, t, script, c, n)
  }

  lemma {:induction false} ScriptStep(tape: Tape, t: Txn, script: Script, c: Course, n: nat)
    requires HandlesPieces(tape) && TxnValid(t) && t.database == tape.job.database
    requires CourseFits(c) && n < |c.placements| && Scripted(tape, t, script, c, n)
    ensures c.counts[n] <= |tape.chunks| && c.counts[n + 1] <= |tape.chunks|
    ensures Rest(tape, script.state(n, c.positions[n]), c.counts[n])
         == Rest(tape, script.state(n + 1, c.positions[n + 1]), c.counts[n + 1])
  {
    var placement := c.placements[n];
    PlacedRecordScans(script.state(n, c.positions[n]), script.record(n), script.state(n + 1, placement.start),
                      placement, c.positions[n + 1], t, tape, c.counts[n]);
  }

  /** The scan from one state and chunk index is the scan from the next ones. */
  ghost predicate Linked(tape: Tape, states: seq<Scan>, counts: seq<nat>, n: nat) {
    && n + 1 < |states| == |counts| && counts[n] <= |tape.chunks| && counts[n + 1] <= |tape.chunks|
    && Rest(tape, states[n], counts[n]) == Rest(tape, states[n + 1], counts[n + 1])
  }

  lemma {:induction false} LinksReach(tape: Tape, states: seq<Scan>, counts: seq<nat>, n: nat)
    requires 0 < |states| == |counts| && n < |states| && counts[0] <= |tape.chunks|
    requires forall i :: 0 <= i < |states| - 1 ==> Linked(tape, states, counts, i)
    ensures counts[n] <= |tape.chunks|
    ensures Rest(tape, states[0], counts[0]) == Rest(tape, states[n], counts[n])
  {
    if n > 0 {
      LinksReach(tape, states, counts, n - 1);
      assert Linked(tape, states, counts, n - 1);
    }
  }

  lemma {:induction false} ScriptRuns(tape: Tape, t: Txn, script: Script, c: Course)
    requires HandlesPieces(tape) && TxnValid(t) && t.database == tape.job.database
    requires CourseFits(c) && c.counts[0] == 0
    requires forall i :: 0 <= i < |c.placements| ==> Scripted(tape, t, script, c, i)
    ensures var n := |c.placements|;
            && c.counts[n] <= |tape.chunks|
            && Rest(tape, script.state(0, c.positions[0]), 0) == Rest(tape, script.state(n, c.positions[n]), c.counts[n])
  {
    var states := seq(|c.positions|, i requires 0 <= i < |c.positions| => script.state(i, c.positions[i]));
    forall i | 0 <= i < |states| - 1 ensures Linked(tape, states, c.counts, i) {
      assert Scripted(tape, t, script, c, i);
      ScriptStep(tape, t, script, c, i);
    }
    LinksReach(tape, states, c.counts, |c.placements|);
  }

  function ScriptOf(t: Txn, begin: Pos, end: Pos): Script {
    Script((n: nat, at: Pos) => if n <= |t.ops| + 2 then StateAfter(t, begin, end, n, at) else InitialScan(begin),
           (n: nat) => if n < |t.ops| + 2 then Records(t, begin, end)[n] else BeginRecord(t, begin))
  }

  function CourseOf(t: Txn, begin: Pos, end: Pos, placements: seq<Placement>, positions: seq<Pos>): (c: Course)
    requires |placements| == |t.ops| + 2 && |positions| == |t.ops| + 3
    ensures CourseFits(c) && c.placements == placements && c.positions == positions
    ensures forall n :: 0 <= n <= |t.ops| + 2 ==> c.counts[n] == |PiecesThrough(placements, Records(t, begin, end), n, t)|
  {
    Course(placements, positions,
           seq(|t.ops| + 3, n requires 0 <= n < |t.ops| + 3 => |PiecesThrough(placements, Records(t, begin, end), n, t)|))
  }

  /** The tape holds the envelope that was laid out along this walk. */
  ghost predicate HoldsWalk(tape: Tape, t: Txn, begin: Pos, end: Pos, placements: seq<Placement>, positions: seq<Pos>) {
    && RoomForLargest(tape.job.g) && TxnValid(t) && PosValid(begin) && PosValid(end) && PosLess(begin, end)
    && Walks(t, begin, tape.job.g, placements, positions) && positions[|t.ops| + 2] == end
    && PiecesAt(tape, 0, PiecesThrough(placements, Records(t, begin, end), |t.ops| + 2, t))
    && |tape.chunks| == |PiecesThrough(placements, Records(t, begin, end), |t.ops| + 2, t)|
  }

  lemma {:induction false} EnvelopeFollowsScript(
    tape: Tape, t: Txn, begin: Pos, end: Pos, placements: seq<Placement>, positions: seq<Pos>, n: nat)
    requires HoldsWalk(tape, t, begin, end, placements, positions) && n < |t.ops| + 2
    requires JobFits(tape.job, t, begin, end) && tape.job.chunks == |tape.chunks|
    ensures Scripted(tape, t, ScriptOf(t, begin, end), CourseOf(t, begin, end, placements, positions), n)
  {
    EnvelopeIsPlaced(tape, t, begin, end, placements, positions, n);
    CourseIsScanned(tape, t, begin, end, placements, positions, n);
  }

  lemma {:induction false} CourseIsScanned(
    tape: Tape, t: Txn, begin: Pos, end: Pos, placements: seq<Placement>, positions: seq<Pos>, n: nat)
    requires HoldsWalk(tape, t, begin, end, placements, positions) && n < |t.ops| + 2
    requires JobFits(tape.job, t, begin, end) && tape.job.chunks == |tape.chunks|
    ensures ScriptScanned(tape, t, ScriptOf(t, begin, end), CourseOf(t, begin, end, placements, positions), n)
  {
    var c := CourseOf(t, begin, end, placements, positions);
    assert WalkStep(positions[n], placements[n], positions[n + 1], Lengths(t)[n], tape.job.g);
    RecordPiecesAt(tape, placements, Records(t, begin, end), |t.ops| + 2, t, n);
    ScriptOfStates(t, begin, end, n, positions[n], placements[n].start, positions[n + 1]);
    EnvelopeIsScanned(tape, t, begin, end, n, ScriptOf(t, begin, end), c, placements[n], positions[n], positions[n + 1], c.counts[n]);
  }

  lemma {:induction false} EnvelopeIsPlaced(
    tape: Tape, t: Txn, begin: Pos, end: Pos, placements: seq<Placement>, positions: seq<Pos>, n: nat)
    requires HoldsWalk(tape, t, begin, end, placements, positions) && n < |t.ops| + 2
    ensures ScriptPlaced(tape, t, ScriptOf(t, begin, end), CourseOf(t, begin, end, placements, positions), n)
  {
    var records := Records(t, begin, end);
    assert WalkStep(positions[n], placements[n], positions[n + 1], Lengths(t)[n], tape.job.g);
    RecordPiecesAt(tape, placements, records, |t.ops| + 2, t, n);
    assert ScriptOf(t, begin, end).record(n) == records[n];
  }

  lemma {:induction false} EnvelopeIsScanned(
    tape: Tape, t: Txn, begin: Pos, end: Pos, n: nat, script: Script, c: Course, placement: Placement, at: Pos, after: Pos, k: nat)
    requires RoomForLargest(tape.job.g) && TxnValid(t) && n < |t.ops| + 2 && JobFits(tape.job, t, begin, end)
    requires CourseFits(c) && n < |c.placements| && c.placements[n] == placement && c.counts[n] == k
    requires c.positions[n] == at && c.positions[n + 1] == after
    requires script.state(n, at) == StateAfter(t, begin, end, n, at)
    requires script.state(n + 1, placement.start) == StateAfter(t, begin, end, n + 1, placement.start)
    requires script.state(n + 1, after) == StateAfter(t, begin, end, n + 1, after)
    requires script.record(n) == Records(t, begin, end)[n]
    requires WalkStep(at, placement, after, Lengths(t)[n], tape.job.g) && PosValid(begin)
    requires n == |t.ops| + 1 ==>
               after == end && PosLess(begin, end) && PosValid(end) && k + |placement.preludes| + 1 == tape.job.chunks
    ensures ScriptScanned(tape, t, script, c, n)
  {
    RecordFacts(t, begin, end, n, placement, at, after, tape.job, k + |placement.preludes|);
  }

  lemma {:induction false} ScriptOfStates(t: Txn, begin: Pos, end: Pos, n: nat, at: Pos, start: Pos, after: Pos)
    requires n < |t.ops| + 2
    ensures var script := ScriptOf(t, begin, end);
            && script.state(n, at) == StateAfter(t, begin, end, n, at)
            && script.state(n + 1, start) == StateAfter(t, begin, end, n + 1, start)
            && script.state(n + 1, after) == StateAfter(t, begin, end, n + 1, after)
            && script.record(n) == Records(t, begin, end)[n]
  {
  }

  // ---------------------------------------------------------------- writer/scanner agreement

  /**
   * Every prepared envelope is accepted, with or without an expected checksum, and reports the
   * identity, bounds, counts and checksum it was written with.
   */
  lemma {:induction false} ScannerAcceptsPrepared(t: Txn, begin: Pos, g: Geometry, check: bool)
    requires RoomForLargest(g) && Reachable(begin, g) && Prepared(t, begin, g).Ok?
    ensures var p := Prepared(t, begin, g).value;
            ScanEnvelope(p.chunks, Job(g, t.database, begin, p.end, if check then Some(p.crc) else None, |p.chunks|))
            == Ok(Scanned(t.seqNo, t.uuid, begin, p.end, |t.ops|, |DistinctKeys(t.ops)|, PutCount(t.ops), DeleteCount(t.ops), p.crc))
  {
    var p := Prepared(t, begin, g).value;
    var job := Job(g, t.database, begin, p.end, if check then Some(p.crc) else None, |p.chunks|);
    EnvelopeScans(t, begin, g, job);
    EndsValid(t, begin, g);
    KeySetIsDistinctKeys(t.ops);
    FinalStateConcludes(t, begin, p.end, job);
  }

  lemma {:induction false} EnvelopeScans(t: Txn, begin: Pos, g: Geometry, job: Job)
    requires RoomForLargest(g) && Reachable(begin, g) && Prepared(t, begin, g).Ok?
    requires var p := Prepared(t, begin, g).value; JobFits(job, t, begin, p.end) && job.g == g && job.chunks == |p.chunks|
    ensures var p := Prepared(t, begin, g).value;
            && p.chunks != []
            && ScanFrom(InitialScan(begin), p.chunks, job, 0) == Ok(StateAfter(t, begin, p.end, |t.ops| + 2, p.end))
  {
    var p := Prepared(t, begin, g).value;
    var tape, n := ScannerTape(p.chunks, job), |t.ops| + 2;
    var placements := PlanAll(Lengths(t), n, begin, g).value.0;
    var positions := PlanWalks(t, begin, g);
    ScannerHandlesPieces(p.chunks, job);
    EndsValid(t, begin, g);
    PreparedPiecesAt(tape, PiecesThrough(placements, Records(t, begin, p.end), n, t));
    WalkScans(tape, t, begin, p.end, placements, positions);
    FoldIsScan(InitialScan(begin), p.chunks, job, 0);
  }

  lemma {:induction false} PreparedPiecesAt(tape: Tape, pieces: seq<Piece>)
    requires tape.chunks == ChunksOf(pieces) && forall p :: tape.encode(p) == ChunkOf(p)
    ensures PiecesAt(tape, 0, pieces)
  {
    forall i | 0 <= i < |pieces| ensures tape.chunks[0 + i] == tape.encode(pieces[i]) {
      assert tape.chunks[i] == ChunkOf(pieces[i]);
    }
  }

  /** Scanning the chunks of a walk reaches the state after its last record. */
  lemma {:induction false} WalkScans(
    tape: Tape, t: Txn, begin: Pos, end: Pos, placements: seq<Placement>, positions: seq<Pos>)
    requires HandlesPieces(tape) && HoldsWalk(tape, t, begin, end, placements, positions)
    requires JobFits(tape.job, t, begin, end) && tape.job.chunks == |tape.chunks|
    ensures tape.chunks != []
    ensures Rest(tape, InitialScan(begin), 0) == Ok(StateAfter(t, begin, end, |t.ops| + 2, end))
  {
    var n, script, c := |t.ops| + 2, ScriptOf(t, begin, end), CourseOf(t, begin, end, placements, positions);
    forall i | 0 <= i < n ensures Scripted(tape, t, script, c, i) {
      EnvelopeFollowsScript(tape, t, begin, end, placements, positions, i);
    }
    ScriptRuns(tape, t, script, c);
    ScriptEnds(t, begin, end);
    RecordPiecesAt(tape, placements, Records(t, begin, end), n, t, 0);
  }

  lemma {:induction false} ScriptEnds(t: Txn, begin: Pos, end: Pos)
    ensures ScriptOf(t, begin, end).state(0, begin) == InitialScan(begin)
    ensures ScriptOf(t, begin, end).state(|t.ops| + 2, end) == StateAfter(t, begin, end, |t.ops| + 2, end)
  {
  }

  lemma {:induction false} FinalStateConcludes(t: Txn, begin: Pos, end: Pos, job: Job)
    requires job.begin == begin && job.end == end
    ensures Conclude(StateAfter(t, begin, end, |t.ops| + 2, end), job)
         == Ok(Scanned(t.seqNo, t.uuid, begin, end, |t.ops|, |KeySet(t.ops)|, PutCount(t.ops), DeleteCount(t.ops),
                       EnvelopeCrc(t, begin, end)))
  {
    assert t.ops[..|t.ops|] == t.ops;
  }

  // ---------------------------------------------------------------- when an envelope can be prepared

  /** Record `n` is the first of the envelope that finds no room before the end of the last file. */
  predicate RunsOutAt(t: Txn, begin: Pos, g: Geometry, n: nat)
    requires GeometryValid(g)
  {
    && n < |t.ops| + 2 && PlanAll(Lengths(t), n, begin, g).Ok?
    && NoRoom(PlanAll(Lengths(t), n, begin, g).value.1, Lengths(t)[n], g)
  }

  ghost predicate RunsOut(t: Txn, begin: Pos, g: Geometry)
    requires GeometryValid(g)
  {
    exists n :: RunsOutAt(t, begin, g, n)
  }

  /** One record never goes beyond the next file. */
  lemma {:induction false} PlanCrossesOneFile(p: Pos, len: nat, g: Geometry)
    requires GeometryValid(g) && Reachable(p, g) && Placeable(len, g) && PlanRecord(p, len, g).Ok?
    ensures PlanRecord(p, len, g).value.1.file <= p.file + 1
  {
    PlacementHasShape(p, len, g);
  }

  /** One more record: it is placed unless there is no room for it. */
  lemma {:induction false} OneMoreRecord(t: Txn, begin: Pos, g: Geometry, n: nat)
    requires TxnValid(t) && RoomForLargest(g) && Reachable(begin, g) && n < |t.ops| + 2
    requires PlanAll(Lengths(t), n, begin, g).Ok?
    ensures var at, plan := PlanAll(Lengths(t), n, begin, g).value.1, PlanAll(Lengths(t), n + 1, begin, g);
            && (plan.Err? <==> RunsOutAt(t, begin, g, n)) && (plan.Err? ==> plan.error == CapacityExceeded)
            && (plan.Ok? ==> plan.value.1.file <= at.file + 1)
  {
    var at := PlanAll(Lengths(t), n, begin, g).value.1;
    PositionsReachable(t, begin, g, n);
    LengthsPlaceable(t, n, g);
    PlannerIsTotal(at, Lengths(t)[n], g);
    if PlanRecord(at, Lengths(t)[n], g).Ok? { PlanCrossesOneFile(at, Lengths(t)[n], g); }
  }

  lemma {:induction false} FailedPlanRanOut(t: Txn, begin: Pos, g: Geometry, n: nat)
    requires TxnValid(t) && RoomForLargest(g) && Reachable(begin, g) && n <= |t.ops| + 2
    requires PlanAll(Lengths(t), n, begin, g).Err?
    ensures PlanAll(Lengths(t), n, begin, g).error == CapacityExceeded && RunsOut(t, begin, g)
  {
    if PlanAll(Lengths(t), n - 1, begin, g).Ok? {
      OneMoreRecord(t, begin, g, n - 1);
    } else {
      FailedPlanRanOut(t, begin, g, n - 1);
    }
  }

  lemma {:induction false} PlanHadRoom(t: Txn, begin: Pos, g: Geometry, n: nat, total: nat)
    requires TxnValid(t) && RoomForLargest(g) && Reachable(begin, g) && n < total <= |t.ops| + 2
    requires PlanAll(Lengths(t), total, begin, g).Ok?
    ensures !RunsOutAt(t, begin, g, n)
  {
    PlanPrefix(Lengths(t), n + 1, total, begin, g);
    PlanPrefix(Lengths(t), n, total, begin, g);
    OneMoreRecord(t, begin, g, n);
  }

  lemma {:induction false} GrowsByOne(files: seq<nat>)
    requires files != [] && forall i :: 0 <= i < |files| - 1 ==> files[i + 1] <= files[i] + 1
    ensures files[|files| - 1] <= files[0] + |files| - 1
  {
    if |files| > 1 { GrowsByOne(files[..|files| - 1]); }
  }

  lemma {:induction false} NextFileIsNear(t: Txn, begin: Pos, g: Geometry, n: nat, total: nat)
    requires TxnValid(t) && RoomForLargest(g) && Reachable(begin, g) && n < total <= |t.ops| + 2
    requires PlanAll(Lengths(t), total, begin, g).Ok?
    ensures PositionAfter(t, begin, g, n + 1).file <= PositionAfter(t, begin, g, n).file + 1
  {
    PlanPrefix(Lengths(t), n + 1, total, begin, g);
    PlanPrefix(Lengths(t), n, total, begin, g);
    OneMoreRecord(t, begin, g, n);
  }

  /** The files of the positions on the way, each at most one after the one before. */
  predicate FilesAfter(files: seq<nat>, first: nat, last: nat, n: nat) {
    && |files| == n + 1 && files[0] == first && files[n] == last
    && forall i :: 0 <= i < |files| - 1 ==> files[i + 1] <= files[i] + 1
  }

  lemma {:induction false} FilesOnTheWay(t: Txn, begin: Pos, g: Geometry, n: nat) returns (files: seq<nat>)
    requires TxnValid(t) && RoomForLargest(g) && Reachable(begin, g) && n <= |t.ops| + 2
    requires PlanAll(Lengths(t), n, begin, g).Ok?
    ensures FilesAfter(files, begin.file, PlanAll(Lengths(t), n, begin, g).value.1.file, n)
  {
    files := seq(n + 1, i requires 0 <= i < n + 1 => PositionAfter(t, begin, g, i).file);
    forall i | 0 <= i < |files| - 1 ensures files[i + 1] <= files[i] + 1 {
      NextFileIsNear(t, begin, g, i, n);
    }
  }

  lemma {:induction false} PlanStaysNear(t: Txn, begin: Pos, g: Geometry, n: nat)
    requires TxnValid(t) && RoomForLargest(g) && Reachable(begin, g) && n <= |t.ops| + 2
    requires PlanAll(Lengths(t), n, begin, g).Ok?
    ensures PlanAll(Lengths(t), n, begin, g).value.1.file <= begin.file + n
  {
    var files := FilesOnTheWay(t, begin, g, n);
    GrowsByOne(files);
  }

  /**
   * An envelope is prepared from every reachable position, unless the transaction is not legal or the
   * file ids run out under it; with one file id left for each record that never happens.
   */
  lemma {:induction false} PreparesExactly(t: Txn, begin: Pos, g: Geometry)
    requires RoomForLargest(g) && Reachable(begin, g)
    ensures Prepared(t, begin, g).Err? <==> !TxnValid(t) || RunsOut(t, begin, g)
    ensures Prepared(t, begin, g).Err? ==>
              Prepared(t, begin, g).error == if TxnValid(t) then CapacityExceeded else InvalidArgument
    ensures TxnValid(t) && begin.file + |t.ops| + 2 <= g.maxFileId ==> Prepared(t, begin, g).Ok?
  {
    if TxnValid(t) {
      var total := |t.ops| + 2;
      if PlanAll(Lengths(t), total, begin, g).Err? { FailedPlanRanOut(t, begin, g, total); }
      if RunsOut(t, begin, g) {
        var n :| RunsOutAt(t, begin, g, n);
        PlanStaysNear(t, begin, g, n);
        if PlanAll(Lengths(t), total, begin, g).Ok? { PlanHadRoom(t, begin, g, n, total); }
      }
    }
  }
}
