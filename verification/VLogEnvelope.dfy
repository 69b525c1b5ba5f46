/**
 * The envelope writer (prepare_envelope in src/vlog/format.rs): a transaction's records, laid out
 * across pages and files, with the pointers the index will hold.
 */
module VLogEnvelope {
  import opened Basics
  import opened Index
  import opened CommitProtocol
  import opened Topology
  import opened History
  import opened ByteCodec
  import opened VLogCodec
  import opened VLogRoundTrip
  import opened VLogLayout
  import opened VLogScanner

  // ---------------------------------------------------------------- the records of a transaction

  function OperationRecord(seqNo: nat, uuid: Bytes, i: nat, op: Operation): Record {
    match op
    case Put(key, value) => KvRecord(seqNo, uuid, i, key, value)
    case Delete(key) => DeleteRecord(seqNo, uuid, i, key)
  }

  function OperationRecords(seqNo: nat, uuid: Bytes, ops: seq<Operation>): (r: seq<Record>)
    ensures |r| == |ops|
    ensures forall i :: 0 <= i < |ops| ==> r[i] == OperationRecord(seqNo, uuid, i, ops[i])
  {
    seq(|ops|, i requires 0 <= i < |ops| => OperationRecord(seqNo, uuid, i, ops[i]))
  }

  function PutCount(ops: seq<Operation>): nat {
    if ops == [] then 0 else PutCount(ops[..|ops| - 1]) + if ops[|ops| - 1].Put? then 1 else 0
  }

  function DeleteCount(ops: seq<Operation>): nat {
    if ops == [] then 0 else DeleteCount(ops[..|ops| - 1]) + if ops[|ops| - 1].Delete? then 1 else 0
  }

  function KeySet(ops: seq<Operation>): set<Bytes> {
    if ops == [] then {} else KeySet(ops[..|ops| - 1]) + {ops[|ops| - 1].key}
  }

  lemma {:induction false} CountsAddUp(ops: seq<Operation>)
    ensures PutCount(ops) + DeleteCount(ops) == |ops|
    ensures |KeySet(ops)| <= |ops| && (ops != [] ==> |KeySet(ops)| > 0)
  {
    if ops != [] { CountsAddUp(ops[..|ops| - 1]); }
  }

  /** The set of keys has as many elements as the list of first occurrences. */
  lemma {:induction false} KeySetIsDistinctKeys(ops: seq<Operation>)
    ensures |KeySet(ops)| == |DistinctKeys(ops)|
    ensures forall k :: k in KeySet(ops) <==> k in DistinctKeys(ops)
  {
    if ops != [] {
      var init := ops[..|ops| - 1];
      KeySetIsDistinctKeys(init);
      if ops[|ops| - 1].key in KeySet(init) {
        assert KeySet(ops) == KeySet(init);
      }
    }
  }

  /** One transaction about to be written. */
  datatype Txn = Txn(database: Bytes, seqNo: nat, uuid: Bytes, ops: seq<Operation>)

  /** What the encoders accept: the same limits as write validation. */
  predicate TxnValid(t: Txn) {
    && UuidValid(t.database) && UuidValid(t.uuid) && 0 < t.seqNo <= U64_MAX && 0 < |t.ops| <= U64_MAX
    && forall i :: 0 <= i < |t.ops| ==> OperationValid(t.ops[i])
  }

  predicate OperationValid(op: Operation) {
    && 0 < |op.key| <= MAX_KEY_VALUE_SIZE
    && (op.Put? ==> |op.key| + |op.value| <= MAX_KEY_VALUE_SIZE)
  }

  function BeginRecord(t: Txn, begin: Pos): Record {
    TxBegin(t.seqNo, t.uuid, begin, |t.ops|, |KeySet(t.ops)|)
  }

  function FooterRecord(t: Txn, begin: Pos, end: Pos, crc: Word): Record {
    TxPreparedEnd(t.seqNo, t.uuid, begin, end, |t.ops|, |KeySet(t.ops)|, PutCount(t.ops), DeleteCount(t.ops), crc)
  }

  /** Everything before the footer. */
  function BodyRecords(t: Txn, begin: Pos): (r: seq<Record>)
    ensures |r| == |t.ops| + 1
  {
    [BeginRecord(t, begin)] + OperationRecords(t.seqNo, t.uuid, t.ops)
  }

  function CrcThrough(records: seq<Record>, n: nat): Word
    requires n <= |records|
  {
    if n == 0 then Crc(ENVELOPE_MAGIC) else UpdateCrc(CrcThrough(records, n - 1), records[n - 1])
  }

  /** Feeding a checksum field by field is checksumming everything fed so far in one go. */
  lemma {:induction false} FeedFields(crc: Word, data: Bytes, fields: seq<Bytes>)
    requires crc == Crc(data)
    ensures AppendFields(crc, fields) == Crc(data + Join(fields))
  {
    AppendFieldsIsOneAppend(crc, fields);
    CrcConcat(0, data, Join(fields));
  }

  function EnvelopeCrc(t: Txn, begin: Pos, end: Pos): Word {
    UpdateCrc(CrcThrough(BodyRecords(t, begin), |t.ops| + 1), FooterRecord(t, begin, end, 0))
  }

  function Records(t: Txn, begin: Pos, end: Pos): (r: seq<Record>)
    ensures |r| == |t.ops| + 2
  {
    BodyRecords(t, begin) + [FooterRecord(t, begin, end, EnvelopeCrc(t, begin, end))]
  }

  /** Lengths do not depend on positions or checksums, so planning comes first. */
  function Lengths(t: Txn): (r: seq<nat>)
    ensures |r| == |t.ops| + 2
  {
    [TX_BEGIN_LEN] + OperationLengths(t.ops) + [TX_PREPARED_END_LEN]
  }

  function OperationLength(op: Operation): nat {
    match op
    case Put(key, value) => KV_RECORD_FIXED_LEN + |key| + |value|
    case Delete(key) => DELETE_FIXED_LEN + |key|
  }

  function OperationLengths(ops: seq<Operation>): (r: seq<nat>)
    ensures |r| == |ops|
    ensures forall i :: 0 <= i < |ops| ==> r[i] == OperationLength(ops[i])
  {
    seq(|ops|, i requires 0 <= i < |ops| => OperationLength(ops[i]))
  }

  lemma {:induction false} LengthsAreRecordLengths(t: Txn, begin: Pos, end: Pos, i: nat)
    requires i < |t.ops| + 2
    ensures RecordLen(Records(t, begin, end)[i]) == Lengths(t)[i]
  {
    if 0 < i <= |t.ops| {
      assert Records(t, begin, end)[i] == OperationRecord(t.seqNo, t.uuid, i - 1, t.ops[i - 1]);
      assert Lengths(t)[i] == OperationLengths(t.ops)[i - 1];
    }
  }

  // ---------------------------------------------------------------- placements and pieces

  /** The first `n` placements, one after the other. */
  function PlanAll(lengths: seq<nat>, n: nat, p: Pos, g: Geometry): (r: Result<(seq<Placement>, Pos)>)
    requires GeometryValid(g) && n <= |lengths|
    ensures r.Ok? ==> |r.value.0| == n
  {
    if n == 0 then Ok(([], p))
    else
      var earlier :- PlanAll(lengths, n - 1, p, g);
      var last :- PlanRecord(earlier.1, lengths[n - 1], g);
      Ok((earlier.0 + [last.0], last.1))
  }

  function PreludePiece(prelude: Prelude, t: Txn): Piece {
    match prelude
    case PageHeaderAt(position, page) => Piece(position, PageHeaderContent(position.file, page))
    case FileHeaderAt(position) => Piece(position, FileHeaderContent(t.database, position.file))
    case PageEndAt(position, len) => Piece(position, RecordContent(PageEnd(t.seqNo, t.uuid, len)))
  }

  function PreludePieces(preludes: seq<Prelude>, t: Txn): (r: seq<Piece>)
    ensures |r| == |preludes|
    ensures forall i :: 0 <= i < |preludes| ==> r[i] == PreludePiece(preludes[i], t)
  {
    seq(|preludes|, i requires 0 <= i < |preludes| => PreludePiece(preludes[i], t))
  }

  function PlacementPieces(placement: Placement, r: Record, t: Txn): seq<Piece> {
    PreludePieces(placement.preludes, t) + [Piece(placement.start, RecordContent(r))]
  }

  /** The pieces of the first `n` records, in writing order. */
  function PiecesThrough(placements: seq<Placement>, records: seq<Record>, n: nat, t: Txn): seq<Piece>
    requires n <= |placements| && n <= |records|
  {
    if n == 0 then []
    else PiecesThrough(placements, records, n - 1, t) + PlacementPieces(placements[n - 1], records[n - 1], t)
  }

  function ChunksOf(pieces: seq<Piece>): (r: seq<Chunk>)
    ensures |r| == |pieces|
    ensures forall i :: 0 <= i < |pieces| ==> r[i] == ChunkOf(pieces[i])
  {
    seq(|pieces|, i requires 0 <= i < |pieces| => ChunkOf(pieces[i]))
  }

  function PointerTo(placement: Placement, op: Operation): Option<ValuePointer> {
    match op
    case Put(_, value) => Some(ValuePointer(0, placement.start.file, placement.start.offset, placement.len, |value|))
    case Delete(_) => None
  }

  function PointersFor(placements: seq<Placement>, ops: seq<Operation>): (r: Pointers)
    requires |placements| == |ops| + 2
    ensures |r| == |ops|
    ensures forall i :: 0 <= i < |ops| ==> r[i] == PointerTo(placements[i + 1], ops[i])
  {
    seq(|ops|, i requires 0 <= i < |ops| => PointerTo(placements[i + 1], ops[i]))
  }

  datatype PreparedEnvelope = PreparedEnvelope(
    seqNo: nat, uuid: Bytes, begin: Pos, end: Pos, crc: Word, chunks: seq<Chunk>, pointers: Pointers)

  function Prepared(t: Txn, begin: Pos, g: Geometry): Result<PreparedEnvelope>
    requires GeometryValid(g)
  {
    if !TxnValid(t) then Err(InvalidArgument)
    else
      var plan :- PlanAll(Lengths(t), |t.ops| + 2, begin, g);
      var (placements, end) := plan;
      Ok(PreparedEnvelope(
           t.seqNo, t.uuid, begin, end, EnvelopeCrc(t, begin, end),
           ChunksOf(PiecesThrough(placements, Records(t, begin, end), |t.ops| + 2, t)), PointersFor(placements, t.ops)))
  }

  // ---------------------------------------------------------------- the writer

  /** The first loop: limits, distinct keys, record lengths and counts. */
  method MeasureOperations(ops: seq<Operation>)
    returns (ok: bool, keys: set<Bytes>, lengths: seq<nat>, puts: nat, deletes: nat)
    ensures ok <==> forall i :: 0 <= i < |ops| ==> OperationValid(ops[i])
    ensures ok ==> keys == KeySet(ops) && lengths == OperationLengths(ops)
    ensures ok ==> puts == PutCount(ops) && deletes == DeleteCount(ops)
  {
    keys, lengths, puts, deletes := {}, [], 0, 0;
    for i := 0 to |ops|
      invariant forall j :: 0 <= j < i ==> OperationValid(ops[j])
      invariant keys == KeySet(ops[..i]) && lengths == OperationLengths(ops)[..i]
      invariant puts == PutCount(ops[..i]) && deletes == DeleteCount(ops[..i])
    {
      assert ops[..i + 1][..i] == ops[..i];
      var key := ops[i].key;
      if |key| == 0 || |key| > MAX_KEY_VALUE_SIZE {
        return false, keys, lengths, puts, deletes;
      }
      keys := keys + {key};
      match ops[i] {
        case Put(_, value) =>
          if |key| + |value| > MAX_KEY_VALUE_SIZE {
            return false, keys, lengths, puts, deletes;
          }
          lengths := lengths + [KV_RECORD_FIXED_LEN + |key| + |value|];
          puts := puts + 1;
        case Delete(_) =>
          lengths := lengths + [DELETE_FIXED_LEN + |key|];
          deletes := deletes + 1;
      }
    }
    assert ops[..|ops|] == ops;
    return true, keys, lengths, puts, deletes;
  }

  method PlanPlacements(planner: LayoutPlanner, lengths: seq<nat>) returns (r: Result<seq<Placement>>)
    requires GeometryValid(planner.geometry)
    modifies planner
    ensures var e := PlanAll(lengths, |lengths|, old(planner.position), planner.geometry);
            if e.Ok? then r == Ok(e.value.0) && planner.position == e.value.1 else r.Err? && r.error == e.error
  {
    var g := planner.geometry;
    ghost var p := planner.position;
    var placements: seq<Placement> := [];
    for i := 0 to |lengths|
      invariant PlanAll(lengths, i, p, g) == Ok((placements, planner.position))
    {
      var placement := planner.Plan(lengths[i]);
      if placement.Err? {
        PlanFailureStays(lengths, i + 1, |lengths|, p, g);
        return Err(placement.error);
      }
      placements := placements + [placement.value];
    }
    return Ok(placements);
  }

  lemma {:induction false} PlanFailureStays(lengths: seq<nat>, i: nat, n: nat, p: Pos, g: Geometry)
    requires GeometryValid(g) && i <= n <= |lengths| && PlanAll(lengths, i, p, g).Err?
    ensures PlanAll(lengths, n, p, g) == PlanAll(lengths, i, p, g)
    decreases n
  {
    if i < n { PlanFailureStays(lengths, i, n - 1, p, g); }
  }

  method ChecksumBody(body: seq<Record>) returns (crc: Word)
    ensures crc == CrcThrough(body, |body|)
  {
    crc := Crc(ENVELOPE_MAGIC);
    for i := 0 to |body|
      invariant crc == CrcThrough(body, i)
    {
      crc := UpdateCrc(crc, body[i]);
    }
  }

  /** append_placement for every record. */
  method AssembleChunks(placements: seq<Placement>, records: seq<Record>, t: Txn) returns (chunks: seq<Chunk>)
    requires |placements| == |records|
    ensures chunks == ChunksOf(PiecesThrough(placements, records, |records|, t))
  {
    chunks := [];
    ghost var pieces: seq<Piece> := [];
    for i := 0 to |records|
      invariant pieces == PiecesThrough(placements, records, i, t) && chunks == ChunksOf(pieces)
    {
      var more := PlacementPieces(placements[i], records[i], t);
      ChunksConcat(pieces, more);
      chunks := chunks + ChunksOf(more);
      pieces := pieces + more;
    }
  }

  lemma {:induction false} ChunksConcat(a: seq<Piece>, b: seq<Piece>)
    ensures ChunksOf(a + b) == ChunksOf(a) + ChunksOf(b)
  {
  }

  method CollectPointers(placements: seq<Placement>, ops: seq<Operation>) returns (pointers: Pointers)
    requires |placements| == |ops| + 2
    ensures pointers == PointersFor(placements, ops)
  {
    pointers := [];
    for i := 0 to |ops|
      invariant pointers == PointersFor(placements, ops)[..i]
    {
      pointers := pointers + [PointerTo(placements[i + 1], ops[i])];
    }
  }

  /** prepare_envelope: the planner moves only if the whole envelope could be prepared. */
  method PrepareEnvelope(planner: LayoutPlanner, t: Txn) returns (r: Result<PreparedEnvelope>)
    requires GeometryValid(planner.geometry) && t.seqNo <= U64_MAX && |t.ops| <= U64_MAX
    modifies planner
    ensures var e := Prepared(t, old(planner.position), planner.geometry);
            if e.Ok? then r == e && planner.position == e.value.end
            else r.Err? && r.error == e.error && planner.position == old(planner.position)
  {
    if t.seqNo == 0 || !UuidValid(t.uuid) || !UuidValid(t.database) || |t.ops| == 0 {
      return Err(InvalidArgument);
    }
    var ok, keys, lengths, puts, deletes := MeasureOperations(t.ops);
    if !ok {
      return Err(InvalidArgument);
    }
    var begin := planner.position;
    var candidate := new LayoutPlanner(planner.geometry, begin);
    assert [TX_BEGIN_LEN] + lengths + [TX_PREPARED_END_LEN] == Lengths(t);
    var placed := PlanPlacements(candidate, [TX_BEGIN_LEN] + lengths + [TX_PREPARED_END_LEN]);
    if placed.Err? {
      return Err(placed.error);
    }
    var end := candidate.position;
    var body := [TxBegin(t.seqNo, t.uuid, begin, |t.ops|, |keys|)] + OperationRecords(t.seqNo, t.uuid, t.ops);
    var bodyCrc := ChecksumBody(body);
    var footer := TxPreparedEnd(t.seqNo, t.uuid, begin, end, |t.ops|, |keys|, puts, deletes, 0);
    var crc := UpdateCrc(bodyCrc, footer);
    var chunks := AssembleChunks(placed.value, body + [footer.(crc := crc)], t);
    var pointers := CollectPointers(placed.value, t.ops);
    planner.position := end;
    return Ok(PreparedEnvelope(t.seqNo, t.uuid, begin, end, crc, chunks, pointers));
  }
}
