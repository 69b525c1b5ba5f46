/**
 * The system entries of the index as bytes (src/commit/descriptor.rs): the durable frontier, the
 * recovery state and the database identity, each sealed by a checksum.
 */
module SystemCodec {
  import opened Basics
  import opened Index
  import opened Topology
  import opened History
  import opened Recovery
  import opened ByteCodec
  import opened VLogCodec
  import opened DescriptorCodec

  const FRONTIER_LEN: nat := 39
  const RECOVERY_STATE_LEN: nat := 57
  const IDENTITY_LEN: nat := 32
  const FRONTIER_MAGIC: Bytes := [0x52, 0x4B, 0x44, 0x46]
  const RECOVERY_STATE_MAGIC: Bytes := [0x52, 0x4B, 0x52, 0x53]
  const IDENTITY_MAGIC: Bytes := [0x52, 0x4B, 0x44, 0x49]

  // ---------------------------------------------------------------- the tagged end

  function EndTag(end: VLogEnd): byte {
    if end.Empty? then 0 else 1
  }

  /** write_durable_end: an empty end leaves its position bytes zero. */
  function EndFields(end: VLogEnd): seq<Bytes> {
    [[EndTag(end)], Le(AppendPosition(end).file, 4), Le(AppendPosition(end).offset, 8)]
  }

  /** read_durable_end: the tag and the position must agree. */
  function ReadEnd(b: Bytes, at: nat): Result<VLogEnd>
    requires at + 13 <= |b|
  {
    var p := Pos(ReadLe(b, at + 1, 4), ReadLe(b, at + 5, 8));
    if b[at] == 0 && p == Pos(0, 0) then Ok(Empty)
    else if b[at] == 1 && PosValid(p) then Ok(At(p))
    else Err(Corruption)
  }

  predicate EndValid(end: VLogEnd) {
    end.At? ==> PosValid(end.pos)
  }

  lemma {:induction false} EndReads(b: Bytes, at: nat, end: VLogEnd)
    requires at + 13 <= |b| && EndValid(end) && b[at] == EndTag(end)
    requires ReadLe(b, at + 1, 4) == AppendPosition(end).file && ReadLe(b, at + 5, 8) == AppendPosition(end).offset
    ensures ReadEnd(b, at) == Ok(end)
  {
  }

  /** An accepted end is exactly the encoding of what it decodes to: an empty one is all zero bytes. */
  lemma {:induction false} EndIsCut(b: Bytes, at: nat)
    requires at + 13 <= |b| && ReadEnd(b, at).Ok?
    ensures var end := ReadEnd(b, at).value;
            && EndValid(end) && [EndTag(end)] == b[at..at + 1]
            && Le(AppendPosition(end).file, 4) == b[at + 1..at + 5]
            && Le(AppendPosition(end).offset, 8) == b[at + 5..at + 13]
  {
    NumberIsCut(b, at + 1, 4);
    NumberIsCut(b, at + 5, 8);
  }

  // ---------------------------------------------------------------- the durable frontier

  /** What DurableFrontier::encode accepts. */
  predicate FrontierFits(f: Frontier) {
    FrontierValid(f) && f.seqNo <= U64_MAX
  }

  function FrontierFields(f: Frontier): seq<Bytes> {
    [FRONTIER_MAGIC, Le(0, 2), Le(f.seqNo, 8), Le(f.vlogSeq, 8)] + EndFields(f.end)
  }

  function EncodeFrontier(f: Frontier): Result<Bytes> {
    if FrontierValid(f) then Ok(Sealed(FrontierFields(f))) else Err(InvalidArgument)
  }

  function DecodeFrontier(b: Bytes): Result<Frontier> {
    if |b| != FRONTIER_LEN || b[..4] != FRONTIER_MAGIC || !SealHolds(b) then Err(Corruption)
    else if ReadLe(b, 4, 2) != 0 then Err(IncompatibleFormat)
    else
      var end :- ReadEnd(b, 22);
      var f := Frontier(ReadLe(b, 6, 8), ReadLe(b, 14, 8), end);
      if FrontierValid(f) then Ok(f) else Err(Corruption)
  }

  predicate FrontierFieldsOf(g: seq<Bytes>, f: Frontier) {
    && |g| == 7 && g[0] == FRONTIER_MAGIC && g[1] == Le(0, 2) && g[2] == Le(f.seqNo, 8) && g[3] == Le(f.vlogSeq, 8)
    && g[4] == [EndTag(f.end)] && g[5] == Le(AppendPosition(f.end).file, 4) && g[6] == Le(AppendPosition(f.end).offset, 8)
  }

  lemma {:induction false} FrontierOffsets(g: seq<Bytes>, f: Frontier)
    requires FrontierFieldsOf(g, f)
    ensures Start(g, 0) == 0 && Start(g, 1) == 4 && Start(g, 2) == 6 && Start(g, 3) == 14 && Start(g, 4) == 22
    ensures Start(g, 5) == 23 && Start(g, 6) == 27 && Start(g, 7) == 35
  {
    assert Start(g, 1) == 4;
    assert Start(g, 2) == 6;
    assert Start(g, 3) == 14;
    assert Start(g, 4) == 22;
    assert Start(g, 5) == 23;
    assert Start(g, 6) == 27;
  }

  lemma {:induction false} FrontierReads(g: seq<Bytes>, f: Frontier)
    requires FrontierFits(f) && FrontierFieldsOf(g, f)
    ensures |Sealed(g)| == FRONTIER_LEN && DecodeFrontier(Sealed(g)) == Ok(f)
  {
    Ranges();
    FrontierOffsets(g, f);
    SealedHolds(g);
    var b, p := Sealed(g), AppendPosition(f.end);
    assert b[0..4] == FRONTIER_MAGIC by { SealedField(g, 0); }
    assert ReadLe(b, 4, 2) == 0 by { SealedNumber(g, 1, 0, 2); }
    assert ReadLe(b, 6, 8) == f.seqNo by { SealedNumber(g, 2, f.seqNo, 8); }
    assert ReadLe(b, 14, 8) == f.vlogSeq by { SealedNumber(g, 3, f.vlogSeq, 8); }
    assert b[22..23] == [EndTag(f.end)] by { SealedField(g, 4); }
    assert ReadLe(b, 23, 4) == p.file by { SealedNumber(g, 5, p.file, 4); }
    assert ReadLe(b, 27, 8) == p.offset by { SealedNumber(g, 6, p.offset, 8); }
    FrontierDecodes(b, f);
  }

  lemma {:induction false} FrontierDecodes(b: Bytes, f: Frontier)
    requires FrontierFits(f) && |b| == FRONTIER_LEN && b[0..4] == FRONTIER_MAGIC && SealHolds(b) && ReadLe(b, 4, 2) == 0
    requires ReadLe(b, 6, 8) == f.seqNo && ReadLe(b, 14, 8) == f.vlogSeq && b[22..23] == [EndTag(f.end)]
    requires ReadLe(b, 23, 4) == AppendPosition(f.end).file && ReadLe(b, 27, 8) == AppendPosition(f.end).offset
    ensures DecodeFrontier(b) == Ok(f)
  {
    assert b[22] == b[22..23][0];
    EndReads(b, 22, f.end);
  }

  /** Every frontier that can be encoded decodes to itself. */
  lemma {:induction false} FrontierRoundTrip(f: Frontier)
    requires FrontierFits(f)
    ensures EncodeFrontier(f).Ok? && |EncodeFrontier(f).value| == FRONTIER_LEN
    ensures DecodeFrontier(EncodeFrontier(f).value) == Ok(f)
  {
    FrontierReads(FrontierFields(f), f);
  }

  /** Accepted frontier bytes are exactly the encoding of what they decode to. */
  lemma {:induction false} DecodedFrontierIsEncoded(b: Bytes)
    requires DecodeFrontier(b).Ok?
    ensures FrontierFits(DecodeFrontier(b).value) && EncodeFrontier(DecodeFrontier(b).value) == Ok(b)
  {
    var f := DecodeFrontier(b).value;
    FrontierIsCut(FrontierFields(f), b, f);
  }

  lemma {:induction false} FrontierIsCut(g: seq<Bytes>, b: Bytes, f: Frontier)
    requires DecodeFrontier(b) == Ok(f) && FrontierFieldsOf(g, f)
    ensures Sealed(g) == b && f.seqNo <= U64_MAX
  {
    Ranges();
    FrontierOffsets(g, f);
    EndIsCut(b, 22);
    NumberIsCut(b, 4, 2);
    NumberIsCut(b, 6, 8);
    NumberIsCut(b, 14, 8);
    forall i | 0 <= i < 7 ensures CutAt(g, b, i) {
      assert i == 0 || i == 1 || i == 2 || i == 3 || i == 4 || i == 5 || i == 6;
    }
    SealedIsCut(g, b);
  }

  // ---------------------------------------------------------------- the recovery state

  /** What RecoveryState::encode accepts. */
  predicate RecoveryStateFits(rs: RecoveryState) {
    RecoveryStateValid(rs) && rs.originalHead <= U64_MAX
  }

  function PhaseByte(phase: Phase): byte {
    match phase
    case Undo => 1
    case Trim => 2
    case Finalize => 3
  }

  function PhaseFrom(b: byte): Phase {
    if b == 1 then Undo else if b == 2 then Trim else Finalize
  }

  function BoolByte(value: bool): byte {
    if value then 1 else 0
  }

  function RecoveryStateFields(rs: RecoveryState): seq<Bytes> {
    [RECOVERY_STATE_MAGIC, Le(0, 2), [PhaseByte(rs.phase)], Le(rs.originalHead, 8), Le(rs.target.seqNo, 8), Le(rs.target.vlogSeq, 8)]
    + EndFields(rs.target.end) + [Le(rs.nextUndo, 8), [BoolByte(rs.trimRequired)]]
  }

  function EncodeRecoveryState(rs: RecoveryState): Result<Bytes> {
    if RecoveryStateValid(rs) then Ok(Sealed(RecoveryStateFields(rs))) else Err(InvalidArgument)
  }

  function DecodeRecoveryState(b: Bytes): Result<RecoveryState> {
    if |b| != RECOVERY_STATE_LEN || b[..4] != RECOVERY_STATE_MAGIC || !SealHolds(b) then Err(Corruption)
    else if ReadLe(b, 4, 2) != 0 then Err(IncompatibleFormat)
    else if !(1 <= b[6] <= 3) || b[52] > 1 then Err(Corruption)
    else
      var end :- ReadEnd(b, 31);
      var target := Frontier(ReadLe(b, 15, 8), ReadLe(b, 23, 8), end);
      var rs := RecoveryState(PhaseFrom(b[6]), ReadLe(b, 7, 8), target, ReadLe(b, 44, 8), b[52] == 1);
      if RecoveryStateValid(rs) then Ok(rs) else Err(Corruption)
  }

  predicate RecoveryFieldsOf(g: seq<Bytes>, rs: RecoveryState) {
    && |g| == 11 && g[0] == RECOVERY_STATE_MAGIC && g[1] == Le(0, 2) && g[2] == [PhaseByte(rs.phase)]
    && g[3] == Le(rs.originalHead, 8) && g[4] == Le(rs.target.seqNo, 8) && g[5] == Le(rs.target.vlogSeq, 8)
    && g[6] == [EndTag(rs.target.end)] && g[7] == Le(AppendPosition(rs.target.end).file, 4)
    && g[8] == Le(AppendPosition(rs.target.end).offset, 8)
    && g[9] == Le(rs.nextUndo, 8) && g[10] == [BoolByte(rs.trimRequired)]
  }

  lemma {:induction false} RecoveryFieldsAre(rs: RecoveryState)
    ensures RecoveryFieldsOf(RecoveryStateFields(rs), rs)
  {
    var e := EndFields(rs.target.end);
    var g := RecoveryStateFields(rs);
    assert |e| == 3 && g[6] == e[0] && g[7] == e[1] && g[8] == e[2];
  }

  lemma {:induction false} RecoveryOffsets(g: seq<Bytes>, rs: RecoveryState)
    requires RecoveryFieldsOf(g, rs)
    ensures Start(g, 0) == 0 && Start(g, 1) == 4 && Start(g, 2) == 6 && Start(g, 3) == 7 && Start(g, 4) == 15
    ensures Start(g, 5) == 23 && Start(g, 6) == 31 && Start(g, 7) == 32 && Start(g, 8) == 36 && Start(g, 9) == 44
    ensures Start(g, 10) == 52 && Start(g, 11) == 53
  {
    assert Start(g, 1) == 4;
    assert Start(g, 2) == 6;
    assert Start(g, 3) == 7;
    assert Start(g, 4) == 15;
    assert Start(g, 5) == 23;
    assert Start(g, 6) == 31;
    assert Start(g, 7) == 32;
    assert Start(g, 8) == 36;
    assert Start(g, 9) == 44;
    assert Start(g, 10) == 52;
  }

  lemma {:induction false} RecoveryReads(g: seq<Bytes>, rs: RecoveryState)
    requires RecoveryStateFits(rs) && RecoveryFieldsOf(g, rs)
    ensures |Sealed(g)| == RECOVERY_STATE_LEN && DecodeRecoveryState(Sealed(g)) == Ok(rs)
  {
    Ranges();
    RecoveryOffsets(g, rs);
    SealedHolds(g);
    var b, p := Sealed(g), AppendPosition(rs.target.end);
    assert b[0..4] == RECOVERY_STATE_MAGIC by { SealedField(g, 0); }
    assert ReadLe(b, 4, 2) == 0 by { SealedNumber(g, 1, 0, 2); }
    assert b[6..7] == [PhaseByte(rs.phase)] by { SealedField(g, 2); }
    assert ReadLe(b, 7, 8) == rs.originalHead by { SealedNumber(g, 3, rs.originalHead, 8); }
    assert ReadLe(b, 15, 8) == rs.target.seqNo by { SealedNumber(g, 4, rs.target.seqNo, 8); }
    assert ReadLe(b, 23, 8) == rs.target.vlogSeq by { SealedNumber(g, 5, rs.target.vlogSeq, 8); }
    assert b[31..32] == [EndTag(rs.target.end)] by { SealedField(g, 6); }
    assert ReadLe(b, 32, 4) == p.file by { SealedNumber(g, 7, p.file, 4); }
    assert ReadLe(b, 36, 8) == p.offset by { SealedNumber(g, 8, p.offset, 8); }
    assert ReadLe(b, 44, 8) == rs.nextUndo by { SealedNumber(g, 9, rs.nextUndo, 8); }
    assert b[52..53] == [BoolByte(rs.trimRequired)] by { SealedField(g, 10); }
    RecoveryDecodes(b, rs);
  }

  lemma {:induction false} RecoveryDecodes(b: Bytes, rs: RecoveryState)
    requires RecoveryStateFits(rs) && |b| == RECOVERY_STATE_LEN && b[0..4] == RECOVERY_STATE_MAGIC && SealHolds(b)
    requires ReadLe(b, 4, 2) == 0 && b[6..7] == [PhaseByte(rs.phase)] && ReadLe(b, 7, 8) == rs.originalHead
    requires ReadLe(b, 15, 8) == rs.target.seqNo && ReadLe(b, 23, 8) == rs.target.vlogSeq
    requires b[31..32] == [EndTag(rs.target.end)]
    requires ReadLe(b, 32, 4) == AppendPosition(rs.target.end).file && ReadLe(b, 36, 8) == AppendPosition(rs.target.end).offset
    requires ReadLe(b, 44, 8) == rs.nextUndo && b[52..53] == [BoolByte(rs.trimRequired)]
    ensures DecodeRecoveryState(b) == Ok(rs)
  {
    assert b[6] == b[6..7][0] && b[31] == b[31..32][0] && b[52] == b[52..53][0];
    EndReads(b, 31, rs.target.end);
  }

  /** Every recovery state that can be encoded decodes to itself. */
  lemma {:induction false} RecoveryStateRoundTrip(rs: RecoveryState)
    requires RecoveryStateFits(rs)
    ensures EncodeRecoveryState(rs).Ok? && |EncodeRecoveryState(rs).value| == RECOVERY_STATE_LEN
    ensures DecodeRecoveryState(EncodeRecoveryState(rs).value) == Ok(rs)
  {
    RecoveryFieldsAre(rs);
    RecoveryReads(RecoveryStateFields(rs), rs);
  }

  /** Accepted recovery state bytes are exactly the encoding of what they decode to. */
  lemma {:induction false} DecodedRecoveryStateIsEncoded(b: Bytes)
    requires DecodeRecoveryState(b).Ok?
    ensures RecoveryStateFits(DecodeRecoveryState(b).value)
    ensures EncodeRecoveryState(DecodeRecoveryState(b).value) == Ok(b)
  {
    var rs := DecodeRecoveryState(b).value;
    RecoveryFieldsAre(rs);
    RecoveryIsCut(RecoveryStateFields(rs), b, rs);
  }

  /** What an accepted recovery state says about its bytes. */
  predicate RecoveryReadFrom(b: Bytes, rs: RecoveryState) {
    && |b| == RECOVERY_STATE_LEN && b[..4] == RECOVERY_STATE_MAGIC && ReadLe(b, 4, 2) == 0
    && b[6] == PhaseByte(rs.phase) && b[52] == BoolByte(rs.trimRequired)
    && ReadLe(b, 7, 8) == rs.originalHead && ReadLe(b, 15, 8) == rs.target.seqNo && ReadLe(b, 23, 8) == rs.target.vlogSeq
    && ReadEnd(b, 31) == Ok(rs.target.end) && ReadLe(b, 44, 8) == rs.nextUndo
  }

  lemma {:induction false} RecoveryIsCut(g: seq<Bytes>, b: Bytes, rs: RecoveryState)
    requires DecodeRecoveryState(b) == Ok(rs) && RecoveryFieldsOf(g, rs)
    ensures Sealed(g) == b && rs.originalHead <= U64_MAX
  {
    assert RecoveryReadFrom(b, rs) && SealHolds(b);
    RecoveryFieldsAreCut(g, b, rs);
    SealedIsCut(g, b);
  }

  lemma {:induction false} RecoveryFieldsAreCut(g: seq<Bytes>, b: Bytes, rs: RecoveryState)
    requires RecoveryReadFrom(b, rs) && RecoveryFieldsOf(g, rs)
    ensures Start(g, 11) == 53 && rs.originalHead <= U64_MAX && forall i :: 0 <= i < 11 ==> CutAt(g, b, i)
  {
    Ranges();
    RecoveryOffsets(g, rs);
    NumberIsCut(b, 7, 8);
    forall i | 0 <= i < 11 ensures CutAt(g, b, i) {
      if i < 6 { RecoveryFrontIsCut(g, b, rs, i); } else { RecoveryRestIsCut(g, b, rs, i); }
    }
  }

  lemma {:induction false} RecoveryFrontIsCut(g: seq<Bytes>, b: Bytes, rs: RecoveryState, i: nat)
    requires RecoveryReadFrom(b, rs) && RecoveryFieldsOf(g, rs) && i < 6
    ensures CutAt(g, b, i)
  {
    RecoveryOffsets(g, rs);
    if i == 1 { NumberIsCut(b, 4, 2); }
    else if i == 2 { assert b[6..7] == [b[6]]; }
    else if i == 3 { NumberIsCut(b, 7, 8); }
    else if i == 4 { NumberIsCut(b, 15, 8); }
    else if i == 5 { NumberIsCut(b, 23, 8); }
  }

  lemma {:induction false} RecoveryRestIsCut(g: seq<Bytes>, b: Bytes, rs: RecoveryState, i: nat)
    requires RecoveryReadFrom(b, rs) && RecoveryFieldsOf(g, rs) && 6 <= i < 11
    ensures CutAt(g, b, i)
  {
    RecoveryOffsets(g, rs);
    if i < 9 { EndIsCut(b, 31); }
    else if i == 9 { NumberIsCut(b, 44, 8); }
    else { assert b[52..53] == [b[52]]; }
  }

  // ---------------------------------------------------------------- the database identity

  datatype DatabaseIdentity = DatabaseIdentity(identityVersion: nat, formatVersion: nat, uuid: Bytes, layoutVersion: nat)

  /** What DatabaseIdentity::encode accepts. */
  predicate IdentityEncodable(id: DatabaseIdentity) {
    id.identityVersion == 0 && id.formatVersion == 0 && UuidValid(id.uuid) && id.layoutVersion == 0
  }

  /** What DatabaseIdentity::decode accepts: any format version that fits its field. */
  predicate IdentityDecodable(id: DatabaseIdentity) {
    id.identityVersion == 0 && id.formatVersion <= U32_MAX && UuidValid(id.uuid) && id.layoutVersion == 0
  }

  function IdentityRecord(id: DatabaseIdentity): seq<Bytes> {
    [IDENTITY_MAGIC, Le(id.identityVersion, 2), Le(id.formatVersion, 4), id.uuid, Le(id.layoutVersion, 2)]
  }

  function EncodeIdentity(id: DatabaseIdentity): Result<Bytes> {
    if IdentityEncodable(id) then Ok(Sealed(IdentityRecord(id))) else Err(InvalidArgument)
  }

  function DecodeIdentity(b: Bytes): Result<DatabaseIdentity> {
    if |b| != IDENTITY_LEN || b[..4] != IDENTITY_MAGIC || !SealHolds(b) then Err(Corruption)
    else if ReadLe(b, 4, 2) != 0 || ReadLe(b, 26, 2) != 0 then Err(IncompatibleFormat)
    else if !UuidValid(b[10..26]) then Err(Corruption)
    else Ok(DatabaseIdentity(0, ReadLe(b, 6, 4), b[10..26], 0))
  }

  predicate IdentityFieldsOf(g: seq<Bytes>, id: DatabaseIdentity) {
    && |g| == 5 && g[0] == IDENTITY_MAGIC && g[1] == Le(id.identityVersion, 2) && g[2] == Le(id.formatVersion, 4)
    && g[3] == id.uuid && |id.uuid| == 16 && g[4] == Le(id.layoutVersion, 2)
  }

  lemma {:induction false} IdentityOffsets(g: seq<Bytes>, id: DatabaseIdentity)
    requires IdentityFieldsOf(g, id)
    ensures Start(g, 0) == 0 && Start(g, 1) == 4 && Start(g, 2) == 6 && Start(g, 3) == 10 && Start(g, 4) == 26 && Start(g, 5) == 28
  {
    assert Start(g, 1) == 4;
    assert Start(g, 2) == 6;
    assert Start(g, 3) == 10;
    assert Start(g, 4) == 26;
  }

  lemma {:induction false} IdentityReads(g: seq<Bytes>, id: DatabaseIdentity)
    requires IdentityDecodable(id) && IdentityFieldsOf(g, id)
    ensures |Sealed(g)| == IDENTITY_LEN && DecodeIdentity(Sealed(g)) == Ok(id)
  {
    Ranges();
    IdentityOffsets(g, id);
    SealedHolds(g);
    var b := Sealed(g);
    assert b[0..4] == IDENTITY_MAGIC by { SealedField(g, 0); }
    assert ReadLe(b, 4, 2) == 0 by { SealedNumber(g, 1, 0, 2); }
    assert ReadLe(b, 6, 4) == id.formatVersion by { SealedNumber(g, 2, id.formatVersion, 4); }
    assert b[10..26] == id.uuid by { SealedField(g, 3); }
    assert ReadLe(b, 26, 2) == 0 by { SealedNumber(g, 4, 0, 2); }
  }

  lemma {:induction false} IdentityIsCut(g: seq<Bytes>, b: Bytes, id: DatabaseIdentity)
    requires DecodeIdentity(b) == Ok(id) && IdentityFieldsOf(g, id)
    ensures Sealed(g) == b && id.formatVersion <= U32_MAX
  {
    Ranges();
    IdentityOffsets(g, id);
    NumberIsCut(b, 4, 2);
    NumberIsCut(b, 6, 4);
    NumberIsCut(b, 26, 2);
    forall i | 0 <= i < 5 ensures CutAt(g, b, i) {
      assert i == 0 || i == 1 || i == 2 || i == 3 || i == 4;
    }
    SealedIsCut(g, b);
  }

  /** Every identity that can be encoded decodes to itself. */
  lemma {:induction false} IdentityRoundTrip(id: DatabaseIdentity)
    requires IdentityEncodable(id)
    ensures EncodeIdentity(id).Ok? && |EncodeIdentity(id).value| == IDENTITY_LEN
    ensures DecodeIdentity(EncodeIdentity(id).value) == Ok(id)
  {
    IdentityReads(IdentityRecord(id), id);
  }

  /**
   * Accepted identity bytes hold exactly the fields that they decode to, and encoding those again
   * gives the bytes back if and only if the database format version is 0.
   */
  lemma {:induction false} IdentityReencodes(b: Bytes)
    requires DecodeIdentity(b).Ok?
    ensures var id := DecodeIdentity(b).value;
            && IdentityDecodable(id) && Sealed(IdentityRecord(id)) == b
            && (EncodeIdentity(id) == Ok(b) <==> id.formatVersion == 0)
            && (id.formatVersion != 0 ==> EncodeIdentity(id) == Err(InvalidArgument))
  {
    var id := DecodeIdentity(b).value;
    IdentityIsCut(IdentityRecord(id), b, id);
  }

  /** Such bytes exist for every other version, starting with 1. */
  lemma {:induction false} OtherVersionsDecode(uuid: Bytes, version: nat) returns (b: Bytes)
    requires UuidValid(uuid) && 0 < version <= U32_MAX
    ensures DecodeIdentity(b) == Ok(DatabaseIdentity(0, version, uuid, 0))
    ensures EncodeIdentity(DecodeIdentity(b).value) == Err(InvalidArgument)
  {
    var id := DatabaseIdentity(0, version, uuid, 0);
    b := Sealed(IdentityRecord(id));
    IdentityReads(IdentityRecord(id), id);
  }
}
