/**
 * Transaction descriptors as bytes (src/commit/descriptor.rs): one meta entry, one entry per distinct
 * key, and a checksum over all of them. Encoding and decoding are inverse to each other.
 */
module DescriptorCodec {
  import opened Basics
  import opened Index
  import opened CommitProtocol
  import opened Topology
  import opened History
  import opened Recovery
  import opened ByteCodec
  import opened VLogCodec
  import opened VLogRoundTrip
  import opened VLogPointers
  import opened TxKeys

  const META_LEN: nat := 87
  const META_MAGIC: Bytes := [0x52, 0x4B, 0x54, 0x4D]
  const DESCRIPTOR_MAGIC: Bytes := [0x52, 0x4B, 0x44, 0x45, 0x53, 0x43, 0x30]

  // ---------------------------------------------------------------- the meta entry

  predicate MetaFits(m: TxMeta) {
    && MetaValid(m) && m.seqNo <= U64_MAX && m.opCount <= U64_MAX && m.envelopeCrc <= U32_MAX
  }

  function KindByte(k: TxKind): byte {
    match k
    case VLogEnvelope => 0
    case IndexOnlyDelete => 1
  }

  function IdentityFields(m: TxMeta): seq<Bytes> {
    [META_MAGIC, Le(0, 2), [KindByte(m.kind)], Le(m.seqNo, 8), m.uuid, Le(m.prevSeq, 8)]
  }

  function ExtentFields(m: TxMeta): seq<Bytes> {
    [Le(m.begin.file, 4), Le(m.begin.offset, 8), Le(m.end.file, 4), Le(m.end.offset, 8)]
  }

  function CountFields(m: TxMeta, crc: Word): seq<Bytes> {
    [Le(m.opCount, 8), Le(m.keyCount, 8), Le(m.envelopeCrc, 4), CrcBytes(crc)]
  }

  function MetaFields(m: TxMeta, crc: Word): seq<Bytes> {
    IdentityFields(m) + ExtentFields(m) + CountFields(m, crc)
  }

  function EncodeMeta(m: TxMeta, crc: Word): Bytes {
    Join(MetaFields(m, crc))
  }

  function MetaFrom(b: Bytes): TxMeta
    requires |b| == META_LEN
  {
    TxMeta(if b[6] == 0 then VLogEnvelope else IndexOnlyDelete, ReadLe(b, 7, 8), b[15..31], ReadLe(b, 31, 8),
           Pos(ReadLe(b, 39, 4), ReadLe(b, 43, 8)), Pos(ReadLe(b, 51, 4), ReadLe(b, 55, 8)),
           ReadLe(b, 63, 8), ReadLe(b, 71, 8), ReadLe(b, 79, 4))
  }

  /** decode_tx_meta: the meta entry and the descriptor checksum it carries. */
  function DecodeMeta(b: Bytes): Result<(TxMeta, Word)> {
    if |b| != META_LEN || b[..4] != META_MAGIC then Err(Corruption)
    else if ReadLe(b, 4, 2) != 0 then Err(IncompatibleFormat)
    else if b[6] > 1 || !MetaValid(MetaFrom(b)) then Err(Corruption)
    else Ok((MetaFrom(b), ReadCrc(b, 83)))
  }

  predicate MetaFieldsOf(f: seq<Bytes>, m: TxMeta, crc: Word) {
    && |f| == 14 && f[0] == META_MAGIC && f[1] == Le(0, 2) && f[2] == [KindByte(m.kind)] && f[3] == Le(m.seqNo, 8)
    && f[4] == m.uuid && f[5] == Le(m.prevSeq, 8)
    && f[6] == Le(m.begin.file, 4) && f[7] == Le(m.begin.offset, 8) && f[8] == Le(m.end.file, 4) && f[9] == Le(m.end.offset, 8)
    && f[10] == Le(m.opCount, 8) && f[11] == Le(m.keyCount, 8) && f[12] == Le(m.envelopeCrc, 4) && f[13] == CrcBytes(crc)
  }

  lemma {:induction false} MetaFieldsAre(m: TxMeta, crc: Word)
    ensures MetaFieldsOf(MetaFields(m, crc), m, crc)
  {
    var a, b, c := IdentityFields(m), ExtentFields(m), CountFields(m, crc);
    var f := a + b + c;
    assert |a| == 6 && |b| == 4 && |c| == 4;
    assert f[0] == a[0] && f[1] == a[1] && f[2] == a[2] && f[3] == a[3] && f[4] == a[4] && f[5] == a[5];
    assert f[6] == b[0] && f[7] == b[1] && f[8] == b[2] && f[9] == b[3];
    assert f[10] == c[0] && f[11] == c[1] && f[12] == c[2] && f[13] == c[3];
  }

  lemma {:induction false} MetaOffsets(f: seq<Bytes>, m: TxMeta, crc: Word)
    requires MetaFieldsOf(f, m, crc) && |m.uuid| == 16
    ensures Start(f, 0) == 0 && Start(f, 1) == 4 && Start(f, 2) == 6 && Start(f, 3) == 7 && Start(f, 4) == 15
    ensures Start(f, 5) == 31 && Start(f, 6) == 39 && Start(f, 7) == 43 && Start(f, 8) == 51 && Start(f, 9) == 55
    ensures Start(f, 10) == 63 && Start(f, 11) == 71 && Start(f, 12) == 79 && Start(f, 13) == 83 && Start(f, 14) == META_LEN
  {
    assert Start(f, 1) == 4;
    assert Start(f, 2) == 6;
    assert Start(f, 3) == 7;
    assert Start(f, 4) == 15;
    assert Start(f, 5) == 31;
    assert Start(f, 6) == 39;
    assert Start(f, 7) == 43;
    assert Start(f, 8) == 51;
    assert Start(f, 9) == 55;
    assert Start(f, 10) == 63;
    assert Start(f, 11) == 71;
    assert Start(f, 12) == 79;
    assert Start(f, 13) == 83;
  }

  lemma {:induction false} MetaReads(f: seq<Bytes>, m: TxMeta, crc: Word)
    requires MetaFits(m) && MetaFieldsOf(f, m, crc)
    ensures |Join(f)| == META_LEN && DecodeMeta(Join(f)) == Ok((m, crc))
  {
    Ranges();
    MetaOffsets(f, m, crc);
    JoinLength(f);
    var b := Join(f);
    assert b[0..4] == META_MAGIC by { FieldIn(f, 0, b); }
    assert ReadLe(b, 4, 2) == 0 by { NumberIn(f, 1, 0, 2, b); }
    assert b[6..7] == [KindByte(m.kind)] by { FieldIn(f, 2, b); }
    assert ReadLe(b, 7, 8) == m.seqNo by { NumberIn(f, 3, m.seqNo, 8, b); }
    assert b[15..31] == m.uuid by { FieldIn(f, 4, b); }
    assert ReadLe(b, 31, 8) == m.prevSeq by { NumberIn(f, 5, m.prevSeq, 8, b); }
    assert ReadLe(b, 39, 4) == m.begin.file by { NumberIn(f, 6, m.begin.file, 4, b); }
    assert ReadLe(b, 43, 8) == m.begin.offset by { NumberIn(f, 7, m.begin.offset, 8, b); }
    assert ReadLe(b, 51, 4) == m.end.file by { NumberIn(f, 8, m.end.file, 4, b); }
    assert ReadLe(b, 55, 8) == m.end.offset by { NumberIn(f, 9, m.end.offset, 8, b); }
    assert ReadLe(b, 63, 8) == m.opCount by { NumberIn(f, 10, m.opCount, 8, b); }
    assert ReadLe(b, 71, 8) == m.keyCount by { NumberIn(f, 11, m.keyCount, 8, b); }
    assert ReadLe(b, 79, 4) == m.envelopeCrc by { NumberIn(f, 12, m.envelopeCrc, 4, b); }
    assert ReadLe(b, 83, 4) == crc by { NumberIn(f, 13, crc, 4, b); }
    MetaDecodes(b, m, crc);
  }

  lemma {:induction false} MetaDecodes(b: Bytes, m: TxMeta, crc: Word)
    requires MetaFits(m) && |b| == META_LEN && b[0..4] == META_MAGIC && ReadLe(b, 4, 2) == 0
    requires b[6..7] == [KindByte(m.kind)] && ReadLe(b, 7, 8) == m.seqNo && b[15..31] == m.uuid && ReadLe(b, 31, 8) == m.prevSeq
    requires ReadLe(b, 39, 4) == m.begin.file && ReadLe(b, 43, 8) == m.begin.offset
    requires ReadLe(b, 51, 4) == m.end.file && ReadLe(b, 55, 8) == m.end.offset
    requires ReadLe(b, 63, 8) == m.opCount && ReadLe(b, 71, 8) == m.keyCount && ReadLe(b, 79, 4) == m.envelopeCrc
    requires ReadLe(b, 83, 4) == crc
    ensures DecodeMeta(b) == Ok((m, crc))
  {
    assert b[6] == b[6..7][0];
    assert MetaFrom(b) == m;
  }

  lemma {:induction false} MetaRoundTrip(m: TxMeta, crc: Word)
    requires MetaFits(m)
    ensures |EncodeMeta(m, crc)| == META_LEN && DecodeMeta(EncodeMeta(m, crc)) == Ok((m, crc))
  {
    MetaFieldsAre(m, crc);
    MetaReads(MetaFields(m, crc), m, crc);
  }

  /** Accepted meta bytes are exactly the encoding of what they decode to. */
  lemma {:induction false} DecodedMetaIsEncoded(b: Bytes)
    requires DecodeMeta(b).Ok?
    ensures var (m, crc) := DecodeMeta(b).value; MetaFits(m) && EncodeMeta(m, crc) == b
  {
    var (m, crc) := DecodeMeta(b).value;
    Ranges();
    MetaFieldsAre(m, crc);
    MetaIsCut(MetaFields(m, crc), b, m, crc);
  }

  lemma {:induction false} MetaIsCut(f: seq<Bytes>, b: Bytes, m: TxMeta, crc: Word)
    requires |b| == META_LEN && b[..4] == META_MAGIC && ReadLe(b, 4, 2) == 0 && b[6] <= 1 && m == MetaFrom(b) && crc == ReadCrc(b, 83)
    requires MetaFieldsOf(f, m, crc)
    ensures Join(f) == b
    ensures m.seqNo <= U64_MAX && m.opCount <= U64_MAX && m.envelopeCrc <= U32_MAX
  {
    Ranges();
    MetaOffsets(f, m, crc);
    MetaNumbersAreCut(b);
    assert b[6..7] == [b[6]];
    forall i | 0 <= i < 14 ensures CutAt(f, b, i) {
      MetaFieldIsCut(f, b, m, crc, i);
    }
    CutJoin(f, b, 14);
    assert f[..14] == f && b[..META_LEN] == b;
  }

  lemma {:induction false} MetaNumbersAreCut(b: Bytes)
    requires |b| == META_LEN
    ensures ReadLe(b, 7, 8) < Range(8) && ReadLe(b, 63, 8) < Range(8) && ReadLe(b, 79, 4) < Range(4)
  {
    NumberIsCut(b, 7, 8);
    NumberIsCut(b, 63, 8);
    NumberIsCut(b, 79, 4);
  }

  lemma {:induction false} MetaFieldIsCut(f: seq<Bytes>, b: Bytes, m: TxMeta, crc: Word, i: nat)
    requires |b| == META_LEN && b[..4] == META_MAGIC && ReadLe(b, 4, 2) == 0 && b[6] <= 1 && m == MetaFrom(b) && crc == ReadCrc(b, 83)
    requires MetaFieldsOf(f, m, crc) && i < 14
    ensures CutAt(f, b, i)
  {
    MetaOffsets(f, m, crc);
    if i == 1 { NumberIsCut(b, 4, 2); }
    else if i == 2 { assert b[6..7] == [b[6]]; }
    else if i == 3 { NumberIsCut(b, 7, 8); }
    else if i == 5 { NumberIsCut(b, 31, 8); }
    else if i == 6 { NumberIsCut(b, 39, 4); }
    else if i == 7 { NumberIsCut(b, 43, 8); }
    else if i == 8 { NumberIsCut(b, 51, 4); }
    else if i == 9 { NumberIsCut(b, 55, 8); }
    else if i == 10 { NumberIsCut(b, 63, 8); }
    else if i == 11 { NumberIsCut(b, 71, 8); }
    else if i == 12 { NumberIsCut(b, 79, 4); }
    else if i == 13 { NumberIsCut(b, 83, 4); }
  }

  // ---------------------------------------------------------------- pointers, states and mutations

  /** Accepted pointer bytes are exactly the encoding of the pointer. */
  lemma {:induction false} DecodedPointerIsEncoded(b: Bytes)
    requires DecodePointer(b).Ok?
    ensures PointerValid(DecodePointer(b).value) && DecodePointer(b).value.recordOffset <= U32_MAX
    ensures EncodePointer(DecodePointer(b).value) == b
  {
    var p := DecodePointer(b).value;
    PointerIsCut(PointerFields(p), b, p);
  }

  lemma {:induction false} PointerIsCut(f: seq<Bytes>, b: Bytes, p: ValuePointer)
    requires |b| == POINTER_LEN && ReadLe(b, 0, 2) == 0
    requires p == ValuePointer(0, ReadLe(b, 2, 4), ReadLe(b, 6, 4), ReadLe(b, 10, 4), ReadLe(b, 14, 2))
    requires |f| == 5 && f[0] == Le(0, 2) && f[1] == Le(p.file, 4) && f[2] == Le(p.recordOffset, 4)
    requires f[3] == Le(p.recordLen, 4) && f[4] == Le(p.valueLen, 2)
    ensures Join(f) == b && p.recordOffset <= U32_MAX
  {
    Ranges();
    assert Start(f, 0) == 0;
    assert Start(f, 1) == 2;
    assert Start(f, 2) == 6;
    assert Start(f, 3) == 10;
    assert Start(f, 4) == 14;
    assert Start(f, 5) == 16;
    NumberIsCut(b, 0, 2);
    NumberIsCut(b, 2, 4);
    NumberIsCut(b, 6, 4);
    NumberIsCut(b, 10, 4);
    NumberIsCut(b, 14, 2);
    forall i | 0 <= i < 5 ensures CutAt(f, b, i) {
      assert i == 0 || i == 1 || i == 2 || i == 3 || i == 4;
    }
    CutJoin(f, b, 5);
    assert f[..5] == f && b[..16] == b;
  }

  function EncodeState(s: ValueState): Bytes {
    match s
    case Absent => [0]
    case Present(pointer) => [1] + EncodePointer(pointer)
  }

  /** The state at the front of the bytes and how many bytes it takes. */
  function DecodeState(b: Bytes): Result<(ValueState, nat)> {
    if b == [] then Err(Corruption)
    else if b[0] == 0 then Ok((Absent, 1))
    else if b[0] != 1 || |b| < 1 + POINTER_LEN then Err(Corruption)
    else
      var pointer :- DecodePointer(b[1..1 + POINTER_LEN]);
      Ok((Present(pointer), 1 + POINTER_LEN))
  }

  /** A present state must point at a record of the mutation's own key length. */
  predicate StateFits(s: ValueState, keyLen: nat) {
    s.Present? ==>
      && PointerValid(s.pointer) && s.pointer.recordOffset <= U32_MAX
      && s.pointer.recordLen - KV_RECORD_FIXED_LEN - s.pointer.valueLen == keyLen
  }

  lemma {:induction false} PointerLength(p: ValuePointer)
    requires PointerValid(p) && p.recordOffset <= U32_MAX
    ensures |EncodePointer(p)| == POINTER_LEN
  {
    PointerRoundTrip(p);
  }

  lemma {:induction false} StateRoundTrip(s: ValueState, keyLen: nat, rest: Bytes)
    requires StateFits(s, keyLen)
    ensures DecodeState(EncodeState(s) + rest) == Ok((s, |EncodeState(s)|))
  {
    if s.Present? {
      PointerLength(s.pointer);
      PointerRoundTrip(s.pointer);
      var b := EncodeState(s) + rest;
      assert b[1..1 + POINTER_LEN] == EncodePointer(s.pointer);
    }
  }

  lemma {:induction false} DecodedStateIsEncoded(b: Bytes)
    requires DecodeState(b).Ok?
    ensures var (s, n) := DecodeState(b).value;
            && n <= |b| && EncodeState(s) == b[..n]
            && (s.Present? ==> PointerValid(s.pointer) && s.pointer.recordOffset <= U32_MAX)
  {
    if b[0] == 1 {
      DecodedPointerIsEncoded(b[1..1 + POINTER_LEN]);
      assert b[..17] == [b[0]] + b[1..17];
    } else {
      assert b[..1] == [0];
    }
  }

  predicate MutationFits(m: Mutation) {
    0 < |m.key| <= MAX_KEY_VALUE_SIZE && StateFits(m.before, |m.key|) && StateFits(m.after, |m.key|)
  }

  function EncodeMutation(m: Mutation): Bytes {
    Le(|m.key|, 2) + (m.key + (EncodeState(m.before) + EncodeState(m.after)))
  }

  function DecodeMutation(b: Bytes): Result<Mutation> {
    if |b| < 2 then Err(Corruption)
    else
      var keyLen := FromLe(b[..2]);
      if keyLen == 0 || keyLen > MAX_KEY_VALUE_SIZE || |b| < 2 + keyLen then Err(Corruption)
      else DecodeStates(b[2..2 + keyLen], b[2 + keyLen..])
  }

  function DecodeStates(key: Bytes, b: Bytes): Result<Mutation> {
    var before :- DecodeState(b);
    if before.1 > |b| then Err(Corruption)
    else
      var after :- DecodeState(b[before.1..]);
      if before.1 + after.1 != |b| || !StateFits(before.0, |key|) || !StateFits(after.0, |key|) then Err(Corruption)
      else Ok(Mutation(key, before.0, after.0))
  }

  lemma {:induction false} StatesRoundTrip(m: Mutation)
    requires MutationFits(m)
    ensures DecodeStates(m.key, EncodeState(m.before) + EncodeState(m.after)) == Ok(m)
  {
    var a, b := EncodeState(m.before), EncodeState(m.after);
    StateRoundTrip(m.before, |m.key|, b);
    StateRoundTrip(m.after, |m.key|, []);
    assert (a + b)[|a|..] == b && b + [] == b;
  }

  lemma {:induction false} MutationRoundTrip(m: Mutation)
    requires MutationFits(m)
    ensures DecodeMutation(EncodeMutation(m)) == Ok(m)
  {
    Ranges();
    LeRoundTrip(|m.key|, 2);
    ThreeParts(Le(|m.key|, 2), m.key, EncodeState(m.before) + EncodeState(m.after));
    StatesRoundTrip(m);
  }

  lemma {:induction false} ThreeParts(a: Bytes, b: Bytes, c: Bytes)
    ensures var all := a + (b + c);
            && |all| == |a| + |b| + |c| && all[..|a|] == a
            && all[|a|..|a| + |b|] == b && all[|a| + |b|..] == c
  {
  }

  lemma {:induction false} DecodedStatesAreEncoded(key: Bytes, b: Bytes)
    requires DecodeStates(key, b).Ok?
    ensures var m := DecodeStates(key, b).value;
            && m.key == key && EncodeState(m.before) + EncodeState(m.after) == b
            && StateFits(m.before, |key|) && StateFits(m.after, |key|)
  {
    DecodedStateIsEncoded(b);
    var n := DecodeState(b).value.1;
    DecodedStateIsEncoded(b[n..]);
    assert b == b[..n] + b[n..];
    assert b[n..][..|b| - n] == b[n..];
  }

  lemma {:induction false} DecodedMutationIsEncoded(b: Bytes)
    requires DecodeMutation(b).Ok?
    ensures MutationFits(DecodeMutation(b).value) && EncodeMutation(DecodeMutation(b).value) == b
  {
    var keyLen := FromLe(b[..2]);
    FromLeRoundTrip(b[..2]);
    DecodedStatesAreEncoded(b[2..2 + keyLen], b[2 + keyLen..]);
    CutInThree(b, 2, 2 + keyLen);
  }

  lemma {:induction false} CutInThree(b: Bytes, i: nat, j: nat)
    requires i <= j <= |b|
    ensures b == b[..i] + (b[i..j] + b[j..])
  {
  }

  // ---------------------------------------------------------------- whole descriptors

  datatype EntryBytes = EntryBytes(key: Bytes, value: Bytes)

  datatype EncodedDescriptor = EncodedDescriptor(metaKey: Bytes, metaValue: Bytes, entries: seq<EntryBytes>)

  /** What encode_descriptor accepts. */
  predicate DescriptorFits(d: Descriptor) {
    && MetaFits(d.meta) && DescriptorValid(d) && |d.mutations| <= U64_MAX
    && forall i :: 0 <= i < |d.mutations| ==> MutationFits(d.mutations[i])
  }

  function EncodedEntries(seqNo: nat, mutations: seq<Mutation>): (r: seq<EntryBytes>)
    ensures |r| == |mutations|
    ensures forall i :: 0 <= i < |r| ==> r[i] == EntryBytes(EncodeKey(MutationKey(seqNo, i)), EncodeMutation(mutations[i]))
  {
    seq(|mutations|, i requires 0 <= i < |mutations| =>
          EntryBytes(EncodeKey(MutationKey(seqNo, i)), EncodeMutation(mutations[i])))
  }

  /** The descriptor checksum: the meta entry without its last field, then every mutation entry. */
  function DescriptorCrc(metaPrefix: Bytes, entries: seq<EntryBytes>, n: nat): Word
    requires n <= |entries|
  {
    if n == 0 then CrcAppend(Crc(DESCRIPTOR_MAGIC), metaPrefix)
    else
      var e := entries[n - 1];
      CrcAppend(CrcAppend(CrcAppend(DescriptorCrc(metaPrefix, entries, n - 1), e.key), Le(|e.value|, 4)), e.value)
  }

  /** All bytes under the descriptor checksum, in order. */
  function Covered(metaPrefix: Bytes, entries: seq<EntryBytes>, n: nat): Bytes
    requires n <= |entries|
  {
    if n == 0 then DESCRIPTOR_MAGIC + metaPrefix
    else
      var e := entries[n - 1];
      Covered(metaPrefix, entries, n - 1) + e.key + Le(|e.value|, 4) + e.value
  }

  /** The checksum that is fed piece by piece is the checksum of everything it covers. */
  lemma {:induction false} DescriptorCrcCovers(metaPrefix: Bytes, entries: seq<EntryBytes>, n: nat)
    requires n <= |entries|
    ensures DescriptorCrc(metaPrefix, entries, n) == Crc(Covered(metaPrefix, entries, n))
  {
    if n == 0 {
      CrcConcat(0, DESCRIPTOR_MAGIC, metaPrefix);
    } else {
      DescriptorCrcCovers(metaPrefix, entries, n - 1);
      var e, before := entries[n - 1], Covered(metaPrefix, entries, n - 1);
      CrcConcat(0, before, e.key);
      CrcConcat(0, before + e.key, Le(|e.value|, 4));
      CrcConcat(0, before + e.key + Le(|e.value|, 4), e.value);
    }
  }

  function EncodeDescriptor(d: Descriptor): EncodedDescriptor {
    var entries := EncodedEntries(d.meta.seqNo, d.mutations);
    var unsealed := EncodeMeta(d.meta, 0);
    var crc := DescriptorCrc(if |unsealed| >= 83 then unsealed[..83] else [], entries, |entries|);
    EncodedDescriptor(EncodeKey(MetaKey(d.meta.seqNo)), EncodeMeta(d.meta, crc), entries)
  }

  type EntryStep = (EntryBytes, nat, seq<Mutation>) -> Result<seq<Mutation>>

  /** A loop over the first `n` entries. */
  function FoldEntries(f: EntryStep, entries: seq<EntryBytes>, seqNo: nat, n: nat): Result<seq<Mutation>>
    requires n <= |entries|
  {
    if n == 0 then Ok([])
    else
      var earlier :- FoldEntries(f, entries, seqNo, n - 1);
      f(entries[n - 1], seqNo, earlier)
  }

  /** The loop of decode_descriptor over the first `n` entries. */
  function DecodeEntries(entries: seq<EntryBytes>, seqNo: nat, n: nat): Result<seq<Mutation>>
    requires n <= |entries|
  {
    FoldEntries(EntryDecoder(), entries, seqNo, n)
  }

  function EntryDecoder(): EntryStep {
    (e: EntryBytes, seqNo: nat, earlier: seq<Mutation>) => DecodeEntry(e, seqNo, earlier)
  }

  /** One round of that loop: the next ordinal, and a key not seen before. */
  function DecodeEntry(e: EntryBytes, seqNo: nat, earlier: seq<Mutation>): (r: Result<seq<Mutation>>)
    ensures r.Ok? ==> |r.value| == |earlier| + 1 && r.value == earlier + [r.value[|earlier|]]
  {
    var key :- DecodeKey(e.key);
    if key != MutationKey(seqNo, |earlier|) then Err(Corruption)
    else
      var m :- DecodeMutation(e.value);
      if m.key in MutatedKeys(earlier) then Err(Corruption) else Ok(earlier + [m])
  }

  function DecodeDescriptor(e: EncodedDescriptor): Result<(Descriptor, Word)> {
    var key :- DecodeKey(e.metaKey);
    var meta :- DecodeMeta(e.metaValue);
    if key != MetaKey(meta.0.seqNo) || |e.entries| != meta.0.keyCount then Err(Corruption)
    else
      var mutations :- DecodeEntries(e.entries, meta.0.seqNo, |e.entries|);
      var d := Descriptor(meta.0, mutations);
      if |e.metaValue| < 83 || DescriptorCrc(e.metaValue[..83], e.entries, |e.entries|) != meta.1 then Err(Corruption)
      else if meta.0.kind == IndexOnlyDelete && exists i :: 0 <= i < |mutations| && mutations[i].after.Present?
      then Err(Corruption)
      else Ok((d, meta.1))
  }

  /** The checksum field is the last one: what comes before it does not depend on it. */
  lemma {:induction false} MetaPrefixIgnoresCrc(m: TxMeta, a: Word, b: Word)
    requires |m.uuid| == 16
    ensures |EncodeMeta(m, a)| == META_LEN && |EncodeMeta(m, b)| == META_LEN
    ensures EncodeMeta(m, a)[..83] == EncodeMeta(m, b)[..83]
  {
    var f, h := MetaFields(m, a), MetaFields(m, b);
    MetaFieldsAre(m, a);
    MetaFieldsAre(m, b);
    MetaOffsets(f, m, a);
    MetaOffsets(h, m, b);
    JoinLength(f);
    JoinLength(h);
    var common := IdentityFields(m) + ExtentFields(m);
    assert f[..13] == h[..13];
    JoinLength(f[..13]);
    StartOfPrefix(f, 13, 13);
    assert Join(f) == Join(f[..13]) + f[13] && Join(h) == Join(h[..13]) + h[13];
  }

  /** The step takes the next mutation of `all`. */
  ghost predicate StepTakes(f: EntryStep, entries: seq<EntryBytes>, seqNo: nat, all: seq<Mutation>, i: nat)
    requires i < |entries| && i < |all|
  {
    f(entries[i], seqNo, all[..i]) == Ok(all[..i + 1])
  }

  lemma {:induction false} FoldTakesAll(f: EntryStep, entries: seq<EntryBytes>, seqNo: nat, all: seq<Mutation>, n: nat)
    requires n <= |all| == |entries| && forall i :: 0 <= i < |all| ==> StepTakes(f, entries, seqNo, all, i)
    ensures FoldEntries(f, entries, seqNo, n) == Ok(all[..n])
  {
    if n > 0 {
      FoldTakesAll(f, entries, seqNo, all, n - 1);
      assert StepTakes(f, entries, seqNo, all, n - 1);
    }
  }

  lemma {:induction false} EntriesDecode(seqNo: nat, mutations: seq<Mutation>)
    requires 0 < seqNo <= U64_MAX && |mutations| <= U64_MAX && NoDuplicates(MutatedKeys(mutations))
    requires forall i :: 0 <= i < |mutations| ==> MutationFits(mutations[i])
    ensures DecodeEntries(EncodedEntries(seqNo, mutations), seqNo, |mutations|) == Ok(mutations)
  {
    var entries := EncodedEntries(seqNo, mutations);
    forall i | 0 <= i < |mutations| ensures StepTakes(EntryDecoder(), entries, seqNo, mutations, i) {
      DecoderTakes(seqNo, mutations, i);
    }
    FoldTakesAll(EntryDecoder(), entries, seqNo, mutations, |mutations|);
    assert mutations[..|mutations|] == mutations;
  }

  lemma {:induction false} DecoderTakes(seqNo: nat, mutations: seq<Mutation>, i: nat)
    requires 0 < seqNo <= U64_MAX && i < |mutations| <= U64_MAX && NoDuplicates(MutatedKeys(mutations)) && MutationFits(mutations[i])
    ensures StepTakes(EntryDecoder(), EncodedEntries(seqNo, mutations), seqNo, mutations, i)
  {
    NewKey(mutations, i + 1);
    EntryDecodes(seqNo, mutations[..i], mutations[i]);
    assert mutations[..i] + [mutations[i]] == mutations[..i + 1];
  }

  lemma {:induction false} NewKey(mutations: seq<Mutation>, n: nat)
    requires 0 < n <= |mutations| && NoDuplicates(MutatedKeys(mutations))
    ensures mutations[n - 1].key !in MutatedKeys(mutations[..n - 1])
  {
    var keys, earlier := MutatedKeys(mutations), mutations[..n - 1];
    forall i | 0 <= i < n - 1 ensures MutatedKeys(earlier)[i] != mutations[n - 1].key {
      assert keys[i] != keys[n - 1];
    }
  }

  lemma {:induction false} EntryDecodes(seqNo: nat, earlier: seq<Mutation>, m: Mutation)
    requires 0 < seqNo <= U64_MAX && |earlier| <= U64_MAX && MutationFits(m) && m.key !in MutatedKeys(earlier)
    ensures DecodeEntry(EntryBytes(EncodeKey(MutationKey(seqNo, |earlier|)), EncodeMutation(m)), seqNo, earlier) == Ok(earlier + [m])
  {
    KeyRoundTrip(MutationKey(seqNo, |earlier|));
    MutationRoundTrip(m);
  }

  lemma {:induction false} DecodedEntryIsEncoded(e: EntryBytes, seqNo: nat, earlier: seq<Mutation>)
    requires DecodeEntry(e, seqNo, earlier).Ok?
    ensures var m := DecodeEntry(e, seqNo, earlier).value[|earlier|];
            && e == EntryBytes(EncodeKey(MutationKey(seqNo, |earlier|)), EncodeMutation(m))
            && MutationFits(m) && m.key !in MutatedKeys(earlier)
  {
    DecodedKeyIsEncoded(e.key);
    DecodedMutationIsEncoded(e.value);
  }

  /** Parts that decode, and a checksum that agrees, decode as a whole. */
  lemma {:induction false} PartsDecode(e: EncodedDescriptor, d: Descriptor, crc: Word)
    requires DescriptorValid(d) && DecodeKey(e.metaKey) == Ok(MetaKey(d.meta.seqNo)) && DecodeMeta(e.metaValue) == Ok((d.meta, crc))
    requires |e.entries| == |d.mutations| && DecodeEntries(e.entries, d.meta.seqNo, |e.entries|) == Ok(d.mutations)
    requires |e.metaValue| == META_LEN && DescriptorCrc(e.metaValue[..83], e.entries, |e.entries|) == crc
    ensures DecodeDescriptor(e) == Ok((d, crc))
  {
  }

  /**
   * Every descriptor that can be encoded decodes to itself, together with the checksum of its meta
   * entry up to that field and of all its mutation entries.
   */
  lemma {:induction false} DescriptorRoundTrip(d: Descriptor)
    requires DescriptorFits(d)
    ensures var e := EncodeDescriptor(d);
            && |e.metaValue| == META_LEN
            && DecodeDescriptor(e) == Ok((d, Crc(Covered(e.metaValue[..83], e.entries, |e.entries|))))
  {
    var entries := EncodedEntries(d.meta.seqNo, d.mutations);
    MetaPrefixIgnoresCrc(d.meta, 0, 0);
    var crc := DescriptorCrc(EncodeMeta(d.meta, 0)[..83], entries, |entries|);
    MetaPrefixIgnoresCrc(d.meta, 0, crc);
    KeyRoundTrip(MetaKey(d.meta.seqNo));
    MetaRoundTrip(d.meta, crc);
    EntriesDecode(d.meta.seqNo, d.mutations);
    PartsDecode(EncodedDescriptor(EncodeKey(MetaKey(d.meta.seqNo)), EncodeMeta(d.meta, crc), entries), d, crc);
    DescriptorCrcCovers(EncodeMeta(d.meta, crc)[..83], entries, |entries|);
  }

  /** What holds of the mutations of the first `n` entries. */
  ghost predicate EntriesMatch(entries: seq<EntryBytes>, seqNo: nat, mutations: seq<Mutation>, n: nat)
    requires n <= |entries|
  {
    && |mutations| == n && EncodedEntries(seqNo, mutations) == entries[..n] && NoDuplicates(MutatedKeys(mutations))
    && forall i :: 0 <= i < n ==> MutationFits(mutations[i])
  }

  /** The step accepts an entry only if it is the encoding of what it adds. */
  ghost predicate StepMatches(f: EntryStep, entries: seq<EntryBytes>, seqNo: nat, i: nat, earlier: seq<Mutation>)
    requires i < |entries|
  {
    EntriesMatch(entries, seqNo, earlier, i) && f(entries[i], seqNo, earlier).Ok? ==>
      EntriesMatch(entries, seqNo, f(entries[i], seqNo, earlier).value, i + 1)
  }

  lemma {:induction false} FoldMatches(f: EntryStep, entries: seq<EntryBytes>, seqNo: nat, n: nat)
    requires n <= |entries| && FoldEntries(f, entries, seqNo, n).Ok?
    requires forall i, earlier :: 0 <= i < |entries| ==> StepMatches(f, entries, seqNo, i, earlier)
    ensures EntriesMatch(entries, seqNo, FoldEntries(f, entries, seqNo, n).value, n)
  {
    if n > 0 {
      FoldMatches(f, entries, seqNo, n - 1);
      assert StepMatches(f, entries, seqNo, n - 1, FoldEntries(f, entries, seqNo, n - 1).value);
    }
  }

  lemma {:induction false} DecodedEntriesAreEncoded(entries: seq<EntryBytes>, seqNo: nat)
    requires DecodeEntries(entries, seqNo, |entries|).Ok?
    ensures EntriesMatch(entries, seqNo, DecodeEntries(entries, seqNo, |entries|).value, |entries|)
  {
    forall i, earlier | 0 <= i < |entries| ensures StepMatches(EntryDecoder(), entries, seqNo, i, earlier) {
      DecodedStepMatches(entries, seqNo, i, earlier);
    }
    FoldMatches(EntryDecoder(), entries, seqNo, |entries|);
  }

  lemma {:induction false} DecodedStepMatches(entries: seq<EntryBytes>, seqNo: nat, i: nat, earlier: seq<Mutation>)
    requires i < |entries|
    ensures StepMatches(EntryDecoder(), entries, seqNo, i, earlier)
  {
    if EntriesMatch(entries, seqNo, earlier, i) && DecodeEntry(entries[i], seqNo, earlier).Ok? {
      DecodedEntryIsEncoded(entries[i], seqNo, earlier);
      AppendedEntry(entries, seqNo, earlier, DecodeEntry(entries[i], seqNo, earlier).value[i], i + 1);
    }
  }

  lemma {:induction false} AppendedEntry(entries: seq<EntryBytes>, seqNo: nat, earlier: seq<Mutation>, m: Mutation, n: nat)
    requires 0 < n <= |entries| && |earlier| == n - 1 && EncodedEntries(seqNo, earlier) == entries[..n - 1]
    requires entries[n - 1] == EntryBytes(EncodeKey(MutationKey(seqNo, n - 1)), EncodeMutation(m))
    requires NoDuplicates(MutatedKeys(earlier)) && m.key !in MutatedKeys(earlier)
    ensures EncodedEntries(seqNo, earlier + [m]) == entries[..n] && NoDuplicates(MutatedKeys(earlier + [m]))
  {
    var all := earlier + [m];
    var short := EncodedEntries(seqNo, earlier);
    forall i | 0 <= i < n ensures EncodedEntries(seqNo, all)[i] == entries[i] {
      if i < n - 1 { assert short[i] == entries[..n - 1][i]; }
    }
    var keys := MutatedKeys(earlier);
    forall i, j | 0 <= i < j < n ensures MutatedKeys(all)[i] != MutatedKeys(all)[j] {
      assert MutatedKeys(all)[i] == keys[i];
      if j < n - 1 { assert MutatedKeys(all)[j] == keys[j]; }
    }
  }

  /** Accepted descriptor bytes are exactly the encoding of the descriptor they decode to, which the encoder accepts. */
  lemma {:induction false} DecodedDescriptorIsEncoded(e: EncodedDescriptor)
    requires DecodeDescriptor(e).Ok?
    ensures DescriptorFits(DecodeDescriptor(e).value.0)
    ensures EncodeDescriptor(DecodeDescriptor(e).value.0) == e
  {
    var (d, crc) := DecodeDescriptor(e).value;
    var n := |e.entries|;
    DecodedKeyIsEncoded(e.metaKey);
    DecodedMetaIsEncoded(e.metaValue);
    DecodedEntriesAreEncoded(e.entries, d.meta.seqNo);
    assert e.entries[..n] == e.entries;
    MetaPrefixIgnoresCrc(d.meta, 0, crc);
  }
}
