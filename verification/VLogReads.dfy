/**
 * Reading through a pointer (read_pointer in src/vlog/reader.rs) and from a stable end: what is
 * returned is what was written there, and anything else is refused.
 */
module VLogReads {
  import opened Basics
  import opened Index
  import opened CommitProtocol
  import opened Topology
  import opened History
  import opened ByteCodec
  import opened VLogCodec
  import opened VLogRoundTrip
  import opened VLogDecoded
  import opened VLogLayout
  import opened VLogScanner
  import opened VLogEnvelope
  import opened VLogPointers

  type RecordDecoder = (Bytes, Pos) -> Result<Record>

  /** read_pointer on the bytes of the pointer's own file. */
  function ReadThrough(p: ValuePointer, file: Bytes, key: Bytes): Result<Bytes> {
    ReadBy((b, start) => DecodeRecordAt(b, start, PRODUCTION), ValidateFileBounds(p, |file|), p, file, key)
  }

  function ReadBy(decode: RecordDecoder, bounds: Result<PointerLayout>, p: ValuePointer, file: Bytes, key: Bytes): Result<Bytes> {
    var layout :- bounds;
    if p.recordOffset + p.recordLen > |file| then Err(Corruption)
    else
      var r :- decode(file[p.recordOffset..p.recordOffset + p.recordLen], Pos(p.file, p.recordOffset));
      if !r.KvRecord? || r.key != key || |r.key| != layout.keyLen || |r.value| != p.valueLen then Err(Corruption)
      else Ok(r.value)
  }

  /** What such a read returns is the value of the record that was decoded. */
  lemma {:induction false} ReadByExactly(
    decode: RecordDecoder, layout: PointerLayout, p: ValuePointer, file: Bytes, key: Bytes, value: Bytes)
    requires p.recordOffset + p.recordLen <= |file|
    ensures ReadBy(decode, Ok(layout), p, file, key) == Ok(value)
       <==> var d := decode(file[p.recordOffset..p.recordOffset + p.recordLen], Pos(p.file, p.recordOffset));
            && d.Ok? && d.value.KvRecord? && d.value.key == key && d.value.value == value
            && |key| == layout.keyLen && |value| == p.valueLen
  {
  }

  /** The file holds, at the place of the value pointer, the record that some transaction wrote for this key and value. */
  ghost predicate HoldsRecord(p: ValuePointer, file: Bytes, key: Bytes, value: Bytes) {
    && p.recordOffset + p.recordLen <= |file|
    && exists seqNo, uuid, i :: IsRecord(file[p.recordOffset..p.recordOffset + p.recordLen], KvRecord(seqNo, uuid, i, key, value))
  }

  predicate IsRecord(b: Bytes, r: Record) {
    RecordValid(r) && EncodeRecord(r) == b
  }

  /** A pointer that passes the bounds check names a place where a record may stand. */
  lemma {:induction false} BoundsMeanStanding(p: ValuePointer, fileSize: nat)
    requires ValidateFileBounds(p, fileSize).Ok? && GeometryValid(PRODUCTION)
    ensures RecordBoundsValid(p.recordLen, Pos(p.file, p.recordOffset), PRODUCTION)
    ensures p.recordOffset + p.recordLen <= fileSize
    ensures ValidateFileBounds(p, fileSize).value.keyLen == p.recordLen - KV_RECORD_FIXED_LEN - p.valueLen
  {
    PageBounds(p.recordOffset, PRODUCTION.pageSize);
  }

  /**
   * A read returns a value if and only if the pointer is in bounds and the bytes it names are exactly the
   * encoding of a put record of that key and value, with the pointer's value length.
   */
  lemma {:induction false} ReadsExactly(p: ValuePointer, file: Bytes, key: Bytes, value: Bytes)
    requires GeometryValid(PRODUCTION)
    ensures ReadThrough(p, file, key) == Ok(value)
       <==> ValidateFileBounds(p, |file|).Ok? && |value| == p.valueLen && HoldsRecord(p, file, key, value)
  {
    if ValidateFileBounds(p, |file|).Ok? {
      BoundsMeanStanding(p, |file|);
      var layout := ValidateFileBounds(p, |file|).value;
      ReadByExactly((b, start) => DecodeRecordAt(b, start, PRODUCTION), layout, p, file, key, value);
      PlaceHoldsExactly(p, file[p.recordOffset..p.recordOffset + p.recordLen], key, value);
    }
  }

  /** At a place where a record may stand, a put record decodes exactly when its encoding is there. */
  lemma {:induction false} PlaceHoldsExactly(p: ValuePointer, b: Bytes, key: Bytes, value: Bytes)
    requires GeometryValid(PRODUCTION) && |b| == p.recordLen
    requires RecordBoundsValid(p.recordLen, Pos(p.file, p.recordOffset), PRODUCTION)
    ensures var d := DecodeRecordAt(b, Pos(p.file, p.recordOffset), PRODUCTION);
            ((d.Ok? && d.value.KvRecord? && d.value.key == key && d.value.value == value)
             <==> exists seqNo, uuid, i :: IsRecord(b, KvRecord(seqNo, uuid, i, key, value)))
    ensures (exists seqNo, uuid, i :: IsRecord(b, KvRecord(seqNo, uuid, i, key, value))) ==>
              |key| == p.recordLen - KV_RECORD_FIXED_LEN - |value|
  {
    var start := Pos(p.file, p.recordOffset);
    if DecodeRecordAt(b, start, PRODUCTION).Ok? {
      DecodedRecordIsEncoded(b, start, PRODUCTION);
      var r := DecodeRecordAt(b, start, PRODUCTION).value;
      if r.KvRecord? && r.key == key && r.value == value {
        assert IsRecord(b, KvRecord(r.seqNo, r.uuid, r.opIndex, key, value));
      }
    }
    if exists seqNo, uuid, i :: IsRecord(b, KvRecord(seqNo, uuid, i, key, value)) {
      var seqNo, uuid, i :| IsRecord(b, KvRecord(seqNo, uuid, i, key, value));
      StandingKvDecodes(b, KvRecord(seqNo, uuid, i, key, value), start);
    }
  }

  lemma {:induction false} StandingKvDecodes(b: Bytes, r: Record, start: Pos)
    requires GeometryValid(PRODUCTION) && r.KvRecord? && IsRecord(b, r) && RecordBoundsValid(|b|, start, PRODUCTION)
    ensures DecodeRecordAt(b, start, PRODUCTION) == Ok(r) && |b| == KV_RECORD_FIXED_LEN + |r.key| + |r.value|
  {
    EncodedKv(r, start, PRODUCTION);
    RecordRoundTrip(r, start, PRODUCTION);
  }

  /** The pointer of a Put of a prepared envelope is in the bounds of every file that reaches its record. */
  lemma {:induction false} PutPointerInBounds(t: Txn, begin: Pos, i: nat, fileSize: nat) returns (p: ValuePointer)
    requires GeometryValid(PRODUCTION) && Reachable(begin, PRODUCTION) && Prepared(t, begin, PRODUCTION).Ok?
    requires i < |t.ops| && t.ops[i].Put? && fileSize <= PRODUCTION.maxFileSize
    ensures Prepared(t, begin, PRODUCTION).value.pointers[i] == Some(p) && p.valueLen == |t.ops[i].value|
    ensures p.recordOffset + p.recordLen <= fileSize ==> ValidateFileBounds(p, fileSize).Ok?
  {
    PointersAreSound(t, begin, i, fileSize);
    PutLength(t, begin, i);
    p := Prepared(t, begin, PRODUCTION).value.pointers[i].value;
  }

  lemma {:induction false} PutLength(t: Txn, begin: Pos, i: nat)
    requires GeometryValid(PRODUCTION) && Prepared(t, begin, PRODUCTION).Ok? && i < |t.ops| && t.ops[i].Put?
    ensures var p := Prepared(t, begin, PRODUCTION).value.pointers[i]; p.Some? && p.value.valueLen == |t.ops[i].value|
  {
  }

  /** Every Put of a prepared envelope is read back from any file that holds its record where the writer put it. */
  lemma {:induction false} PreparedPutReads(t: Txn, begin: Pos, i: nat, file: Bytes) returns (p: ValuePointer)
    requires GeometryValid(PRODUCTION) && Reachable(begin, PRODUCTION) && Prepared(t, begin, PRODUCTION).Ok?
    requires i < |t.ops| && t.ops[i].Put? && |file| <= PRODUCTION.maxFileSize
    ensures Prepared(t, begin, PRODUCTION).value.pointers[i] == Some(p)
    ensures && p.recordOffset + p.recordLen <= |file|
            && IsRecord(file[p.recordOffset..p.recordOffset + p.recordLen],
                        KvRecord(t.seqNo, t.uuid, i, t.ops[i].key, t.ops[i].value))
            ==> ReadThrough(p, file, t.ops[i].key) == Ok(t.ops[i].value)
  {
    p := PutPointerInBounds(t, begin, i, |file|);
    var r := KvRecord(t.seqNo, t.uuid, i, t.ops[i].key, t.ops[i].value);
    if p.recordOffset + p.recordLen <= |file| && IsRecord(file[p.recordOffset..p.recordOffset + p.recordLen], r) {
      HeldRecordReads(p, file, r);
    }
  }

  lemma {:induction false} HeldRecordReads(p: ValuePointer, file: Bytes, r: Record)
    requires GeometryValid(PRODUCTION) && ValidateFileBounds(p, |file|).Ok? && r.KvRecord? && |r.value| == p.valueLen
    requires p.recordOffset + p.recordLen <= |file| && IsRecord(file[p.recordOffset..p.recordOffset + p.recordLen], r)
    ensures ReadThrough(p, file, r.key) == Ok(r.value)
  {
    assert r == KvRecord(r.seqNo, r.uuid, r.opIndex, r.key, r.value);
    ReadsExactly(p, file, r.key, r.value);
  }

  // ---------------------------------------------------------------- the footer at a stable end

  /** A footer that is located really is the end of the tail, and says so itself. */
  lemma {:induction false} LocatedFooterIsThere(tailStart: Pos, tail: Bytes, end: Pos, g: Geometry)
    requires LocateFooter(tailStart, tail, end, g).Ok?
    ensures var l := LocateFooter(tailStart, tail, end, g).value;
            && l.footer.TxPreparedEnd? && RecordValid(l.footer) && StandsAt(l.footer, l.start, g) && l.footer.end == end
            && TX_PREPARED_END_LEN <= |tail| && tail[|tail| - TX_PREPARED_END_LEN..] == EncodeRecord(l.footer)
            && l.start == Pos(end.file, end.offset - TX_PREPARED_END_LEN)
  {
    var offset := FooterStart(tailStart, tail, end, g).value;
    var b := tail[offset - tailStart.offset..];
    FooterReadIs((b, p) => DecodeRecordAt(b, p, g), b, Pos(end.file, offset), end);
    DecodedRecordIsEncoded(b, Pos(end.file, offset), g);
  }

  lemma {:induction false} FooterReadIs(decode: RecordDecoder, b: Bytes, start: Pos, end: Pos)
    requires FooterReadBy(decode, b, start, end).Ok?
    ensures var l := FooterReadBy(decode, b, start, end).value;
            l.start == start && decode(b, start) == Ok(l.footer) && l.footer.TxPreparedEnd? && l.footer.end == end
  {
  }
}
