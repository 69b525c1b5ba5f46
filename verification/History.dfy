/**
 * The committed history: what a sequence of transactions means for the user map, for the logical
 * key/value map, for the frontier and for the Value Log. Recovery is judged against this module.
 */
module History {
  import opened Basics
  import opened Index
  import opened CommitProtocol

  /** One committed transaction: what was asked, where its records went, and its descriptor. */
  datatype Tx = Tx(ops: seq<Operation>, pointers: Pointers, desc: Descriptor)

  type Log = seq<Tx>

  predicate HasEnvelope(t: Tx) {
    t.desc.meta.kind == VLogEnvelope
  }

  /** The user index after replaying the whole log from empty, operation by operation. */
  function UserAfter(log: Log): map<Bytes, ValuePointer>
    requires Sized(log)
  {
    if log == [] then map[]
    else FoldOperations(UserAfter(log[..|log| - 1]), log[|log| - 1].ops, log[|log| - 1].pointers)
  }

  predicate Sized(log: Log) {
    forall i :: 0 <= i < |log| ==> |log[i].ops| == |log[i].pointers|
  }

  /** The frontier that covers exactly the log. */
  function FrontierAt(log: Log): (f: Frontier)
    ensures f.seqNo == |log|
    ensures f.vlogSeq <= |log|
    ensures f.vlogSeq == 0 <==> f.end.Empty?
  {
    if log == [] then Frontier(0, 0, Empty)
    else
      var t := log[|log| - 1];
      if HasEnvelope(t) then Frontier(|log|, |log|, At(t.desc.meta.end))
      else FrontierAt(log[..|log| - 1]).(seqNo := |log|)
  }

  /** The latest value of every key, from the operations alone. */
  function FoldValues(values: map<Bytes, Bytes>, ops: seq<Operation>): map<Bytes, Bytes> {
    if ops == [] then values
    else
      var earlier := FoldValues(values, ops[..|ops| - 1]);
      match ops[|ops| - 1]
      case Put(key, value) => earlier[key := value]
      case Delete(key) => earlier - {key}
  }

  function LogicalMap(log: Log): map<Bytes, Bytes> {
    if log == [] then map[] else FoldValues(LogicalMap(log[..|log| - 1]), log[|log| - 1].ops)
  }

  // ---------------------------------------------------------------- envelopes

  /** One prepare envelope in the Value Log. `intact` says that its bytes can still be read back. */
  datatype Envelope = Envelope(
    begin: Pos, end: Pos, seqNo: nat, uuid: Bytes, crc: nat,
    ops: seq<Operation>, pointers: Pointers, intact: bool)

  function EnvelopeOf(t: Tx): Envelope {
    var m := t.desc.meta;
    Envelope(m.begin, m.end, m.seqNo, m.uuid, m.envelopeCrc, t.ops, t.pointers, true)
  }

  /** The envelopes that the log's transactions wrote, in order. */
  function EnvelopesOf(log: Log): (r: seq<Envelope>)
    ensures |r| <= |log|
  {
    if log == [] then []
    else
      var t := log[|log| - 1];
      var earlier := EnvelopesOf(log[..|log| - 1]);
      if HasEnvelope(t) then earlier + [EnvelopeOf(t)] else earlier
  }

  /** The end just before envelope `i`. */
  function EndBefore(envs: seq<Envelope>, i: nat): VLogEnd
    requires i <= |envs|
  {
    if i == 0 then Empty else At(envs[i - 1].end)
  }

  /** Envelopes are contiguous from the start of the Value Log and none is empty. */
  predicate Chained(envs: seq<Envelope>) {
    forall i :: 0 <= i < |envs| ==>
      ChainLink(envs, i)
  }

  predicate ChainLink(envs: seq<Envelope>, i: nat)
    requires i < |envs|
  {
    && envs[i].begin == AppendPosition(EndBefore(envs, i))
    && PosLess(envs[i].begin, envs[i].end) && envs[i].end.offset > 0
  }

  // ---------------------------------------------------------------- well-formed histories

  predicate UuidValid(uuid: Bytes) {
    |uuid| == 16 && exists i :: 0 <= i < 16 && uuid[i] != 0
  }

  function RecordStart(p: ValuePointer): Pos {
    Pos(p.file, p.recordOffset)
  }

  function RecordEnd(p: ValuePointer): Pos {
    Pos(p.file, p.recordOffset + p.recordLen)
  }

  /** The records of an envelope lie inside it, in operation order, and have the size of their data. */
  predicate RecordsInside(ops: seq<Operation>, pointers: Pointers, begin: Pos, end: Pos) {
    && PointersFit(ops, pointers)
    && (forall i :: 0 <= i < |ops| && pointers[i].Some? ==>
          var p := pointers[i].value;
          && p.version == 0 && p.valueLen == |ops[i].value|
          && p.recordLen == KV_RECORD_FIXED_LEN + |ops[i].key| + |ops[i].value|
          && PosLeq(begin, RecordStart(p)) && PosLeq(RecordEnd(p), end))
    && (forall i, j :: 0 <= i < j < |ops| && pointers[i].Some? && pointers[j].Some? ==>
          PosLeq(RecordEnd(pointers[i].value), RecordStart(pointers[j].value)))
  }

  /** The transaction is what the commit protocol makes of its operations after `before`. */
  predicate TxOk(before: Log, t: Tx) {
    var m := t.desc.meta;
    && Sized(before)
    && |t.ops| > 0 && PointersFit(t.ops, t.pointers)
    && m.seqNo == |before| + 1 && m.prevSeq == |before| && UuidValid(m.uuid)
    && m.kind == KindOf(t.ops)
    && m.opCount == |t.ops| && m.keyCount == |DistinctKeys(t.ops)|
    && t.desc.mutations == PlannedMutations(UserAfter(before), t.ops, t.pointers)
    && match m.kind
       case VLogEnvelope =>
         && m.begin == AppendPosition(FrontierAt(before).end) && PosLess(m.begin, m.end)
         && PosValid(m.begin) && PosValid(m.end) && m.end.offset > 0
         && RecordsInside(t.ops, t.pointers, m.begin, m.end)
       case IndexOnlyDelete => m.begin == Pos(0, 0) && m.end == Pos(0, 0) && m.envelopeCrc == 0
  }

  predicate TxAt(log: Log, n: nat)
    requires n < |log|
  {
    TxOk(log[..n], log[n])
  }

  predicate WellFormed(log: Log) {
    forall n :: 0 <= n < |log| ==> TxAt(log, n)
  }

  lemma {:induction false} WellFormedPrefix(log: Log, n: nat)
    requires WellFormed(log) && n <= |log|
    ensures WellFormed(log[..n])
  {
    forall i | 0 <= i < n ensures TxAt(log[..n], i) {
      assert TxAt(log, i);
      assert log[..n][..i] == log[..i];
    }
  }

  lemma {:induction false} WellFormedIsSized(log: Log)
    requires WellFormed(log)
    ensures Sized(log)
  {
    forall i | 0 <= i < |log| ensures |log[i].ops| == |log[i].pointers| {
      assert TxAt(log, i);
    }
  }

  /** Replaying one more transaction is one more fold. */
  lemma {:induction false} UserAfterStep(log: Log, t: Tx)
    requires Sized(log) && |t.ops| == |t.pointers|
    ensures Sized(log + [t])
    ensures UserAfter(log + [t]) == FoldOperations(UserAfter(log), t.ops, t.pointers)
  {
    assert (log + [t])[..|log|] == log;
  }

  lemma {:induction false} WellFormedStep(log: Log, t: Tx)
    requires WellFormed(log) && TxOk(log, t)
    ensures WellFormed(log + [t])
    ensures EnvelopesOf(log + [t]) == EnvelopesOf(log) + if HasEnvelope(t) then [EnvelopeOf(t)] else []
    ensures FrontierAt(log + [t]) ==
      if HasEnvelope(t) then Frontier(|log| + 1, |log| + 1, At(t.desc.meta.end))
      else FrontierAt(log).(seqNo := |log| + 1)
    ensures LogicalMap(log + [t]) == FoldValues(LogicalMap(log), t.ops)
  {
    var next := log + [t];
    assert next[..|log|] == log;
    forall n | 0 <= n < |next| ensures TxAt(next, n) {
      if n < |log| {
        assert TxAt(log, n);
        assert next[..n] == log[..n];
      }
    }
  }

  lemma {:induction false} PrefixTransitive<T>(a: seq<T>, b: seq<T>, c: seq<T>)
    requires a <= b && b <= c
    ensures a <= c
  {
    assert forall i :: 0 <= i < |a| ==> a[i] == b[i];
  }

  lemma {:induction false} EnvelopesPrefix(log: Log, n: nat)
    requires n <= |log|
    ensures EnvelopesOf(log[..n]) <= EnvelopesOf(log)
    decreases |log|
  {
    if n == |log| {
      assert log[..n] == log;
    } else {
      assert log[..|log| - 1][..n] == log[..n];
      EnvelopesPrefix(log[..|log| - 1], n);
    }
  }

  /** The frontier's end and sequence are those of the last envelope. */
  lemma {:induction false} FrontierIsLastEnvelope(log: Log)
    requires WellFormed(log)
    ensures FrontierAt(log).end == EndBefore(EnvelopesOf(log), |EnvelopesOf(log)|)
    ensures EnvelopesOf(log) != [] ==> FrontierAt(log).vlogSeq == EnvelopesOf(log)[|EnvelopesOf(log)| - 1].seqNo
    decreases |log|
  {
    if log != [] {
      WellFormedPrefix(log, |log| - 1);
      FrontierIsLastEnvelope(log[..|log| - 1]);
      assert TxAt(log, |log| - 1);
    }
  }

  /** The vlog_begin/vlog_end chain holds over every well-formed history. */
  lemma {:induction false} EnvelopesAreChained(log: Log)
    requires WellFormed(log)
    ensures Chained(EnvelopesOf(log))
    decreases |log|
  {
    if log != [] {
      var init := log[..|log| - 1];
      WellFormedPrefix(log, |log| - 1);
      assert TxAt(log, |log| - 1);
      EnvelopesAreChained(init);
      FrontierIsLastEnvelope(init);
      var envs := EnvelopesOf(log);
      forall i | 0 <= i < |envs|
        ensures ChainLink(envs, i)
      {
        if i < |EnvelopesOf(init)| {
          assert envs[i] == EnvelopesOf(init)[i];
          assert ChainLink(EnvelopesOf(init), i);
        }
      }
    }
  }

  lemma {:induction false} PosLeqTransitive(a: Pos, b: Pos, c: Pos)
    requires PosLeq(a, b) && PosLeq(b, c)
    ensures PosLeq(a, c)
    ensures PosLess(a, b) || PosLess(b, c) ==> PosLess(a, c)
  {
  }

  /** Along a chain, ends grow strictly. */
  lemma {:induction false} ChainEndsGrow(envs: seq<Envelope>, i: nat, j: nat)
    requires Chained(envs) && i < j < |envs|
    ensures PosLeq(envs[i].end, envs[j].begin) && PosLess(envs[i].end, envs[j].end)
    decreases j
  {
    assert ChainLink(envs, j);
    if i < j - 1 {
      ChainEndsGrow(envs, i, j - 1);
    }
  }

  // ---------------------------------------------------------------- pointers and values

  /** Operation `i` of transaction `t` put `value` under `key` and its record is at `p`. */
  predicate Provides(log: Log, t: nat, i: nat, p: ValuePointer, key: Bytes, value: Bytes) {
    && t < |log| && i < |log[t].ops| == |log[t].pointers|
    && log[t].ops[i] == Put(key, value) && log[t].pointers[i] == Some(p)
  }

  ghost predicate Backed(log: Log, p: ValuePointer, key: Bytes, value: Bytes) {
    exists t, i :: Provides(log, t, i, p, key, value)
  }

  /** The pointer map and the value map have the same keys, and each pointer's record holds the value. */
  ghost predicate MapsAgree(log: Log, user: map<Bytes, ValuePointer>, values: map<Bytes, Bytes>) {
    && (forall k :: k in user <==> k in values)
    && (forall k :: k in user ==> Backed(log, user[k], k, values[k]))
  }

  lemma {:induction false} FoldsAgree(
    log: Log, t: nat, n: nat, user: map<Bytes, ValuePointer>, values: map<Bytes, Bytes>)
    requires t < |log| && PointersFit(log[t].ops, log[t].pointers) && n <= |log[t].ops|
    requires MapsAgree(log, user, values)
    ensures MapsAgree(log, FoldOperations(user, log[t].ops[..n], log[t].pointers[..n]), FoldValues(values, log[t].ops[..n]))
    decreases n
  {
    if n != 0 {
      var ops, pointers := log[t].ops, log[t].pointers;
      assert ops[..n][..n - 1] == ops[..n - 1] && pointers[..n][..n - 1] == pointers[..n - 1];
      FoldsAgree(log, t, n - 1, user, values);
      if ops[n - 1].Put? {
        assert Provides(log, t, n - 1, pointers[n - 1].value, ops[n - 1].key, ops[n - 1].value);
      }
    }
  }

  /** Every visible pointer leads to the record of the latest Put of its key, and no key is missing. */
  lemma {:induction false} UserMapHoldsLogicalMap(log: Log, n: nat)
    requires WellFormed(log) && n <= |log|
    ensures Sized(log[..n]) && MapsAgree(log, UserAfter(log[..n]), LogicalMap(log[..n]))
    decreases n
  {
    WellFormedIsSized(log);
    if n != 0 {
      assert TxAt(log, n - 1);
      UserMapHoldsLogicalMap(log, n - 1);
      assert log[..n][..n - 1] == log[..n - 1];
      var t := log[n - 1];
      assert t.ops[..|t.ops|] == t.ops && t.pointers[..|t.ops|] == t.pointers;
      FoldsAgree(log, n - 1, |t.ops|, UserAfter(log[..n - 1]), LogicalMap(log[..n - 1]));
    }
  }

  /** A transaction that put something has an envelope that holds the record. */
  lemma {:induction false} ProvidedRecordIsInside(log: Log, t: nat, i: nat, p: ValuePointer, key: Bytes, value: Bytes)
    requires WellFormed(log) && Provides(log, t, i, p, key, value)
    ensures HasEnvelope(log[t])
    ensures PosLeq(log[t].desc.meta.begin, RecordStart(p)) && PosLeq(RecordEnd(p), log[t].desc.meta.end)
    ensures p.recordLen == KV_RECORD_FIXED_LEN + |key| + |value| && p.valueLen == |value| && p.version == 0
    ensures PosLess(RecordStart(p), RecordEnd(p))
  {
    assert TxAt(log, t);
    assert log[t].ops[i].Put?;
  }

  /** Trim safety: a visible record ends at or before the end of the history that shows it. */
  lemma {:induction false} RecordEndsBeforeFrontier(log: Log, t: nat, i: nat, p: ValuePointer, key: Bytes, value: Bytes)
    requires WellFormed(log) && Provides(log, t, i, p, key, value)
    ensures FrontierAt(log).end.At? && PosLeq(RecordEnd(p), FrontierAt(log).end.pos)
    decreases |log|
  {
    ProvidedRecordIsInside(log, t, i, p, key, value);
    var n := |log| - 1;
    if t < n {
      WellFormedPrefix(log, n);
      assert TxAt(log, n);
      RecordEndsBeforeFrontier(log[..n], t, i, p, key, value);
      if HasEnvelope(log[n]) {
        PosLeqTransitive(RecordEnd(p), log[n].desc.meta.begin, log[n].desc.meta.end);
      }
    }
  }

  /** No two operations of a history share a record: a pointer determines its key and value. */
  lemma {:induction false} RecordsAreUnique(
    log: Log, t: nat, i: nat, u: nat, j: nat, p: ValuePointer, key: Bytes, value: Bytes, key': Bytes, value': Bytes)
    requires WellFormed(log) && Provides(log, t, i, p, key, value) && Provides(log, u, j, p, key', value')
    ensures t == u && i == j
  {
    ProvidedRecordIsInside(log, t, i, p, key, value);
    ProvidedRecordIsInside(log, u, j, p, key', value');
    if t < u {
      EarlierRecordIsBefore(log, t, i, u, p, key, value);
      PosLeqTransitive(RecordEnd(p), log[u].desc.meta.begin, RecordStart(p));
    } else if u < t {
      EarlierRecordIsBefore(log, u, j, t, p, key', value');
      PosLeqTransitive(RecordEnd(p), log[t].desc.meta.begin, RecordStart(p));
    } else {
      assert TxAt(log, t);
      assert RecordsInside(log[t].ops, log[t].pointers, log[t].desc.meta.begin, log[t].desc.meta.end);
    }
  }

  lemma {:induction false} EarlierRecordIsBefore(
    log: Log, t: nat, i: nat, u: nat, p: ValuePointer, key: Bytes, value: Bytes)
    requires WellFormed(log) && Provides(log, t, i, p, key, value) && t < u < |log| && HasEnvelope(log[u])
    ensures PosLeq(RecordEnd(p), log[u].desc.meta.begin)
  {
    WellFormedPrefix(log, u);
    assert TxAt(log, u);
    assert log[..u][t] == log[t];
    RecordEndsBeforeFrontier(log[..u], t, i, p, key, value);
  }
}
