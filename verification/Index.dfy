/**
 * The index backend: an ordered map of user pointers, the transaction keyspace, and the
 * system keys, changed only by atomic batches (src/index/mod.rs, src/commit/descriptor.rs).
 * Encoded keys and values are represented by what they decode to.
 */
module Index {
  import opened Basics

  /** A Value Log position; the derived order is file first, then offset. */
  datatype Pos = Pos(file: nat, offset: nat)

  predicate PosLess(a: Pos, b: Pos) {
    a.file < b.file || (a.file == b.file && a.offset < b.offset)
  }

  predicate PosLeq(a: Pos, b: Pos) {
    a == b || PosLess(a, b)
  }

  /** The bounds that every encoded position must respect. */
  predicate PosValid(p: Pos) {
    p.file <= 999_999 && p.offset <= 0x1_0000_0000
  }

  datatype VLogEnd = Empty | At(pos: Pos)

  function AppendPosition(end: VLogEnd): Pos {
    match end
    case Empty => Pos(0, 0)
    case At(pos) => pos
  }

  datatype ValuePointer = ValuePointer(
    version: nat, file: nat, recordOffset: nat, recordLen: nat, valueLen: nat)

  datatype ValueState = Absent | Present(pointer: ValuePointer)

  datatype TxKind = VLogEnvelope | IndexOnlyDelete

  datatype TxMeta = TxMeta(
    kind: TxKind, seqNo: nat, uuid: Bytes, prevSeq: nat, begin: Pos, end: Pos,
    opCount: nat, keyCount: nat, envelopeCrc: nat)

  datatype Mutation = Mutation(key: Bytes, before: ValueState, after: ValueState)

  datatype Descriptor = Descriptor(meta: TxMeta, mutations: seq<Mutation>)

  datatype Frontier = Frontier(seqNo: nat, vlogSeq: nat, end: VLogEnd)

  datatype Phase = Undo | Trim | Finalize

  datatype RecoveryState = RecoveryState(
    phase: Phase, originalHead: nat, target: Frontier, nextUndo: nat, trimRequired: bool)

  /** Keys of the transaction keyspace: one meta entry and one entry per distinct user key. */
  datatype TxKey = MetaKey(seqNo: nat) | MutationKey(seqNo: nat, ordinal: nat)

  datatype TxValue = MetaValue(meta: TxMeta) | MutationValue(mutation: Mutation)

  datatype Index = Index(
    user: map<Bytes, ValuePointer>,
    txs: map<TxKey, TxValue>,
    head: nat,
    frontier: Frontier,
    recovery: Option<RecoveryState>)

  const EMPTY_INDEX := Index(map[], map[], 0, Frontier(0, 0, Empty), None)

  datatype IndexMutation =
    | PutUser(key: Bytes, pointer: ValuePointer)
    | DeleteUser(key: Bytes)
    | PutTx(txKey: TxKey, txValue: TxValue)
    | DeleteTx(txKey: TxKey)
    | PutHead(head: nat)
    | PutFrontier(frontier: Frontier)
    | PutRecovery(state: RecoveryState)
    | DeleteRecovery

  type Batch = seq<IndexMutation>

  function Lookup(user: map<Bytes, ValuePointer>, key: Bytes): ValueState {
    if key in user then Present(user[key]) else Absent
  }

  /** The user map after `key` has been put into `state`. */
  function Store(user: map<Bytes, ValuePointer>, key: Bytes, state: ValueState): (r: map<Bytes, ValuePointer>)
    ensures Lookup(r, key) == state
    ensures forall k :: k != key ==> Lookup(r, k) == Lookup(user, k)
  {
    match state
    case Absent => user - {key}
    case Present(pointer) => user[key := pointer]
  }

  function ApplyOne(ix: Index, m: IndexMutation): Index {
    match m
    case PutUser(key, pointer) => ix.(user := ix.user[key := pointer])
    case DeleteUser(key) => ix.(user := ix.user - {key})
    case PutTx(key, value) => ix.(txs := ix.txs[key := value])
    case DeleteTx(key) => ix.(txs := ix.txs - {key})
    case PutHead(head) => ix.(head := head)
    case PutFrontier(frontier) => ix.(frontier := frontier)
    case PutRecovery(state) => ix.(recovery := Some(state))
    case DeleteRecovery => ix.(recovery := None)
  }

  /** The effect of one atomic batch: its mutations, in order, all or none. */
  function Apply(ix: Index, batch: Batch): Index {
    if batch == [] then ix
    else ApplyOne(Apply(ix, batch[..|batch| - 1]), batch[|batch| - 1])
  }

  lemma {:induction false} ApplyConcat(ix: Index, a: Batch, b: Batch)
    ensures Apply(ix, a + b) == Apply(Apply(ix, a), b)
    decreases |b|
  {
    if b == [] {
      assert a + b == a;
    } else {
      var c := a + b;
      assert c[..|c| - 1] == a + b[..|b| - 1];
      ApplyConcat(ix, a, b[..|b| - 1]);
    }
  }

  lemma {:induction false} MapsEqual<K, V>(a: map<K, V>, b: map<K, V>)
    requires forall k :: k in a <==> k in b
    requires forall k :: k in a ==> a[k] == b[k]
    ensures a == b
  {
  }

  /** Two user maps that agree on every lookup are the same map. */
  lemma {:induction false} LookupsDetermineMap(a: map<Bytes, ValuePointer>, b: map<Bytes, ValuePointer>)
    requires forall k :: Lookup(a, k) == Lookup(b, k)
    ensures a == b
  {
    forall k ensures k in a <==> k in b {
      assert Lookup(a, k) == Lookup(b, k);
    }
    forall k | k in a ensures a[k] == b[k] {
      assert Lookup(a, k) == Lookup(b, k);
    }
    MapsEqual(a, b);
  }
}
