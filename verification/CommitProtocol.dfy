/**
 * Batch planning (src/commit/protocol.rs): many operations with repeated keys become one
 * deduplicated atomic index batch, and its descriptor lets recovery take it back.
 */
module CommitProtocol {
  import opened Basics
  import opened Index

  const MAX_KEY_VALUE_SIZE: nat := 60_000
  const KV_RECORD_FIXED_LEN: nat := 55

  datatype Operation = Put(key: Bytes, value: Bytes) | Delete(key: Bytes)

  type Pointers = seq<Option<ValuePointer>>

  datatype ValidatedWrite = ValidatedWrite(
    operations: seq<Operation>, distinctKeys: seq<Bytes>, ordinals: seq<nat>)

  // ---------------------------------------------------------------- what a write means

  /** One operation applied to the user map; a Put stores the pointer of its record. */
  function ApplyOperation(
    user: map<Bytes, ValuePointer>, op: Operation, pointer: Option<ValuePointer>): map<Bytes, ValuePointer>
  {
    Store(user, op.key, StateOf(op, pointer))
  }

  function StateOf(op: Operation, pointer: Option<ValuePointer>): ValueState {
    if op.Put? && pointer.Some? then Present(pointer.value) else Absent
  }

  /** The reference meaning of a batch: its operations one by one, in order. */
  function FoldOperations(
    user: map<Bytes, ValuePointer>, ops: seq<Operation>, pointers: Pointers): map<Bytes, ValuePointer>
    requires |ops| == |pointers|
  {
    if ops == [] then user
    else
      var n := |ops| - 1;
      ApplyOperation(FoldOperations(user, ops[..n], pointers[..n]), ops[n], pointers[n])
  }

  /** Every Put has a record pointer and no Delete has one. */
  predicate PointersFit(ops: seq<Operation>, pointers: Pointers) {
    && |ops| == |pointers|
    && forall i :: 0 <= i < |ops| ==> (ops[i].Put? <==> pointers[i].Some?)
  }

  function KindOf(ops: seq<Operation>): TxKind {
    if exists i :: 0 <= i < |ops| && ops[i].Put? then VLogEnvelope else IndexOnlyDelete
  }

  function NoPointers(n: nat): (r: Pointers)
    ensures |r| == n && forall i :: 0 <= i < n ==> r[i] == None
  {
    seq(n, _ => None)
  }

  // ---------------------------------------------------------------- validation and deduplication

  function CheckOperation(op: Operation): Option<ErrorKind> {
    if |op.key| == 0 || |op.key| > MAX_KEY_VALUE_SIZE then Some(InvalidArgument)
    else if op.Delete? then None
    else if |op.value| > U16_MAX then Some(CapacityExceeded)
    else if |op.key| + |op.value| > MAX_KEY_VALUE_SIZE then Some(InvalidArgument)
    else None
  }

  /** The error of the first operation that has one. */
  function FirstOperationError(ops: seq<Operation>): Option<ErrorKind> {
    if ops == [] then None
    else
      var earlier := FirstOperationError(ops[..|ops| - 1]);
      if earlier.Some? then earlier else CheckOperation(ops[|ops| - 1])
  }

  lemma {:induction false} NoErrorMeansAllValid(ops: seq<Operation>)
    requires FirstOperationError(ops).None?
    ensures forall i :: 0 <= i < |ops| ==> CheckOperation(ops[i]).None?
  {
    if ops != [] {
      NoErrorMeansAllValid(ops[..|ops| - 1]);
      assert forall i :: 0 <= i < |ops| - 1 ==> ops[i] == ops[..|ops| - 1][i];
    }
  }

  /** Keys in the order of their first occurrence, each once. */
  function DistinctKeys(ops: seq<Operation>): (r: seq<Bytes>)
  {
    if ops == [] then []
    else
      var earlier := DistinctKeys(ops[..|ops| - 1]);
      var key := ops[|ops| - 1].key;
      if key in earlier then earlier else earlier + [key]
  }

  predicate NoDuplicates(keys: seq<Bytes>) {
    forall i, j :: 0 <= i < j < |keys| ==> keys[i] != keys[j]
  }

  lemma {:induction false} DistinctKeysAreTheKeys(ops: seq<Operation>)
    ensures NoDuplicates(DistinctKeys(ops))
    ensures forall k :: k in DistinctKeys(ops) <==> exists i :: 0 <= i < |ops| && ops[i].key == k
    ensures |DistinctKeys(ops)| <= |ops|
    ensures ops != [] ==> DistinctKeys(ops) != []
  {
    if ops != [] {
      var init := ops[..|ops| - 1];
      DistinctKeysAreTheKeys(init);
      forall k ensures k in DistinctKeys(ops) <==> exists i :: 0 <= i < |ops| && ops[i].key == k {
        if k in DistinctKeys(init) {
          var i :| 0 <= i < |init| && init[i].key == k;
          assert ops[i].key == k;
        }
        if exists i :: 0 <= i < |ops| && ops[i].key == k {
          var i :| 0 <= i < |ops| && ops[i].key == k;
          if i < |init| { assert init[i].key == k; }
        }
        if k == ops[|ops| - 1].key { assert ops[|ops| - 1].key == k; }
      }
    }
  }

  lemma {:induction false} DistinctKeysDoNotRepeat(ops: seq<Operation>)
    ensures NoDuplicates(DistinctKeys(ops))
  {
    DistinctKeysAreTheKeys(ops);
  }

  /** The validation verdict, in the order the checks are made. */
  function WriteError(ops: seq<Operation>, maxOperations: nat): Option<ErrorKind> {
    if ops == [] then Some(InvalidArgument)
    else if |ops| > maxOperations || |ops| > U32_MAX then Some(CapacityExceeded)
    else FirstOperationError(ops)
  }

  method ValidateNormalized(ops: seq<Operation>, maxOperations: nat) returns (r: Result<ValidatedWrite>)
    ensures r.Err? <==> WriteError(ops, maxOperations).Some?
    ensures r.Err? ==> r.error == WriteError(ops, maxOperations).value
    ensures r.Ok? ==> r.value.operations == ops && r.value.distinctKeys == DistinctKeys(ops)
    ensures r.Ok? ==> OrdinalsFit(r.value)
  {
    if |ops| == 0 {
      return Err(InvalidArgument);
    }
    if |ops| > maxOperations || |ops| > U32_MAX {
      return Err(CapacityExceeded);
    }
    for i := 0 to |ops|
      invariant FirstOperationError(ops[..i]).None?
    {
      assert ops[..i + 1][..i] == ops[..i];
      var error := CheckOperation(ops[i]);
      if error.Some? {
        FirstErrorIsKept(ops, i + 1);
        return Err(error.value);
      }
    }
    assert ops[..|ops|] == ops;

    var distinct, ordinals := AssignOrdinals(ops);
    return Ok(ValidatedWrite(ops, distinct, ordinals));
  }

  /** The ordinal loop of validate_normalized, with its hash map from key to ordinal. */
  method AssignOrdinals(ops: seq<Operation>) returns (distinct: seq<Bytes>, ordinals: seq<nat>)
    ensures distinct == DistinctKeys(ops)
    ensures |ordinals| == |ops|
    ensures forall i :: 0 <= i < |ops| ==> ordinals[i] < |distinct| && distinct[ordinals[i]] == ops[i].key
  {
    distinct, ordinals := [], [];
    var ordinalOf: map<Bytes, nat> := map[];
    for i := 0 to |ops|
      invariant distinct == DistinctKeys(ops[..i])
      invariant OrdinalMapOk(ordinalOf, distinct)
      invariant |ordinals| == i
      invariant forall j :: 0 <= j < i ==> ordinals[j] < |distinct| && distinct[ordinals[j]] == ops[j].key
    {
      assert ops[..i + 1][..i] == ops[..i];
      var key := ops[i].key;
      var ordinal: nat;
      if key in ordinalOf {
        ordinal := ordinalOf[key];
      } else {
        ordinal := |distinct|;
        OrdinalMapGrows(ordinalOf, distinct, key);
        distinct := distinct + [key];
        ordinalOf := ordinalOf[key := ordinal];
      }
      ordinals := ordinals + [ordinal];
    }
    assert ops[..|ops|] == ops;
  }

  ghost predicate OrdinalMapOk(ordinalOf: map<Bytes, nat>, distinct: seq<Bytes>) {
    && (forall k :: k in ordinalOf <==> k in distinct)
    && (forall k :: k in ordinalOf ==> ordinalOf[k] < |distinct| && distinct[ordinalOf[k]] == k)
  }

  lemma {:induction false} OrdinalMapGrows(ordinalOf: map<Bytes, nat>, distinct: seq<Bytes>, key: Bytes)
    requires OrdinalMapOk(ordinalOf, distinct) && key !in ordinalOf
    ensures OrdinalMapOk(ordinalOf[key := |distinct|], distinct + [key])
  {
  }

  /** Once a prefix has an error, the whole sequence reports that same error. */
  lemma {:induction false} FirstErrorIsKept(ops: seq<Operation>, n: nat)
    requires n <= |ops| && FirstOperationError(ops[..n]).Some?
    ensures FirstOperationError(ops) == FirstOperationError(ops[..n])
    decreases |ops|
  {
    if n == |ops| {
      assert ops[..n] == ops;
    } else {
      var init := ops[..|ops| - 1];
      assert init[..n] == ops[..n];
      FirstErrorIsKept(init, n);
    }
  }

  // ---------------------------------------------------------------- key plans

  /** The state of `key` after the operations, starting from `before`. */
  function FinalState(ops: seq<Operation>, pointers: Pointers, key: Bytes, before: ValueState): ValueState
    requires |ops| == |pointers|
  {
    if ops == [] then before
    else
      var n := |ops| - 1;
      if ops[n].key == key then StateOf(ops[n], pointers[n])
      else FinalState(ops[..n], pointers[..n], key, before)
  }

  lemma {:induction false} FoldReachesFinalState(
    user: map<Bytes, ValuePointer>, ops: seq<Operation>, pointers: Pointers, key: Bytes)
    requires |ops| == |pointers|
    ensures Lookup(FoldOperations(user, ops, pointers), key) == FinalState(ops, pointers, key, Lookup(user, key))
  {
    if ops != [] {
      var n := |ops| - 1;
      FoldReachesFinalState(user, ops[..n], pointers[..n], key);
    }
  }

  /** A key that occurs in the operations ends in a state that does not depend on where it began. */
  lemma {:induction false} OccurringKeyForgetsBefore(
    ops: seq<Operation>, pointers: Pointers, key: Bytes, a: ValueState, b: ValueState)
    requires |ops| == |pointers| && exists i :: 0 <= i < |ops| && ops[i].key == key
    ensures FinalState(ops, pointers, key, a) == FinalState(ops, pointers, key, b)
  {
    var n := |ops| - 1;
    if ops[n].key != key {
      var i :| 0 <= i < |ops| && ops[i].key == key;
      assert ops[..n][i].key == key;
      OccurringKeyForgetsBefore(ops[..n], pointers[..n], key, a, b);
    }
  }

  /** The descriptor mutations of a write against a user map, stated without the planning loop. */
  function PlannedMutations(
    user: map<Bytes, ValuePointer>, ops: seq<Operation>, pointers: Pointers): (r: seq<Mutation>)
    requires |ops| == |pointers|
    ensures |r| == |DistinctKeys(ops)|
  {
    var keys := DistinctKeys(ops);
    var after := FoldOperations(user, ops, pointers);
    seq(|keys|, i requires 0 <= i < |keys| => Mutation(keys[i], Lookup(user, keys[i]), Lookup(after, keys[i])))
  }

  /** What the code demands of a planning call before it looks at single operations. */
  predicate PlanShapeOk(write: ValidatedWrite, kind: TxKind, pointers: Option<Pointers>) {
    match kind
    case VLogEnvelope => pointers.Some? && |pointers.value| == |write.operations|
    case IndexOnlyDelete => pointers.None?
  }

  function PointersOrNone(write: ValidatedWrite, pointers: Option<Pointers>): Pointers {
    if pointers.Some? then pointers.value else NoPointers(|write.operations|)
  }

  /** The after-state an operation sets in its key's plan, or the refusal of a mismatched pointer. */
  function AfterState(kind: TxKind, op: Operation, pointer: Option<ValuePointer>): (r: Result<ValueState>)
    requires kind == IndexOnlyDelete ==> pointer.None?
    ensures r.Ok? <==> (op.Put? <==> pointer.Some?)
    ensures r.Ok? ==> r.value == StateOf(op, pointer)
    ensures r.Err? ==> r.error == InvalidArgument
  {
    match kind
    case VLogEnvelope =>
      if op.Put? && pointer.Some? then Ok(Present(pointer.value))
      else if op.Delete? && pointer.None? then Ok(Absent)
      else Err(InvalidArgument)
    case IndexOnlyDelete =>
      if op.Delete? then Ok(Absent) else Err(InvalidArgument)
  }

  method BuildKeyPlans(
    write: ValidatedWrite, beforeStates: seq<ValueState>, kind: TxKind, pointers: Option<Pointers>,
    ghost user: map<Bytes, ValuePointer>)
    returns (r: Result<seq<Mutation>>)
    requires OrdinalsFit(write)
    requires |beforeStates| == |write.distinctKeys| ==>
               forall i :: 0 <= i < |beforeStates| ==> beforeStates[i] == Lookup(user, write.distinctKeys[i])
    ensures r.Ok? <==>
              && |beforeStates| == |write.distinctKeys|
              && PlanShapeOk(write, kind, pointers)
              && PointersFit(write.operations, PointersOrNone(write, pointers))
    ensures r.Ok? ==> r.value == PlannedMutations(user, write.operations, PointersOrNone(write, pointers))
    ensures r.Err? ==> r.error == InvalidArgument
  {
    var ops := write.operations;
    if |beforeStates| != |write.distinctKeys| || |write.ordinals| != |ops| {
      return Err(InvalidArgument);
    }
    if !PlanShapeOk(write, kind, pointers) {
      return Err(InvalidArgument);
    }
    var plans: seq<Mutation> := [];
    for i := 0 to |write.distinctKeys|
      invariant |plans| == i
      invariant forall j :: 0 <= j < i ==> plans[j] == Mutation(write.distinctKeys[j], beforeStates[j], beforeStates[j])
    {
      plans := plans + [Mutation(write.distinctKeys[i], beforeStates[i], beforeStates[i])];
    }
    r := UpdatePlans(write, plans, beforeStates, kind, PointersOrNone(write, pointers));
    if r.Ok? {
      PlansReachPlanned(r.value, user, beforeStates, ops, PointersOrNone(write, pointers));
    }
  }

  /** The second loop of build_key_plans: each operation overwrites its key's after-state. */
  method UpdatePlans(
    write: ValidatedWrite, initial: seq<Mutation>, ghost before: seq<ValueState>, kind: TxKind, pointers: Pointers)
    returns (r: Result<seq<Mutation>>)
    requires OrdinalsFit(write) && |pointers| == |write.operations|
    requires kind == IndexOnlyDelete ==> forall i :: 0 <= i < |pointers| ==> pointers[i].None?
    requires PlansReach(initial, write.distinctKeys, before, [], [])
    ensures r.Ok? <==> PointersFit(write.operations, pointers)
    ensures r.Ok? ==> PlansReach(r.value, write.distinctKeys, before, write.operations, pointers)
    ensures r.Err? ==> r.error == InvalidArgument
  {
    var ops, plans := write.operations, initial;
    DistinctKeysDoNotRepeat(ops);
    assert ops[..0] == [] && pointers[..0] == [];
    for i := 0 to |ops|
      invariant forall j :: 0 <= j < i ==> (ops[j].Put? <==> pointers[j].Some?)
      invariant PlansReach(plans, write.distinctKeys, before, ops[..i], pointers[..i])
    {
      var after := AfterState(kind, ops[i], pointers[i]);
      if after.Err? {
        return Err(after.error);
      }
      PlansReachNext(plans, write.distinctKeys, before, ops, pointers, i, write.ordinals[i]);
      plans := plans[write.ordinals[i] := plans[write.ordinals[i]].(after := after.value)];
    }
    assert ops[..|ops|] == ops && pointers[..|ops|] == pointers;
    return Ok(plans);
  }

  /** What validation established about the ordinals of a write. */
  predicate OrdinalsFit(write: ValidatedWrite) {
    && write.distinctKeys == DistinctKeys(write.operations)
    && |write.ordinals| == |write.operations|
    && forall i :: 0 <= i < |write.ordinals| ==>
         write.ordinals[i] < |write.distinctKeys|
         && write.distinctKeys[write.ordinals[i]] == write.operations[i].key
  }

  /** Every plan holds its key's before-state and its state after the operations so far. */
  ghost predicate PlansReach(
    plans: seq<Mutation>, keys: seq<Bytes>, before: seq<ValueState>, ops: seq<Operation>, pointers: Pointers)
  {
    && |ops| == |pointers| && |plans| == |keys| == |before|
    && forall j :: 0 <= j < |plans| ==>
         plans[j] == Mutation(keys[j], before[j], FinalState(ops, pointers, keys[j], before[j]))
  }

  lemma {:induction false} PlansReachNext(
    plans: seq<Mutation>, keys: seq<Bytes>, before: seq<ValueState>, ops: seq<Operation>, pointers: Pointers,
    i: nat, ordinal: nat)
    requires |ops| == |pointers| && i < |ops| && PlansReach(plans, keys, before, ops[..i], pointers[..i])
    requires NoDuplicates(keys) && ordinal < |keys| && keys[ordinal] == ops[i].key
    ensures PlansReach(plans[ordinal := plans[ordinal].(after := StateOf(ops[i], pointers[i]))],
                       keys, before, ops[..i + 1], pointers[..i + 1])
  {
    assert ops[..i + 1][..i] == ops[..i] && pointers[..i + 1][..i] == pointers[..i];
  }

  lemma {:induction false} PlansReachPlanned(
    plans: seq<Mutation>, user: map<Bytes, ValuePointer>, before: seq<ValueState>, ops: seq<Operation>, pointers: Pointers)
    requires PlansReach(plans, DistinctKeys(ops), before, ops, pointers)
    requires forall i :: 0 <= i < |before| ==> before[i] == Lookup(user, DistinctKeys(ops)[i])
    ensures plans == PlannedMutations(user, ops, pointers)
  {
    forall j | 0 <= j < |plans| ensures plans[j] == PlannedMutations(user, ops, pointers)[j] {
      FoldReachesFinalState(user, ops, pointers, DistinctKeys(ops)[j]);
    }
  }

  // ---------------------------------------------------------------- the atomic batches

  function StoreMutation(key: Bytes, state: ValueState): IndexMutation {
    match state
    case Absent => DeleteUser(key)
    case Present(pointer) => PutUser(key, pointer)
  }

  function AfterBatch(mutations: seq<Mutation>): (r: Batch)
    ensures |r| == |mutations|
  {
    seq(|mutations|, i requires 0 <= i < |mutations| => StoreMutation(mutations[i].key, mutations[i].after))
  }

  function BeforeBatch(mutations: seq<Mutation>): (r: Batch)
    ensures |r| == |mutations|
  {
    seq(|mutations|, i requires 0 <= i < |mutations| => StoreMutation(mutations[i].key, mutations[i].before))
  }

  function MutationEntryPuts(seqNo: nat, mutations: seq<Mutation>): (r: Batch)
    ensures |r| == |mutations|
  {
    seq(|mutations|, i requires 0 <= i < |mutations| => PutTx(MutationKey(seqNo, i), MutationValue(mutations[i])))
  }

  function MutationEntryDeletes(seqNo: nat, count: nat): (r: Batch)
    ensures |r| == count
  {
    seq(count, i requires 0 <= i < count => DeleteTx(MutationKey(seqNo, i)))
  }

  /** User pointers, then the meta entry, then the mutation entries, then the head. */
  function CommitBatch(d: Descriptor): Batch {
    AfterBatch(d.mutations) + [PutTx(MetaKey(d.meta.seqNo), MetaValue(d.meta))]
    + MutationEntryPuts(d.meta.seqNo, d.mutations) + [PutHead(d.meta.seqNo)]
  }

  function CommitBatchWithFrontier(d: Descriptor, frontier: Option<Frontier>): Batch {
    if frontier.None? then CommitBatch(d) else CommitBatch(d) + [PutFrontier(frontier.value)]
  }

  /** Before-states, then the descriptor entries away, then the lowered head and recovery state. */
  function UndoBatch(d: Descriptor, next: RecoveryState): Batch {
    BeforeBatch(d.mutations) + MutationEntryDeletes(d.meta.seqNo, |d.mutations|)
    + [DeleteTx(MetaKey(d.meta.seqNo)), PutHead(next.nextUndo), PutRecovery(next)]
  }

  method BuildIndexBatch(d: Descriptor) returns (batch: Batch)
    ensures batch == CommitBatch(d)
    ensures |batch| == 2 * |d.mutations| + 2
  {
    batch := [];
    for i := 0 to |d.mutations|
      invariant batch == AfterBatch(d.mutations)[..i]
    {
      batch := batch + [StoreMutation(d.mutations[i].key, d.mutations[i].after)];
    }
    batch := batch + [PutTx(MetaKey(d.meta.seqNo), MetaValue(d.meta))];
    ghost var prefix := batch;
    for i := 0 to |d.mutations|
      invariant batch == prefix + MutationEntryPuts(d.meta.seqNo, d.mutations)[..i]
    {
      batch := batch + [PutTx(MutationKey(d.meta.seqNo, i), MutationValue(d.mutations[i]))];
    }
    batch := batch + [PutHead(d.meta.seqNo)];
  }

  method BuildUndoBatch(d: Descriptor, next: RecoveryState) returns (batch: Batch)
    ensures batch == UndoBatch(d, next)
  {
    batch := [];
    for i := 0 to |d.mutations|
      invariant batch == BeforeBatch(d.mutations)[..i]
    {
      batch := batch + [StoreMutation(d.mutations[i].key, d.mutations[i].before)];
    }
    ghost var prefix := batch;
    for i := 0 to |d.mutations|
      invariant batch == prefix + MutationEntryDeletes(d.meta.seqNo, |d.mutations|)[..i]
    {
      batch := batch + [DeleteTx(MutationKey(d.meta.seqNo, i))];
    }
    batch := batch + [DeleteTx(MetaKey(d.meta.seqNo))];
    batch := batch + [PutHead(next.nextUndo)];
    batch := batch + [PutRecovery(next)];
  }

  // ---------------------------------------------------------------- what the batches do

  /** The transaction entries of one descriptor. */
  function Entries(d: Descriptor): map<TxKey, TxValue> {
    map[MetaKey(d.meta.seqNo) := MetaValue(d.meta)] + MutationEntries(d.meta.seqNo, d.mutations, |d.mutations|)
  }

  function MutationEntries(seqNo: nat, mutations: seq<Mutation>, n: nat): map<TxKey, TxValue>
    requires n <= |mutations|
  {
    if n == 0 then map[]
    else MutationEntries(seqNo, mutations, n - 1)[MutationKey(seqNo, n - 1) := MutationValue(mutations[n - 1])]
  }

  lemma {:induction false} MutationEntriesAre(seqNo: nat, mutations: seq<Mutation>, n: nat)
    requires n <= |mutations|
    ensures forall k :: k in MutationEntries(seqNo, mutations, n) <==>
                          k.MutationKey? && k.seqNo == seqNo && k.ordinal < n
    ensures forall i :: 0 <= i < n ==>
              MutationKey(seqNo, i) in MutationEntries(seqNo, mutations, n)
              && MutationEntries(seqNo, mutations, n)[MutationKey(seqNo, i)] == MutationValue(mutations[i])
  {
    if n != 0 {
      MutationEntriesAre(seqNo, mutations, n - 1);
    }
  }

  lemma {:induction false} ApplyStores(ix: Index, keys: seq<Bytes>, states: seq<ValueState>, batch: Batch, n: nat)
    requires |keys| == |states| == |batch| && n <= |keys| && NoDuplicates(keys)
    requires forall i :: 0 <= i < |keys| ==> batch[i] == StoreMutation(keys[i], states[i])
    ensures var r := Apply(ix, batch[..n]);
            && r == ix.(user := r.user)
            && (forall i :: 0 <= i < n ==> Lookup(r.user, keys[i]) == states[i])
            && (forall k :: k !in keys[..n] ==> Lookup(r.user, k) == Lookup(ix.user, k))
  {
    if n != 0 {
      ApplyStores(ix, keys, states, batch, n - 1);
      assert batch[..n][..n - 1] == batch[..n - 1];
      var before := Apply(ix, batch[..n - 1]);
      var after := Apply(ix, batch[..n]);
      assert after.user == Store(before.user, keys[n - 1], states[n - 1]);
      assert keys[..n] == keys[..n - 1] + [keys[n - 1]];
      forall i | 0 <= i < n ensures Lookup(after.user, keys[i]) == states[i] {
      }
    }
  }

  lemma {:induction false} ApplyEntryPuts(ix: Index, seqNo: nat, mutations: seq<Mutation>, n: nat)
    requires n <= |mutations|
    ensures Apply(ix, MutationEntryPuts(seqNo, mutations)[..n])
         == ix.(txs := ix.txs + MutationEntries(seqNo, mutations, n))
  {
    var batch := MutationEntryPuts(seqNo, mutations);
    if n == 0 {
      assert ix.txs + MutationEntries(seqNo, mutations, 0) == ix.txs;
    } else {
      ApplyEntryPuts(ix, seqNo, mutations, n - 1);
      assert batch[..n][..n - 1] == batch[..n - 1];
      var entries := MutationEntries(seqNo, mutations, n - 1);
      var key, value := MutationKey(seqNo, n - 1), MutationValue(mutations[n - 1]);
      assert (ix.txs + entries)[key := value] == ix.txs + entries[key := value];
    }
  }

  function MutationKeys(seqNo: nat, n: nat): (r: set<TxKey>)
    ensures forall k :: k in r <==> k.MutationKey? && k.seqNo == seqNo && k.ordinal < n
  {
    if n == 0 then {} else MutationKeys(seqNo, n - 1) + {MutationKey(seqNo, n - 1)}
  }

  lemma {:induction false} ApplyEntryDeletes(ix: Index, seqNo: nat, count: nat, n: nat)
    requires n <= count
    ensures Apply(ix, MutationEntryDeletes(seqNo, count)[..n]) == ix.(txs := ix.txs - MutationKeys(seqNo, n))
  {
    var batch := MutationEntryDeletes(seqNo, count);
    if n == 0 {
      assert ix.txs - MutationKeys(seqNo, 0) == ix.txs;
    } else {
      ApplyEntryDeletes(ix, seqNo, count, n - 1);
      assert batch[..n][..n - 1] == batch[..n - 1];
      assert ix.txs - MutationKeys(seqNo, n - 1) - {MutationKey(seqNo, n - 1)} == ix.txs - MutationKeys(seqNo, n);
    }
  }

  function MutatedKeys(mutations: seq<Mutation>): (r: seq<Bytes>)
    ensures |r| == |mutations|
    ensures forall i :: 0 <= i < |r| ==> r[i] == mutations[i].key
  {
    seq(|mutations|, i requires 0 <= i < |mutations| => mutations[i].key)
  }

  /**
   * Batch refinement: the one deduplicated batch leaves exactly the user map that the operations
   * leave when they are applied one by one, and adds exactly the descriptor and the head.
   */
  lemma {:induction false} CommitBatchRefinesOperations(
    ix: Index, d: Descriptor, ops: seq<Operation>, pointers: Pointers, frontier: Option<Frontier>)
    requires |ops| == |pointers| && d.mutations == PlannedMutations(ix.user, ops, pointers)
    ensures Apply(ix, CommitBatchWithFrontier(d, frontier))
         == Index(FoldOperations(ix.user, ops, pointers), ix.txs + Entries(d), d.meta.seqNo,
                  if frontier.Some? then frontier.value else ix.frontier, ix.recovery)
  {
    var stores := AfterBatch(d.mutations);
    StoresReachFold(ix, d, ops, pointers);
    DescriptorPutsAddEntries(Apply(ix, stores), d);
    var rest := DescriptorPuts(d);
    assert CommitBatch(d) == stores + rest;
    ApplyConcat(ix, stores, rest);
    if frontier.Some? {
      ApplyConcat(ix, CommitBatch(d), [PutFrontier(frontier.value)]);
      ApplySingle(Apply(ix, CommitBatch(d)), PutFrontier(frontier.value));
    }
  }

  lemma {:induction false} StoresReachFold(ix: Index, d: Descriptor, ops: seq<Operation>, pointers: Pointers)
    requires |ops| == |pointers| && d.mutations == PlannedMutations(ix.user, ops, pointers)
    ensures Apply(ix, AfterBatch(d.mutations)) == ix.(user := FoldOperations(ix.user, ops, pointers))
  {
    var keys := DistinctKeys(ops);
    DistinctKeysAreTheKeys(ops);
    var stores := AfterBatch(d.mutations);
    var states := seq(|keys|, i requires 0 <= i < |keys| => d.mutations[i].after);
    ApplyStores(ix, keys, states, stores, |keys|);
    assert stores[..|keys|] == stores && keys[..|keys|] == keys;
    var a := Apply(ix, stores);
    var after := FoldOperations(ix.user, ops, pointers);
    forall k ensures Lookup(a.user, k) == Lookup(after, k) {
      if k in keys {
        var i :| 0 <= i < |keys| && keys[i] == k;
        assert states[i] == Lookup(after, k);
      } else {
        UntouchedKeyIsKept(ix.user, ops, pointers, k);
      }
    }
    LookupsDetermineMap(a.user, after);
  }

  function DescriptorPuts(d: Descriptor): Batch {
    [PutTx(MetaKey(d.meta.seqNo), MetaValue(d.meta))] + MutationEntryPuts(d.meta.seqNo, d.mutations)
    + [PutHead(d.meta.seqNo)]
  }

  lemma {:induction false} DescriptorPutsAddEntries(ix: Index, d: Descriptor)
    ensures Apply(ix, DescriptorPuts(d)) == ix.(txs := ix.txs + Entries(d), head := d.meta.seqNo)
  {
    var meta: Batch := [PutTx(MetaKey(d.meta.seqNo), MetaValue(d.meta))];
    var puts := MutationEntryPuts(d.meta.seqNo, d.mutations);
    var head: Batch := [PutHead(d.meta.seqNo)];
    ApplySingle(ix, meta[0]);
    var b := Apply(ix, meta);
    ApplyConcat(ix, meta, puts);
    ApplyEntryPuts(b, d.meta.seqNo, d.mutations, |d.mutations|);
    assert puts[..|d.mutations|] == puts;
    var c := Apply(ix, meta + puts);
    PutThenAdd(ix.txs, MetaKey(d.meta.seqNo), MetaValue(d.meta),
               MutationEntries(d.meta.seqNo, d.mutations, |d.mutations|));
    ApplyConcat(ix, meta + puts, head);
    ApplySingle(c, head[0]);
  }

  lemma {:induction false} PutThenAdd<K, V>(m: map<K, V>, key: K, value: V, more: map<K, V>)
    ensures m[key := value] + more == m + (map[key := value] + more)
  {
  }

  lemma {:induction false} ApplySingle(ix: Index, m: IndexMutation)
    ensures Apply(ix, [m]) == ApplyOne(ix, m)
  {
    assert [m][..0] == [];
    assert Apply(ix, [m][..0]) == ix;
  }

  lemma {:induction false} UntouchedKeyIsKept(
    user: map<Bytes, ValuePointer>, ops: seq<Operation>, pointers: Pointers, key: Bytes)
    requires |ops| == |pointers| && key !in DistinctKeys(ops)
    ensures Lookup(FoldOperations(user, ops, pointers), key) == Lookup(user, key)
  {
    if ops != [] {
      var n := |ops| - 1;
      UntouchedKeyIsKept(user, ops[..n], pointers[..n], key);
    }
  }

  /**
   * The undo batch takes a commit back: on an index that shows the descriptor's after-states it
   * restores the before-states and removes the descriptor entries, and nothing else changes.
   */
  lemma {:induction false} UndoBatchRestores(ix: Index, d: Descriptor, next: RecoveryState, user: map<Bytes, ValuePointer>)
    requires NoDuplicates(MutatedKeys(d.mutations))
    requires forall i :: 0 <= i < |d.mutations| ==> d.mutations[i].before == Lookup(user, d.mutations[i].key)
    requires forall k :: k !in MutatedKeys(d.mutations) ==> Lookup(ix.user, k) == Lookup(user, k)
    ensures Apply(ix, UndoBatch(d, next))
         == Index(user, ix.txs - MutationKeys(d.meta.seqNo, |d.mutations|) - {MetaKey(d.meta.seqNo)},
                  next.nextUndo, ix.frontier, Some(next))
  {
    var stores := BeforeBatch(d.mutations);
    StoresRestoreBefore(ix, d, user);
    var a := Apply(ix, stores);
    var deletes := MutationEntryDeletes(d.meta.seqNo, |d.mutations|);
    ApplyConcat(ix, stores, deletes);
    ApplyEntryDeletes(a, d.meta.seqNo, |d.mutations|, |d.mutations|);
    assert deletes[..|d.mutations|] == deletes;
    var b := Apply(ix, stores + deletes);
    var last: Batch := [DeleteTx(MetaKey(d.meta.seqNo)), PutHead(next.nextUndo), PutRecovery(next)];
    ApplyConcat(ix, stores + deletes, last);
    ApplyTriple(b, last[0], last[1], last[2]);
  }

  lemma {:induction false} StoresRestoreBefore(ix: Index, d: Descriptor, user: map<Bytes, ValuePointer>)
    requires NoDuplicates(MutatedKeys(d.mutations))
    requires forall i :: 0 <= i < |d.mutations| ==> d.mutations[i].before == Lookup(user, d.mutations[i].key)
    requires forall k :: k !in MutatedKeys(d.mutations) ==> Lookup(ix.user, k) == Lookup(user, k)
    ensures Apply(ix, BeforeBatch(d.mutations)) == ix.(user := user)
  {
    var keys := MutatedKeys(d.mutations);
    var stores := BeforeBatch(d.mutations);
    var states := seq(|keys|, i requires 0 <= i < |keys| => d.mutations[i].before);
    ApplyStores(ix, keys, states, stores, |keys|);
    assert stores[..|keys|] == stores && keys[..|keys|] == keys;
    var a := Apply(ix, stores);
    forall k ensures Lookup(a.user, k) == Lookup(user, k) {
      if k in keys {
        var i :| 0 <= i < |keys| && keys[i] == k;
        assert states[i] == Lookup(user, k);
      }
    }
    LookupsDetermineMap(a.user, user);
  }

  lemma {:induction false} ApplyTriple(ix: Index, a: IndexMutation, b: IndexMutation, c: IndexMutation)
    ensures Apply(ix, [a, b, c]) == ApplyOne(ApplyOne(ApplyOne(ix, a), b), c)
  {
    assert [a, b, c] == ([a] + [b]) + [c];
    ApplyConcat(ix, [a] + [b], [c]);
    ApplyConcat(ix, [a], [b]);
    ApplySingle(ix, a);
    ApplySingle(Apply(ix, [a]), b);
    ApplySingle(Apply(ix, [a] + [b]), c);
  }

  /** Undo is the exact inverse of commit on the user map, the descriptor space and the head. */
  lemma {:induction false} UndoInvertsCommit(
    ix: Index, d: Descriptor, ops: seq<Operation>, pointers: Pointers, frontier: Option<Frontier>, next: RecoveryState)
    requires |ops| == |pointers| && d.mutations == PlannedMutations(ix.user, ops, pointers)
    requires forall k :: k in ix.txs ==> k.seqNo != d.meta.seqNo
    requires next.nextUndo == ix.head
    ensures var committed := Apply(ix, CommitBatchWithFrontier(d, frontier));
            Apply(committed, UndoBatch(d, next)) == ix.(frontier := committed.frontier, recovery := Some(next))
  {
    var committed := Apply(ix, CommitBatchWithFrontier(d, frontier));
    CommitBatchRefinesOperations(ix, d, ops, pointers, frontier);
    DistinctKeysAreTheKeys(ops);
    assert MutatedKeys(d.mutations) == DistinctKeys(ops);
    forall k | k !in MutatedKeys(d.mutations) ensures Lookup(committed.user, k) == Lookup(ix.user, k) {
      UntouchedKeyIsKept(ix.user, ops, pointers, k);
    }
    UndoBatchRestores(committed, d, next, ix.user);
    EntriesRemoved(ix.txs, d);
  }

  /** Removing a descriptor's entries undoes adding them, when none were there before. */
  lemma {:induction false} EntriesRemoved(txs: map<TxKey, TxValue>, d: Descriptor)
    requires forall k :: k in txs ==> k.seqNo != d.meta.seqNo
    ensures txs + Entries(d) - MutationKeys(d.meta.seqNo, |d.mutations|) - {MetaKey(d.meta.seqNo)} == txs
  {
    MutationEntriesAre(d.meta.seqNo, d.mutations, |d.mutations|);
  }
}
