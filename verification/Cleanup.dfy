/**
 * Background descriptor cleanup (cleanup_descriptors_once in src/db.rs): one pass over the entries of
 * stable transactions, in small Buffer batches, that may be told to stop at any point.
 */
module Cleanup {
  import opened Basics
  import opened Index
  import opened Recovery
  import opened Running

  const MAX_KEYS_PER_BATCH: nat := 1_024
  const MAX_ENCODED_KEY_BYTES: nat := 1_048_576
  const MUTATION_KEY_LEN: nat := 19

  /** What the scan hands over: every stored key up to the durable sequence, grouped by transaction. */
  predicate ScanFits(entries: seq<TxKey>, txs: map<TxKey, TxValue>, durable: nat) {
    (forall k :: k in txs && k.seqNo <= durable ==> k in entries) && Grouped(entries)
  }

  predicate Grouped(entries: seq<TxKey>) {
    forall i, j :: 0 <= i < j < |entries| ==> entries[i].seqNo <= entries[j].seqNo
  }

  /** A sequence of index states, each one cleanup batch of bounded size after the one before. */
  ghost predicate CleanupRun(trace: seq<Index>) {
    trace != [] && forall i :: 0 <= i < |trace| - 1 ==> CleanupBatch(trace[i], trace[i + 1])
  }

  ghost predicate CleanupBatch(a: Index, b: Index) {
    exists keys :: Cleanable(a, keys) && |keys| <= MAX_KEYS_PER_BATCH && b == CleanedIndex(a, keys)
  }

  lemma {:induction false} RunExtended(trace: seq<Index>, keys: set<TxKey>)
    requires CleanupRun(trace) && Cleanable(trace[|trace| - 1], keys) && |keys| <= MAX_KEYS_PER_BATCH
    ensures CleanupRun(trace + [CleanedIndex(trace[|trace| - 1], keys)])
  {
    var last := CleanedIndex(trace[|trace| - 1], keys);
    var longer := trace + [last];
    forall i | 0 <= i < |longer| - 1 ensures CleanupBatch(longer[i], longer[i + 1]) {
      if i < |trace| - 1 { assert CleanupBatch(trace[i], trace[i + 1]); }
    }
  }

  function KeySet(keys: seq<TxKey>): (r: set<TxKey>)
    ensures forall k :: k in r <==> k in keys
  {
    set k | k in keys
  }

  lemma {:induction false} KeySetIsNoLarger(keys: seq<TxKey>)
    ensures |KeySet(keys)| <= |keys|
  {
    if keys == [] {
      assert KeySet(keys) == {};
    } else {
      var last := keys[|keys| - 1];
      KeySetIsNoLarger(keys[..|keys| - 1]);
      assert KeySet(keys) == KeySet(keys[..|keys| - 1]) + {last};
    }
  }

  function CountMutations(keys: seq<TxKey>): nat {
    if keys == [] then 0 else CountMutations(keys[..|keys| - 1]) + if keys[|keys| - 1].MutationKey? then 1 else 0
  }

  function CountMeta(keys: seq<TxKey>): nat {
    if keys == [] then 0 else CountMeta(keys[..|keys| - 1]) + if keys[|keys| - 1].MetaKey? then 1 else 0
  }

  lemma {:induction false} CountsAdd(a: seq<TxKey>, b: seq<TxKey>)
    ensures CountMutations(a + b) == CountMutations(a) + CountMutations(b)
    ensures CountMeta(a + b) == CountMeta(a) + CountMeta(b)
    decreases |b|
  {
    if b == [] {
      assert a + b == a;
    } else {
      assert (a + b)[..|a + b| - 1] == a + b[..|b| - 1];
      CountsAdd(a, b[..|b| - 1]);
    }
  }

  lemma {:induction false} CountsOfKind(keys: seq<TxKey>, metas: bool)
    requires forall k :: k in keys ==> k.MetaKey? == metas
    ensures CountMutations(keys) == if metas then 0 else |keys|
    ensures CountMeta(keys) == if metas then |keys| else 0
  {
    if keys != [] {
      assert keys[|keys| - 1] in keys;
      CountsOfKind(keys[..|keys| - 1], metas);
    }
  }

  function KeysOfKind(keys: seq<TxKey>, metas: bool): set<TxKey> {
    set k | k in keys && k.MetaKey? == metas
  }

  /** Without repetition the counts are the numbers of keys of each kind. */
  lemma {:induction false} CountsAreSizes(keys: seq<TxKey>)
    requires forall i, j :: 0 <= i < j < |keys| ==> keys[i] != keys[j]
    ensures CountMutations(keys) == |KeysOfKind(keys, false)| && CountMeta(keys) == |KeysOfKind(keys, true)|
  {
    if keys != [] {
      var init, last := keys[..|keys| - 1], keys[|keys| - 1];
      CountsAreSizes(init);
      assert last !in init;
      KindGrows(init, last, false);
      KindGrows(init, last, true);
      assert keys == init + [last];
    }
  }

  lemma {:induction false} KindGrows(init: seq<TxKey>, last: TxKey, metas: bool)
    requires last !in init
    ensures |KeysOfKind(init + [last], metas)| == |KeysOfKind(init, metas)| + if last.MetaKey? == metas then 1 else 0
  {
    if last.MetaKey? == metas {
      assert KeysOfKind(init + [last], metas) == KeysOfKind(init, metas) + {last};
    } else {
      assert KeysOfKind(init + [last], metas) == KeysOfKind(init, metas);
    }
  }

  // ---------------------------------------------------------------- the order of the scan

  /** Within a transaction the meta entry comes first and ordinals rise. */
  predicate KeyFollows(a: TxKey, b: TxKey) {
    a.seqNo == b.seqNo ==> b.MutationKey? && (a.MutationKey? ==> a.ordinal < b.ordinal)
  }

  /** The entry is not one that an ordered scan up to `durable` can yield here. */
  predicate Broken(entries: seq<TxKey>, i: nat, durable: nat)
    requires i < |entries|
  {
    entries[i].seqNo > durable || (i > 0 && !KeyFollows(entries[i - 1], entries[i]))
  }

  ghost predicate ScanBroken(entries: seq<TxKey>, durable: nat) {
    exists i :: 0 <= i < |entries| && Broken(entries, i, durable)
  }

  /** The order of the encoded keys: by transaction, its meta entry first, then by ordinal. */
  predicate Before(a: TxKey, b: TxKey) {
    a.seqNo < b.seqNo || (a.seqNo == b.seqNo && KeyFollows(a, b))
  }

  /** A scan grouped by transaction is unbroken exactly if it is in strict key order and stays within `durable`. */
  lemma {:induction false} UnbrokenExactlyWhenOrdered(entries: seq<TxKey>, durable: nat)
    requires Grouped(entries)
    ensures !ScanBroken(entries, durable)
       <==> && (forall i, j :: 0 <= i < j < |entries| ==> Before(entries[i], entries[j]))
            && (forall i :: 0 <= i < |entries| ==> entries[i].seqNo <= durable)
  {
    if !ScanBroken(entries, durable) {
      forall i, j | 0 <= i < j < |entries| ensures Before(entries[i], entries[j]) {
        UnbrokenIsOrdered(entries, durable, i, j);
      }
      forall i | 0 <= i < |entries| ensures entries[i].seqNo <= durable {
        assert !Broken(entries, i, durable);
      }
    } else {
      var i :| 0 <= i < |entries| && Broken(entries, i, durable);
      assert entries[i].seqNo > durable || !Before(entries[i - 1], entries[i]);
    }
  }

  lemma {:induction false} UnbrokenIsOrdered(entries: seq<TxKey>, durable: nat, i: nat, j: nat)
    requires Grouped(entries)
    requires !ScanBroken(entries, durable) && i < j < |entries|
    ensures Before(entries[i], entries[j])
    decreases j
  {
    assert !Broken(entries, j, durable);
    if i < j - 1 { UnbrokenIsOrdered(entries, durable, i, j - 1); }
  }

  /** For a scan of the stored keys the counts of a whole pass are the numbers of stable entries. */
  lemma {:induction false} WholePassCountsStable(entries: seq<TxKey>, txs: map<TxKey, TxValue>, durable: nat)
    requires ScanFits(entries, txs, durable) && !ScanBroken(entries, durable) && forall k :: k in entries ==> k in txs
    ensures CountMutations(entries) == |set k | k in txs && k.seqNo <= durable && k.MutationKey?|
    ensures CountMeta(entries) == |set k | k in txs && k.seqNo <= durable && k.MetaKey?|
  {
    UnbrokenExactlyWhenOrdered(entries, durable);
    forall i, j | 0 <= i < j < |entries| ensures entries[i] != entries[j] {
      assert Before(entries[i], entries[j]);
    }
    CountsAreSizes(entries);
    assert KeysOfKind(entries, false) == set k | k in txs && k.seqNo <= durable && k.MutationKey?;
    assert KeysOfKind(entries, true) == set k | k in txs && k.seqNo <= durable && k.MetaKey?;
  }

  predicate UnbrokenThrough(entries: seq<TxKey>, n: nat, durable: nat) {
    forall j :: 0 <= j < n && j < |entries| ==> !Broken(entries, j, durable)
  }

  /** More reads of the stop flag than one pass over the entries can make. */
  function EnoughPolls(entries: seq<TxKey>): nat {
    6 * |entries| + 4
  }

  /** DescriptorCleanupProgress. */
  datatype Progress = Progress(
    durable: nat, deletedMutations: nat, deletedMeta: nat, committedBatches: nat, blocked: bool)

  /** What was scanned is deleted or collected, and nothing else is. */
  ghost predicate HandledBy(done: seq<TxKey>, deleted: seq<TxKey>, pending: seq<TxKey>, meta: Option<TxKey>) {
    && (forall k :: k in done <==> k in deleted || k in pending || meta == Some(k))
    && CountMutations(done) == CountMutations(deleted) + |pending|
    && CountMeta(done) == CountMeta(deleted) + if meta.Some? then 1 else 0
  }

  lemma {:induction false} PendingMoves(done: seq<TxKey>, deleted: seq<TxKey>, pending: seq<TxKey>, meta: Option<TxKey>)
    requires HandledBy(done, deleted, pending, meta) && forall k :: k in pending ==> k.MutationKey?
    ensures HandledBy(done, deleted + pending, [], meta)
  {
    CountsOfKind(pending, false);
    CountsAdd(deleted, pending);
  }

  lemma {:induction false} MetaMoves(done: seq<TxKey>, deleted: seq<TxKey>, meta: TxKey)
    requires HandledBy(done, deleted, [], Some(meta)) && meta.MetaKey?
    ensures HandledBy(done, deleted + [meta], [], None)
  {
    CountsOfKind([meta], true);
    CountsAdd(deleted, [meta]);
  }

  lemma {:induction false} KeyJoins(done: seq<TxKey>, deleted: seq<TxKey>, pending: seq<TxKey>, meta: Option<TxKey>, key: TxKey)
    requires HandledBy(done, deleted, pending, meta)
    ensures key.MutationKey? ==> HandledBy(done + [key], deleted, pending + [key], meta)
    ensures key.MetaKey? && meta.None? ==> HandledBy(done + [key], deleted, pending, Some(key))
  {
    CountsAdd(done, [key]);
    CountsOfKind([key], key.MetaKey?);
  }

  datatype VisitOutcome = Visited | StoppedVisit | Refused

  class Cleaner {
    var ix: Index
    /** How often the stop flag still reads false. */
    var polls: nat
    var deletedMutations: nat
    var deletedMeta: nat
    var committedBatches: nat
    /** Mutation keys to delete next, and the meta key that must wait for them. */
    var pending: seq<TxKey>
    var meta: Option<TxKey>
    var sawMutation: bool
    var lastOrdinal: Option<nat>
    ghost var trace: seq<Index>
    /** Everything deleted so far, in order. */
    ghost var deleted: seq<TxKey>

    constructor (ix: Index, polls: nat)
      ensures this.ix == ix && this.polls == polls && Untouched(ix)
    {
      this.ix, this.polls, pending, meta, sawMutation, lastOrdinal := ix, polls, [], None, false, None;
      deletedMutations, deletedMeta, committedBatches := 0, 0, 0;
      trace, deleted := [ix], [];
      new;
      assert ix.txs - KeySet(deleted) == ix.txs;
    }

    /** Nothing has happened yet. */
    ghost predicate Untouched(start: Index)
      reads this
    {
      Valid(start) && deleted == [] && pending == [] && meta == None && !sawMutation && lastOrdinal == None
    }

    /** The index has lost exactly what was deleted, one cleanup batch after another, and all of it is counted. */
    ghost predicate Valid(start: Index)
      reads this
    {
      && CleanupRun(trace) && trace[0] == start && trace[|trace| - 1] == ix && |trace| == committedBatches + 1
      && ix == start.(txs := start.txs - KeySet(deleted))
      && deletedMutations == CountMutations(deleted) && deletedMeta == CountMeta(deleted)
    }

    /** Everything still stored up to `durable` is ahead in the scan, or collected. */
    ghost predicate Accounted(ahead: seq<TxKey>, durable: nat)
      reads this`ix, this`pending, this`meta
    {
      forall k :: k in ix.txs && k.seqNo <= durable ==> k in ahead || k in pending || meta == Some(k)
    }

    /** What is collected belongs to the transaction being scanned, and one batch can still delete it. */
    ghost predicate Collected(current: nat, durable: nat)
      reads this`pending, this`meta, this`polls
    {
      && current <= durable && (polls > 0 ==> |pending| <= MAX_KEYS_PER_BATCH)
      && (forall k :: k in pending ==> k.MutationKey? && k.seqNo == current)
      && (meta.Some? ==> meta.value == MetaKey(current))
    }

    /** Another key can be collected, unless the pass is to stop anyway. */
    ghost predicate HasRoom()
      reads this`pending, this`polls
    {
      polls > 0 ==> |pending| < MAX_KEYS_PER_BATCH
    }

    /** What was scanned is deleted or collected, and nothing else is. */
    ghost predicate Handled(done: seq<TxKey>)
      reads this`deleted, this`pending, this`meta
    {
      HandledBy(done, deleted, pending, meta)
    }

    /** The order checks remember the last entry of the current transaction. */
    ghost predicate Remembers(last: Option<TxKey>)
      reads this`sawMutation, this`lastOrdinal, this`meta
    {
      match last
      case None => !sawMutation && lastOrdinal.None? && meta.None?
      case Some(MetaKey(_)) => !sawMutation && lastOrdinal.None? && meta.Some?
      case Some(MutationKey(_, ordinal)) => sawMutation && lastOrdinal == Some(ordinal)
    }

    /** The stop flag: once it reads true it stays true. */
    method Stopped() returns (stop: bool)
      modifies this`polls
      ensures stop <==> old(polls) == 0
      ensures polls == if stop then 0 else old(polls) - 1
    {
      stop := polls == 0;
      if !stop {
        polls := polls - 1;
      }
    }

    /** commit_cleanup_keys: one Buffer batch that deletes the keys of one kind. */
    method DeleteKeys(keys: seq<TxKey>, deletingMeta: bool, ghost start: Index)
      requires Valid(start) && Cleanable(ix, KeySet(keys)) && |keys| <= MAX_KEYS_PER_BATCH
      requires forall k :: k in keys ==> k.MetaKey? == deletingMeta
      modifies this`ix, this`trace, this`deleted, this`committedBatches, this`deletedMutations, this`deletedMeta
      ensures Valid(start) && deleted == old(deleted) + keys
      ensures ix == old(ix).(txs := old(ix).txs - KeySet(keys))
    {
      CountsOfKind(keys, deletingMeta);
      CountsAdd(deleted, keys);
      KeySetIsNoLarger(keys);
      RunExtended(trace, KeySet(keys));
      assert ix.txs - KeySet(keys) == start.txs - KeySet(deleted + keys);
      ix := CleanedIndex(ix, KeySet(keys));
      trace, deleted := trace + [ix], deleted + keys;
      if deletingMeta {
        deletedMeta := deletedMeta + |keys|;
      } else {
        deletedMutations := deletedMutations + |keys|;
      }
      committedBatches := committedBatches + 1;
    }

    method CommitPending(ghost start: Index, ghost ahead: seq<TxKey>, ghost done: seq<TxKey>, ghost current: nat)
      requires Valid(start) && Collected(current, ix.frontier.seqNo) && Accounted(ahead, ix.frontier.seqNo) && Handled(done)
      modifies this
      ensures Valid(start) && Collected(current, ix.frontier.seqNo) && Accounted(ahead, ix.frontier.seqNo) && Handled(done)
      ensures meta == old(meta) && sawMutation == old(sawMutation) && lastOrdinal == old(lastOrdinal)
      ensures pending == [] || (pending == old(pending) && polls == 0)
      ensures old(polls) == 0 ==> polls == 0 && ix == old(ix)
      ensures old(polls) >= 1 ==> pending == [] && polls >= old(polls) - 1
    {
      if pending == [] {
        return;
      }
      var stop := Stopped();
      if stop {
        return;
      }
      PendingMoves(done, deleted, pending, meta);
      DeleteKeys(pending, false, start);
      pending := [];
    }

    /** flush_cleanup_transaction: mutations first, the meta entry only after them. */
    method Flush(ghost start: Index, ghost ahead: seq<TxKey>, ghost done: seq<TxKey>, ghost current: nat)
      requires Valid(start) && Collected(current, ix.frontier.seqNo) && Accounted(ahead, ix.frontier.seqNo) && Handled(done)
      requires forall k :: k in ahead ==> k.seqNo != current
      modifies this
      ensures Valid(start) && Collected(current, ix.frontier.seqNo) && Accounted(ahead, ix.frontier.seqNo) && Handled(done)
      ensures polls > 0 ==> pending == [] && meta == None
      ensures old(polls) >= 3 ==> pending == [] && meta == None && polls >= old(polls) - 3
    {
      CommitPending(start, ahead, done, current);
      var stop := Stopped();
      if stop {
        return;
      }
      if meta.Some? {
        DeleteMeta(start, ahead, done, current);
      }
    }

    /** The meta entry of a transaction whose mutation entries are gone. */
    method DeleteMeta(ghost start: Index, ghost ahead: seq<TxKey>, ghost done: seq<TxKey>, ghost current: nat)
      requires Valid(start) && Collected(current, ix.frontier.seqNo) && Accounted(ahead, ix.frontier.seqNo) && Handled(done)
      requires meta.Some? && pending == [] && forall k :: k in ahead ==> k.seqNo != current
      modifies this
      ensures Valid(start) && Collected(current, ix.frontier.seqNo) && Accounted(ahead, ix.frontier.seqNo) && Handled(done)
      ensures pending == [] && (old(polls) >= 1 ==> meta == None && polls == old(polls) - 1) && (polls > 0 ==> meta == None)
    {
      var stop := Stopped();
      if stop {
        return;
      }
      MetaMoves(done, deleted, meta.value);
      MetaIsAlone(ahead, current);
      DeleteKeys([meta.value], true, start);
      meta := None;
    }

    lemma {:induction false} MetaIsAlone(ahead: seq<TxKey>, current: nat)
      requires Collected(current, ix.frontier.seqNo) && Accounted(ahead, ix.frontier.seqNo)
      requires meta.Some? && pending == [] && forall k :: k in ahead ==> k.seqNo != current
      ensures Cleanable(ix, KeySet([meta.value]))
      ensures forall k :: k in ix.txs && k.seqNo <= ix.frontier.seqNo && k != meta.value ==> k in ahead
    {
      forall m | m in ix.txs && m.MutationKey? ensures m.seqNo != current {
      }
    }

    /** The scan reached another transaction: nothing may stay collected, unless the pass is to stop. */
    method NextTransaction(ghost start: Index, ghost ahead: seq<TxKey>, ghost done: seq<TxKey>, ghost current: nat)
      returns (stop: bool)
      requires Valid(start) && Collected(current, ix.frontier.seqNo) && Accounted(ahead, ix.frontier.seqNo) && Handled(done)
      requires forall k :: k in ahead ==> k.seqNo != current
      modifies this
      ensures Valid(start) && Accounted(ahead, ix.frontier.seqNo) && Handled(done)
      ensures !stop ==> pending == [] && Remembers(None)
      ensures old(polls) >= 4 ==> !stop && polls >= old(polls) - 4
    {
      Flush(start, ahead, done, current);
      stop := Stopped();
      if !stop {
        sawMutation, lastOrdinal := false, None;
      }
    }

    /** One entry of the scan. */
    method Visit(
      key: TxKey, last: Option<TxKey>, durable: nat, ghost start: Index, ghost rest: seq<TxKey>, ghost done: seq<TxKey>)
      returns (outcome: VisitOutcome)
      requires Valid(start) && ix.frontier.seqNo == durable && Accounted(rest, durable) && Handled(done) && Remembers(last)
      requires Collected(if last.Some? then last.value.seqNo else 0, durable) && (last.None? ==> pending == []) && HasRoom()
      requires rest != [] && rest[0] == key
      requires last.Some? && last.value.seqNo != key.seqNo ==> forall k :: k in rest ==> k.seqNo != last.value.seqNo
      modifies this
      ensures Valid(start) && ix.frontier.seqNo == durable
      ensures outcome == Visited ==>
                && Collected(key.seqNo, durable) && Accounted(rest[1..], durable) && Handled(done + [key]) && Remembers(Some(key))
                && HasRoom()
      ensures outcome == StoppedVisit ==> old(polls) < 6 && Handled(done)
      ensures outcome == Refused <==> outcome != StoppedVisit && (key.seqNo > durable || (last.Some? && !KeyFollows(last.value, key)))
      ensures old(polls) >= 6 ==> polls >= old(polls) - 6
    {
      var stop := Stopped();
      if stop {
        return StoppedVisit;
      }
      if key.seqNo > durable {
        return Refused;
      }
      ghost var before := last;
      if last.Some? && last.value.seqNo != key.seqNo {
        stop := NextTransaction(start, rest, done, last.value.seqNo);
        if stop {
          return StoppedVisit;
        }
        before := None;
      }
      assert rest == [key] + rest[1..];
      var ok := Collect(key, before, start, rest[1..], done);
      return if ok then Visited else Refused;
    }

    /** Collects one entry of the current transaction; a full batch is committed at once. */
    method Collect(key: TxKey, ghost last: Option<TxKey>, ghost start: Index, ghost ahead: seq<TxKey>, ghost done: seq<TxKey>)
      returns (ok: bool)
      requires Valid(start) && Collected(key.seqNo, ix.frontier.seqNo) && Accounted([key] + ahead, ix.frontier.seqNo)
      requires Handled(done) && Remembers(last) && (last.Some? ==> last.value.seqNo == key.seqNo) && HasRoom()
      modifies this
      ensures Valid(start) && ix.frontier == old(ix.frontier)
      ensures ok <==> last.None? || KeyFollows(last.value, key)
      ensures ok ==> Collected(key.seqNo, ix.frontier.seqNo) && Accounted(ahead, ix.frontier.seqNo)
      ensures ok ==> Handled(done + [key]) && Remembers(Some(key)) && HasRoom()
      ensures old(polls) >= 1 ==> polls >= old(polls) - 1
    {
      KeyJoins(done, deleted, pending, meta, key);
      match key {
        case MetaKey(_) =>
          if sawMutation || meta.Some? {
            return false;
          }
          meta := Some(key);
        case MutationKey(_, ordinal) =>
          if lastOrdinal.Some? && lastOrdinal.value >= ordinal {
            return false;
          }
          lastOrdinal, sawMutation := Some(ordinal), true;
          AddMutation(key, start, ahead, done);
      }
      return true;
    }

    /** One more key to delete; a full batch is committed at once. */
    method AddMutation(key: TxKey, ghost start: Index, ghost ahead: seq<TxKey>, ghost done: seq<TxKey>)
      requires Valid(start) && Collected(key.seqNo, ix.frontier.seqNo) && Accounted([key] + ahead, ix.frontier.seqNo)
      requires key.MutationKey? && HandledBy(done + [key], deleted, pending + [key], meta) && HasRoom()
      modifies this
      ensures Valid(start) && ix.frontier == old(ix.frontier)
      ensures meta == old(meta) && sawMutation == old(sawMutation) && lastOrdinal == old(lastOrdinal)
      ensures Collected(key.seqNo, ix.frontier.seqNo) && Accounted(ahead, ix.frontier.seqNo)
      ensures Handled(done + [key]) && HasRoom() && (old(polls) >= 1 ==> polls >= old(polls) - 1)
    {
      pending := pending + [key];
      if |pending| >= MAX_KEYS_PER_BATCH || MUTATION_KEY_LEN * |pending| >= MAX_ENCODED_KEY_BYTES {
        CommitPending(start, ahead, done + [key], key.seqNo);
      }
    }

    /** The state of a pass that has visited the first `i` entries. */
    ghost predicate Reached(entries: seq<TxKey>, i: nat, durable: nat, start: Index)
      reads this
    {
      && i <= |entries| && Valid(start) && ix.frontier.seqNo == durable
      && Collected(if i == 0 then 0 else entries[i - 1].seqNo, durable)
      && Accounted(entries[i..], durable) && Handled(entries[..i])
      && Remembers(if i == 0 then None else Some(entries[i - 1])) && (i == 0 ==> pending == [])
      && HasRoom()
    }

    lemma {:induction false} StartIsReached(entries: seq<TxKey>, durable: nat, start: Index)
      requires Untouched(start) && durable == start.frontier.seqNo && ScanFits(entries, start.txs, durable)
      ensures Reached(entries, 0, durable, start)
    {
      assert entries[0..] == entries && entries[..0] == [];
      forall k | k in ix.txs && k.seqNo <= durable ensures k in entries {
        assert k in start.txs;
      }
    }

    lemma {:induction false} EndIsReached(entries: seq<TxKey>, durable: nat, start: Index)
      requires Reached(entries, |entries|, durable, start)
      ensures Collected(if entries == [] then 0 else entries[|entries| - 1].seqNo, durable)
      ensures Accounted([], durable) && Handled(entries)
    {
      assert entries[|entries|..] == [] && entries[..|entries|] == entries;
    }

    /** The next entry of the scan. */
    method VisitAt(entries: seq<TxKey>, i: nat, durable: nat, ghost start: Index) returns (outcome: VisitOutcome)
      requires i < |entries| && Reached(entries, i, durable, start)
      requires Grouped(entries)
      modifies this
      ensures Valid(start) && ix.frontier.seqNo == durable
      ensures outcome == Visited ==> Reached(entries, i + 1, durable, start) && !Broken(entries, i, durable)
      ensures outcome == StoppedVisit ==> old(polls) < 6 && forall k :: k in deleted ==> k in entries
      ensures outcome == Refused ==> Broken(entries, i, durable)
      ensures old(polls) >= 6 ==> polls >= old(polls) - 6
    {
      if i > 0 && entries[i - 1].seqNo != entries[i].seqNo {
        LaterGroups(entries, i);
      }
      assert entries[i..][1..] == entries[i + 1..] && entries[..i] + [entries[i]] == entries[..i + 1];
      var last := if i == 0 then None else Some(entries[i - 1]);
      outcome := Visit(entries[i], last, durable, start, entries[i..], entries[..i]);
    }

    method Report(durable: nat) returns (p: Progress)
      ensures p == Progress(durable, deletedMutations, deletedMeta, committedBatches, false)
    {
      return Progress(durable, deletedMutations, deletedMeta, committedBatches, false);
    }
  }

  /** What a pass reports is what it did: the index lost exactly `deleted`, in that many batches. */
  ghost predicate ReportsExactly(p: Progress, before: Index, after: Index, deleted: seq<TxKey>, entries: seq<TxKey>) {
    && p.deletedMutations == CountMutations(deleted) && p.deletedMeta == CountMeta(deleted)
    && after == before.(txs := before.txs - KeySet(deleted))
    && (forall k :: k in deleted ==> k in entries)
    && p.durable == before.frontier.seqNo && !p.blocked
  }

  /**
   * One cleanup pass. Every batch it commits is one that recovery cannot notice, and it reports exactly
   * what it deleted. With a recovery state it does nothing. If it is not told to stop, it fails exactly
   * when the scan is not in order or passes the durable sequence, and otherwise deletes exactly what
   * the scan yielded.
   */
  method CleanupOnce(cleaner: Cleaner, entries: seq<TxKey>, ghost start: Index) returns (r: Result<Progress>)
    requires cleaner.Untouched(start) && cleaner.ix == start
    requires ScanFits(entries, start.txs, start.frontier.seqNo)
    modifies cleaner
    ensures cleaner.Valid(start)
    ensures start.recovery.Some? ==> r == Ok(Progress(0, 0, 0, 0, true)) && cleaner.ix == start
    ensures start.recovery.None? && r.Ok? ==>
              && ReportsExactly(r.value, start, cleaner.ix, cleaner.deleted, entries)
              && r.value.committedBatches == |cleaner.trace| - 1
    ensures r.Err? ==> r.error == Corruption && ScanBroken(entries, start.frontier.seqNo)
    ensures start.recovery.None? && old(cleaner.polls) >= EnoughPolls(entries) ==>
              && (r.Err? <==> ScanBroken(entries, start.frontier.seqNo))
              && (r.Ok? ==>
                    && r.value.deletedMutations == CountMutations(entries) && r.value.deletedMeta == CountMeta(entries)
                    && cleaner.ix == start.(txs := start.txs - KeySet(entries)))
  {
    if cleaner.ix.recovery.Some? {
      return Ok(Progress(0, 0, 0, 0, true));
    }
    var durable := cleaner.ix.frontier.seqNo;
    var stop := cleaner.Stopped();
    if stop {
      var nothing := cleaner.Report(durable);
      return Ok(nothing);
    }
    cleaner.StartIsReached(entries, durable, start);
    var outcome := VisitAll(cleaner, entries, durable, start);
    if outcome == Refused {
      return Err(Corruption);
    }
    if outcome == Visited {
      cleaner.EndIsReached(entries, durable, start);
      cleaner.Flush(start, [], entries, if entries == [] then 0 else entries[|entries| - 1].seqNo);
    }
    var progress := cleaner.Report(durable);
    return Ok(progress);
  }

  /** The loop over the scan. */
  method VisitAll(cleaner: Cleaner, entries: seq<TxKey>, durable: nat, ghost start: Index)
    returns (outcome: VisitOutcome)
    requires cleaner.Reached(entries, 0, durable, start) && Grouped(entries)
    modifies cleaner
    ensures cleaner.Valid(start)
    ensures outcome == Visited ==> cleaner.Reached(entries, |entries|, durable, start)
    ensures outcome == StoppedVisit ==> forall k :: k in cleaner.deleted ==> k in entries
    ensures outcome == Refused ==> ScanBroken(entries, durable)
    ensures outcome == Visited ==> !ScanBroken(entries, durable)
    ensures old(cleaner.polls) >= EnoughPolls(entries) - 1 ==> outcome != StoppedVisit && (outcome == Visited ==> cleaner.polls >= 3)
  {
    for i := 0 to |entries|
      invariant cleaner.Reached(entries, i, durable, start)
      invariant UnbrokenThrough(entries, i, durable)
      invariant old(cleaner.polls) >= EnoughPolls(entries) - 1 ==> cleaner.polls >= 6 * (|entries| - i) + 3
    {
      outcome := cleaner.VisitAt(entries, i, durable, start);
      if outcome != Visited {
        return;
      }
    }
    return Visited;
  }

  /** Once the scan has moved on from a transaction, nothing of it is ahead. */
  lemma {:induction false} LaterGroups(entries: seq<TxKey>, i: nat)
    requires 0 < i < |entries| && entries[i - 1].seqNo != entries[i].seqNo
    requires Grouped(entries)
    ensures forall k :: k in entries[i..] ==> k.seqNo != entries[i - 1].seqNo
  {
    forall j | i <= j < |entries| ensures entries[j].seqNo != entries[i - 1].seqNo {
      if i < j { assert entries[i].seqNo <= entries[j].seqNo; }
    }
  }

  // ---------------------------------------------------------------- what the passes keep

  /** A mutation entry never outlives its meta entry, at any stop or crash point. */
  lemma {:induction false} MutationsKeepTheirMeta(trace: seq<Index>, n: nat)
    requires CleanupRun(trace) && n < |trace|
    requires forall k :: k in trace[0].txs && k.MutationKey? ==> MetaKey(k.seqNo) in trace[0].txs
    ensures forall k :: k in trace[n].txs && k.MutationKey? ==> MetaKey(k.seqNo) in trace[n].txs
    ensures trace[n] == trace[0].(txs := trace[n].txs)
  {
    if n > 0 {
      MutationsKeepTheirMeta(trace, n - 1);
      var i := n - 1;
      assert CleanupBatch(trace[i], trace[i + 1]);
      var keys :| Cleanable(trace[i], keys) && trace[i + 1] == CleanedIndex(trace[i], keys);
    }
  }

  /** Recovery loads the same unstable descriptors before and after any number of cleanup batches. */
  lemma {:induction false} RecoveryCannotNotice(trace: seq<Index>, n: nat, seqNo: nat)
    requires CleanupRun(trace) && n < |trace| && trace[0].frontier.seqNo < seqNo
    ensures trace[n].frontier == trace[0].frontier
    ensures LoadDescriptor(trace[n].txs, seqNo) == LoadDescriptor(trace[0].txs, seqNo)
  {
    if n > 0 {
      RecoveryCannotNotice(trace, n - 1, seqNo);
      var i := n - 1;
      assert CleanupBatch(trace[i], trace[i + 1]);
      var keys :| Cleanable(trace[i], keys) && trace[i + 1] == CleanedIndex(trace[i], keys);
      CleanupKeepsUnstable(trace[i], keys, seqNo);
    }
  }

  /**
   * A batch that was cleanable stays so while other threads commit: they only add entries of later
   * transactions and only raise the frontier.
   */
  lemma {:induction false} CommitsKeepCleanable(a: Index, b: Index, keys: set<TxKey>)
    requires Cleanable(a, keys) && a.frontier.seqNo <= b.frontier.seqNo && a.frontier.seqNo <= a.head
    requires forall k :: k in b.txs && k !in a.txs ==> k.seqNo > a.head
    ensures Cleanable(b, keys)
  {
    forall k | k in keys && k.MetaKey? ensures forall m :: m in b.txs && m.MutationKey? ==> m.seqNo != k.seqNo {
    }
  }
}
