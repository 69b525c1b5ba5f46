/**
 * The disk of a running store: what appending an envelope, committing a transaction, moving the
 * frontier and deleting stable descriptors do to the invariant that recovery relies on.
 */
module Running {
  import opened Basics
  import opened Index
  import opened CommitProtocol
  import opened Topology
  import opened History
  import opened Recovery
  import opened RecoveryInvariant
  import opened RecoverySteps

  // ---------------------------------------------------------------- the files of a running store

  /** The inventory of a Value Log that was filled without a gap up to `end`. */
  function Filled(end: VLogEnd, g: Geometry): Inventory {
    match end
    case Empty => []
    case At(p) => seq(p.file + 1, i requires 0 <= i <= p.file => FileEntry(i, if i < p.file then g.maxFileSize else p.offset))
  }

  predicate Fits(p: Pos, g: Geometry) {
    p.file <= g.maxFileId && p.offset <= g.maxFileSize
  }

  /** What the final recovery check accepts is exactly a Value Log filled up to the frontier. */
  lemma {:induction false} RecoveredFilesAreFilled(files: Inventory, end: VLogEnd, g: Geometry)
    requires Ordered(files, g) && StableFiles(files, end, g) && PhysicalTail(files) == end
    ensures files == Filled(end, g)
    ensures end.At? ==> Fits(end.pos, g)
  {
    if end.At? {
      var p := end.pos;
      assert |files| == p.file + 1;
    }
  }

  lemma {:induction false} FilledIsOrdered(p: Pos, g: Geometry)
    requires Fits(p, g)
    ensures Ordered(Filled(At(p), g), g)
  {
  }

  lemma {:induction false} FilledIsStable(p: Pos, q: Pos, g: Geometry)
    requires Fits(p, g) && Fits(q, g) && PosLeq(q, p)
    ensures StableFiles(Filled(At(p), g), At(q), g)
  {
  }

  lemma {:induction false} FilledHasSuffix(p: Pos, end: VLogEnd, g: Geometry)
    requires end.At? ==> PosLess(end.pos, p)
    ensures HasSuffixAfter(Filled(At(p), g), end)
  {
    assert Filled(At(p), g)[p.file] == FileEntry(p.file, p.offset);
  }

  /** Appending one more envelope to a filled Value Log keeps every listed envelope in its files. */
  lemma {:induction false} AppendKeepsFilesSound(envs: seq<Envelope>, files: Inventory, env: Envelope, g: Geometry)
    requires Chained(envs + [env]) && FilesSound(envs, files, g) && IntactThrough(envs, |envs|) && Fits(env.end, g)
    ensures FilesSound(envs + [env], Filled(At(env.end), g), g)
  {
    var longer, files' := envs + [env], Filled(At(env.end), g);
    FilledIsOrdered(env.end, g);
    forall i | 0 <= i < |longer| ensures InFiles(longer, i, files', g) {
      if i < |envs| {
        assert InFiles(envs, i, files, g);
        assert IntactThrough(envs, i + 1);
        ChainEndsGrow(longer, i, |envs|);
        assert longer[i] == envs[i];
      }
      FilledIsStable(env.end, longer[i].end, g);
      assert ChainLink(longer, i);
      if i > 0 { ChainEndsGrow(longer, i - 1, |envs|); }
      FilledHasSuffix(env.end, EndBefore(longer, i), g);
    }
  }

  // ---------------------------------------------------------------- a healthy disk

  /** Nothing but the published history is on disk, and all of it can be read. */
  ghost predicate Live(past: seq<Log>, log: Log, d: Disk, safe: nat, g: Geometry) {
    && DownInv(past, log, d, safe, g) && Current(d).recovery.None?
    && d.vlog.envs == EnvelopesOf(log) && d.vlog.files == Filled(FrontierAt(log).end, g)
  }

  /** The records of the next transaction are in the Value Log, the transaction is not published yet. */
  ghost predicate Appended(past: seq<Log>, log: Log, t: Tx, d: Disk, safe: nat, g: Geometry) {
    && DownInv(past, log, d, safe, g) && Current(d).recovery.None? && TxOk(log, t)
    && d.vlog.envs == EnvelopesOf(log + [t]) && d.vlog.files == Filled(FrontierAt(log + [t]).end, g)
  }

  function AppendEnvelope(vlog: VLog, t: Tx, g: Geometry): VLog {
    if HasEnvelope(t) then VLog(vlog.envs + [EnvelopeOf(t)], vlog.synced, Filled(At(t.desc.meta.end), g)) else vlog
  }

  /** Transaction identities are random and never repeat those of a history that a crash may bring back. */
  predicate Fresh(uuid: Bytes, past: seq<Log>) {
    forall i :: 0 <= i < |past| ==> NotIn(uuid, past[i])
  }

  predicate NotIn(uuid: Bytes, log: Log) {
    forall n :: 0 <= n < |log| ==> log[n].desc.meta.uuid != uuid
  }

  lemma {:induction false} HeldAgrees(log: Log, envs: seq<Envelope>)
    requires EnvelopesOf(log) <= envs
    ensures Agree(log, envs) && Holds(log, envs, |log|)
  {
    assert log[..|log|] == log;
    forall n | 0 <= n < |log| ensures AgreeAt(log, envs, n) {
      if HasEnvelope(log[n]) { EnvelopeAt(log, n); }
    }
  }

  /** A new envelope is held by no history that does not know its transaction. */
  lemma {:induction false} GrownHolds(log: Log, envs: seq<Envelope>, env: Envelope, n: nat)
    requires n <= |log| && NotIn(env.uuid, log)
    ensures Holds(log, envs + [env], n) <==> Holds(log, envs, n)
  {
    var own := EnvelopesOf(log[..n]);
    NotInEnvelopes(env.uuid, log[..n]);
    if |own| == |envs| + 1 { assert own[|envs|] != (envs + [env])[|envs|]; }
    if Holds(log, envs, n) { PrefixTransitive(own, envs, envs + [env]); }
  }

  lemma {:induction false} NotInEnvelopes(uuid: Bytes, log: Log)
    requires NotIn(uuid, log)
    ensures forall i :: 0 <= i < |EnvelopesOf(log)| ==> EnvelopesOf(log)[i].uuid != uuid
  {
    if log != [] {
      assert NotIn(uuid, log[..|log| - 1]);
      NotInEnvelopes(uuid, log[..|log| - 1]);
      assert log[|log| - 1].desc.meta.uuid != uuid;
    }
  }

  lemma {:induction false} GrownAgree(log: Log, envs: seq<Envelope>, env: Envelope)
    requires Agree(log, envs) && NotIn(env.uuid, log)
    ensures Agree(log, envs + [env])
  {
    forall n | 0 <= n < |log| ensures AgreeAt(log, envs + [env], n) {
      assert AgreeAt(log, envs, n);
      GrownHolds(log, envs, env, n);
    }
  }

  /** An older state does not notice what is appended after it. */
  lemma {:induction false} GrownOlder(
    older: Log, s: Index, log: Log, cur: Index, vlog: VLog, vlog': VLog, env: Envelope, acked: nat)
    requires StateOk(s, older, vlog, acked) && Joins(older, s, log, cur, vlog.envs) && NotIn(env.uuid, older)
    requires vlog'.envs == vlog.envs + [env] && vlog'.synced == vlog.synced
    ensures StateOk(s, older, vlog', acked) && Joins(older, s, log, cur, vlog'.envs)
  {
    GrownAgree(older, vlog.envs, env);
    GrownHolds(older, vlog.envs, env, Extent(s));
    var n: nat :| Shares(older, s, log, cur, vlog.envs, n);
    if n < |older| { GrownHolds(older, vlog.envs, env, n + 1); }
    assert Shares(older, s, log, cur, vlog'.envs, n);
  }

  lemma {:induction false} GrownState(s: Index, log: Log, vlog: VLog, vlog': VLog, env: Envelope, acked: nat)
    requires StateOk(s, log, vlog, acked) && EnvelopesOf(log) <= vlog.envs
    requires vlog'.envs == vlog.envs + [env] && vlog'.synced == vlog.synced
    ensures StateOk(s, log, vlog', acked)
  {
    PrefixTransitive(EnvelopesOf(log), vlog.envs, vlog'.envs);
    HeldAgrees(log, vlog'.envs);
    HoldsShorter(log, vlog'.envs, |log|, Extent(s));
  }

  lemma {:induction false} GrownKeepsDown(
    past: seq<Log>, log: Log, d: Disk, vlog': VLog, env: Envelope, safe: nat, g: Geometry)
    requires DownInv(past, log, d, safe, g) && EnvelopesOf(log) <= d.vlog.envs && Fresh(env.uuid, past)
    requires vlog'.envs == d.vlog.envs + [env] && vlog'.synced == d.vlog.synced && VLogSound(vlog', g)
    ensures DownInv(past, log, d.(vlog := vlog'), safe, g)
  {
    var d' := d.(vlog := vlog');
    GrownState(Current(d), log, d.vlog, vlog', env, safe);
    forall i | 0 <= i < |past| ensures Older(past, log, d', safe, i) {
      GrownOlderAt(past, log, d, vlog', env, safe, i);
    }
  }

  lemma {:induction false} GrownOlderAt(past: seq<Log>, log: Log, d: Disk, vlog': VLog, env: Envelope, safe: nat, i: nat)
    requires i < |past| < |d.states| && Older(past, log, d, safe, i) && NotIn(env.uuid, past[i])
    requires vlog'.envs == d.vlog.envs + [env] && vlog'.synced == d.vlog.synced
    ensures Older(past, log, d.(vlog := vlog'), safe, i)
  {
    GrownOlder(past[i], d.states[i], log, Current(d), d.vlog, vlog', env, safe);
  }

  lemma {:induction false} AppendReachesAppended(past: seq<Log>, log: Log, t: Tx, d: Disk, safe: nat, g: Geometry)
    requires Live(past, log, d, safe, g) && TxOk(log, t) && (HasEnvelope(t) ==> Fits(t.desc.meta.end, g))
    requires Fresh(t.desc.meta.uuid, past)
    ensures Appended(past, log, t, d.(vlog := AppendEnvelope(d.vlog, t, g)), safe, g)
  {
    WellFormedStep(log, t);
    if HasEnvelope(t) {
      EnvelopesAreChained(log + [t]);
      EnvelopesAreIntact(log);
      AppendKeepsFilesSound(d.vlog.envs, d.vlog.files, EnvelopeOf(t), g);
      GrownKeepsDown(past, log, d, AppendEnvelope(d.vlog, t, g), EnvelopeOf(t), safe, g);
    } else {
      assert d.(vlog := d.vlog) == d;
    }
  }

  /** Syncing everything appended so far is always allowed. */
  function SyncedAll(vlog: VLog): VLog {
    vlog.(synced := |vlog.envs|)
  }

  lemma {:induction false} SyncKeepsDown(past: seq<Log>, log: Log, d: Disk, safe: nat, g: Geometry)
    requires DownInv(past, log, d, safe, g)
    ensures DownInv(past, log, d.(vlog := SyncedAll(d.vlog)), safe, g)
  {
    forall i | 0 <= i < |d.vlog.envs| ensures Decays(d.vlog.envs[i], d.vlog.envs[i], i < d.vlog.synced) {
    }
    WeatheredDown(past, log, d, d.(vlog := SyncedAll(d.vlog)), d.vlog.synced, safe, g);
  }

  // ---------------------------------------------------------------- publishing a transaction

  /** The descriptor entries of the new transaction join those of the others. */
  lemma {:induction false} EntriesAdded(txs: map<TxKey, TxValue>, log: Log, t: Tx, durable: nat, durable': nat)
    requires TxsOk(txs, log, durable, |log|) && t.desc.meta.seqNo == |log| + 1
    requires durable <= durable' <= |log| + 1
    ensures TxsOk(txs + Entries(t.desc), log + [t], durable', |log| + 1)
  {
    var next, all := log + [t], txs + Entries(t.desc);
    MutationEntriesAre(t.desc.meta.seqNo, t.desc.mutations, |t.desc.mutations|);
    forall k | k in all ensures OwnEntry(all, next, |log| + 1, k) {
      if k in txs { assert OwnEntry(txs, log, |log|, k); }
    }
    forall m | durable' < m <= |log| + 1 ensures EntriesPresent(all, next, m) {
      if m <= |log| { assert EntriesPresent(txs, log, m); }
    }
  }

  /** The frontier that a commit may publish: none, or the whole history including it, once synced. */
  predicate MayPublish(next: Log, frontier: Option<Frontier>, synced: nat) {
    frontier.Some? ==> frontier.value == FrontierAt(next) && |EnvelopesOf(next)| <= synced
  }

  /** Committing a transaction's batch leaves the replay of the longer history. */
  lemma {:induction false} CommittedStateOk(
    ix: Index, log: Log, t: Tx, frontier: Option<Frontier>, vlog: VLog, safe: nat)
    requires StateOk(ix, log, vlog, safe) && ix.recovery.None? && TxOk(log, t)
    requires vlog.envs == EnvelopesOf(log + [t]) && MayPublish(log + [t], frontier, vlog.synced)
    ensures var after := Apply(ix, CommitBatchWithFrontier(t.desc, frontier));
            && StateOk(after, log + [t], vlog, if frontier.Some? then |log| + 1 else safe)
            && after.head == |log| + 1 && after.recovery.None?
            && after.frontier == if frontier.Some? then frontier.value else ix.frontier
  {
    CommitBatchRefinesOperations(ix, t.desc, t.ops, t.pointers, frontier);
    UserAfterStep(log, t);
    WellFormedStep(log, t);
    var after := Apply(ix, CommitBatchWithFrontier(t.desc, frontier));
    EntriesAdded(ix.txs, log, t, ix.frontier.seqNo, after.frontier.seqNo);
    LongerStateOk(ix, log, t, frontier, vlog, safe, after);
  }

  lemma {:induction false} LongerStateOk(
    ix: Index, log: Log, t: Tx, frontier: Option<Frontier>, vlog: VLog, safe: nat, after: Index)
    requires StateOk(ix, log, vlog, safe) && ix.recovery.None? && WellFormed(log + [t]) && Sized(log + [t])
    requires vlog.envs == EnvelopesOf(log + [t]) && MayPublish(log + [t], frontier, vlog.synced)
    requires after == Index(UserAfter(log + [t]), after.txs, |log| + 1,
                            if frontier.Some? then frontier.value else ix.frontier, None)
    requires TxsOk(after.txs, log + [t], after.frontier.seqNo, |log| + 1)
    ensures StateOk(after, log + [t], vlog, if frontier.Some? then |log| + 1 else safe)
  {
    var next := log + [t];
    HeldAgrees(next, vlog.envs);
    HoldsShorter(next, vlog.envs, |next|, after.frontier.seqNo);
    assert next[..|next|] == next && next[..ix.frontier.seqNo] == log[..ix.frontier.seqNo];
  }

  /** A state is also good for a weaker promise. */
  lemma {:induction false} WeakerState(s: Index, log: Log, vlog: VLog, safe: nat, safe': nat)
    requires StateOk(s, log, vlog, safe) && safe' <= safe
    ensures StateOk(s, log, vlog, safe')
  {
  }

  /** A Buffer commit of an appended transaction. */
  lemma {:induction false} BufferCommitKeepsLive(
    past: seq<Log>, log: Log, t: Tx, d: Disk, safe: nat, g: Geometry, frontier: Option<Frontier>)
    requires Appended(past, log, t, d, safe, g) && MayPublish(log + [t], frontier, d.vlog.synced)
    ensures Live(past + [log], log + [t], BufferCommit(d, CommitBatchWithFrontier(t.desc, frontier)), safe, g)
  {
    CommittedStateOk(Current(d), log, t, frontier, d.vlog, safe);
    var after := Apply(Current(d), CommitBatchWithFrontier(t.desc, frontier));
    WeakerState(after, log + [t], d.vlog, if frontier.Some? then |log| + 1 else safe, safe);
    LongerAdvances(log, t, Current(d), after, d.vlog.envs);
    LandedKeepsDown(past, log, d, log + [t], BufferCommit(d, CommitBatchWithFrontier(t.desc, frontier)), safe, g);
  }

  lemma {:induction false} LongerAdvances(log: Log, t: Tx, ix: Index, after: Index, envs: seq<Envelope>)
    requires ix.recovery.None? && after.recovery.None?
    requires ix.frontier.seqNo <= after.frontier.seqNo <= |log| + 1 && ix.frontier.seqNo <= |log|
    ensures Advances(log, ix, log + [t], after, envs)
  {
    assert (log + [t])[..|log|] == log[..|log|];
  }

  /** A SyncAll commit of an appended and synced transaction: everything up to it is now safe. */
  lemma {:induction false} SyncCommitKeepsLive(past: seq<Log>, log: Log, t: Tx, d: Disk, safe: nat, g: Geometry)
    requires Appended(past, log, t, d, safe, g) && |EnvelopesOf(log + [t])| <= d.vlog.synced
    ensures Live([], log + [t], SyncCommit(d, CommitBatchWithFrontier(t.desc, Some(FrontierAt(log + [t])))), |log| + 1, g)
  {
    CommittedStateOk(Current(d), log, t, Some(FrontierAt(log + [t])), d.vlog, safe);
  }

  // ---------------------------------------------------------------- moving the frontier

  lemma {:induction false} BarrierStateOk(ix: Index, log: Log, vlog: VLog, safe: nat)
    requires StateOk(ix, log, vlog, safe) && ix.recovery.None?
    requires vlog.envs == EnvelopesOf(log) && |EnvelopesOf(log)| <= vlog.synced
    ensures var after := Apply(ix, [PutFrontier(FrontierAt(log))]);
            && StateOk(after, log, vlog, |log|) && after == ix.(frontier := FrontierAt(log))
  {
    ApplySingle(ix, PutFrontier(FrontierAt(log)));
    assert log[..|log|] == log;
    FrontierMayReachHead(ix, log, vlog, safe, ix.(frontier := FrontierAt(log)));
  }

  /** A frontier-only SyncAll commit after the Value Log was synced. */
  lemma {:induction false} BarrierKeepsLive(past: seq<Log>, log: Log, d: Disk, safe: nat, g: Geometry)
    requires Live(past, log, d, safe, g) && |EnvelopesOf(log)| <= d.vlog.synced
    ensures Live([], log, SyncCommit(d, [PutFrontier(FrontierAt(log))]), |log|, g)
    ensures Live(past + [log], log, BufferCommit(d, [PutFrontier(FrontierAt(log))]), safe, g)
  {
    BarrierStateOk(Current(d), log, d.vlog, safe);
    var after := Apply(Current(d), [PutFrontier(FrontierAt(log))]);
    WeakerState(after, log, d.vlog, |log|, safe);
    LandedKeepsDown(past, log, d, log, BufferCommit(d, [PutFrontier(FrontierAt(log))]), safe, g);
  }

  // ---------------------------------------------------------------- deleting stable descriptors

  /** One cleanup batch: mutation entries of stable transactions, or a meta entry that has none left. */
  predicate Cleanable(ix: Index, keys: set<TxKey>) {
    forall k :: k in keys ==>
      && k.seqNo <= ix.frontier.seqNo
      && (k.MetaKey? ==> forall m :: m in ix.txs && m.MutationKey? ==> m.seqNo != k.seqNo)
  }

  function CleanedIndex(ix: Index, keys: set<TxKey>): Index {
    ix.(txs := ix.txs - keys)
  }

  /** Cleanup removes nothing that any surviving state's recovery would load. */
  lemma {:induction false} CleanupKeepsState(ix: Index, keys: set<TxKey>, log: Log, vlog: VLog, safe: nat)
    requires StateOk(ix, log, vlog, safe) && Cleanable(ix, keys)
    ensures StateOk(CleanedIndex(ix, keys), log, vlog, safe)
  {
    var rest := ix.txs - keys;
    forall k | k in rest ensures OwnEntry(rest, log, ix.head, k) {
      assert OwnEntry(ix.txs, log, ix.head, k);
    }
    forall m | ix.frontier.seqNo < m <= ix.head ensures EntriesPresent(rest, log, m) {
      assert EntriesPresent(ix.txs, log, m);
    }
  }

  /** The unstable descriptors that recovery loads are the same before and after any cleanup batch. */
  lemma {:induction false} CleanupKeepsUnstable(ix: Index, keys: set<TxKey>, n: nat)
    requires Cleanable(ix, keys) && ix.frontier.seqNo < n
    ensures LoadDescriptor(CleanedIndex(ix, keys).txs, n) == LoadDescriptor(ix.txs, n)
  {
    var rest := ix.txs - keys;
    assert forall k :: k in ix.txs && k.seqNo == n ==> k in rest && rest[k] == ix.txs[k];
    assert EntriesComplete(rest, n) <==> EntriesComplete(ix.txs, n);
    if EntriesComplete(rest, n) {
      var m := ix.txs[MetaKey(n)].meta;
      assert rest[MetaKey(n)] == ix.txs[MetaKey(n)];
      assert seq(m.keyCount, i requires 0 <= i < m.keyCount => rest[MutationKey(n, i)].mutation)
          == seq(m.keyCount, i requires 0 <= i < m.keyCount => ix.txs[MutationKey(n, i)].mutation);
    }
  }

  lemma {:induction false} CleanupKeepsDown(past: seq<Log>, log: Log, d: Disk, safe: nat, g: Geometry, keys: set<TxKey>)
    requires DownInv(past, log, d, safe, g) && Current(d).recovery.None? && Cleanable(Current(d), keys)
    ensures DownInv(past + [log], log, d.(states := d.states + [CleanedIndex(Current(d), keys)]), safe, g)
  {
    CleanupKeepsState(Current(d), keys, log, d.vlog, safe);
    LandedKeepsDown(past, log, d, log, d.(states := d.states + [CleanedIndex(Current(d), keys)]), safe, g);
  }
}
