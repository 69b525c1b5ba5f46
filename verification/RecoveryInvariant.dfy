/**
 * What holds of the disk whenever the store is not running, and why analysis succeeds on it: every
 * surviving index state is the replay of a history of its own, the histories share everything that a
 * recovery may keep, and the plan is determined by which envelopes of the history survived.
 */
module RecoveryInvariant {
  import opened Basics
  import opened Index
  import opened CommitProtocol
  import opened Topology
  import opened History
  import opened Recovery

  // ---------------------------------------------------------------- the Value Log against a history

  /** The envelopes of the first `n` transactions are in the Value Log, and all of them can be read. */
  predicate Holds(log: Log, envs: seq<Envelope>, n: nat)
    requires n <= |log|
  {
    EnvelopesOf(log[..n]) <= envs
  }

  /**
   * The Value Log may end before the history does and go on after it. Where it leaves the history, it
   * holds the envelope of another transaction, or what is left of the right one.
   */
  predicate Agree(log: Log, envs: seq<Envelope>) {
    forall n :: 0 <= n < |log| ==> AgreeAt(log, envs, n)
  }

  predicate AgreeAt(log: Log, envs: seq<Envelope>, n: nat)
    requires n < |log|
  {
    var e := |EnvelopesOf(log[..n])|;
    HasEnvelope(log[n]) && Holds(log, envs, n) && e < |envs| ==>
      envs[e].(intact := true) == EnvelopeOf(log[n]) || envs[e].uuid != log[n].desc.meta.uuid
  }

  predicate IntactThrough(envs: seq<Envelope>, n: nat) {
    n <= |envs| && forall i :: 0 <= i < n ==> envs[i].intact
  }

  lemma {:induction false} AgreePrefix(log: Log, envs: seq<Envelope>, n: nat)
    requires Agree(log, envs) && n <= |log|
    ensures Agree(log[..n], envs)
  {
    forall i | 0 <= i < n ensures AgreeAt(log[..n], envs, i) {
      assert AgreeAt(log, envs, i);
      assert log[..n][..i] == log[..i];
    }
  }

  /** A Value Log that holds a prefix of the history holds every shorter one. */
  lemma {:induction false} HoldsShorter(log: Log, envs: seq<Envelope>, n: nat, k: nat)
    requires k <= n <= |log| && Holds(log, envs, n)
    ensures Holds(log, envs, k) && |EnvelopesOf(log[..k])| <= |EnvelopesOf(log[..n])|
  {
    assert log[..n][..k] == log[..k];
    EnvelopesPrefix(log[..n], k);
    PrefixTransitive(EnvelopesOf(log[..k]), EnvelopesOf(log[..n]), envs);
  }

  lemma {:induction false} CountGrows(log: Log, k: nat, n: nat)
    requires k <= n <= |log|
    ensures |EnvelopesOf(log[..k])| <= |EnvelopesOf(log[..n])|
  {
    assert log[..n][..k] == log[..k];
    EnvelopesPrefix(log[..n], k);
  }

  lemma {:induction false} HeldIsIntact(log: Log, envs: seq<Envelope>, n: nat)
    requires n <= |log| && Holds(log, envs, n)
    ensures IntactThrough(envs, |EnvelopesOf(log[..n])|)
  {
    EnvelopesAreIntact(log[..n]);
    var own := EnvelopesOf(log[..n]);
    forall i | 0 <= i < |own| ensures envs[i].intact {
      assert own[i] == envs[i];
    }
  }

  lemma {:induction false} EnvelopesAreIntact(log: Log)
    ensures forall i :: 0 <= i < |EnvelopesOf(log)| ==> EnvelopesOf(log)[i].intact
  {
    if log != [] { EnvelopesAreIntact(log[..|log| - 1]); }
  }

  /** What the first `n` transactions wrote, and then what transaction `n` wrote. */
  lemma {:induction false} EnvelopesStep(log: Log, n: nat)
    requires n < |log|
    ensures EnvelopesOf(log[..n + 1]) == EnvelopesOf(log[..n]) + if HasEnvelope(log[n]) then [EnvelopeOf(log[n])] else []
  {
    assert log[..n + 1][..n] == log[..n];
  }

  /** Transaction `n` wrote the next envelope after those of the transactions before it. */
  lemma {:induction false} EnvelopeAt(log: Log, n: nat)
    requires n < |log| && HasEnvelope(log[n])
    ensures var e := |EnvelopesOf(log[..n])|;
            && e < |EnvelopesOf(log)| && EnvelopesOf(log)[e] == EnvelopeOf(log[n])
            && |EnvelopesOf(log[..n + 1])| == e + 1
  {
    EnvelopesStep(log, n);
    EnvelopesPrefix(log, n + 1);
    var e := |EnvelopesOf(log[..n])|;
    assert EnvelopesOf(log)[e] == EnvelopesOf(log[..n + 1])[e];
  }

  // ---------------------------------------------------------------- finding envelopes

  lemma {:induction false} ChainPrefix(envs: seq<Envelope>, n: nat)
    requires Chained(envs) && n <= |envs|
    ensures Chained(envs[..n])
  {
    forall i | 0 <= i < n ensures ChainLink(envs[..n], i) {
      assert ChainLink(envs, i);
    }
  }

  /** What is found is listed, readable, and has the bounds that were asked for. */
  lemma {:induction false} FoundIsListed(envs: seq<Envelope>, begin: Pos, end: Pos) returns (j: nat)
    requires FindEnvelope(envs, begin, end).Some?
    ensures j < |envs| && FindEnvelope(envs, begin, end) == Some(envs[j])
    ensures envs[j].intact && envs[j].begin == begin && envs[j].end == end
    decreases |envs|
  {
    j := |envs| - 1;
    if !(envs[j].intact && envs[j].begin == begin && envs[j].end == end) {
      j := FoundIsListed(envs[..j], begin, end);
    }
  }

  lemma {:induction false} ListedIsFound(envs: seq<Envelope>, j: nat)
    requires j < |envs| && envs[j].intact
    ensures FindEnvelope(envs, envs[j].begin, envs[j].end).Some?
    decreases |envs|
  {
    var n := |envs| - 1;
    if j < n { ListedIsFound(envs[..n], j); }
  }

  /** In a chain no two envelopes begin at the same place, and none begins where the chain ends. */
  lemma {:induction false} BeginsAreUnique(envs: seq<Envelope>, j: nat, e: nat)
    requires Chained(envs) && j < |envs| && e <= |envs| && envs[j].begin == AppendPosition(EndBefore(envs, e))
    ensures j == e
  {
    assert ChainLink(envs, j);
    if e < j {
      assert ChainLink(envs, e);
      ChainEndsGrow(envs, e, j);
    } else if j < e && j < e - 1 {
      ChainEndsGrow(envs, j, e - 1);
    }
  }

  lemma {:induction false} FindEndInChain(envs: seq<Envelope>, e: nat)
    requires Chained(envs) && e < |envs| && envs[e].intact
    ensures FindEnvelopeEndingAt(envs, envs[e].end) == Some(envs[e])
    decreases |envs|
  {
    var n := |envs| - 1;
    if e < n {
      ChainEndsGrow(envs, e, n);
      ChainPrefix(envs, n);
      FindEndInChain(envs[..n], e);
    }
  }

  /** An envelope's final states are its transaction's after-states. */
  lemma {:induction false} OwnEnvelopeMatches(before: Log, t: Tx, e: Envelope)
    requires TxOk(before, t) && HasEnvelope(t) && e == EnvelopeOf(t)
    ensures EnvelopeMatchesDescriptor(e, t.desc)
  {
    var user := UserAfter(before);
    var keys := DistinctKeys(t.ops);
    DistinctKeysAreTheKeys(t.ops);
    forall i | 0 <= i < |keys|
      ensures EnvelopeFinalStates(e)[i] == (t.desc.mutations[i].key, t.desc.mutations[i].after)
    {
      FoldReachesFinalState(user, t.ops, t.pointers, keys[i]);
      assert keys[i] in keys;
      OccurringKeyForgetsBefore(t.ops, t.pointers, keys[i], Lookup(user, keys[i]), Absent);
    }
  }

  /** Where a transaction's envelope begins, seen from a Value Log that holds everything before it. */
  lemma {:induction false} BeginsAfterHeld(log: Log, envs: seq<Envelope>, n: nat)
    requires WellFormed(log) && n < |log| && HasEnvelope(log[n]) && Holds(log, envs, n)
    ensures log[n].desc.meta.begin == AppendPosition(EndBefore(envs, |EnvelopesOf(log[..n])|))
  {
    WellFormedPrefix(log, n);
    FrontierIsLastEnvelope(log[..n]);
    assert TxAt(log, n);
    var own := EnvelopesOf(log[..n]);
    assert own != [] ==> own[|own| - 1] == envs[|own| - 1];
  }

  /**
   * Reading a transaction's envelope succeeds exactly when its bytes survived, even if another
   * transaction's envelope has been written in their place since.
   */
  lemma {:induction false} ReadableExactlyWhenSurviving(log: Log, envs: seq<Envelope>, n: nat)
    requires WellFormed(log) && Chained(envs) && Agree(log, envs) && n < |log| && HasEnvelope(log[n])
    requires Holds(log, envs, n)
    ensures EnvelopeReadable(envs, log[n].desc) <==> Holds(log, envs, n + 1)
  {
    var m, e := log[n].desc.meta, |EnvelopesOf(log[..n])|;
    BeginsAfterHeld(log, envs, n);
    EnvelopesStep(log, n);
    assert AgreeAt(log, envs, n) && TxAt(log, n);
    if FindEnvelope(envs, m.begin, m.end).Some? {
      var j := FoundIsListed(envs, m.begin, m.end);
      BeginsAreUnique(envs, j, e);
      if envs[e] == EnvelopeOf(log[n]) {
        OwnEnvelopeMatches(log[..n], log[n], envs[e]);
      }
    }
    if Holds(log, envs, n + 1) {
      assert envs[e] == EnvelopesOf(log[..n + 1])[e];
      ListedIsFound(envs, e);
    }
  }

  // ---------------------------------------------------------------- the longest valid prefix

  /** How many transactions survive: everything up to the first lost envelope after `from`. */
  function SurvivingCount(log: Log, envs: seq<Envelope>, from: nat): (n: nat)
    requires from <= |log|
    ensures from <= n <= |log|
    ensures n < |log| ==> !Holds(log, envs, n + 1)
    decreases |log| - from
  {
    if from == |log| || !Holds(log, envs, from + 1) then from else SurvivingCount(log, envs, from + 1)
  }

  /** What survives is held. */
  lemma {:induction false} SurvivorsAreHeld(log: Log, envs: seq<Envelope>, from: nat)
    requires from <= |log| && Holds(log, envs, from)
    ensures Holds(log, envs, SurvivingCount(log, envs, from))
    decreases |log| - from
  {
    if from < |log| && Holds(log, envs, from + 1) { SurvivorsAreHeld(log, envs, from + 1); }
  }

  /** The surviving prefix is the longest one that is held. */
  lemma {:induction false} HeldPrefixSurvives(log: Log, envs: seq<Envelope>, from: nat, n: nat)
    requires from <= n <= |log| && Holds(log, envs, n)
    ensures n <= SurvivingCount(log, envs, from)
  {
    var k := SurvivingCount(log, envs, from);
    if k < n { HoldsShorter(log, envs, n, k + 1); }
  }

  /** Nothing survives past a lost envelope. */
  lemma {:induction false} LossStopsSurvival(log: Log, envs: seq<Envelope>, from: nat, n: nat)
    requires from <= n < |log| && Holds(log, envs, from) && !Holds(log, envs, n + 1)
    ensures SurvivingCount(log, envs, from) <= n
  {
    var k := SurvivingCount(log, envs, from);
    SurvivorsAreHeld(log, envs, from);
    if n < k { HoldsShorter(log, envs, k, n + 1); }
  }

  function DescriptorsOf(log: Log, lo: nat, hi: nat): (r: seq<Descriptor>)
    requires lo <= hi <= |log|
    ensures |r| == hi - lo
    ensures forall i :: 0 <= i < hi - lo ==> r[i] == log[lo + i].desc
  {
    seq(hi - lo, i requires 0 <= i < hi - lo => log[lo + i].desc)
  }

  /** How the frontier moves over one transaction, and where its envelope begins. */
  lemma {:induction false} FrontierStep(log: Log, n: nat)
    requires WellFormed(log) && n < |log|
    ensures FrontierAt(log[..n + 1]) ==
      if HasEnvelope(log[n]) then Frontier(n + 1, n + 1, At(log[n].desc.meta.end))
      else FrontierAt(log[..n]).(seqNo := n + 1)
    ensures log[n].desc.meta.seqNo == n + 1
    ensures HasEnvelope(log[n]) ==>
              && log[n].desc.meta.begin == AppendPosition(FrontierAt(log[..n]).end)
              && PosLess(log[n].desc.meta.begin, log[n].desc.meta.end)
  {
    assert TxAt(log, n);
    assert log[..n + 1][..n] == log[..n];
  }

  /** One round of the walk: past a transaction whose envelope is held, and no further than that. */
  lemma {:induction false} AcceptRound(log: Log, envs: seq<Envelope>, descs: seq<Descriptor>, from: nat)
    requires WellFormed(log) && Chained(envs) && Agree(log, envs) && from < |log| && Holds(log, envs, from)
    requires descs != [] && descs[0] == log[from].desc
    ensures Accept(descs, FrontierAt(log[..from]), envs)
         == if Holds(log, envs, from + 1) then Accept(descs[1..], FrontierAt(log[..from + 1]), envs)
            else FrontierAt(log[..from])
  {
    FrontierStep(log, from);
    EnvelopesStep(log, from);
    if HasEnvelope(log[from]) {
      ReadableExactlyWhenSurviving(log, envs, from);
    }
  }

  /** The walk over the descriptors accepts exactly the surviving prefix. */
  lemma {:induction false} AcceptsTheSurvivingPrefix(log: Log, envs: seq<Envelope>, from: nat)
    requires WellFormed(log) && Chained(envs) && Agree(log, envs) && from <= |log| && Holds(log, envs, from)
    ensures Accept(DescriptorsOf(log, from, |log|), FrontierAt(log[..from]), envs)
         == FrontierAt(log[..SurvivingCount(log, envs, from)])
    decreases |log| - from
  {
    if from < |log| {
      var descs := DescriptorsOf(log, from, |log|);
      assert descs[1..] == DescriptorsOf(log, from + 1, |log|);
      AcceptRound(log, envs, descs, from);
      if Holds(log, envs, from + 1) {
        AcceptsTheSurvivingPrefix(log, envs, from + 1);
      }
    }
  }

  /** A walk over part of the descriptors accepts all of them when their envelopes are held. */
  lemma {:induction false} AcceptsIntactPrefix(log: Log, envs: seq<Envelope>, f: nat, n: nat)
    requires WellFormed(log) && Chained(envs) && Agree(log, envs) && f <= n <= |log| && Holds(log, envs, n)
    ensures Accept(DescriptorsOf(log, f, |log|)[..n - f], FrontierAt(log[..f]), envs) == FrontierAt(log[..n])
  {
    WellFormedPrefix(log, n);
    AgreePrefix(log, envs, n);
    HoldsShorter(log, envs, n, f);
    assert log[..n][..f] == log[..f] && log[..n][..n] == log[..n];
    assert DescriptorsOf(log, f, |log|)[..n - f] == DescriptorsOf(log[..n], f, n);
    AcceptsTheSurvivingPrefix(log[..n], envs, f);
    HeldPrefixSurvives(log[..n], envs, f, n);
  }

  // ---------------------------------------------------------------- descriptors in the index

  /**
   * Entries only ever belong to committed transactions and hold what was committed; those above the
   * durable sequence are complete; a mutation entry never outlives its meta entry.
   */
  predicate TxsOk(txs: map<TxKey, TxValue>, log: Log, durable: nat, head: nat) {
    && durable <= head <= |log|
    && (forall k :: k in txs ==> OwnEntry(txs, log, head, k))
    && (forall n :: durable < n <= head ==> EntriesPresent(txs, log, n))
    && (forall k :: k in txs && k.MutationKey? ==> MetaKey(k.seqNo) in txs)
  }

  predicate OwnEntry(txs: map<TxKey, TxValue>, log: Log, head: nat, k: TxKey)
    requires head <= |log| && k in txs
  {
    && 1 <= k.seqNo <= head
    && var d := log[k.seqNo - 1].desc;
       match k
       case MetaKey(_) => txs[k] == MetaValue(d.meta)
       case MutationKey(_, o) => o < |d.mutations| && txs[k] == MutationValue(d.mutations[o])
  }

  predicate EntriesPresent(txs: map<TxKey, TxValue>, log: Log, n: nat)
    requires 0 < n <= |log|
  {
    && MetaKey(n) in txs
    && forall o :: 0 <= o < |log[n - 1].desc.mutations| ==> MutationKey(n, o) in txs
  }

  lemma {:induction false} CommittedDescriptorIsValid(before: Log, t: Tx)
    requires TxOk(before, t)
    ensures DescriptorValid(t.desc)
  {
    DistinctKeysAreTheKeys(t.ops);
    assert MutatedKeys(t.desc.mutations) == DistinctKeys(t.ops);
    if t.desc.meta.kind == IndexOnlyDelete {
      forall i | 0 <= i < |t.desc.mutations| ensures t.desc.mutations[i].after.Absent? {
        FoldReachesFinalState(UserAfter(before), t.ops, t.pointers, t.desc.mutations[i].key);
        DeletesEndAbsent(t.ops, t.pointers, t.desc.mutations[i].key, Lookup(UserAfter(before), t.desc.mutations[i].key));
      }
    }
  }

  lemma {:induction false} DeletesEndAbsent(ops: seq<Operation>, pointers: Pointers, key: Bytes, before: ValueState)
    requires |ops| == |pointers| && key in DistinctKeys(ops) && (forall i :: 0 <= i < |ops| ==> ops[i].Delete?)
    ensures FinalState(ops, pointers, key, before) == Absent
  {
    var n := |ops| - 1;
    if ops[n].key != key {
      DeletesEndAbsent(ops[..n], pointers[..n], key, before);
    }
  }

  lemma {:induction false} DescriptorAtIsValid(log: Log, n: nat)
    requires WellFormed(log) && n < |log|
    ensures DescriptorValid(log[n].desc) && log[n].desc.meta.seqNo == n + 1
  {
    assert TxAt(log, n);
    CommittedDescriptorIsValid(log[..n], log[n]);
  }

  lemma {:induction false} LoadsCommittedDescriptor(txs: map<TxKey, TxValue>, log: Log, durable: nat, head: nat, n: nat)
    requires WellFormed(log) && TxsOk(txs, log, durable, head) && durable < n <= head
    ensures LoadDescriptor(txs, n) == Some(log[n - 1].desc)
  {
    var d := log[n - 1].desc;
    DescriptorAtIsValid(log, n - 1);
    assert EntriesPresent(txs, log, n);
    assert OwnEntry(txs, log, head, MetaKey(n));
    forall k | k in txs && k.MutationKey? && k.seqNo == n ensures k.ordinal < d.meta.keyCount {
      assert OwnEntry(txs, log, head, k);
    }
    forall i | 0 <= i < d.meta.keyCount
      ensures MutationKey(n, i) in txs && txs[MutationKey(n, i)] == MutationValue(d.mutations[i])
    {
      assert OwnEntry(txs, log, head, MutationKey(n, i));
    }
    LoadsComplete(txs, n, d);
  }

  lemma {:induction false} LoadsComplete(txs: map<TxKey, TxValue>, n: nat, d: Descriptor)
    requires DescriptorValid(d) && d.meta.seqNo == n
    requires MetaKey(n) in txs && txs[MetaKey(n)] == MetaValue(d.meta)
    requires forall k :: k in txs && k.MutationKey? && k.seqNo == n ==> k.ordinal < d.meta.keyCount
    requires forall i :: 0 <= i < d.meta.keyCount ==>
               MutationKey(n, i) in txs && txs[MutationKey(n, i)] == MutationValue(d.mutations[i])
    ensures LoadDescriptor(txs, n) == Some(d)
  {
    var m := txs[MetaKey(n)].meta;
    assert seq(m.keyCount, i requires 0 <= i < m.keyCount => txs[MutationKey(n, i)].mutation) == d.mutations;
  }

  lemma {:induction false} LoadsCommittedDescriptors(
    txs: map<TxKey, TxValue>, log: Log, durable: nat, head: nat, n: nat)
    requires WellFormed(log) && TxsOk(txs, log, durable, head) && durable <= n <= head
    ensures LoadDescriptors(txs, durable, n) == Some(DescriptorsOf(log, durable, n))
    decreases n
  {
    if durable < n {
      LoadsCommittedDescriptor(txs, log, durable, head, n);
      LoadsCommittedDescriptors(txs, log, durable, head, n - 1);
      DescriptorsOfStep(log, durable, n);
    }
  }

  lemma {:induction false} DescriptorsOfStep(log: Log, lo: nat, hi: nat)
    requires lo < hi <= |log|
    ensures DescriptorsOf(log, lo, hi) == DescriptorsOf(log, lo, hi - 1) + [log[hi - 1].desc]
  {
  }

  // ---------------------------------------------------------------- one surviving index state

  /** How far a recovery that starts from this state is sure to keep the history. */
  function Extent(s: Index): nat {
    if s.recovery.Some? then s.recovery.value.target.seqNo else s.frontier.seqNo
  }

  /** A persisted recovery state names a prefix of the history. */
  predicate RecoveryOk(log: Log, s: Index, rs: RecoveryState) {
    && s.frontier.seqNo <= rs.target.seqNo <= |log|
    && rs.target == FrontierAt(log[..rs.target.seqNo])
    && rs.nextUndo == s.head <= rs.originalHead
    && (rs.phase != Undo ==>
          s.head == rs.target.seqNo && s.frontier == rs.target && (rs.phase == Trim <==> rs.trimRequired))
  }

  /** The index state is the replay of the history `log`. */
  ghost predicate Replays(s: Index, log: Log, acked: nat) {
    && WellFormed(log) && Sized(log) && s.head == |log|
    && acked <= s.frontier.seqNo <= |log|
    && s.user == UserAfter(log) && s.frontier == FrontierAt(log[..s.frontier.seqNo])
    && TxsOk(s.txs, log, s.frontier.seqNo, |log|)
    && (s.recovery.Some? ==> RecoveryOk(log, s, s.recovery.value))
  }

  /** The envelopes of the first `n` transactions survive a crash. */
  predicate Safe(log: Log, vlog: VLog, n: nat) {
    n <= |log| && Holds(log, vlog.envs, n) && |EnvelopesOf(log[..n])| <= vlog.synced
  }

  ghost predicate StateOk(s: Index, log: Log, vlog: VLog, acked: nat) {
    Replays(s, log, acked) && Agree(log, vlog.envs) && Safe(log, vlog, Extent(s))
  }

  /** An envelope whose bytes can be read is in the files; one that is listed left at least one byte. */
  predicate InFiles(envs: seq<Envelope>, i: nat, files: Inventory, g: Geometry)
    requires i < |envs|
  {
    && (IntactThrough(envs, i + 1) ==> StableFiles(files, At(envs[i].end), g))
    && HasSuffixAfter(files, EndBefore(envs, i))
  }

  predicate FilesSound(envs: seq<Envelope>, files: Inventory, g: Geometry) {
    Ordered(files, g) && forall i :: 0 <= i < |envs| ==> InFiles(envs, i, files, g)
  }

  predicate VLogSound(vlog: VLog, g: Geometry) {
    Chained(vlog.envs) && vlog.synced <= |vlog.envs| && FilesSound(vlog.envs, vlog.files, g)
  }

  /** The state that the index shows now, and the Value Log under it. */
  ghost predicate Solo(log: Log, d: Disk, acked: nat, g: Geometry) {
    d.states != [] && VLogSound(d.vlog, g) && StateOk(Current(d), log, d.vlog, acked)
  }

  // ---------------------------------------------------------------- the invariant of a stopped store

  /** How far a history may be shared with a state that a crash could bring back. */
  function Reach(log: Log, s: Index): nat {
    if s.recovery.Some? then s.recovery.value.target.seqNo else |log|
  }

  /**
   * An older state's history and the current one share their first `n` transactions. That covers what
   * the older state is sure to keep, and what it shows beyond is lost in the Value Log.
   */
  predicate Shares(older: Log, s: Index, log: Log, cur: Index, envs: seq<Envelope>, n: nat) {
    && n <= |older| && n <= |log| && n <= Reach(log, cur) && older[..n] == log[..n]
    && Extent(s) <= n && Extent(s) <= Extent(cur)
    && (n == |older| || s.recovery.Some? || !Holds(older, envs, n + 1))
  }

  ghost predicate Joins(older: Log, s: Index, log: Log, cur: Index, envs: seq<Envelope>) {
    exists n :: Shares(older, s, log, cur, envs, n)
  }

  /** An index state that a crash may bring back. */
  ghost predicate Older(past: seq<Log>, log: Log, d: Disk, acked: nat, i: nat)
    requires i < |past| < |d.states|
  {
    && StateOk(d.states[i], past[i], d.vlog, acked)
    && Joins(past[i], d.states[i], log, Current(d), d.vlog.envs)
  }

  /**
   * What holds of the disk of a stopped store: the index shows `log`, and `past` are the histories of
   * the older states that a crash may still bring back.
   */
  ghost predicate DownInv(past: seq<Log>, log: Log, d: Disk, acked: nat, g: Geometry) {
    && Solo(log, d, acked, g) && |d.states| == |past| + 1
    && forall i :: 0 <= i < |past| ==> Older(past, log, d, acked, i)
  }

  /** The history of one of the surviving states. */
  function LogOf(past: seq<Log>, log: Log, i: nat): Log
    requires i <= |past|
  {
    if i < |past| then past[i] else log
  }

  // ---------------------------------------------------------------- what analysis finds

  /** The prefix that recovery will keep. */
  function TargetCount(log: Log, ix: Index, envs: seq<Envelope>): (n: nat)
    requires ix.frontier.seqNo <= |log|
  {
    if ix.recovery.Some? then ix.recovery.value.target.seqNo else SurvivingCount(log, envs, ix.frontier.seqNo)
  }

  function ExpectedPlan(log: Log, ix: Index, vlog: VLog): Plan
    requires ix.frontier.seqNo <= |log| && TargetCount(log, ix, vlog.envs) <= |log|
  {
    var n := TargetCount(log, ix, vlog.envs);
    var accepted := FrontierAt(log[..n]);
    Plan(ix.frontier, ix.head, accepted, DescriptorsOf(log, ix.frontier.seqNo, |log|), ix.recovery,
         if ix.recovery.Some? then ix.recovery.value.phase == Undo && n < ix.head else n < ix.head,
         n > ix.frontier.seqNo, HasSuffixAfter(vlog.files, accepted.end))
  }

  /** `b` covers at least as much of the Value Log; equal log sequences mean equal ends. */
  predicate CoversLog(b: Frontier, a: Frontier) {
    && a.vlogSeq <= b.vlogSeq
    && (if a.vlogSeq == b.vlogSeq then a.end == b.end else EndStrictlyAfter(b.end, a.end))
  }

  lemma {:induction false} CoversLogTransitive(a: Frontier, b: Frontier, c: Frontier)
    requires CoversLog(b, a) && CoversLog(c, b)
    ensures CoversLog(c, a)
  {
  }

  /** Frontiers of growing prefixes grow. */
  lemma {:induction false} FrontiersGrow(log: Log, a: nat, b: nat)
    requires WellFormed(log) && a <= b <= |log|
    ensures CoversLog(FrontierAt(log[..b]), FrontierAt(log[..a]))
    decreases b
  {
    if a < b {
      FrontiersGrow(log, a, b - 1);
      FrontierStep(log, b - 1);
      CoversLogTransitive(FrontierAt(log[..a]), FrontierAt(log[..b - 1]), FrontierAt(log[..b]));
    }
  }

  lemma {:induction false} FrontierPositionsValid(log: Log)
    requires WellFormed(log)
    ensures FrontierValid(FrontierAt(log))
    ensures FrontierAt(log).end.At? ==> FrontierAt(log).end.pos.offset > 0
    decreases |log|
  {
    if log != [] {
      WellFormedPrefix(log, |log| - 1);
      assert TxAt(log, |log| - 1);
      FrontierPositionsValid(log[..|log| - 1]);
    }
  }

  /** A prefix whose envelopes are intact is all there: its boundary reads back and its files are stable. */
  lemma {:induction false} IntactPrefixIsStable(log: Log, vlog: VLog, n: nat, g: Geometry)
    requires WellFormed(log) && VLogSound(vlog, g) && n <= |log| && Holds(log, vlog.envs, n)
    ensures StableBoundary(vlog.envs, FrontierAt(log[..n]))
    ensures StableFiles(vlog.files, FrontierAt(log[..n]).end, g)
    ensures ContainsEnd(vlog.files, FrontierAt(log[..n]).end)
    ensures FrontierAt(log[..n]).end == EndBefore(vlog.envs, |EnvelopesOf(log[..n])|)
  {
    WellFormedPrefix(log, n);
    FrontierIsLastEnvelope(log[..n]);
    HeldIsIntact(log, vlog.envs, n);
    var m := |EnvelopesOf(log[..n])|;
    if m > 0 {
      assert vlog.envs[m - 1] == EnvelopesOf(log[..n])[m - 1];
      FindEndInChain(vlog.envs, m - 1);
      var end := FrontierAt(log[..n]).end;
      assert InFiles(vlog.envs, m - 1, vlog.files, g);
      assert vlog.files[end.pos.file].len >= end.pos.offset;
    }
  }

  lemma {:induction false} CountThroughPrefix(envs: seq<Envelope>, m: nat)
    requires Chained(envs) && m <= |envs|
    ensures CountThrough(envs, EndBefore(envs, m)) == m
    decreases |envs|
  {
    if m > 0 && m < |envs| {
      var n := |envs| - 1;
      ChainEndsGrow(envs, m - 1, n);
      ChainPrefix(envs, n);
      CountThroughPrefix(envs[..n], m);
    }
  }
}
