/**
 * What analysis rejects. For any index and any Value Log, reachable or not: a plan is made only if the
 * metadata, the files, the stored descriptors and the envelopes up to its target agree with each other.
 */
module RecoverySoundness {
  import opened Basics
  import opened Index
  import opened CommitProtocol
  import opened Topology
  import opened History
  import opened Recovery

  // ---------------------------------------------------------------- envelopes and descriptors

  /** The envelope is the descriptor's, and its operations do to any index what the descriptor says. */
  ghost predicate Carries(e: Envelope, d: Descriptor) {
    && e.intact && |e.ops| == |e.pointers| && e.seqNo == d.meta.seqNo && e.uuid == d.meta.uuid
    && e.begin == d.meta.begin && e.end == d.meta.end && e.crc == d.meta.envelopeCrc && |e.ops| == d.meta.opCount
    && |d.mutations| == d.meta.keyCount
    && forall user, key :: DoesAsTold(e, d, user, key)
  }

  /** Folding the operations leaves each key of the descriptor in its after-state and no other key changed. */
  ghost predicate DoesAsTold(e: Envelope, d: Descriptor, user: map<Bytes, ValuePointer>, key: Bytes)
    requires |e.ops| == |e.pointers|
  {
    var after := Lookup(FoldOperations(user, e.ops, e.pointers), key);
    if key in MutatedKeys(d.mutations) then
      exists i :: 0 <= i < |d.mutations| && d.mutations[i].key == key && d.mutations[i].after == after
    else after == Lookup(user, key)
  }

  lemma {:induction false} FoundIsIntact(envs: seq<Envelope>, begin: Pos, end: Pos)
    requires FindEnvelope(envs, begin, end).Some?
    ensures var e := FindEnvelope(envs, begin, end).value; e in envs && e.intact && e.begin == begin && e.end == end
  {
    var last := envs[|envs| - 1];
    if !(last.intact && last.begin == begin && last.end == end) { FoundIsIntact(envs[..|envs| - 1], begin, end); }
  }

  lemma {:induction false} FoundEndingIsIntact(envs: seq<Envelope>, end: Pos)
    requires FindEnvelopeEndingAt(envs, end).Some?
    ensures var e := FindEnvelopeEndingAt(envs, end).value; e in envs && e.intact && e.end == end
  {
    var last := envs[|envs| - 1];
    if !(last.intact && last.end == end) { FoundEndingIsIntact(envs[..|envs| - 1], end); }
  }

  lemma {:induction false} MatchDoesAsTold(e: Envelope, d: Descriptor, user: map<Bytes, ValuePointer>, key: Bytes)
    requires EnvelopeMatchesDescriptor(e, d)
    ensures DoesAsTold(e, d, user, key)
  {
    var keys := DistinctKeys(e.ops);
    DistinctKeysAreTheKeys(e.ops);
    assert forall i :: 0 <= i < |keys| ==> EnvelopeFinalStates(e)[i] == (d.mutations[i].key, d.mutations[i].after);
    assert forall i :: 0 <= i < |keys| ==> MutatedKeys(d.mutations)[i] == keys[i];
    if key in MutatedKeys(d.mutations) {
      var i :| 0 <= i < |d.mutations| && MutatedKeys(d.mutations)[i] == key;
      assert keys[i] in keys;
      FoldReachesFinalState(user, e.ops, e.pointers, key);
      OccurringKeyForgetsBefore(e.ops, e.pointers, key, Lookup(user, key), Absent);
      assert d.mutations[i].after == FinalState(e.ops, e.pointers, key, Absent);
    } else {
      assert key !in keys;
      UntouchedKeyIsKept(user, e.ops, e.pointers, key);
    }
  }

  /** An envelope that is accepted for a descriptor carries exactly the descriptor's changes. */
  lemma {:induction false} ReadableCarries(envs: seq<Envelope>, d: Descriptor)
    requires EnvelopeReadable(envs, d)
    ensures exists e :: e in envs && Carries(e, d)
  {
    FoundIsIntact(envs, d.meta.begin, d.meta.end);
    var e := FindEnvelope(envs, d.meta.begin, d.meta.end).value;
    forall user, key ensures DoesAsTold(e, d, user, key) {
      MatchDoesAsTold(e, d, user, key);
    }
    assert Carries(e, d);
  }

  // ---------------------------------------------------------------- the walk

  /** The walk may go over this descriptor: it writes no envelope, or its envelope is there and carries it. */
  ghost predicate StepsOver(d: Descriptor, a: Frontier, b: Frontier, envs: seq<Envelope>) {
    match d.meta.kind
    case IndexOnlyDelete => b == a.(seqNo := d.meta.seqNo)
    case VLogEnvelope =>
      && d.meta.begin == AppendPosition(a.end) && b == Frontier(d.meta.seqNo, d.meta.seqNo, At(d.meta.end))
      && exists e :: e in envs && Carries(e, d)
  }

  /** The frontiers on the way over the first descriptors, one after the other. */
  ghost predicate Walked(descs: seq<Descriptor>, way: seq<Frontier>, envs: seq<Envelope>) {
    && 0 < |way| <= |descs| + 1
    && forall i :: 0 <= i < |way| - 1 ==> StepsOver(descs[i], way[i], way[i + 1], envs)
  }

  /** The walk ends where it must: at the last descriptor, or before one whose envelope is not in its place. */
  predicate MustStop(descs: seq<Descriptor>, n: nat, at: Frontier, envs: seq<Envelope>) {
    n == |descs|
    || (&& n < |descs| && descs[n].meta.kind == VLogEnvelope
        && (descs[n].meta.begin != AppendPosition(at.end) || !EnvelopeReadable(envs, descs[n])))
  }

  lemma {:induction false} AcceptWalks(descs: seq<Descriptor>, from: Frontier, envs: seq<Envelope>) returns (way: seq<Frontier>)
    ensures Walked(descs, way, envs) && way[0] == from && way[|way| - 1] == Accept(descs, from, envs)
    ensures MustStop(descs, |way| - 1, way[|way| - 1], envs)
  {
    if descs == [] {
      way := [from];
    } else {
      var m := descs[0].meta;
      if m.kind == VLogEnvelope && (m.begin != AppendPosition(from.end) || !EnvelopeReadable(envs, descs[0])) {
        way := [from];
      } else {
        var next := if m.kind == IndexOnlyDelete then from.(seqNo := m.seqNo) else Frontier(m.seqNo, m.seqNo, At(m.end));
        if m.kind == VLogEnvelope { ReadableCarries(envs, descs[0]); }
        var rest := AcceptWalks(descs[1..], next, envs);
        way := [from] + rest;
        WayGrows(descs, from, rest, envs);
        assert MustStop(descs[1..], |rest| - 1, rest[|rest| - 1], envs);
      }
    }
  }

  lemma {:induction false} WayGrows(descs: seq<Descriptor>, from: Frontier, rest: seq<Frontier>, envs: seq<Envelope>)
    requires descs != [] && Walked(descs[1..], rest, envs) && StepsOver(descs[0], from, rest[0], envs)
    ensures Walked(descs, [from] + rest, envs)
  {
    var way := [from] + rest;
    forall i | 0 <= i < |way| - 1 ensures StepsOver(descs[i], way[i], way[i + 1], envs) {
      if i > 0 { assert StepsOver(descs[1..][i - 1], rest[i - 1], rest[i - 1 + 1], envs); }
    }
  }

  // ---------------------------------------------------------------- plans

  /** The entries of transaction `n` are exactly those of the valid descriptor. */
  ghost predicate StoredAs(txs: map<TxKey, TxValue>, n: nat, d: Descriptor) {
    && d.meta.seqNo == n && DescriptorValid(d)
    && MetaKey(n) in txs && txs[MetaKey(n)] == MetaValue(d.meta)
    && (forall i: nat :: MutationKey(n, i) in txs <==> i < |d.mutations|)
    && (forall i :: 0 <= i < |d.mutations| ==> txs[MutationKey(n, i)] == MutationValue(d.mutations[i]))
  }

  /** A descriptor loads if and only if it is stored completely and only. */
  lemma {:induction false} LoadsExactly(txs: map<TxKey, TxValue>, n: nat, d: Descriptor)
    ensures LoadDescriptor(txs, n) == Some(d) <==> StoredAs(txs, n, d)
  {
    if StoredAs(txs, n, d) {
      assert EntriesComplete(txs, n);
      assert seq(|d.mutations|, i requires 0 <= i < |d.mutations| => txs[MutationKey(n, i)].mutation) == d.mutations;
    }
  }

  /** The stored descriptors of the unstable transactions, all of them and nothing beyond the head. */
  ghost predicate DescriptorsStored(ix: Index, descs: seq<Descriptor>) {
    && |descs| == ix.head - ix.frontier.seqNo
    && (forall i :: 0 <= i < |descs| ==> StoredAs(ix.txs, ix.frontier.seqNo + 1 + i, descs[i]))
    && (forall k :: k in ix.txs ==> k.seqNo <= ix.head)
  }

  lemma {:induction false} LoadedAreStored(txs: map<TxKey, TxValue>, lo: nat, hi: nat)
    requires lo <= hi && LoadDescriptors(txs, lo, hi).Some?
    ensures var descs := LoadDescriptors(txs, lo, hi).value;
            |descs| == hi - lo && forall i :: 0 <= i < |descs| ==> StoredAs(txs, lo + 1 + i, descs[i])
    decreases hi
  {
    if lo < hi {
      LoadedAreStored(txs, lo, hi - 1);
      LoadsExactly(txs, hi, LoadDescriptor(txs, hi).value);
    }
  }

  /** The durable boundary: its files are there and full, and the envelope that ends there is the one it names. */
  ghost predicate BoundarySound(ix: Index, vlog: VLog, g: Geometry) {
    && FrontierValid(ix.frontier) && ix.frontier.seqNo <= ix.head
    && Ordered(vlog.files, g) && StableFiles(vlog.files, ix.frontier.end, g)
    && (ix.frontier.end.At? ==>
          exists e :: e in vlog.envs && e.intact && e.end == ix.frontier.end.pos && e.seqNo == ix.frontier.vlogSeq)
  }

  /** A persisted recovery state that may be continued: its phase and the index agree, and so do trim and files. */
  predicate Continues(rs: RecoveryState, ix: Index, files: Inventory) {
    && rs.target.seqNo <= rs.nextUndo <= rs.originalHead && ix.frontier.seqNo <= rs.target.seqNo
    && match rs.phase
       case Undo => ix.head == rs.nextUndo && (!rs.trimRequired ==> !HasSuffixAfter(files, rs.target.end))
       case Trim => ix.head == rs.target.seqNo == rs.nextUndo && ix.frontier == rs.target && rs.trimRequired
       case Finalize =>
         && ix.head == rs.target.seqNo == rs.nextUndo && ix.frontier == rs.target && !rs.trimRequired
         && !HasSuffixAfter(files, rs.target.end)
  }

  /** The target of a plan and the way to it. */
  ghost predicate TargetSound(ix: Index, vlog: VLog, plan: Plan) {
    && ix.frontier.seqNo <= plan.accepted.seqNo <= ix.head
    && ix.frontier.vlogSeq <= plan.accepted.vlogSeq <= plan.accepted.seqNo && ContainsEnd(vlog.files, plan.accepted.end)
    && match ix.recovery
       case None =>
         exists way :: && Walked(plan.descriptors, way, vlog.envs) && way[0] == ix.frontier && way[|way| - 1] == plan.accepted
                       && MustStop(plan.descriptors, |way| - 1, plan.accepted, vlog.envs)
       case Some(rs) =>
         && plan.accepted == rs.target && Continues(rs, ix, vlog.files)
         && (rs.phase == Undo ==>
               exists way :: && Walked(plan.descriptors, way, vlog.envs) && way[0] == ix.frontier && way[|way| - 1] == rs.target
                             && |way| == rs.target.seqNo - ix.frontier.seqNo + 1)
  }

  lemma {:induction false} BoundaryIsSound(ix: Index, vlog: VLog, g: Geometry)
    requires MetadataSound(ix, vlog, g)
    ensures BoundarySound(ix, vlog, g)
  {
    if ix.frontier.end.At? {
      FoundEndingIsIntact(vlog.envs, ix.frontier.end.pos);
      var e := FindEnvelopeEndingAt(vlog.envs, ix.frontier.end.pos).value;
      assert e in vlog.envs && e.seqNo == ix.frontier.vlogSeq;
    }
  }

  lemma {:induction false} NewTargetIsSound(ix: Index, vlog: VLog, descs: seq<Descriptor>, plan: Plan)
    requires ix.recovery.None? && ChooseTarget(ix, vlog, descs) == Ok(plan)
    ensures TargetSound(ix, vlog, plan) && plan.descriptors == descs
  {
    var way := AcceptWalks(descs, ix.frontier, vlog.envs);
  }

  lemma {:induction false} FixedTargetIsSound(ix: Index, vlog: VLog, descs: seq<Descriptor>, plan: Plan)
    requires ix.recovery.Some? && RecoveryStateValid(ix.recovery.value) && ChooseTarget(ix, vlog, descs) == Ok(plan)
    requires forall i :: 0 <= i < |descs| ==> descs[i].meta.seqNo == ix.frontier.seqNo + 1 + i
    ensures TargetSound(ix, vlog, plan) && plan.descriptors == descs
  {
    var rs := ix.recovery.value;
    if rs.phase == Undo {
      var count := rs.target.seqNo - ix.frontier.seqNo;
      var part := descs[..count];
      var way := AcceptWalks(part, ix.frontier, vlog.envs);
      WholeWay(descs, count, way, ix.frontier, vlog.envs);
    }
  }

  /** A walk over part of the descriptors is a walk over all of them, and its length is in its last frontier. */
  lemma {:induction false} WholeWay(descs: seq<Descriptor>, count: nat, way: seq<Frontier>, from: Frontier, envs: seq<Envelope>)
    requires count <= |descs| && Walked(descs[..count], way, envs) && way[0] == from
    requires forall i :: 0 <= i < |descs| ==> descs[i].meta.seqNo == from.seqNo + 1 + i
    ensures Walked(descs, way, envs) && way[|way| - 1].seqNo == from.seqNo + |way| - 1
  {
    forall i | 0 <= i < |way| - 1 ensures StepsOver(descs[i], way[i], way[i + 1], envs) {
      assert StepsOver(descs[..count][i], way[i], way[i + 1], envs);
    }
    if |way| > 1 {
      var i := |way| - 2;
      assert StepsOver(descs[i], way[i], way[i + 1], envs);
    }
  }

  lemma {:induction false} AnalysisLoads(ix: Index, vlog: VLog, g: Geometry) returns (descs: seq<Descriptor>)
    requires Analyze(ix, vlog, g).Ok?
    ensures MetadataSound(ix, vlog, g) && LoadDescriptors(ix.txs, ix.frontier.seqNo, ix.head) == Some(descs)
    ensures Analyze(ix, vlog, g) == ChooseTarget(ix, vlog, descs)
  {
    descs := LoadDescriptors(ix.txs, ix.frontier.seqNo, ix.head).value;
  }

  /** What a plan says is to be done follows from its target. */
  predicate WorkFits(ix: Index, vlog: VLog, plan: Plan) {
    && plan.frontier == ix.frontier && plan.head == ix.head && plan.recovery == ix.recovery
    && plan.needsTrim == HasSuffixAfter(vlog.files, plan.accepted.end)
    && (plan.needsPromote <==> plan.accepted.seqNo > ix.frontier.seqNo)
    && (plan.needsUndo <==> plan.accepted.seqNo < ix.head)
  }

  lemma {:induction false} ChosenWorkFits(ix: Index, vlog: VLog, descs: seq<Descriptor>, plan: Plan)
    requires ChooseTarget(ix, vlog, descs) == Ok(plan)
    ensures WorkFits(ix, vlog, plan)
  {
    if ix.recovery.Some? {
      var rs := ix.recovery.value;
      assert ValidAgainstCurrent(rs, ix.frontier, ix.head);
      assert BuildPlan(ix, vlog, rs.target, descs).Ok?;
    }
  }

  lemma {:induction false} TargetIsSound(ix: Index, vlog: VLog, descs: seq<Descriptor>, plan: Plan)
    requires ix.recovery.Some? ==> RecoveryStateValid(ix.recovery.value)
    requires forall i :: 0 <= i < |descs| ==> descs[i].meta.seqNo == ix.frontier.seqNo + 1 + i
    requires ChooseTarget(ix, vlog, descs) == Ok(plan)
    ensures TargetSound(ix, vlog, plan) && plan.descriptors == descs
  {
    if ix.recovery.None? {
      NewTargetIsSound(ix, vlog, descs, plan);
    } else {
      FixedTargetIsSound(ix, vlog, descs, plan);
    }
  }

  lemma {:induction false} LoadedForTheIndex(ix: Index, vlog: VLog, g: Geometry, descs: seq<Descriptor>)
    requires MetadataSound(ix, vlog, g) && LoadDescriptors(ix.txs, ix.frontier.seqNo, ix.head) == Some(descs)
    ensures DescriptorsStored(ix, descs)
    ensures forall i :: 0 <= i < |descs| ==> descs[i].meta.seqNo == ix.frontier.seqNo + 1 + i
    ensures ix.recovery.Some? ==> RecoveryStateValid(ix.recovery.value)
  {
    LoadedAreStored(ix.txs, ix.frontier.seqNo, ix.head);
  }

  /**
   * Analysis is sound for every index and every Value Log: whenever it makes a plan, the durable boundary
   * is really there, the descriptors are exactly the stored ones, every transaction up to the target is
   * carried by a readable envelope in its place, a new target is the farthest possible, and a persisted
   * recovery state fits the index and the files.
   */
  lemma {:induction false} PlanIsSound(ix: Index, vlog: VLog, g: Geometry, plan: Plan)
    requires Analyze(ix, vlog, g) == Ok(plan)
    ensures BoundarySound(ix, vlog, g) && DescriptorsStored(ix, plan.descriptors)
    ensures TargetSound(ix, vlog, plan) && WorkFits(ix, vlog, plan)
  {
    var descs := AnalysisLoads(ix, vlog, g);
    BoundaryIsSound(ix, vlog, g);
    LoadedForTheIndex(ix, vlog, g, descs);
    ChosenWorkFits(ix, vlog, descs, plan);
    TargetIsSound(ix, vlog, descs, plan);
  }
}
