/**
 * Every step of a running session keeps the invariant: memory and index agree until an outcome is
 * unknown, no frontier covers bytes that were not synced first, and a stop at any stage leaves a
 * disk that recovery can handle.
 */
module StoreSteps {
  import opened Basics
  import opened Index
  import opened CommitProtocol
  import opened Topology
  import opened History
  import opened Recovery
  import opened RecoveryInvariant
  import opened RecoverySteps
  import opened RestartableRecovery
  import opened Running
  import opened StoreSystem

  // ---------------------------------------------------------------- commit stages

  /** The transaction's records are written and its index batch is not committed yet. */
  ghost predicate Staged(s: System, t: Tx, g: Geometry) {
    && s.session.Some?
    && var x := s.session.value;
       && Appended(s.past, s.log, t, s.disk, s.safe, g)
       && x.health == Healthy && !x.unknown && MemoryFits(x, s.log)
       && x.head == |s.log| && x.frontier == Current(s.disk).frontier
       && !x.writer.failed && WriterFits(x.writer.(pending := false), FrontierAt(s.log + [t]))
  }

  lemma {:induction false} AppendStages(s: System, t: Tx, g: Geometry)
    requires Inv(s, g) && s.session.Some? && s.session.value.health == Healthy
    requires TxOk(s.log, t) && (HasEnvelope(t) ==> Fits(t.desc.meta.end, g)) && Fresh(t.desc.meta.uuid, s.past)
    ensures Staged(AfterAppend(s, t, g), t, g)
    ensures !AfterAppend(s, t, g).session.value.writer.pending
  {
    AppendReachesAppended(s.past, s.log, t, s.disk, s.safe, g);
    WellFormedStep(s.log, t);
    assert s.disk.(vlog := s.disk.vlog) == s.disk;
  }

  lemma {:induction false} SyncStages(s: System, t: Tx, g: Geometry)
    requires Staged(s, t, g)
    ensures Staged(AfterSync(s), t, g)
    ensures |EnvelopesOf(s.log + [t])| <= AfterSync(s).disk.vlog.synced
  {
    SyncKeepsDown(s.past, s.log, s.disk, s.safe, g);
  }

  /** What a healthy session's memory says is what the history says, including the new transaction. */
  lemma {:induction false} TargetIsFrontier(s: System, t: Tx, g: Geometry)
    requires Staged(s, t, g)
    ensures var x := s.session.value;
            Frontier(t.desc.meta.seqNo, TargetVLogSeq(x, t), TargetVLogEnd(x, t)) == FrontierAt(s.log + [t])
  {
    assert s.log[..|s.log|] == s.log;
    WellFormedStep(s.log, t);
  }

  /** Equal log sequences of two frontiers of one history mean that no envelope lies between them. */
  lemma {:induction false} SameSequenceSameEnvelopes(log: Log, f: nat)
    requires WellFormed(log) && f <= |log| && FrontierAt(log[..f]).vlogSeq == FrontierAt(log).vlogSeq
    ensures |EnvelopesOf(log[..f])| == |EnvelopesOf(log)|
    decreases |log|
  {
    if f == |log| {
      assert log[..f] == log;
    } else {
      var n := |log| - 1;
      assert log[..n][..f] == log[..f];
      WellFormedPrefix(log, n);
      SameSequenceSameEnvelopes(log[..n], f);
    }
  }

  /** An index-only sync commit needs no Value Log sync when the frontier already covers the log. */
  lemma {:induction false} NoSyncNeeded(s: System, t: Tx, g: Geometry)
    requires Staged(s, t, g)
    requires !(TargetVLogSeq(s.session.value, t) > s.session.value.frontier.vlogSeq)
    ensures |EnvelopesOf(s.log + [t])| <= s.disk.vlog.synced
  {
    var x := s.session.value;
    assert s.log[..|s.log|] == s.log;
    FrontiersGrow(s.log, x.frontier.seqNo, |s.log|);
    assert !HasEnvelope(t);
    WellFormedStep(s.log, t);
    SameSequenceSameEnvelopes(s.log, x.frontier.seqNo);
  }

  lemma {:induction false} StoppedKeepsInv(s: System, t: Tx, stop: Health, g: Geometry)
    requires Staged(s, t, g) && stop != Healthy
    ensures Inv(Stopped(s, stop), g) && Inv(Stopped(WriterFailed(s), stop), g)
  {
  }

  lemma {:induction false} PublishedKeepsInv(s: System, t: Tx, frontier: Option<Frontier>, g: Geometry)
    requires Staged(s, t, g) && MayPublish(s.log + [t], frontier, s.disk.vlog.synced)
    ensures Inv(Published(s, t, frontier), g)
  {
    TargetIsFrontier(s, t, g);
    if frontier.Some? {
      SyncCommitKeepsLive(s.past, s.log, t, s.disk, s.safe, g);
    } else {
      BufferCommitKeepsLive(s.past, s.log, t, s.disk, s.safe, g, frontier);
    }
    CommittedStateOk(Current(s.disk), s.log, t, frontier, s.disk.vlog, s.safe);
    LongerMemoryFits(s.session.value, s.log, t, frontier);
  }

  lemma {:induction false} LongerMemoryFits(x: Session, log: Log, t: Tx, frontier: Option<Frontier>)
    requires MemoryFits(x, log) && x.head == |log| && t.desc.meta.seqNo == |log| + 1
    requires frontier.Some? ==> frontier.value == FrontierAt(log + [t])
    requires Frontier(t.desc.meta.seqNo, TargetVLogSeq(x, t), TargetVLogEnd(x, t)) == FrontierAt(log + [t])
    ensures MemoryFits(x.(head := |log| + 1, vlogSeq := TargetVLogSeq(x, t), vlogEnd := TargetVLogEnd(x, t),
                          frontier := if frontier.Some? then frontier.value else x.frontier,
                          writer := x.writer.(pending := false)), log + [t])
  {
    var next := log + [t];
    assert next[..|next|] == next && next[..x.frontier.seqNo] == log[..x.frontier.seqNo];
  }

  lemma {:induction false} UnknownKeepsInv(s: System, t: Tx, frontier: Option<Frontier>, applied: bool, g: Geometry)
    requires Staged(s, t, g) && MayPublish(s.log + [t], frontier, s.disk.vlog.synced)
    ensures Inv(LeftUnknown(s, CommitBatchWithFrontier(t.desc, frontier), s.log + [t], applied), g)
    ensures Inv(LeftUnknown(WriterFailed(s), CommitBatchWithFrontier(t.desc, frontier), s.log + [t], applied), g)
  {
    if applied {
      BufferCommitKeepsLive(s.past, s.log, t, s.disk, s.safe, g, frontier);
      var x, next := s.session.value, s.log + [t];
      assert next[..x.head] == s.log[..x.head] && next[..x.frontier.seqNo] == s.log[..x.frontier.seqNo];
    }
  }

  lemma {:induction false} CommitIndexKeepsInv(s: System, t: Tx, frontier: Option<Frontier>, fault: Fault, g: Geometry)
    requires Staged(s, t, g) && MayPublish(s.log + [t], frontier, s.disk.vlog.synced)
    requires fault.NotApplied? ==> fault.stop != Healthy
    ensures Inv(CommitIndex(s, t, frontier, fault), g)
  {
    var base := if s.session.value.writer.pending then WriterFailed(s) else s;
    match fault
    case NotApplied(stop) =>
      StoppedKeepsInv(s, t, stop, g);
      assert CommitIndex(s, t, frontier, fault) == Stopped(base, stop);
    case Unknown(applied) =>
      UnknownKeepsInv(s, t, frontier, applied, g);
      assert CommitIndex(s, t, frontier, fault)
          == LeftUnknown(base, CommitBatchWithFrontier(t.desc, frontier), s.log + [t], applied);
    case _ =>
      PublishedKeepsInv(s, t, frontier, g);
      assert CommitIndex(s, t, frontier, fault) == Published(s, t, frontier);
  }

  lemma {:induction false} SyncAndCommitKeepsInv(s: System, t: Tx, sync: bool, fault: Fault, g: Geometry)
    requires Staged(s, t, g) && (fault.NotApplied? ==> fault.stop != Healthy)
    ensures Inv(SyncAndCommit(s, t, sync, fault), g)
  {
    var x := s.session.value;
    TargetIsFrontier(s, t, g);
    var frontier := if sync then Some(FrontierAt(s.log + [t])) else None;
    if sync && TargetVLogSeq(x, t) > x.frontier.vlogSeq {
      if fault.SyncFault? {
        StoppedKeepsInv(s, t, Poisoned, g);
      } else {
        SyncStages(s, t, g);
        CommitIndexKeepsInv(AfterSync(s), t, frontier, fault, g);
      }
    } else {
      if sync { NoSyncNeeded(s, t, g); }
      CommitIndexKeepsInv(s, t, frontier, fault, g);
    }
  }

  /** What a failed append leaves behind is never mistaken for a published envelope. */
  lemma {:induction false} DamageKeepsDown(past: seq<Log>, log: Log, t: Tx, d: Disk, damage: VLog, safe: nat, g: Geometry)
    requires Live(past, log, d, safe, g) && TxOk(log, t) && HasEnvelope(t) && Damaged(d.vlog, damage, t, g)
    requires Fresh(t.desc.meta.uuid, past)
    ensures DownInv(past, log, d.(vlog := damage), safe, g)
  {
    if damage.envs != d.vlog.envs {
      var whole :| damage.envs == d.vlog.envs + [EnvelopeOf(t).(intact := whole)];
      var torn := EnvelopeOf(t).(intact := whole);
      WellFormedStep(log, t);
      EnvelopesAreChained(log + [t]);
      ChainIgnoresIntact(d.vlog.envs, EnvelopeOf(t), torn);
      GrownKeepsDown(past, log, d, damage, torn, safe, g);
    } else {
      FilesKeepDown(past, log, d, damage, safe, g);
    }
  }

  lemma {:induction false} FilesKeepDown(past: seq<Log>, log: Log, d: Disk, damage: VLog, safe: nat, g: Geometry)
    requires DownInv(past, log, d, safe, g) && damage == d.vlog.(files := damage.files)
    requires FilesSound(damage.envs, damage.files, g)
    ensures DownInv(past, log, d.(vlog := damage), safe, g)
  {
    forall i | 0 <= i < |d.vlog.envs| ensures Decays(d.vlog.envs[i], d.vlog.envs[i], i < d.vlog.synced) {
    }
    WeatheredDown(past, log, d, d.(vlog := damage), d.vlog.synced, safe, g);
  }

  lemma {:induction false} ChainIgnoresIntact(envs: seq<Envelope>, a: Envelope, b: Envelope)
    requires Chained(envs + [a]) && b == a.(intact := b.intact)
    ensures Chained(envs + [b])
  {
    forall i | 0 <= i < |envs + [b]| ensures ChainLink(envs + [b], i) {
      assert ChainLink(envs + [a], i);
    }
  }

  lemma {:induction false} PreparationKeepsInv(s: System, stop: Health, g: Geometry)
    requires Inv(s, g) && s.session.Some? && s.session.value.health == Healthy
    ensures Inv(Stopped(s, stop), g)
  {
  }

  /** Every commit, whatever fails in it, keeps the invariant. */
  lemma {:induction false} CommitKeepsInv(s: System, t: Tx, sync: bool, fault: Fault, g: Geometry)
    requires Inv(s, g) && s.session.Some? && TxOk(s.log, t) && (HasEnvelope(t) ==> Fits(t.desc.meta.end, g))
    requires Fresh(t.desc.meta.uuid, s.past)
    requires FaultFits(fault, s.disk.vlog, t, g)
    ensures Inv(CommitResult(s, t, sync, fault, g), g)
  {
    if s.session.value.health == Healthy {
      match fault
      case PreparationFault(stop) => PreparationKeepsInv(s, stop, g);
      case AppendFault(None, stop) => PreparationKeepsInv(s, stop, g);
      case AppendFault(Some(damage), stop) => DamageKeepsDown(s.past, s.log, t, s.disk, damage, s.safe, g);
      case _ =>
        AppendStages(s, t, g);
        SyncAndCommitKeepsInv(AfterAppend(s, t, g), t, sync, fault, g);
    }
  }

  // ---------------------------------------------------------------- barriers

  ghost predicate BarrierReady(s: System, g: Geometry) {
    && s.session.Some?
    && var x := s.session.value;
       && Live(s.past, s.log, s.disk, s.safe, g) && |EnvelopesOf(s.log)| <= s.disk.vlog.synced
       && x.health == Healthy && !x.unknown && MemoryFits(x, s.log)
       && x.head == |s.log| && x.frontier == Current(s.disk).frontier
       && WriterFits(x.writer.(pending := false), FrontierAt(s.log))
  }

  lemma {:induction false} BarrierCommitKeepsInv(s: System, fault: Fault, g: Geometry)
    requires BarrierReady(s, g) && (fault.NotApplied? ==> fault.stop != Healthy)
    ensures Inv(BarrierCommit(s, fault), g)
  {
    assert s.log[..|s.log|] == s.log;
    assert BarrierFrontier(s.session.value) == FrontierAt(s.log);
    var base := if s.session.value.writer.pending then WriterFailed(s) else s;
    match fault
    case NotApplied(stop) => BarrierStoppedKeepsInv(s, stop, g);
    case Unknown(applied) =>
      BarrierUnknownKeepsInv(s, applied, g);
      assert BarrierCommit(s, fault) == LeftUnknown(base, [PutFrontier(FrontierAt(s.log))], s.log, applied);
    case _ => BarrierDoneKeepsInv(s, fault, g);
  }

  lemma {:induction false} BarrierStoppedKeepsInv(s: System, stop: Health, g: Geometry)
    requires BarrierReady(s, g) && stop != Healthy
    ensures Inv(BarrierCommit(s, NotApplied(stop)), g)
  {
  }

  lemma {:induction false} BarrierUnknownKeepsInv(s: System, applied: bool, g: Geometry)
    requires BarrierReady(s, g)
    ensures Inv(LeftUnknown(s, [PutFrontier(FrontierAt(s.log))], s.log, applied), g)
    ensures Inv(LeftUnknown(WriterFailed(s), [PutFrontier(FrontierAt(s.log))], s.log, applied), g)
  {
    BarrierKeepsLive(s.past, s.log, s.disk, s.safe, g);
  }

  lemma {:induction false} BarrierDoneKeepsInv(s: System, fault: Fault, g: Geometry)
    requires BarrierReady(s, g) && !fault.NotApplied? && !fault.Unknown?
    requires BarrierFrontier(s.session.value) == FrontierAt(s.log)
    ensures Inv(BarrierCommit(s, fault), g)
  {
    assert s.log[..|s.log|] == s.log;
    BarrierKeepsLive(s.past, s.log, s.disk, s.safe, g);
    BarrierStateOk(Current(s.disk), s.log, s.disk.vlog, s.safe);
  }

  lemma {:induction false} BarrierKeepsInv(s: System, fault: Fault, g: Geometry)
    requires Inv(s, g) && s.session.Some? && (fault.NotApplied? ==> fault.stop != Healthy)
    ensures Inv(BarrierResult(s, fault), g)
  {
    var x := s.session.value;
    if x.health == Healthy && x.head != x.frontier.seqNo {
      assert s.log[..|s.log|] == s.log;
      if x.vlogSeq > x.frontier.vlogSeq {
        if !fault.SyncFault? {
          SyncKeepsDown(s.past, s.log, s.disk, s.safe, g);
          BarrierCommitKeepsInv(AfterSync(s), fault, g);
        }
      } else {
        FrontiersGrow(s.log, x.frontier.seqNo, |s.log|);
        SameSequenceSameEnvelopes(s.log, x.frontier.seqNo);
            BarrierCommitKeepsInv(s, fault, g);
      }
    }
  }

  // ---------------------------------------------------------------- the frontier invariant

  /**
   * In every state of a session: the order of the four sequence numbers, a log sequence of zero
   * exactly where there is no end, memory equal to the index until an outcome is unknown, and every
   * byte that any committed frontier covers synced and readable.
   */
  lemma {:induction false} FrontierInvariant(s: System, g: Geometry, i: nat)
    requires Inv(s, g) && s.session.Some? && i < |s.disk.states|
    ensures var x := s.session.value;
            && x.frontier.seqNo <= x.head && x.frontier.vlogSeq <= x.vlogSeq <= x.head
            && (x.vlogSeq == 0 <==> x.vlogEnd.Empty?) && (x.frontier.vlogSeq == 0 <==> x.frontier.end.Empty?)
            && (!x.unknown ==> x.head == Current(s.disk).head && x.frontier == Current(s.disk).frontier)
    ensures var f, own := s.disk.states[i].frontier, LogOf(s.past, s.log, i);
            && f.seqNo <= |own| && f == FrontierAt(own[..f.seqNo])
            && CountThrough(s.disk.vlog.envs, f.end) <= s.disk.vlog.synced
            && IntactThrough(s.disk.vlog.envs, CountThrough(s.disk.vlog.envs, f.end))
  {
    FrontiersGrow(s.log, s.session.value.frontier.seqNo, s.session.value.head);
    if i < |s.past| { assert Older(s.past, s.log, s.disk, s.safe, i); }
    StateFrontierIsSynced(s.disk.states[i], LogOf(s.past, s.log, i), s.disk.vlog, s.safe, g);
  }

  lemma {:induction false} StateFrontierIsSynced(ix: Index, log: Log, vlog: VLog, safe: nat, g: Geometry)
    requires StateOk(ix, log, vlog, safe) && VLogSound(vlog, g)
    ensures CountThrough(vlog.envs, ix.frontier.end) <= vlog.synced
    ensures IntactThrough(vlog.envs, CountThrough(vlog.envs, ix.frontier.end))
  {
    var n := ix.frontier.seqNo;
    HoldsShorter(log, vlog.envs, Extent(ix), n);
    HeldIsIntact(log, vlog.envs, n);
    IntactPrefixIsStable(log, vlog, n, g);
    CountThroughPrefix(vlog.envs, |EnvelopesOf(log[..n])|);
  }
}
