/**
 * The commit coordinator (src/commit/coordinator.rs) over its writer and index, in the source's own
 * form: fields changed stage by stage, each stage possibly the last.
 */
module Coordinator {
  import opened Basics
  import opened Index
  import opened CommitProtocol
  import opened Topology
  import opened History
  import opened Recovery
  import opened RecoveryInvariant
  import opened RecoverySteps
  import opened Running
  import opened StoreSystem
  import opened StoreSteps
  import opened CrashConsistency

  /** What prepare_envelope reports: the record pointers, the end of the envelope and its CRC. */
  datatype EnvelopeLayout = EnvelopeLayout(pointers: Pointers, end: Pos, crc: nat)

  predicate LayoutFits(ops: seq<Operation>, begin: Pos, layout: EnvelopeLayout, g: Geometry) {
    && PosLess(begin, layout.end) && PosValid(begin) && PosValid(layout.end) && layout.end.offset > 0
    && Fits(layout.end, g) && RecordsInside(ops, layout.pointers, begin, layout.end)
  }

  /** The transaction that a write becomes: determined by the write, the head, the index and the layout. */
  function TxFor(
    ops: seq<Operation>, head: nat, position: Pos, user: map<Bytes, ValuePointer>, uuid: Bytes,
    layout: Option<EnvelopeLayout>): Tx
  {
    var enveloped := KindOf(ops) == VLogEnvelope && layout.Some? && |layout.value.pointers| == |ops|;
    var pointers := if enveloped then layout.value.pointers else NoPointers(|ops|);
    var meta := TxMeta(
      KindOf(ops), head + 1, uuid, head, if enveloped then position else Pos(0, 0),
      if enveloped then layout.value.end else Pos(0, 0), |ops|, |DistinctKeys(ops)|,
      if enveloped then layout.value.crc else 0);
    Tx(ops, pointers, Descriptor(meta, PlannedMutations(user, ops, pointers)))
  }

  /** When a validated write can be prepared at all. */
  predicate Preparable(ops: seq<Operation>, head: nat, uuid: Bytes, layout: Option<EnvelopeLayout>) {
    head < U64_MAX && UuidValid(uuid) && (KindOf(ops) == VLogEnvelope ==> layout.Some?)
  }

  /** prepare_commit: before-states, identity, layout, key plans, descriptor, index batch. */
  method PrepareCommit(
    write: ValidatedWrite, head: nat, position: Pos, user: map<Bytes, ValuePointer>, uuid: Bytes,
    layout: Option<EnvelopeLayout>, g: Geometry)
    returns (r: Result<(Descriptor, Pointers, Batch)>)
    requires OrdinalsFit(write)
    requires KindOf(write.operations) == VLogEnvelope && layout.Some? ==>
               LayoutFits(write.operations, position, layout.value, g)
    ensures r.Ok? <==> Preparable(write.operations, head, uuid, layout)
    ensures r.Err? && head == U64_MAX ==> r.error == CapacityExceeded
    ensures r.Ok? ==>
              var t := TxFor(write.operations, head, position, user, uuid, layout);
              r.value == (t.desc, t.pointers, CommitBatch(t.desc))
  {
    if head >= U64_MAX {
      return Err(CapacityExceeded);
    }
    var before: seq<ValueState> := [];
    for i := 0 to |write.distinctKeys|
      invariant |before| == i
      invariant forall j :: 0 <= j < i ==> before[j] == Lookup(user, write.distinctKeys[j])
    {
      before := before + [Lookup(user, write.distinctKeys[i])];
    }
    if !UuidValid(uuid) {
      return Err(InvalidArgument);
    }
    var kind := KindOf(write.operations);
    if kind == VLogEnvelope && layout.None? {
      return Err(CapacityExceeded);
    }
    var pointers := if kind == VLogEnvelope then Some(layout.value.pointers) else None;
    assert PointersFit(write.operations, PointersOrNone(write, pointers));
    var plans := BuildKeyPlans(write, before, kind, pointers, user);
    var mutations := plans.value;
    var (begin, end, crc) :=
      if kind == VLogEnvelope then (position, layout.value.end, layout.value.crc) else (Pos(0, 0), Pos(0, 0), 0);
    var meta := TxMeta(kind, head + 1, uuid, head, begin, end, |write.operations|, |mutations|, crc);
    var batch := BuildIndexBatch(Descriptor(meta, mutations));
    return Ok((Descriptor(meta, mutations), PointersOrNone(write, pointers), batch));
  }

  /** What is prepared on top of a history extends it. */
  lemma {:induction false} PreparedExtendsHistory(
    log: Log, ops: seq<Operation>, position: Pos, uuid: Bytes, layout: Option<EnvelopeLayout>, g: Geometry)
    requires Sized(log) && ops != [] && Preparable(ops, |log|, uuid, layout)
    requires KindOf(ops) == VLogEnvelope ==> LayoutFits(ops, position, layout.value, g)
    requires position == AppendPosition(FrontierAt(log).end)
    ensures var t := TxFor(ops, |log|, position, UserAfter(log), uuid, layout);
            && TxOk(log, t) && t.ops == ops && (HasEnvelope(t) ==> Fits(t.desc.meta.end, g))
            && t.desc.meta.uuid == uuid
            && (KindOf(ops) == VLogEnvelope ==>
                  && t.pointers == layout.value.pointers && t.desc.meta.begin == position
                  && t.desc.meta.end == layout.value.end && t.desc.meta.envelopeCrc == layout.value.crc)
  {
  }

  // ---------------------------------------------------------------- the writer's own guards

  /** ValueLogWriter::append takes an envelope only in sequence order and at its own position. */
  predicate AppendAccepted(w: Writer, seqNo: nat, begin: Pos) {
    && !w.failed && !w.pending && begin == w.position
    && (w.lastAppended.Some? ==> w.lastAppended.value.0 < seqNo)
  }

  /** ValueLogWriter::sync_through takes only the end it stands at and the envelope it appended last. */
  predicate SyncAccepted(w: Writer, seqNo: nat, end: VLogEnd) {
    && !w.failed && !w.pending && seqNo != 0 && end.At? && w.position == end.pos
    && (w.lastAppended.Some? ==> w.lastAppended.value == (seqNo, end.pos))
  }

  /** In a healthy session the writer accepts the next envelope. */
  lemma {:induction false} AppendIsAccepted(s: System, t: Tx, g: Geometry)
    requires Inv(s, g) && s.session.Some? && s.session.value.health == Healthy && TxOk(s.log, t) && HasEnvelope(t)
    ensures AppendAccepted(s.session.value.writer, t.desc.meta.seqNo, t.desc.meta.begin)
  {
  }

  /** Once staged, the writer accepts the sync that a frontier needs. */
  lemma {:induction false} SyncIsAccepted(s: System, t: Tx, g: Geometry)
    requires Staged(s, t, g) && !s.session.value.writer.pending
    requires TargetVLogSeq(s.session.value, t) > s.session.value.frontier.vlogSeq
    ensures SyncAccepted(s.session.value.writer, TargetVLogSeq(s.session.value, t), TargetVLogEnd(s.session.value, t))
  {
    TargetIsFrontier(s, t, g);
  }

  lemma {:induction false} BarrierSyncIsAccepted(s: System, g: Geometry)
    requires Inv(s, g) && s.session.Some? && s.session.value.health == Healthy
    requires s.session.value.vlogSeq > s.session.value.frontier.vlogSeq
    ensures SyncAccepted(s.session.value.writer, s.session.value.vlogSeq, s.session.value.vlogEnd)
  {
    assert s.log[..|s.log|] == s.log;
  }

  /** What a committed empty sync batch has left on disk. */
  lemma {:induction false} BarrierAnswerHolds(s: System, fault: Fault, g: Geometry)
    requires Inv(s, g) && s.session.Some? && s.session.value.health == Healthy && Inv(BarrierResult(s, fault), g)
    requires BarrierOutcome(s.session.value, fault) == Committed && s.session.value.head != s.session.value.frontier.seqNo
    ensures var s' := BarrierResult(s, fault);
            && s'.session.Some? && s'.safe == |s'.log| && |s'.disk.states| == 1
            && s'.session.value.frontier == FrontierAt(s'.log) == s'.disk.states[0].frontier
            && |EnvelopesOf(s'.log)| <= s'.disk.vlog.synced
  {
    var s' := BarrierResult(s, fault);
    SlowBarrierLeavesOne(s, fault, g);
    SafeIsDurable(s', g);
    assert StateHolds(s'.disk.states[0], s'.log, s'.disk.vlog);
    assert s'.log[..|s'.log|] == s'.log;
  }

  // ---------------------------------------------------------------- the coordinator

  class CommitCoordinator {
    var head: nat
    var frontier: Frontier
    var vlogSeq: nat
    var vlogEnd: VLogEnd
    var writer: Writer
    var health: Health
    var states: seq<Index>
    var vlog: VLog
    const geometry: Geometry
    ghost var unknown: bool
    ghost var past: seq<Log>
    ghost var log: Log
    ghost var safe: nat
    ghost var told: nat

    ghost function View(): System
      reads this
    {
      System(Disk(states, vlog), Some(Session(head, frontier, vlogSeq, vlogEnd, writer, health, unknown)), past, log, safe, told)
    }

    ghost predicate Valid()
      reads this
    {
      Inv(View(), geometry)
    }

    /** Open's last act: a coordinator over a recovered disk. */
    constructor (disk: Disk, g: Geometry, ghost past: seq<Log>, ghost log: Log, ghost safe: nat, ghost told: nat)
      requires DownInv(past, log, disk, safe, g) && Recovered(disk, g)
      ensures Valid() && geometry == g && health == Healthy
      ensures View() == System(disk, Some(OpenedSession(disk)), past, log, safe, told)
    {
      HandOffIsAccepted(System(disk, None, past, log, safe, told), g);
      var ix := disk.states[|disk.states| - 1];
      head, frontier, vlogSeq, vlogEnd := ix.head, ix.frontier, ix.frontier.vlogSeq, ix.frontier.end;
      writer := Writer(AppendPosition(ix.frontier.end), None, false, false);
      health, unknown := Healthy, false;
      states, vlog, geometry := disk.states, disk.vlog, g;
      this.past, this.log, this.safe, this.told := past, log, safe, told;
    }

    /** The transaction that this write becomes now. */
    ghost function Planned(ops: seq<Operation>, uuid: Bytes, layout: Option<EnvelopeLayout>): Tx
      requires states != []
      reads this
    {
      TxFor(ops, head, writer.position, states[|states| - 1].user, uuid, layout)
    }

    /** commit_started. */
    method CommitStarted(write: ValidatedWrite, sync: bool, uuid: Bytes, layout: Option<EnvelopeLayout>, fault: Fault)
      returns (outcome: WriteOutcome)
      requires Valid() && OrdinalsFit(write) && write.operations != []
      requires KindOf(write.operations) == VLogEnvelope && layout.Some? ==>
                 LayoutFits(write.operations, writer.position, layout.value, geometry)
      requires FaultFits(fault, vlog, Planned(write.operations, uuid, layout), geometry) && Fresh(uuid, past)
      modifies this
      ensures Valid()
      ensures var t := old(Planned(write.operations, uuid, layout));
              if old(health) == Healthy && !fault.PreparationFault? && !Preparable(write.operations, old(head), uuid, layout)
              then outcome == NotCommitted && View() == old(View())
              else
                && outcome == CommitOutcome(old(View()).session.value, t, sync, fault)
                && View() == CommitResult(old(View()), t, sync, fault, geometry)
    {
      if health != Healthy {
        return Refused;
      }
      ghost var s0 := View();
      if fault.PreparationFault? {
        health := fault.stop;
        PreparationKeepsInv(s0, fault.stop, geometry);
        return NotCommitted;
      }
      var prepared := PrepareCommit(write, head, writer.position, states[|states| - 1].user, uuid, layout, geometry);
      if prepared.Err? {
        return NotCommitted;
      }
      var (desc, pointers, batch) := prepared.value;
      ghost var t := Tx(write.operations, pointers, desc);
      PreparedFits(s0, write.operations, uuid, layout);
      CommitKeepsInv(s0, t, sync, fault, geometry);
      AppendStages(s0, t, geometry);
      if HasEnvelope(t) { AppendIsAccepted(s0, t, geometry); }
      outcome := AppendStage(desc, pointers, batch, sync, fault, write.operations);
    }

    lemma {:induction false} PreparedFits(s: System, ops: seq<Operation>, uuid: Bytes, layout: Option<EnvelopeLayout>)
      requires Inv(s, geometry) && s.session.Some? && s.session.value.health == Healthy
      requires ops != [] && Preparable(ops, s.session.value.head, uuid, layout)
      requires KindOf(ops) == VLogEnvelope ==> LayoutFits(ops, s.session.value.writer.position, layout.value, geometry)
      ensures var x := s.session.value;
              var t := TxFor(ops, x.head, x.writer.position, Current(s.disk).user, uuid, layout);
              TxOk(s.log, t) && t.ops == ops && (HasEnvelope(t) ==> Fits(t.desc.meta.end, geometry))
    {
      assert s.log[..|s.log|] == s.log;
      PreparedExtendsHistory(s.log, ops, s.session.value.writer.position, uuid, layout, geometry);
    }

    /** Appends the envelope, if there is one, and goes on. */
    method AppendStage(
      desc: Descriptor, pointers: Pointers, batch: Batch, sync: bool, fault: Fault, operations: seq<Operation>)
      returns (outcome: WriteOutcome)
      requires states != [] && health == Healthy && !fault.PreparationFault? && batch == CommitBatch(desc)
      requires desc.meta.kind == VLogEnvelope ==> AppendAccepted(writer, desc.meta.seqNo, desc.meta.begin)
      requires desc.meta.kind == IndexOnlyDelete ==> !fault.AppendFault? && !writer.pending
      requires var t := Tx(operations, pointers, desc); Staged(AfterAppend(View(), t, geometry), t, geometry)
      modifies this
      ensures var t := Tx(operations, pointers, desc);
              && outcome == CommitOutcome(old(View()).session.value, t, sync, fault)
              && View() == CommitResult(old(View()), t, sync, fault, geometry)
    {
      ghost var s0, t := View(), Tx(operations, pointers, desc);
      if desc.meta.kind == VLogEnvelope {
        if fault.AppendFault? {
          if fault.damage.Some? {
            vlog := fault.damage.value;
            writer := writer.(pending := false, failed := true);
          }
          health := fault.stop;
          return NotCommitted;
        }
        var m := desc.meta;
        var envelope := Envelope(m.begin, m.end, m.seqNo, m.uuid, m.envelopeCrc, operations, pointers, true);
        vlog := VLog(vlog.envs + [envelope], vlog.synced, Filled(At(m.end), geometry));
        writer := writer.(position := m.end, lastAppended := Some((m.seqNo, m.end)));
      }
      assert View() == AfterAppend(s0, t, geometry);
      outcome := SyncStage(desc, pointers, batch, sync, fault, operations);
    }

    /** Syncs the Value Log if a frontier is to be published that it does not cover yet. */
    method SyncStage(
      desc: Descriptor, ghost pointers: Pointers, batch: Batch, sync: bool, fault: Fault, ghost operations: seq<Operation>)
      returns (outcome: WriteOutcome)
      requires Staged(View(), Tx(operations, pointers, desc), geometry) && !writer.pending
      requires batch == CommitBatch(desc) && !fault.PreparationFault? && !fault.AppendFault?
      modifies this
      ensures var t := Tx(operations, pointers, desc);
              && outcome == CommitOutcome(old(View()).session.value, t, sync, fault)
              && View() == SyncAndCommit(old(View()), t, sync, fault)
    {
      ghost var s1, t := View(), Tx(operations, pointers, desc);
      var enveloped := desc.meta.kind == VLogEnvelope;
      var targetSeq := if enveloped then desc.meta.seqNo else vlogSeq;
      var targetEnd := if enveloped then At(desc.meta.end) else vlogEnd;
      var published := None;
      if sync {
        published := Some(Frontier(desc.meta.seqNo, targetSeq, targetEnd));
      }
      if sync && targetSeq > frontier.vlogSeq {
        SyncIsAccepted(s1, t, geometry);
        if fault.SyncFault? {
          writer := writer.(pending := false, failed := true);
          health := Poisoned;
          return NotCommitted;
        }
        vlog := vlog.(synced := |vlog.envs|);
        writer := writer.(pending := true);
        assert View() == AfterSync(s1);
      }
      outcome := IndexStage(desc, pointers, batch, published, targetSeq, targetEnd, fault, operations);
    }

    /** The one atomic index batch and the publication of its result. */
    method IndexStage(
      desc: Descriptor, ghost pointers: Pointers, batch: Batch, published: Option<Frontier>,
      targetSeq: nat, targetEnd: VLogEnd, fault: Fault, ghost operations: seq<Operation>)
      returns (outcome: WriteOutcome)
      requires states != [] && batch == CommitBatch(desc) && health == Healthy
      requires targetSeq == TargetVLogSeq(View().session.value, Tx(operations, pointers, desc))
      requires targetEnd == TargetVLogEnd(View().session.value, Tx(operations, pointers, desc))
      modifies this
      ensures View() == CommitIndex(old(View()), Tx(operations, pointers, desc), published, fault)
      ensures outcome == match fault case NotApplied(_) => NotCommitted case Unknown(_) => CommitUnknown case _ => Committed
    {
      ghost var t := Tx(operations, pointers, desc);
      var whole := if published.Some? then batch + [PutFrontier(published.value)] else batch;
      var current := states[|states| - 1];
      match fault {
        case NotApplied(stop) =>
          if writer.pending { writer := writer.(pending := false, failed := true); }
          health := stop;
          return NotCommitted;
        case Unknown(applied) =>
          if writer.pending { writer := writer.(pending := false, failed := true); }
          if applied {
            states := states + [Apply(current, whole)];
            past, log := past + [log], log + [t];
          }
          health, unknown := Poisoned, true;
          return CommitUnknown;
        case _ =>
          CommitAndPublish(desc, pointers, whole, published, targetSeq, targetEnd, operations);
          return Committed;
      }
    }

    method CommitAndPublish(
      desc: Descriptor, ghost pointers: Pointers, batch: Batch, published: Option<Frontier>,
      targetSeq: nat, targetEnd: VLogEnd, ghost operations: seq<Operation>)
      requires states != [] && batch == CommitBatchWithFrontier(desc, published)
      requires targetSeq == TargetVLogSeq(View().session.value, Tx(operations, pointers, desc))
      requires targetEnd == TargetVLogEnd(View().session.value, Tx(operations, pointers, desc))
      modifies this
      ensures View() == Published(old(View()), Tx(operations, pointers, desc), published)
    {
      var after := Apply(states[|states| - 1], batch);
      PublishSuccess(desc, published, targetSeq, targetEnd);
      states := if published.Some? then [after] else states + [after];
      past := if published.Some? then [] else past + [log];
      log := log + [Tx(operations, pointers, desc)];
    }

    /** publish_nonempty_success. */
    method PublishSuccess(desc: Descriptor, published: Option<Frontier>, targetSeq: nat, targetEnd: VLogEnd)
      modifies this`head, this`vlogSeq, this`vlogEnd, this`frontier, this`safe, this`told, this`writer
      ensures writer == old(writer).(pending := false) && head == desc.meta.seqNo
      ensures vlogSeq == if desc.meta.kind == VLogEnvelope then targetSeq else old(vlogSeq)
      ensures vlogEnd == if desc.meta.kind == VLogEnvelope then targetEnd else old(vlogEnd)
      ensures frontier == if published.Some? then published.value else old(frontier)
      ensures safe == if published.Some? then head else old(safe)
      ensures told == if published.Some? then head else old(told)
    {
      writer := writer.(pending := false);
      head := desc.meta.seqNo;
      if desc.meta.kind == VLogEnvelope {
        vlogSeq, vlogEnd := targetSeq, targetEnd;
      }
      if published.Some? {
        frontier := published.value;
        safe, told := head, head;
      }
    }

    /**
     * commit_empty_barrier. Committed acknowledges the whole history; unless the frontier was at the
     * head already, all of it is on disk by then: every byte synced, the one index state at the head.
     */
    method CommitEmptyBarrier(fault: Fault) returns (outcome: WriteOutcome)
      requires Valid() && (fault.NotApplied? ==> fault.stop != Healthy)
      modifies this
      ensures Valid()
      ensures outcome == Committed ==> told == head == |log|
      ensures outcome == Committed && old(head) != old(frontier).seqNo ==>
                && safe == |log| && frontier == FrontierAt(log) && |states| == 1 && states[0].frontier == frontier
                && |EnvelopesOf(log)| <= vlog.synced
      ensures outcome == BarrierOutcome(old(View()).session.value, fault)
      ensures View() == BarrierResult(old(View()), fault)
    {
      if health != Healthy {
        return Refused;
      }
      ghost var s := View();
      BarrierKeepsInv(s, fault, geometry);
      BarrierEffect(s, fault);
      if BarrierOutcome(s.session.value, fault) == Committed && head != frontier.seqNo {
        BarrierAnswerHolds(s, fault, geometry);
      }
      if vlogSeq > frontier.vlogSeq {
        BarrierSyncIsAccepted(s, geometry);
      }
      outcome := RunBarrier(fault);
    }

    method RunBarrier(fault: Fault) returns (outcome: WriteOutcome)
      requires states != [] && health == Healthy
      requires vlogSeq > frontier.vlogSeq ==> SyncAccepted(writer, vlogSeq, vlogEnd)
      modifies this
      ensures outcome == BarrierOutcome(old(View()).session.value, fault)
      ensures View() == BarrierResult(old(View()), fault)
    {
      if head == frontier.seqNo {
        told := head;
        return Committed;
      }
      var target := Frontier(head, vlogSeq, vlogEnd);
      if vlogSeq > frontier.vlogSeq {
        if fault.SyncFault? {
          writer := writer.(pending := false, failed := true);
          health := Poisoned;
          return NotCommitted;
        }
        vlog := vlog.(synced := |vlog.envs|);
        writer := writer.(pending := true);
      }
      outcome := CommitFrontier(target, fault);
    }

    /** The frontier-only index commit and publish_empty_barrier_success. */
    method CommitFrontier(target: Frontier, fault: Fault) returns (outcome: WriteOutcome)
      requires states != [] && target == BarrierFrontier(View().session.value)
      modifies this
      ensures View() == BarrierCommit(old(View()), fault)
      ensures outcome == match fault case NotApplied(_) => NotCommitted case Unknown(_) => CommitUnknown case _ => Committed
    {
      var after := Apply(states[|states| - 1], [PutFrontier(target)]);
      match fault {
        case NotApplied(stop) =>
          if writer.pending { writer := writer.(pending := false, failed := true); }
          health := stop;
          return NotCommitted;
        case Unknown(applied) =>
          if writer.pending { writer := writer.(pending := false, failed := true); }
          if applied { states, past := states + [after], past + [log]; }
          health, unknown := Poisoned, true;
          return CommitUnknown;
        case _ =>
          states, past := [after], [];
          frontier := target;
          writer := writer.(pending := false);
          safe, told := head, head;
          return Committed;
      }
    }
  }
}
