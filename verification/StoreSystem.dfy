/**
 * The store as one state machine: a running session over the disk, every commit with every way it
 * can fail (src/commit/coordinator.rs), barriers, descriptor cleanup, stops, recovery and Open.
 *
 * `log` is the history the index shows, `past` the histories of the older index states that a crash
 * may bring back, `safe` the prefix that a completed SyncAll commit covers, `told` the sequence that
 * the last durability acknowledgement covered. None of the four is read by the store.
 */
module StoreSystem {
  import opened Basics
  import opened Index
  import opened CommitProtocol
  import opened Topology
  import opened History
  import opened Recovery
  import opened RecoveryInvariant
  import opened RecoverySteps
  import opened RestartableRecovery
  import opened Running

  /** The Value Log writer: where it appends next, what it appended last, and its sync handshake. */
  datatype Writer = Writer(position: Pos, lastAppended: Option<(nat, Pos)>, failed: bool, pending: bool)

  /** `unknown` records that some commit of this session ended with an unknown outcome. */
  datatype Session = Session(
    head: nat, frontier: Frontier, vlogSeq: nat, vlogEnd: VLogEnd, writer: Writer, health: Health, unknown: bool)

  datatype System = System(
    disk: Disk, session: Option<Session>, past: seq<Log>, log: Log, safe: nat, told: nat)

  /** What can go wrong in a commit, in the order of its stages. */
  datatype Fault =
    | NoFault
    | PreparationFault(stop: Health)
    | AppendFault(damage: Option<VLog>, stop: Health)
    | SyncFault
    | NotApplied(stop: Health)
    | Unknown(applied: bool)

  /** A failed append may leave part of the envelope, or all of it, unpublished. */
  predicate Damaged(vlog: VLog, vlog': VLog, t: Tx, g: Geometry) {
    && vlog'.synced == vlog.synced
    && (vlog'.envs == vlog.envs || exists whole :: vlog'.envs == vlog.envs + [EnvelopeOf(t).(intact := whole)])
    && FilesSound(vlog'.envs, vlog'.files, g)
  }

  /** Only an append that left no byte behind leaves the instance writable; see classify_vlog_append_failure. */
  predicate FaultFits(fault: Fault, vlog: VLog, t: Tx, g: Geometry) {
    match fault
    case AppendFault(Some(damage), stop) => HasEnvelope(t) && stop != Healthy && Damaged(vlog, damage, t, g)
    case AppendFault(None, _) => HasEnvelope(t)
    case NotApplied(stop) => stop != Healthy
    case _ => true
  }

  // ---------------------------------------------------------------- one commit, stage by stage

  function Stopped(s: System, health: Health): System
    requires s.session.Some?
  {
    s.(session := Some(s.session.value.(health := health)))
  }

  function TargetVLogSeq(x: Session, t: Tx): nat {
    if HasEnvelope(t) then t.desc.meta.seqNo else x.vlogSeq
  }

  function TargetVLogEnd(x: Session, t: Tx): VLogEnd {
    if HasEnvelope(t) then At(t.desc.meta.end) else x.vlogEnd
  }

  function AfterAppend(s: System, t: Tx, g: Geometry): System
    requires s.session.Some?
  {
    var x := s.session.value;
    if !HasEnvelope(t) then s
    else
      var end := t.desc.meta.end;
      s.(disk := s.disk.(vlog := AppendEnvelope(s.disk.vlog, t, g)),
         session := Some(x.(writer := x.writer.(position := end, lastAppended := Some((t.desc.meta.seqNo, end))))))
  }

  function AfterSync(s: System): System
    requires s.session.Some?
  {
    var x := s.session.value;
    s.(disk := s.disk.(vlog := SyncedAll(s.disk.vlog)), session := Some(x.(writer := x.writer.(pending := true))))
  }

  /** A sync that failed, or a frontier commit that did: the writer takes no further call. */
  function WriterFailed(s: System): System
    requires s.session.Some?
  {
    var x := s.session.value;
    s.(session := Some(x.(writer := x.writer.(pending := false, failed := true))))
  }

  function Published(s: System, t: Tx, frontier: Option<Frontier>): System
    requires s.session.Some? && s.disk.states != []
  {
    var x := s.session.value;
    var batch := CommitBatchWithFrontier(t.desc, frontier);
    var n := t.desc.meta.seqNo;
    System(
      if frontier.Some? then SyncCommit(s.disk, batch) else BufferCommit(s.disk, batch),
      Some(x.(head := n, vlogSeq := TargetVLogSeq(x, t), vlogEnd := TargetVLogEnd(x, t),
              frontier := if frontier.Some? then frontier.value else x.frontier,
              writer := x.writer.(pending := false))),
      if frontier.Some? then [] else s.past + [s.log],
      s.log + [t],
      if frontier.Some? then n else s.safe,
      if frontier.Some? then n else s.told)
  }

  /** An index commit that may or may not have been applied; if it was, it is not yet durable. */
  function LeftUnknown(s: System, batch: Batch, log: Log, applied: bool): System
    requires s.session.Some? && s.disk.states != []
  {
    var x := s.session.value;
    s.(disk := if applied then BufferCommit(s.disk, batch) else s.disk,
       session := Some(x.(health := Poisoned, unknown := true)),
       past := if applied then s.past + [s.log] else s.past, log := if applied then log else s.log)
  }

  function CommitIndex(s: System, t: Tx, frontier: Option<Frontier>, fault: Fault): System
    requires s.session.Some? && s.disk.states != []
  {
    match fault
    case NotApplied(stop) =>
      Stopped(if s.session.value.writer.pending then WriterFailed(s) else s, stop)
    case Unknown(applied) =>
      LeftUnknown(if s.session.value.writer.pending then WriterFailed(s) else s,
                  CommitBatchWithFrontier(t.desc, frontier), s.log + [t], applied)
    case _ => Published(s, t, frontier)
  }

  function SyncAndCommit(s: System, t: Tx, sync: bool, fault: Fault): System
    requires s.session.Some? && s.disk.states != []
  {
    var x := s.session.value;
    var frontier := if sync then Some(Frontier(t.desc.meta.seqNo, TargetVLogSeq(x, t), TargetVLogEnd(x, t))) else None;
    if sync && TargetVLogSeq(x, t) > x.frontier.vlogSeq then
      if fault.SyncFault? then Stopped(WriterFailed(s), Poisoned)
      else CommitIndex(AfterSync(s), t, frontier, fault)
    else CommitIndex(s, t, frontier, fault)
  }

  /** commit_started: the store after a commit of `t`, given what the environment did. */
  function CommitResult(s: System, t: Tx, sync: bool, fault: Fault, g: Geometry): System
    requires s.session.Some? && s.disk.states != []
  {
    var x := s.session.value;
    if x.health != Healthy then s
    else match fault
      case PreparationFault(stop) => Stopped(s, stop)
      case AppendFault(None, stop) => Stopped(s, stop)
      case AppendFault(Some(damage), stop) => Stopped(WriterFailed(s.(disk := s.disk.(vlog := damage))), stop)
      case _ => SyncAndCommit(AfterAppend(s, t, g), t, sync, fault)
  }

  /** What the caller is told. */
  datatype WriteOutcome = Refused | Committed | NotCommitted | CommitUnknown

  function CommitOutcome(x: Session, t: Tx, sync: bool, fault: Fault): WriteOutcome {
    if x.health != Healthy then Refused
    else match fault
      case NoFault => Committed
      case SyncFault => if sync && TargetVLogSeq(x, t) > x.frontier.vlogSeq then NotCommitted else Committed
      case Unknown(_) => CommitUnknown
      case _ => NotCommitted
  }

  // ---------------------------------------------------------------- barriers

  function BarrierFrontier(x: Session): Frontier {
    Frontier(x.head, x.vlogSeq, x.vlogEnd)
  }

  function BarrierCommit(s: System, fault: Fault): System
    requires s.session.Some? && s.disk.states != []
  {
    var x := s.session.value;
    var batch: Batch := [PutFrontier(BarrierFrontier(x))];
    match fault
    case NotApplied(stop) => Stopped(if x.writer.pending then WriterFailed(s) else s, stop)
    case Unknown(applied) => LeftUnknown(if x.writer.pending then WriterFailed(s) else s, batch, s.log, applied)
    case _ =>
      s.(disk := SyncCommit(s.disk, batch),
         session := Some(x.(frontier := BarrierFrontier(x), writer := x.writer.(pending := false))),
         past := [], safe := x.head, told := x.head)
  }

  /** commit_empty_barrier. */
  function BarrierResult(s: System, fault: Fault): System
    requires s.session.Some? && s.disk.states != []
  {
    var x := s.session.value;
    if x.health != Healthy then s
    else if x.head == x.frontier.seqNo then s.(told := x.head)
    else if x.vlogSeq > x.frontier.vlogSeq then
      if fault.SyncFault? then Stopped(WriterFailed(s), Poisoned) else BarrierCommit(AfterSync(s), fault)
    else BarrierCommit(s, fault)
  }

  function BarrierOutcome(x: Session, fault: Fault): WriteOutcome {
    if x.health != Healthy then Refused
    else if x.head == x.frontier.seqNo then Committed
    else match fault
      case SyncFault => if x.vlogSeq > x.frontier.vlogSeq then NotCommitted else Committed
      case NotApplied(_) => NotCommitted
      case Unknown(_) => CommitUnknown
      case _ => Committed
  }

  // ---------------------------------------------------------------- the invariant

  predicate WriterFits(w: Writer, f: Frontier) {
    && !w.failed && !w.pending && w.position == AppendPosition(f.end)
    && (w.lastAppended.Some? ==> f.end.At? && w.lastAppended.value == (f.vlogSeq, f.end.pos))
  }

  /** What memory says about the history, in every state of the session. */
  predicate MemoryFits(x: Session, log: Log) {
    && x.frontier.seqNo <= x.head <= |log|
    && x.frontier == FrontierAt(log[..x.frontier.seqNo])
    && x.vlogSeq == FrontierAt(log[..x.head]).vlogSeq && x.vlogEnd == FrontierAt(log[..x.head]).end
  }

  ghost predicate SessionOk(s: System, x: Session, g: Geometry)
    requires s.disk.states != []
  {
    && MemoryFits(x, s.log) && Current(s.disk).recovery.None?
    && (x.unknown ==> x.health == Poisoned)
    && (!x.unknown ==> x.head == Current(s.disk).head && x.frontier == Current(s.disk).frontier)
    && (x.health == Healthy ==> Live(s.past, s.log, s.disk, s.safe, g) && WriterFits(x.writer, FrontierAt(s.log)))
  }

  ghost predicate Inv(s: System, g: Geometry) {
    && DownInv(s.past, s.log, s.disk, s.safe, g)
    && (s.session.Some? ==> SessionOk(s, s.session.value, g))
  }
}
