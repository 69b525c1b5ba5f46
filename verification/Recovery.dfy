/**
 * Open-time recovery (src/recovery/mod.rs, src/recovery/undo.rs): which unstable transactions are
 * accepted, how the rest is undone, and every persistent effect on the way.
 *
 * The Value Log reader is represented by its contract: an envelope whose bytes survived is read
 * back as it was written, anything else is rejected.
 */
module Recovery {
  import opened Basics
  import opened Index
  import opened CommitProtocol
  import opened Topology
  import opened History

  /** `synced` envelopes survive a crash; `files` is the inventory that Open will find. */
  datatype VLog = VLog(envs: seq<Envelope>, synced: nat, files: Inventory)

  /** `states` are the index states since the last SyncAll commit: a crash keeps any one of them. */
  datatype Disk = Disk(states: seq<Index>, vlog: VLog)

  function Current(d: Disk): Index
    requires d.states != []
  {
    d.states[|d.states| - 1]
  }

  function SyncCommit(d: Disk, batch: Batch): Disk
    requires d.states != []
  {
    d.(states := [Apply(Current(d), batch)])
  }

  function BufferCommit(d: Disk, batch: Batch): Disk
    requires d.states != []
  {
    d.(states := d.states + [Apply(Current(d), batch)])
  }

  /**
   * An index commit that was applied. When its sync was reported it is durable; when its outcome was
   * unknown it is shown, and a crash may still bring an older state back.
   */
  predicate Landed(d: Disk, batch: Batch, d': Disk)
    requires d.states != []
  {
    d' == SyncCommit(d, batch) || d' == BufferCommit(d, batch)
  }

  // ---------------------------------------------------------------- reading the Value Log

  function FindEnvelope(envs: seq<Envelope>, begin: Pos, end: Pos): Option<Envelope> {
    if envs == [] then None
    else
      var e := envs[|envs| - 1];
      if e.intact && e.begin == begin && e.end == end then Some(e)
      else FindEnvelope(envs[..|envs| - 1], begin, end)
  }

  function FindEnvelopeEndingAt(envs: seq<Envelope>, end: Pos): Option<Envelope> {
    if envs == [] then None
    else
      var e := envs[|envs| - 1];
      if e.intact && e.end == end then Some(e) else FindEnvelopeEndingAt(envs[..|envs| - 1], end)
  }

  /** The final state of every key of an envelope, in first-occurrence order. */
  function EnvelopeFinalStates(e: Envelope): (r: seq<(Bytes, ValueState)>)
    requires |e.ops| == |e.pointers|
    ensures |r| == |DistinctKeys(e.ops)|
  {
    var keys := DistinctKeys(e.ops);
    seq(|keys|, i requires 0 <= i < |keys| => (keys[i], FinalState(e.ops, e.pointers, keys[i], Absent)))
  }

  predicate EnvelopeMatchesDescriptor(e: Envelope, d: Descriptor) {
    && |e.ops| == |e.pointers|
    && e.seqNo == d.meta.seqNo && e.uuid == d.meta.uuid && e.begin == d.meta.begin && e.end == d.meta.end
    && |e.ops| == d.meta.opCount && |DistinctKeys(e.ops)| == d.meta.keyCount && e.crc == d.meta.envelopeCrc
    && var states := EnvelopeFinalStates(e);
       && |states| == |d.mutations|
       && forall i :: 0 <= i < |states| ==> states[i] == (d.mutations[i].key, d.mutations[i].after)
  }

  /** read_and_validate_envelope: the bytes between the descriptor's bounds are its envelope. */
  predicate EnvelopeReadable(envs: seq<Envelope>, d: Descriptor) {
    var found := FindEnvelope(envs, d.meta.begin, d.meta.end);
    found.Some? && EnvelopeMatchesDescriptor(found.value, d)
  }

  predicate StableBoundary(envs: seq<Envelope>, f: Frontier) {
    match f.end
    case Empty => f.vlogSeq == 0
    case At(end) =>
      var found := FindEnvelopeEndingAt(envs, end);
      f.vlogSeq != 0 && found.Some? && found.value.seqNo == f.vlogSeq
  }

  // ---------------------------------------------------------------- loading descriptors

  predicate MetaValid(m: TxMeta) {
    && m.seqNo != 0 && m.prevSeq == m.seqNo - 1 && UuidValid(m.uuid)
    && m.opCount != 0 && m.keyCount != 0 && m.keyCount <= m.opCount
    && match m.kind
       case VLogEnvelope => PosValid(m.begin) && PosValid(m.end) && PosLess(m.begin, m.end)
       case IndexOnlyDelete => m.begin == Pos(0, 0) && m.end == Pos(0, 0) && m.envelopeCrc == 0
  }

  predicate DescriptorValid(d: Descriptor) {
    && MetaValid(d.meta) && d.meta.keyCount == |d.mutations|
    && NoDuplicates(MutatedKeys(d.mutations))
    && (d.meta.kind == IndexOnlyDelete ==> forall i :: 0 <= i < |d.mutations| ==> d.mutations[i].after.Absent?)
  }

  /** Exactly the entries of one transaction: its meta entry and mutation ordinals 0..keyCount. */
  predicate EntriesComplete(txs: map<TxKey, TxValue>, n: nat) {
    && MetaKey(n) in txs && txs[MetaKey(n)].MetaValue?
    && var count := txs[MetaKey(n)].meta.keyCount;
       && (forall k :: k in txs && k.MutationKey? && k.seqNo == n ==> k.ordinal < count)
       && (forall i :: 0 <= i < count ==> MutationKey(n, i) in txs && txs[MutationKey(n, i)].MutationValue?)
  }

  function LoadDescriptor(txs: map<TxKey, TxValue>, n: nat): Option<Descriptor> {
    if !EntriesComplete(txs, n) then None
    else
      var m := txs[MetaKey(n)].meta;
      var d := Descriptor(m, seq(m.keyCount, i requires 0 <= i < m.keyCount => txs[MutationKey(n, i)].mutation));
      if m.seqNo == n && DescriptorValid(d) then Some(d) else None
  }

  /** The descriptors of `lo + 1 ..= hi`, or nothing if one of them is not exactly there. */
  function LoadDescriptors(txs: map<TxKey, TxValue>, lo: nat, hi: nat): (r: Option<seq<Descriptor>>)
    requires lo <= hi
    ensures r.Some? ==> |r.value| == hi - lo
    ensures r.Some? ==> forall i :: 0 <= i < |r.value| ==> r.value[i].meta.seqNo == lo + 1 + i
    decreases hi
  {
    if lo == hi then Some([])
    else
      var earlier := LoadDescriptors(txs, lo, hi - 1);
      var last := LoadDescriptor(txs, hi);
      if earlier.Some? && last.Some? then Some(earlier.value + [last.value]) else None
  }

  // ---------------------------------------------------------------- analysis

  datatype Plan = Plan(
    frontier: Frontier, head: nat, accepted: Frontier, descriptors: seq<Descriptor>,
    recovery: Option<RecoveryState>, needsUndo: bool, needsPromote: bool, needsTrim: bool)

  /** The walk over the unstable descriptors: stop at the first envelope that is not where it should be. */
  function Accept(descs: seq<Descriptor>, acc: Frontier, envs: seq<Envelope>): Frontier {
    if descs == [] then acc
    else
      var m := descs[0].meta;
      match m.kind
      case IndexOnlyDelete => Accept(descs[1..], acc.(seqNo := m.seqNo), envs)
      case VLogEnvelope =>
        if m.begin != AppendPosition(acc.end) || !EnvelopeReadable(envs, descs[0]) then acc
        else Accept(descs[1..], Frontier(m.seqNo, m.seqNo, At(m.end)), envs)
  }

  method WalkDescriptors(descs: seq<Descriptor>, from: Frontier, envs: seq<Envelope>) returns (accepted: Frontier)
    ensures accepted == Accept(descs, from, envs)
  {
    accepted := from;
    for i := 0 to |descs|
      invariant Accept(descs[i..], accepted, envs) == Accept(descs, from, envs)
    {
      assert descs[i..][0] == descs[i] && descs[i..][1..] == descs[i + 1..];
      var m := descs[i].meta;
      match m.kind {
        case IndexOnlyDelete =>
          accepted := accepted.(seqNo := m.seqNo);
        case VLogEnvelope =>
          if m.begin != AppendPosition(accepted.end) || !EnvelopeReadable(envs, descs[i]) {
            return;
          }
          accepted := Frontier(m.seqNo, m.seqNo, At(m.end));
      }
    }
  }

  predicate FrontierValid(f: Frontier) {
    && f.vlogSeq <= f.seqNo
    && match f.end
       case Empty => f.vlogSeq == 0
       case At(p) => f.vlogSeq != 0 && PosValid(p)
  }

  predicate RecoveryStateValid(rs: RecoveryState) {
    && FrontierValid(rs.target) && rs.target.seqNo <= rs.nextUndo <= rs.originalHead
    && match rs.phase
       case Undo => true
       case Trim => rs.nextUndo == rs.target.seqNo && rs.trimRequired
       case Finalize => rs.nextUndo == rs.target.seqNo && !rs.trimRequired
  }

  predicate EndStrictlyAfter(candidate: VLogEnd, base: VLogEnd) {
    candidate.At? && (base.Empty? || PosLess(base.pos, candidate.pos))
  }

  predicate ValidAgainstCurrent(rs: RecoveryState, f: Frontier, head: nat) {
    && rs.target.seqNo >= f.seqNo && rs.target.vlogSeq >= f.vlogSeq
    && (if rs.target.vlogSeq == f.vlogSeq then rs.target.end == f.end else EndStrictlyAfter(rs.target.end, f.end))
    && match rs.phase
       case Undo => head == rs.nextUndo
       case Trim => head == rs.target.seqNo && f == rs.target && rs.nextUndo == rs.target.seqNo
       case Finalize => head == rs.target.seqNo && f == rs.target && rs.nextUndo == rs.target.seqNo
  }

  function BuildPlan(ix: Index, vlog: VLog, accepted: Frontier, descs: seq<Descriptor>): Result<Plan> {
    var f := ix.frontier;
    if accepted.seqNo < f.seqNo || accepted.seqNo > ix.head
       || accepted.vlogSeq < f.vlogSeq || accepted.vlogSeq > accepted.seqNo
       || !ContainsEnd(vlog.files, accepted.end)
    then Err(Corruption)
    else Ok(Plan(f, ix.head, accepted, descs, ix.recovery,
                 accepted.seqNo < ix.head, accepted.seqNo > f.seqNo, HasSuffixAfter(vlog.files, accepted.end)))
  }

  function AnalyzeFixedTarget(ix: Index, vlog: VLog, descs: seq<Descriptor>, rs: RecoveryState): Result<Plan> {
    if !ValidAgainstCurrent(rs, ix.frontier, ix.head) then Err(Corruption)
    else
      var count := rs.target.seqNo - ix.frontier.seqNo;
      if rs.phase == Undo && (count > |descs| || Accept(descs[..count], ix.frontier, vlog.envs) != rs.target)
      then Err(Corruption)
      else
        var plan :- BuildPlan(ix, vlog, rs.target, descs);
        if rs.phase == Undo && !rs.trimRequired && plan.needsTrim then Err(Corruption)
        else if rs.phase == Trim && !rs.trimRequired then Err(Corruption)
        else if rs.phase == Finalize && (rs.trimRequired || plan.needsTrim) then Err(Corruption)
        else Ok(plan.(needsUndo := rs.phase == Undo && ix.head > rs.target.seqNo))
  }

  /** The checks made before any descriptor is interpreted. */
  predicate MetadataSound(ix: Index, vlog: VLog, g: Geometry) {
    && FrontierValid(ix.frontier) && ix.frontier.seqNo <= ix.head
    && (ix.recovery.Some? ==> RecoveryStateValid(ix.recovery.value))
    && Ordered(vlog.files, g) && StableFiles(vlog.files, ix.frontier.end, g)
    && StableBoundary(vlog.envs, ix.frontier)
    && forall k :: k in ix.txs ==> k.seqNo <= ix.head
  }

  /** A fixed target if a recovery state is persisted, a new one otherwise. */
  function ChooseTarget(ix: Index, vlog: VLog, descs: seq<Descriptor>): Result<Plan> {
    match ix.recovery
    case None => BuildPlan(ix, vlog, Accept(descs, ix.frontier, vlog.envs), descs)
    case Some(rs) => AnalyzeFixedTarget(ix, vlog, descs, rs)
  }

  function Analyze(ix: Index, vlog: VLog, g: Geometry): Result<Plan> {
    if !MetadataSound(ix, vlog, g) then Err(Corruption)
    else
      match LoadDescriptors(ix.txs, ix.frontier.seqNo, ix.head)
      case None => Err(Corruption)
      case Some(descs) => ChooseTarget(ix, vlog, descs)
  }

  // ---------------------------------------------------------------- persistent effects

  /** How many envelopes end at or before `end`. */
  function CountThrough(envs: seq<Envelope>, end: VLogEnd): (n: nat)
    ensures n <= |envs|
  {
    if envs == [] || end.Empty? then 0
    else if PosLeq(envs[|envs| - 1].end, end.pos) then |envs|
    else CountThrough(envs[..|envs| - 1], end)
  }

  function SyncThrough(vlog: VLog, end: VLogEnd): VLog {
    var n := CountThrough(vlog.envs, end);
    if n <= vlog.synced then vlog else vlog.(synced := n)
  }

  function TrimTo(vlog: VLog, end: VLogEnd): VLog {
    var n := CountThrough(vlog.envs, end);
    VLog(vlog.envs[..n], if vlog.synced < n then vlog.synced else n, TrimmedFiles(vlog.files, end))
  }

  function StartState(plan: Plan): RecoveryState {
    RecoveryState(Undo, plan.head, plan.accepted, plan.head, plan.needsTrim)
  }

  function AfterUndo(rs: RecoveryState): RecoveryState {
    rs.(phase := if rs.trimRequired then Trim else Finalize, nextUndo := rs.target.seqNo)
  }

  function TargetBatch(target: Frontier, next: Option<RecoveryState>): Batch {
    [PutHead(target.seqNo), PutFrontier(target)] + if next.Some? then [PutRecovery(next.value)] else []
  }

  /** validate_current_after_states: the user index still shows what the transaction left. */
  predicate ShowsAfterStates(ix: Index, d: Descriptor) {
    forall i :: 0 <= i < |d.mutations| ==> Lookup(ix.user, d.mutations[i].key) == d.mutations[i].after
  }

  predicate NeedsRepair(plan: Plan) {
    plan.recovery.None? && (plan.needsUndo || plan.needsTrim)
  }

  /** The one check of a persisted recovery state that a reachable disk can fail: a tail nobody planned to trim. */
  predicate Stuck(ix: Index, files: Inventory) {
    ix.recovery.Some? && !ix.recovery.value.trimRequired && HasSuffixAfter(files, ix.recovery.value.target.end)
  }

  predicate Unstuck(d: Disk) {
    d.states != [] && !Stuck(Current(d), d.vlog.files)
  }

  predicate SyncStep(d: Disk, d': Disk, g: Geometry) {
    && d.states != []
    && var plan := Analyze(Current(d), d.vlog, g);
       && plan.Ok? && (NeedsRepair(plan.value) || (plan.value.recovery.None? && plan.value.needsPromote))
       && d' == d.(vlog := SyncThrough(d.vlog, plan.value.accepted.end))
  }

  /** The accepted part is either already covered by the frontier or has been synced since. */
  predicate AcceptedIsSafe(plan: Plan, vlog: VLog) {
    plan.accepted.vlogSeq == plan.frontier.vlogSeq || CountThrough(vlog.envs, plan.accepted.end) <= vlog.synced
  }

  predicate BeginStep(d: Disk, d': Disk, g: Geometry) {
    && d.states != []
    && var plan := Analyze(Current(d), d.vlog, g);
       && plan.Ok? && NeedsRepair(plan.value)
       && AcceptedIsSafe(plan.value, d.vlog)
       && Landed(d, [PutRecovery(StartState(plan.value))], d')
  }

  predicate PromoteStep(d: Disk, d': Disk, g: Geometry) {
    && d.states != []
    && var plan := Analyze(Current(d), d.vlog, g);
       && plan.Ok? && plan.value.recovery.None? && !NeedsRepair(plan.value) && plan.value.needsPromote
       && AcceptedIsSafe(plan.value, d.vlog)
       && Landed(d, TargetBatch(plan.value.accepted, None), d')
  }

  predicate UndoStep(d: Disk, d': Disk) {
    && d.states != [] && Current(d).recovery.Some?
    && var rs := Current(d).recovery.value;
       && rs.phase == Undo && rs.nextUndo > rs.target.seqNo
       && var desc := LoadDescriptor(Current(d).txs, rs.nextUndo);
          && desc.Some? && ShowsAfterStates(Current(d), desc.value)
          && Landed(d, UndoBatch(desc.value, rs.(nextUndo := rs.nextUndo - 1)), d')
  }

  predicate FinishUndoStep(d: Disk, d': Disk) {
    && d.states != [] && Current(d).recovery.Some?
    && var rs := Current(d).recovery.value;
       && rs.phase == Undo && rs.nextUndo == rs.target.seqNo
       && Landed(d, TargetBatch(rs.target, Some(AfterUndo(rs))), d')
  }

  predicate TrimStep(d: Disk, d': Disk) {
    && d.states != [] && Current(d).recovery.Some?
    && var rs := Current(d).recovery.value;
       && rs.phase == Trim
       && d' == d.(vlog := TrimTo(d.vlog, rs.target.end))
  }

  predicate ClearStep(d: Disk, d': Disk) {
    && d.states != [] && Current(d).recovery.Some?
    && var rs := Current(d).recovery.value;
       && (rs.phase == Finalize
           || (rs.phase == Trim && d.vlog == TrimTo(d.vlog, rs.target.end)
               && PhysicalTail(d.vlog.files) == rs.target.end))
       && Landed(d, [DeleteRecovery], d')
  }

  /**
   * One persistent effect of execute_recovery. No attempt gets past its analysis on a stuck disk, and
   * an attempt that got past it never makes its disk a stuck one; see EffectKeepsUnstuck.
   */
  predicate RecoveryStep(d: Disk, d': Disk, g: Geometry) {
    && Unstuck(d)
    && (|| SyncStep(d, d', g)
        || BeginStep(d, d', g)
        || PromoteStep(d, d', g)
        || UndoStep(d, d')
        || FinishUndoStep(d, d')
        || TrimStep(d, d')
        || ClearStep(d, d'))
  }

  /** verify_final_state: what Open requires before it hands the store to the coordinator. */
  predicate Recovered(d: Disk, g: Geometry) {
    && d.states != []
    && var ix := Current(d);
       && FrontierValid(ix.frontier) && ix.head == ix.frontier.seqNo && ix.recovery.None?
       && Ordered(d.vlog.files, g) && StableFiles(d.vlog.files, ix.frontier.end, g)
       && PhysicalTail(d.vlog.files) == ix.frontier.end
  }
}
