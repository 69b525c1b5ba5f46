/**
 * The recovery program itself (src/recovery/mod.rs, src/recovery/undo.rs): plan execution as a
 * sequence of persistent effects, each of which may be the last before the environment fails.
 */
module RecoveryExecution {
  import opened Basics
  import opened Index
  import opened CommitProtocol
  import opened Topology
  import opened History
  import opened Recovery
  import opened RecoveryInvariant
  import opened RecoverySteps
  import opened RestartableRecovery

  datatype RecoveredState = RecoveredState(head: nat, frontier: Frontier)

  /** A run of recovery effects from `d`, whose analysis succeeded, to the last disk of `trace`. */
  ghost predicate EffectsFrom(d: Disk, trace: seq<Disk>, g: Geometry) {
    && Unstuck(d)
    && (trace != [] ==> RecoveryStep(d, trace[0], g))
    && forall i :: 0 <= i < |trace| - 1 ==> RecoveryStep(trace[i], trace[i + 1], g)
  }

  ghost function LastOf(d: Disk, trace: seq<Disk>): Disk {
    if trace == [] then d else trace[|trace| - 1]
  }

  /** No check of a later analysis can fail because of what this attempt did. */
  lemma {:induction false} EffectsStayUnstuck(d: Disk, trace: seq<Disk>, g: Geometry)
    requires EffectsFrom(d, trace, g)
    ensures Unstuck(LastOf(d, trace))
  {
    var n := |trace|;
    if n == 1 {
      EffectKeepsUnstuck(d, trace[0], g);
    } else if n > 1 {
      assert RecoveryStep(trace[n - 2], trace[n - 2 + 1], g);
      EffectKeepsUnstuck(trace[n - 2], trace[n - 1], g);
    }
  }

  /** The batch may be committed next: as a durable effect, or as one whose outcome stays unknown. */
  ghost predicate MayCommit(start: Disk, trace: seq<Disk>, d: Disk, batch: Batch, g: Geometry)
    requires d.states != []
  {
    EffectsFrom(start, trace + [SyncCommit(d, batch)], g) && EffectsFrom(start, trace + [BufferCommit(d, batch)], g)
  }

  lemma {:induction false} EffectAppended(d: Disk, trace: seq<Disk>, d': Disk, g: Geometry)
    requires EffectsFrom(d, trace, g) && RecoveryStep(LastOf(d, trace), d', g)
    ensures EffectsFrom(d, trace + [d'], g) && LastOf(d, trace + [d']) == d'
  {
    var longer := trace + [d'];
    forall i | 0 <= i < |longer| - 1 ensures RecoveryStep(longer[i], longer[i + 1], g) {
      if i < |trace| - 1 { assert RecoveryStep(trace[i], trace[i + 1], g); }
    }
  }

  /** The descriptor to undo: named by the plan, still stored as named, and still shown by the user index. */
  function CheckedDescriptor(plan: Plan, ix: Index, n: nat): Result<Descriptor> {
    if n < plan.frontier.seqNo + 1 || n - plan.frontier.seqNo - 1 >= |plan.descriptors| then Err(Corruption)
    else
      var loaded := LoadDescriptor(ix.txs, n);
      if loaded.None? || loaded.value != plan.descriptors[n - plan.frontier.seqNo - 1] then Err(Corruption)
      else if !ShowsAfterStates(ix, loaded.value) then Err(Corruption)
      else Ok(loaded.value)
  }

  /** The stored descriptor is the one that the plan was made with, and the user index shows its after-states. */
  predicate MayUndo(plan: Plan, ix: Index, n: nat) {
    exists i :: && 0 <= i < |plan.descriptors| && n == plan.frontier.seqNo + 1 + i
                && LoadDescriptor(ix.txs, n) == Some(plan.descriptors[i]) && ShowsAfterStates(ix, plan.descriptors[i])
  }

  lemma {:induction false} ChecksExactly(plan: Plan, ix: Index, n: nat)
    ensures CheckedDescriptor(plan, ix, n).Ok? <==> MayUndo(plan, ix, n)
    ensures CheckedDescriptor(plan, ix, n).Ok? ==> LoadDescriptor(ix.txs, n) == Some(CheckedDescriptor(plan, ix, n).value)
  {
    if CheckedDescriptor(plan, ix, n).Ok? {
      var i := n - plan.frontier.seqNo - 1;
      assert LoadDescriptor(ix.txs, n) == Some(plan.descriptors[i]);
    }
  }

  /** The next undo of a store in the Undo phase continues its run of effects. */
  lemma {:induction false} UndoIsEffect(start: Disk, trace: seq<Disk>, d: Disk, plan: Plan, g: Geometry)
    requires EffectsFrom(start, trace, g) && LastOf(start, trace) == d
    requires d.states != [] && Current(d).recovery.Some?
    requires var rs := Current(d).recovery.value;
             && rs.phase == Undo && rs.nextUndo > rs.target.seqNo
             && CheckedDescriptor(plan, Current(d), rs.nextUndo).Ok?
    ensures var rs := Current(d).recovery.value;
            var desc := CheckedDescriptor(plan, Current(d), rs.nextUndo).value;
            var next := rs.(nextUndo := rs.nextUndo - 1);
            && MayCommit(start, trace, d, UndoBatch(desc, next), g)
            && Apply(Current(d), UndoBatch(desc, next)).recovery == Some(next)
  {
    var rs := Current(d).recovery.value;
    var desc := CheckedDescriptor(plan, Current(d), rs.nextUndo).value;
    var next := rs.(nextUndo := rs.nextUndo - 1);
    UndoBatchSetsRecovery(Current(d), desc, next);
    assert UndoStep(d, SyncCommit(d, UndoBatch(desc, next))) && UndoStep(d, BufferCommit(d, UndoBatch(desc, next)));
    BothMayFollow(start, trace, d, UndoBatch(desc, next), g);
  }

  /** validate_accepted_boundary: the accepted end reads back as the envelope that the plan names. */
  predicate BoundaryOk(plan: Plan, envs: seq<Envelope>) {
    if plan.accepted.vlogSeq == plan.frontier.vlogSeq then
      plan.accepted.end == plan.frontier.end && StableBoundary(envs, plan.accepted)
    else
      && plan.accepted.vlogSeq >= plan.frontier.seqNo + 1
      && var index := plan.accepted.vlogSeq - plan.frontier.seqNo - 1;
         && index < |plan.descriptors|
         && var d := plan.descriptors[index];
            && d.meta.seqNo == plan.accepted.vlogSeq && d.meta.kind == VLogEnvelope
            && At(d.meta.end) == plan.accepted.end && EnvelopeReadable(envs, d)
  }

  /** A check of the recovery program that the disk `d` does not pass. */
  ghost predicate Refuses(plan: Plan, d: Disk, g: Geometry) {
    || d.states == []
    || !BoundaryOk(plan, d.vlog.envs)
    || UndoRefused(plan, Current(d))
    || TrimRefused(Current(d), d.vlog.files, g)
  }

  predicate UndoRefused(plan: Plan, ix: Index) {
    && ix.recovery.Some? && ix.recovery.value.phase == Undo
    && ix.recovery.value.nextUndo > ix.recovery.value.target.seqNo
    && CheckedDescriptor(plan, ix, ix.recovery.value.nextUndo).Err?
  }

  predicate TrimRefused(ix: Index, files: Inventory, g: Geometry) {
    && ix.recovery.Some? && ix.recovery.value.phase == Trim
    && var end := ix.recovery.value.target.end;
       || !ContainsEnd(files, end)
       || (end.At? && !(0 < end.pos.offset <= g.maxFileSize && end.pos.file <= g.maxFileId))
       || PhysicalTail(TrimmedFiles(files, end)) != end
  }

  /** The run is over: there was nothing to do, or its last effect was one that ends a recovery. */
  ghost predicate Ended(start: Disk, trace: seq<Disk>, plan: Plan, g: Geometry) {
    if trace == [] then plan.recovery.None? && !NeedsRepair(plan) && !plan.needsPromote
    else
      var before := LastOf(start, trace[..|trace| - 1]);
      var last := trace[|trace| - 1];
      ClearStep(before, last) || PromoteStep(before, last, g)
  }

  /**
   * What the effects act on. Every persistent effect may fail: the environment allows `budget` more
   * of them. A failed one leaves the disk as it was, except that with `unsynced` the last one allowed,
   * if it is an index commit, is applied while its outcome is reported as unknown.
   */
  class Store {
    var states: seq<Index>
    var vlog: VLog
    var budget: nat
    const geometry: Geometry
    const allowance: nat
    const unsynced: bool
    /** Every disk since the start of this attempt. */
    ghost var trace: seq<Disk>

    constructor (disk: Disk, budget: nat, unsynced: bool, geometry: Geometry)
      requires Unstuck(disk)
      ensures View() == disk && trace == [] && Ran(disk)
      ensures allowance == budget && this.unsynced == unsynced && this.geometry == geometry
    {
      states, vlog := disk.states, disk.vlog;
      this.budget := budget;
      this.geometry := geometry;
      allowance := budget;
      this.unsynced := unsynced;
      trace := [];
    }

    ghost function View(): Disk
      reads this
    {
      Disk(states, vlog)
    }

    /** The attempt so far is a run of recovery effects that began at `start` and ended here. */
    ghost predicate Ran(start: Disk)
      reads this
    {
      && states != [] && EffectsFrom(start, trace, geometry) && LastOf(start, trace) == View()
      && |trace| + budget == allowance
    }

    /**
     * One atomic SyncAll index commit. Success means that it is durable; failure means that it was not
     * applied, or that it was applied and may still be lost.
     */
    method CommitRecoveryBatch(batch: Batch, ghost start: Disk) returns (r: Result<()>)
      requires Ran(start) && MayCommit(start, trace, View(), batch, geometry)
      modifies this
      ensures Ran(start) && vlog == old(vlog)
      ensures r.Ok? ==> View() == SyncCommit(old(View()), batch) && trace == old(trace) + [View()]
      ensures r.Err? ==> r.error == Io && budget == 0
      ensures r.Err? ==> (View() == old(View()) || (unsynced && View() == BufferCommit(old(View()), batch)))
    {
      if budget == 0 {
        return Err(Io);
      }
      ghost var d := View();
      budget := budget - 1;
      var after := Apply(states[|states| - 1], batch);
      if budget == 0 && unsynced {
        states := states + [after];
        assert View() == BufferCommit(d, batch);
        trace := trace + [View()];
        return Err(Io);
      }
      states := [after];
      assert View() == SyncCommit(d, batch);
      trace := trace + [View()];
      return Ok(());
    }

    /** sync_new_accepted_vlog: only a newly accepted envelope range needs the sync. */
    method SyncNewAccepted(plan: Plan, ghost start: Disk) returns (r: Result<()>)
      requires Ran(start) && Analyze(Current(View()), vlog, geometry) == Ok(plan)
      requires NeedsRepair(plan) || (plan.recovery.None? && plan.needsPromote)
      modifies this
      ensures Ran(start) && states == old(states) && vlog.files == old(vlog).files
      ensures r.Err? ==> (r.error == Io && budget == 0) || !BoundaryOk(plan, vlog.envs)
      ensures r.Ok? ==> AcceptedIsSafe(plan, vlog) && Analyze(Current(View()), vlog, geometry) == Ok(plan)
    {
      if plan.accepted.vlogSeq == plan.frontier.vlogSeq {
        if plan.accepted.end != plan.frontier.end {
          return Err(Corruption);
        }
        return Ok(());
      }
      if budget == 0 {
        return Err(Io);
      }
      SyncIsEffect(start, trace, View(), plan, geometry);
      budget := budget - 1;
      vlog := SyncThrough(vlog, plan.accepted.end);
      trace := trace + [View()];
      return Ok(());
    }

    /** One round of the undo loop: load, compare, check after-states, commit the inverse batch. */
    method UndoOne(plan: Plan, state: RecoveryState, ghost start: Disk) returns (r: Result<()>)
      requires Ran(start) && Current(View()).recovery == Some(state) && state.phase == Undo
      requires state.target.seqNo < state.nextUndo
      modifies this
      ensures Ran(start) && vlog == old(vlog)
      ensures r.Err? ==> (r.error == Io && budget == 0) || UndoRefused(plan, Current(View()))
      ensures r.Ok? ==> Current(View()).recovery == Some(state.(nextUndo := state.nextUndo - 1))
      ensures r.Ok? ==> MayUndo(plan, Current(old(View())), state.nextUndo)
    {
      var desc := CheckedDescriptor(plan, states[|states| - 1], state.nextUndo);
      ChecksExactly(plan, states[|states| - 1], state.nextUndo);
      if desc.Err? {
        return Err(desc.error);
      }
      UndoIsEffect(start, trace, View(), plan, geometry);
      r := CommitUndo(desc.value, state.(nextUndo := state.nextUndo - 1), start);
    }

    /** The inverse batch of one transaction, committed. */
    method CommitUndo(desc: Descriptor, next: RecoveryState, ghost start: Disk) returns (r: Result<()>)
      requires Ran(start) && MayCommit(start, trace, View(), UndoBatch(desc, next), geometry)
      requires Apply(Current(View()), UndoBatch(desc, next)).recovery == Some(next)
      modifies this
      ensures Ran(start) && vlog == old(vlog)
      ensures r.Err? ==> r.error == Io && budget == 0
      ensures r.Ok? ==> Current(View()).recovery == Some(next)
    {
      var batch := BuildUndoBatch(desc, next);
      r := CommitRecoveryBatch(batch, start);
    }

    /** The undo loop, from the last transaction down to the target. */
    method UndoTransactions(plan: Plan, initial: RecoveryState, ghost start: Disk) returns (r: Result<RecoveryState>)
      requires Ran(start) && Current(View()).recovery == Some(initial) && initial.phase == Undo
      requires initial.target.seqNo <= initial.nextUndo
      modifies this
      ensures Ran(start) && vlog == old(vlog)
      ensures r.Err? ==> (r.error == Io && budget == 0) || UndoRefused(plan, Current(View()))
      ensures r.Ok? ==> r.value == initial.(nextUndo := initial.target.seqNo) && Current(View()).recovery == Some(r.value)
    {
      var state := initial;
      while state.nextUndo > state.target.seqNo
        invariant Ran(start) && vlog == old(vlog)
        invariant Current(View()).recovery == Some(state)
        invariant state == initial.(nextUndo := state.nextUndo) && state.target.seqNo <= state.nextUndo
        decreases state.nextUndo
      {
        var _ :- UndoOne(plan, state, start);
        state := state.(nextUndo := state.nextUndo - 1);
      }
      return Ok(state);
    }

    /** vlog.trim and the tail check that follows it. */
    method TrimVLog(target: Frontier, ghost start: Disk) returns (r: Result<()>)
      requires Ran(start) && Ordered(vlog.files, geometry)
      requires Current(View()).recovery.Some?
      requires Current(View()).recovery.value.phase == Trim && Current(View()).recovery.value.target == target
      modifies this
      ensures Ran(start) && states == old(states)
      ensures r.Err? ==> (r.error == Io && budget == 0) || TrimRefused(Current(View()), vlog.files, geometry)
      ensures r.Ok? ==> vlog == TrimTo(vlog, target.end) && PhysicalTail(vlog.files) == target.end
    {
      var files := TrimFiles(vlog.files, target.end, geometry);
      if files.Err? {
        return Err(files.error);
      }
      if budget == 0 {
        return Err(Io);
      }
      EffectsStayUnstuck(start, trace, geometry);
      assert TrimStep(View(), View().(vlog := TrimTo(vlog, target.end)));
      EffectAppended(start, trace, View().(vlog := TrimTo(vlog, target.end)), geometry);
      TrimIsIdempotent(vlog, target.end);
      budget := budget - 1;
      vlog := TrimTo(vlog, target.end);
      trace := trace + [View()];
      if PhysicalTail(vlog.files) != target.end {
        return Err(Corruption);
      }
      return Ok(());
    }

    /** The first commit of a repair: persist the target. */
    method BeginRepair(plan: Plan, ghost start: Disk) returns (r: Result<RecoveryState>)
      requires Ran(start) && Analyze(Current(View()), vlog, geometry) == Ok(plan) && NeedsRepair(plan)
      modifies this
      ensures Ran(start) && vlog.files == old(vlog).files
      ensures r.Err? ==> (r.error == Io && budget == 0) || Refuses(plan, View(), geometry)
      ensures r.Ok? ==> r.value == StartState(plan) && Current(View()).recovery == Some(r.value) && BoundaryOk(plan, vlog.envs)
    {
      var _ :- SyncNewAccepted(plan, start);
      if !BoundaryOk(plan, vlog.envs) {
        return Err(Corruption);
      }
      BeginIsEffect(start, trace, View(), plan, geometry);
      var _ :- CommitRecoveryBatch([PutRecovery(StartState(plan))], start);
      return Ok(StartState(plan));
    }

    /** The Undo phase and the commit that ends it. */
    method RunUndoPhase(plan: Plan, state: RecoveryState, ghost start: Disk) returns (r: Result<RecoveryState>)
      requires Ran(start) && Current(View()).recovery == Some(state) && state.phase == Undo
      requires state.target == plan.accepted && state.target.seqNo <= state.nextUndo
      modifies this
      ensures Ran(start) && vlog == old(vlog)
      ensures r.Err? ==> (r.error == Io && budget == 0) || Refuses(plan, View(), geometry)
      ensures r.Ok? ==> r.value == AfterUndo(state) && Current(View()).recovery == Some(r.value) && BoundaryOk(plan, vlog.envs)
    {
      var undone :- UndoTransactions(plan, state, start);
      if !BoundaryOk(plan, vlog.envs) {
        return Err(Corruption);
      }
      var next := AfterUndo(undone);
      FinishIsEffect(start, trace, View(), geometry);
      ApplyTarget(Current(View()), plan.accepted, Some(next));
      var _ :- CommitRecoveryBatch(TargetBatch(plan.accepted, Some(next)), start);
      return Ok(next);
    }

    /** Everything accepted, nothing to trim: move the frontier up to the head. */
    method Promote(plan: Plan, ghost start: Disk) returns (r: Result<()>)
      requires Ran(start) && Analyze(Current(View()), vlog, geometry) == Ok(plan)
      requires plan.recovery.None? && !NeedsRepair(plan) && plan.needsPromote
      modifies this
      ensures Ran(start)
      ensures r.Err? ==> (r.error == Io && budget == 0) || Refuses(plan, View(), geometry)
      ensures r.Ok? ==> Ended(start, trace, plan, geometry) && BoundaryOk(plan, vlog.envs)
    {
      var _ :- SyncNewAccepted(plan, start);
      if !BoundaryOk(plan, vlog.envs) {
        return Err(Corruption);
      }
      PromoteIsEffect(start, trace, View(), plan, geometry);
      var _ :- CommitRecoveryBatch(TargetBatch(plan.accepted, None), start);
      return Ok(());
    }

    /** The last phase: trim if it is due, then remove the recovery state. */
    method RunLastPhase(plan: Plan, state: RecoveryState, ghost start: Disk) returns (r: Result<()>)
      requires Ran(start) && Ordered(vlog.files, geometry)
      requires Current(View()).recovery == Some(state) && state.phase != Undo
      modifies this
      ensures Ran(start)
      ensures r.Err? ==> (r.error == Io && budget == 0) || Refuses(plan, View(), geometry)
      ensures r.Ok? ==> Ended(start, trace, plan, geometry)
    {
      if state.phase == Trim {
        var _ :- TrimVLog(state.target, start);
      }
      ClearIsEffect(start, trace, View(), plan, geometry);
      var _ :- CommitRecoveryBatch([DeleteRecovery], start);
      return Ok(());
    }

    /** The phases of execute_recovery up to the final check. */
    method RunPhases(plan: Plan, ghost start: Disk) returns (r: Result<()>)
      requires Ran(start) && trace == [] && Analyze(Current(View()), vlog, geometry) == Ok(plan)
      modifies this
      ensures Ran(start)
      ensures r.Err? ==> (r.error == Io && budget == 0) || Refuses(plan, View(), geometry)
      ensures r.Ok? ==> Ended(start, trace, plan, geometry)
    {
      PlanShape(Current(View()), vlog, plan, geometry);
      var recovery := plan.recovery;
      if NeedsRepair(plan) {
        var begun :- BeginRepair(plan, start);
        recovery := Some(begun);
      }
      if recovery.Some? && recovery.value.phase == Undo {
        var undone :- RunUndoPhase(plan, recovery.value, start);
        recovery := Some(undone);
      } else if recovery.None? && plan.needsPromote {
        var _ :- Promote(plan, start);
      }
      if recovery.Some? {
        var _ :- RunLastPhase(plan, recovery.value, start);
      }
      return Ok(());
    }

    /**
     * execute_recovery: whatever happens on the way, the disk has moved by recovery effects only, and
     * success is reported only for a disk that passes the final check.
     */
    method ExecuteRecovery(plan: Plan) returns (r: Result<RecoveredState>)
      requires Ran(View()) && trace == [] && Analyze(Current(View()), vlog, geometry) == Ok(plan)
      modifies this
      ensures Ran(old(View()))
      ensures r.Err? ==>
                || (r.error == Io && budget == 0) || Refuses(plan, View(), geometry)
                || (Ended(old(View()), trace, plan, geometry) && !Recovered(View(), geometry))
      ensures r.Ok? ==> Recovered(View(), geometry)
      ensures r.Ok? ==> r.value == RecoveredState(Current(View()).head, Current(View()).frontier)
    {
      var _ :- RunPhases(plan, View());
      if !Recovered(Disk(states, vlog), geometry) {
        return Err(Corruption);
      }
      var ix := states[|states| - 1];
      return Ok(RecoveredState(ix.head, ix.frontier));
    }
  }

  /** How a plan relates to the index it was made from. */
  lemma {:induction false} PlanShape(ix: Index, vlog: VLog, plan: Plan, g: Geometry)
    requires Analyze(ix, vlog, g) == Ok(plan)
    ensures plan.recovery == ix.recovery && plan.accepted.seqNo <= plan.head && Ordered(vlog.files, g)
    ensures ix.recovery.Some? ==> plan.accepted == ix.recovery.value.target && RecoveryStateValid(ix.recovery.value)
  {
  }

  lemma {:induction false} SyncIsEffect(start: Disk, trace: seq<Disk>, d: Disk, plan: Plan, g: Geometry)
    requires EffectsFrom(start, trace, g) && LastOf(start, trace) == d && d.states != []
    requires Analyze(Current(d), d.vlog, g) == Ok(plan)
    requires NeedsRepair(plan) || (plan.recovery.None? && plan.needsPromote)
    ensures var d' := d.(vlog := SyncThrough(d.vlog, plan.accepted.end));
            && EffectsFrom(start, trace + [d'], g)
            && Analyze(Current(d'), d'.vlog, g) == Ok(plan) && AcceptedIsSafe(plan, d'.vlog)
  {
    var d' := d.(vlog := SyncThrough(d.vlog, plan.accepted.end));
    EffectsStayUnstuck(start, trace, g);
    assert SyncStep(d, d', g);
    EffectAppended(start, trace, d', g);
    AnalysisIgnoresSynced(Current(d), d.vlog, plan, g);
  }

  /** Both ways in which an applied commit can end continue the run. */
  lemma {:induction false} BothMayFollow(start: Disk, trace: seq<Disk>, d: Disk, batch: Batch, g: Geometry)
    requires EffectsFrom(start, trace, g) && LastOf(start, trace) == d && d.states != []
    requires Unstuck(d) ==> RecoveryStep(d, SyncCommit(d, batch), g) && RecoveryStep(d, BufferCommit(d, batch), g)
    ensures MayCommit(start, trace, d, batch, g)
  {
    EffectsStayUnstuck(start, trace, g);
    EffectAppended(start, trace, SyncCommit(d, batch), g);
    EffectAppended(start, trace, BufferCommit(d, batch), g);
  }

  lemma {:induction false} BeginIsEffect(start: Disk, trace: seq<Disk>, d: Disk, plan: Plan, g: Geometry)
    requires EffectsFrom(start, trace, g) && LastOf(start, trace) == d && d.states != []
    requires Analyze(Current(d), d.vlog, g) == Ok(plan) && NeedsRepair(plan) && AcceptedIsSafe(plan, d.vlog)
    ensures MayCommit(start, trace, d, [PutRecovery(StartState(plan))], g)
    ensures Apply(Current(d), [PutRecovery(StartState(plan))]).recovery == Some(StartState(plan))
  {
    var batch: Batch := [PutRecovery(StartState(plan))];
    assert BeginStep(d, SyncCommit(d, batch), g) && BeginStep(d, BufferCommit(d, batch), g);
    BothMayFollow(start, trace, d, batch, g);
    ApplySingle(Current(d), PutRecovery(StartState(plan)));
  }

  lemma {:induction false} PromoteIsEffect(start: Disk, trace: seq<Disk>, d: Disk, plan: Plan, g: Geometry)
    requires EffectsFrom(start, trace, g) && LastOf(start, trace) == d && d.states != []
    requires Analyze(Current(d), d.vlog, g) == Ok(plan) && AcceptedIsSafe(plan, d.vlog)
    requires plan.recovery.None? && !NeedsRepair(plan) && plan.needsPromote
    ensures var batch := TargetBatch(plan.accepted, None);
            MayCommit(start, trace, d, batch, g) && Ended(start, trace + [SyncCommit(d, batch)], plan, g)
  {
    var batch := TargetBatch(plan.accepted, None);
    assert PromoteStep(d, SyncCommit(d, batch), g) && PromoteStep(d, BufferCommit(d, batch), g);
    BothMayFollow(start, trace, d, batch, g);
    assert (trace + [SyncCommit(d, batch)])[..|trace|] == trace;
  }

  lemma {:induction false} FinishIsEffect(start: Disk, trace: seq<Disk>, d: Disk, g: Geometry)
    requires EffectsFrom(start, trace, g) && LastOf(start, trace) == d && d.states != []
    requires Current(d).recovery.Some?
    requires var rs := Current(d).recovery.value; rs.phase == Undo && rs.nextUndo == rs.target.seqNo
    ensures var rs := Current(d).recovery.value;
            MayCommit(start, trace, d, TargetBatch(rs.target, Some(AfterUndo(rs))), g)
  {
    var rs := Current(d).recovery.value;
    var batch := TargetBatch(rs.target, Some(AfterUndo(rs)));
    assert FinishUndoStep(d, SyncCommit(d, batch)) && FinishUndoStep(d, BufferCommit(d, batch));
    BothMayFollow(start, trace, d, batch, g);
  }

  lemma {:induction false} ClearIsEffect(start: Disk, trace: seq<Disk>, d: Disk, plan: Plan, g: Geometry)
    requires EffectsFrom(start, trace, g) && LastOf(start, trace) == d && d.states != []
    requires Current(d).recovery.Some? && Current(d).recovery.value.phase != Undo
    requires var rs := Current(d).recovery.value;
             rs.phase == Trim ==> d.vlog == TrimTo(d.vlog, rs.target.end) && PhysicalTail(d.vlog.files) == rs.target.end
    ensures MayCommit(start, trace, d, [DeleteRecovery], g)
    ensures Ended(start, trace + [SyncCommit(d, [DeleteRecovery])], plan, g)
  {
    assert ClearStep(d, SyncCommit(d, [DeleteRecovery])) && ClearStep(d, BufferCommit(d, [DeleteRecovery]));
    BothMayFollow(start, trace, d, [DeleteRecovery], g);
    assert (trace + [SyncCommit(d, [DeleteRecovery])])[..|trace|] == trace;
  }

  /** Analysis reads envelopes and files, not how much of them is synced. */
  lemma {:induction false} AnalysisIgnoresSynced(ix: Index, vlog: VLog, plan: Plan, g: Geometry)
    requires Analyze(ix, vlog, g) == Ok(plan)
    ensures Analyze(ix, SyncThrough(vlog, plan.accepted.end), g) == Ok(plan)
    ensures AcceptedIsSafe(plan, SyncThrough(vlog, plan.accepted.end))
  {
    var vlog' := SyncThrough(vlog, plan.accepted.end);
    assert MetadataSound(ix, vlog', g);
    var descs := LoadDescriptors(ix.txs, ix.frontier.seqNo, ix.head).value;
    assert ChooseTarget(ix, vlog', descs) == ChooseTarget(ix, vlog, descs);
  }

  lemma {:induction false} CountOfCounted(envs: seq<Envelope>, end: VLogEnd)
    ensures CountThrough(envs[..CountThrough(envs, end)], end) == CountThrough(envs, end)
    decreases |envs|
  {
    var n := CountThrough(envs, end);
    if envs != [] && end.At? && !PosLeq(envs[|envs| - 1].end, end.pos) {
      var init := envs[..|envs| - 1];
      CountOfCounted(init, end);
      assert init[..n] == envs[..n];
    } else {
      assert envs[..|envs|] == envs;
    }
  }

  lemma {:induction false} TrimmedTwice(files: Inventory, end: VLogEnd)
    ensures TrimmedFiles(TrimmedFiles(files, end), end) == TrimmedFiles(files, end)
    decreases |files|
  {
    if end.At? && files != [] && files[|files| - 1].file > end.pos.file {
      TrimmedTwice(files[..|files| - 1], end);
    }
  }

  /** Repeating an interrupted or completed trim is harmless. */
  lemma {:induction false} TrimIsIdempotent(vlog: VLog, end: VLogEnd)
    ensures TrimTo(TrimTo(vlog, end), end) == TrimTo(vlog, end)
  {
    CountOfCounted(vlog.envs, end);
    TrimmedTwice(vlog.files, end);
    var n := CountThrough(vlog.envs, end);
    assert vlog.envs[..n][..n] == vlog.envs[..n];
  }
}
