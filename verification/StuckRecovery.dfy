/**
 * Open can be refused for good. A recovery that found nothing to trim records that. If the commit that
 * removes the record is applied without being durable, the store can be opened, written to, and crash
 * back to the record, whose next analysis takes the new bytes for corruption.
 */
module StuckRecovery {
  import opened Basics
  import opened Index
  import opened CommitProtocol
  import opened Topology
  import opened History
  import opened Recovery
  import opened RecoveryInvariant
  import opened RecoverySteps
  import opened RestartableRecovery
  import opened RecoveryExecution
  import opened Open
  import opened Running
  import opened StoreSystem
  import opened StoreSteps
  import opened CrashConsistency
  import opened Durability
  import opened Exceptions

  // ---------------------------------------------------------------- from any reachable store

  /** An older state in recovery that ruled out a trim, behind a store that Open accepts. */
  predicate RecordBehind(s: System, i: nat) {
    && i < |s.past| < |s.disk.states|
    && s.disk.states[i].recovery.Some? && !s.disk.states[i].recovery.value.trimRequired
  }

  /** The recorded target ends before anything that is written from now on. */
  lemma {:induction false} RecordEndsBefore(s: System, i: nat, t: Tx, g: Geometry)
    requires Inv(s, g) && RecordBehind(s, i) && Current(s.disk).recovery.None? && Current(s.disk).frontier == FrontierAt(s.log)
    requires TxOk(s.log, t) && HasEnvelope(t)
    ensures HasSuffixAfter(Filled(At(t.desc.meta.end), g), s.disk.states[i].recovery.value.target.end)
  {
    var ix, own, cur := s.disk.states[i], s.past[i], Current(s.disk);
    var n := ix.recovery.value.target.seqNo;
    assert Older(s.past, s.log, s.disk, s.safe, i);
    var k: nat :| Shares(own, ix, s.log, cur, s.disk.vlog.envs, k);
    assert own[..n] == own[..k][..n] && s.log[..n] == s.log[..k][..n];
    FrontiersGrow(s.log, n, |s.log|);
    assert s.log[..|s.log|] == s.log;
    FilledHasSuffix(t.desc.meta.end, ix.recovery.value.target.end, g);
  }

  /** One buffered write of a healthy session. */
  lemma {:induction false} WriteHappens(s: System, t: Tx, g: Geometry) returns (s': System)
    requires Inv(s, g) && s.session.Some? && s.session.value.health == Healthy
    requires TxOk(s.log, t) && HasEnvelope(t) && Fits(t.desc.meta.end, g) && Fresh(t.desc.meta.uuid, s.past)
    ensures Step(s, CommitEvent(t, false, NoFault), s', g) && Inv(s', g) && Current(s'.disk).recovery.None?
    ensures s'.past == s.past + [s.log] && s'.log == s.log + [t] && s'.disk.vlog == AppendEnvelope(s.disk.vlog, t, g)
    ensures s'.disk.states == s.disk.states + [Current(s'.disk)] && Current(s'.disk).frontier == Current(s.disk).frontier
  {
    s' := CommitResult(s, t, false, NoFault, g);
    CommitKeepsInv(s, t, false, NoFault, g);
    BufferedIsPlain(s, t, g);
  }

  /**
   * Whenever a record that ruled out a trim is behind a store that Open accepts, any one buffered
   * write and a system crash that keeps its bytes lead to a store that Open refuses.
   */
  lemma {:induction false} RecordBehindCanStick(s: System, i: nat, t: Tx, g: Geometry)
    returns (s1: System, s2: System, s3: System)
    requires Inv(s, g) && s.session.None? && Recovered(s.disk, g) && RecordBehind(s, i)
    requires TxOk(s.log, t) && HasEnvelope(t) && Fits(t.desc.meta.end, g) && Fresh(t.desc.meta.uuid, s.past)
    ensures Step(s, OpenEvent, s1, g) && Step(s1, CommitEvent(t, false, NoFault), s2, g)
    ensures Step(s2, StopEvent(Some(i), s2.disk.vlog), s3, g)
    ensures s3.session.None? && s3.disk.states == [s.disk.states[i]] && Inv(s3, g)
    ensures Stuck(Current(s3.disk), s3.disk.vlog.files)
  {
    HandOffIsAccepted(s, g);
    s1 := s.(session := Some(OpenedSession(s.disk)));
    s2 := WriteHappens(s1, t, g);
    s3 := StopHappens(s2, Some(i), g);
    RecoveredShowsHistory(s.log, s.disk, s.safe, g);
    RecordEndsBefore(s, i, t, g);
  }

  /** The last commit of a recovery without trim, applied and not durable, leaves its record behind. */
  lemma {:induction false} UnsyncedClearLeavesRecord(s: System, g: Geometry) returns (s': System, after: Disk)
    requires Inv(s, g) && s.session.None? && Unstuck(s.disk)
    requires Current(s.disk).recovery.Some? && Current(s.disk).recovery.value.phase == Finalize
    ensures after == BufferCommit(s.disk, [DeleteRecovery]) && Step(s, RecoveryEvent(after), s', g) && Inv(s', g)
    ensures s'.session.None? && Recovered(s'.disk, g) && RecordBehind(s', |s.past|)
    ensures s'.past == s.past + [s.log] && s'.log == s.log && s'.disk == after
  {
    after := BufferCommit(s.disk, [DeleteRecovery]);
    assert ClearStep(s.disk, after);
    s' := RecoveryHappens(s, after, g);
    ClearedIsRecovered(s.log, s.disk, after, s.safe, g);
    ApplySingle(Current(s.disk), DeleteRecovery);
    assert s.log[..|s.log|] == s.log;
  }

  lemma {:induction false} RecoveryHappens(s: System, after: Disk, g: Geometry) returns (s': System)
    requires Inv(s, g) && s.session.None? && RecoveryStep(s.disk, after, g)
    ensures after.states != [] && s' == RecoveryResult(s, after) && Step(s, RecoveryEvent(after), s', g)
    ensures Inv(s', g) && Unstuck(s'.disk) && s'.session.None?
  {
    EffectKeepsUnstuck(s.disk, after, g);
    RecoveryKeepsInv(s, after, g);
    s' := RecoveryResult(s, after);
  }

  // ---------------------------------------------------------------- exactly when Open stays possible

  /** Whatever happens after this recovery commit, if nothing else stays unknown, no analysis fails. */
  ghost predicate Served(s: System, after: Disk, g: Geometry)
    requires after.states != []
  {
    forall events, last :: Leads(RecoveryResult(s, after), events, last, true, g) ==> Analyzable(last, g)
  }

  ghost predicate Analyzable(s: System, g: Geometry) {
    s.disk.states != [] && Analyze(Current(s.disk), s.disk.vlog, g).Ok?
  }

  /**
   * The exact condition, in what Open is told by the index: from a stopped store that no unknown
   * outcome preceded, and whose recovery has only its record left to remove, Open stays possible in all
   * continuations if and only if that commit was reported durable.
   */
  lemma {:induction false} ClearOutcomeDecides(past: seq<System>, events: seq<Event>, after: Disk, t: Tx, g: Geometry)
    requires Run(past, events, g) && past[0] == EMPTY_SYSTEM
    requires OpensUndoubted(past, events, |events|) && !Doubt(past, events, |events|)
    requires var s := past[|events|];
             && s.session.None? && s.disk.states != [] && Current(s.disk).recovery.Some?
             && Current(s.disk).recovery.value.phase == Finalize && ClearStep(s.disk, after)
             && TxOk(s.log, t) && HasEnvelope(t) && Fits(t.desc.meta.end, g) && NotIn(t.desc.meta.uuid, s.log)
    ensures after.states != []
    ensures Served(past[|events|], after, g) <==> after == SyncCommit(past[|events|].disk, [DeleteRecovery])
  {
    var s := past[|events|];
    UndoubtedRunsAreTrusted(past, events, g, |events|);
    if after == SyncCommit(s.disk, [DeleteRecovery]) {
      DurableClearIsServed(s, after, g);
    } else {
      UnsyncedClearIsNotServed(s, after, t, g);
    }
  }

  lemma {:induction false} DurableClearIsServed(s: System, after: Disk, g: Geometry)
    requires Sure(s, g) && s.session.None? && ClearStep(s.disk, after) && after == SyncCommit(s.disk, [DeleteRecovery])
    ensures Served(s, after, g)
  {
    assert |s.disk.states| == 1;
    var s' := RecoveryHappens(s, after, g);
    StepKeepsTrust(s, RecoveryEvent(after), s', g);
    forall events, last | Leads(s', events, last, true, g) ensures Analyzable(last, g) {
      QuietRunIsAnalyzable(s', events, last, g);
    }
  }

  lemma {:induction false} QuietRunIsAnalyzable(first: System, events: seq<Event>, last: System, g: Geometry)
    requires Sure(first, g) && Leads(first, events, last, true, g)
    ensures Analyzable(last, g)
  {
    var states :| LeadsBy(states, first, events, last, true, g);
    QuietRunsStaySure(states, events, g, |events|);
    AnalysisFindsTarget(last.log, last.disk, last.safe, g);
  }

  lemma {:induction false} UnsyncedClearIsNotServed(s: System, after: Disk, t: Tx, g: Geometry)
    requires Sure(s, g) && s.session.None? && after == BufferCommit(s.disk, [DeleteRecovery])
    requires Current(s.disk).recovery.Some? && Current(s.disk).recovery.value.phase == Finalize
    requires TxOk(s.log, t) && HasEnvelope(t) && Fits(t.desc.meta.end, g) && NotIn(t.desc.meta.uuid, s.log)
    ensures !Served(s, after, g)
  {
    var s0, cleared := UnsyncedClearLeavesRecord(s, g);
    var s1, s2, s3 := RecordBehindCanStick(s0, |s.past|, t, g);
    StickFollows(s0, s1, s2, s3, |s.past|, t, g);
    AnalysisFindsTarget(s3.log, s3.disk, s3.safe, g);
    assert !Analyzable(s3, g);
  }

  lemma {:induction false} StickFollows(s0: System, s1: System, s2: System, s3: System, i: nat, t: Tx, g: Geometry)
    requires Step(s0, OpenEvent, s1, g) && Step(s1, CommitEvent(t, false, NoFault), s2, g)
    requires Step(s2, StopEvent(Some(i), s2.disk.vlog), s3, g)
    ensures exists events :: Leads(s0, events, s3, true, g)
  {
    NoEvents(s0, true, g);
    TwoMoreEvents(s0, [], s0, OpenEvent, s1, CommitEvent(t, false, NoFault), s2, true, g);
    OneMoreEvent(s0, [] + [OpenEvent, CommitEvent(t, false, NoFault)], s2, StopEvent(Some(i), s2.disk.vlog), s3, true, g);
  }

  // ---------------------------------------------------------------- one such run

  /** Recovery of a store whose only write has lost its bytes, up to the record that it is done. */
  lemma {:induction false} LostWriteIsUndone(s: System, g: Geometry) returns (s1: System, s2: System, s3: System)
    requires Inv(s, g) && s.session.None? && |s.log| == 1 && HasEnvelope(s.log[0]) && s.disk.vlog == VLog([], 0, [])
    requires |s.disk.states| == 1 && Current(s.disk).recovery.None? && Current(s.disk).frontier.seqNo == 0
    ensures Step(s, RecoveryEvent(s1.disk), s1, g) && Step(s1, RecoveryEvent(s2.disk), s2, g)
    ensures Step(s2, RecoveryEvent(s3.disk), s3, g)
    ensures Inv(s3, g) && s3.session.None? && Unstuck(s3.disk) && s3.log == [] && s3.past == []
    ensures Current(s3.disk).recovery.Some? && Current(s3.disk).recovery.value.phase == Finalize
  {
    s1 := LostWriteBegins(s, g);
    s2 := LastWriteIsUndone(s1, g);
    s3 := UndoIsFinished(s2, g);
  }

  lemma {:induction false} LostWriteBegins(s: System, g: Geometry) returns (s1: System)
    requires Inv(s, g) && s.session.None? && |s.log| == 1 && HasEnvelope(s.log[0]) && s.disk.vlog == VLog([], 0, [])
    requires |s.disk.states| == 1 && Current(s.disk).recovery.None? && Current(s.disk).frontier.seqNo == 0
    ensures Step(s, RecoveryEvent(s1.disk), s1, g) && Inv(s1, g) && s1.session.None? && Unstuck(s1.disk)
    ensures s1.log == s.log && s1.past == [] && |s1.disk.states| == 1
    ensures Current(s1.disk).recovery == Some(RecoveryState(Undo, 1, Frontier(0, 0, Empty), 1, false))
  {
    var plan := LostWritePlan(s.log, s.disk, s.safe, g);
    var after := SyncCommit(s.disk, [PutRecovery(StartState(plan))]);
    assert BeginStep(s.disk, after, g);
    s1 := RecoveryHappens(s, after, g);
    ApplySingle(Current(s.disk), PutRecovery(StartState(plan)));
    assert s.log[..1] == s.log;
  }

  /** Nothing of the only write survives: all of it is to be undone, and there is nothing to trim. */
  lemma {:induction false} LostWritePlan(log: Log, d: Disk, acked: nat, g: Geometry) returns (plan: Plan)
    requires Solo(log, d, acked, g) && |log| == 1 && HasEnvelope(log[0]) && d.vlog == VLog([], 0, [])
    requires Current(d).recovery.None? && Current(d).frontier.seqNo == 0
    ensures Analyze(Current(d), d.vlog, g) == Ok(plan) && NeedsRepair(plan) && AcceptedIsSafe(plan, d.vlog)
    ensures StartState(plan) == RecoveryState(Undo, 1, Frontier(0, 0, Empty), 1, false)
  {
    EnvelopesStep(log, 0);
    AnalysisFindsTarget(log, d, acked, g);
    plan := ExpectedPlan(log, Current(d), d.vlog);
  }

  lemma {:induction false} LastWriteIsUndone(s1: System, g: Geometry) returns (s2: System)
    requires Inv(s1, g) && s1.session.None? && Unstuck(s1.disk) && |s1.log| == 1 && |s1.disk.states| == 1 && s1.past == []
    requires Current(s1.disk).recovery == Some(RecoveryState(Undo, 1, Frontier(0, 0, Empty), 1, false))
    ensures Step(s1, RecoveryEvent(s2.disk), s2, g) && Inv(s2, g) && s2.session.None? && Unstuck(s2.disk)
    ensures s2.log == [] && s2.past == [] && |s2.disk.states| == 1
    ensures Current(s2.disk).recovery == Some(RecoveryState(Undo, 1, Frontier(0, 0, Empty), 0, false))
  {
    var ix := Current(s1.disk);
    LastIsUndoable(s1.log, ix, s1.safe);
    var next := ix.recovery.value.(nextUndo := 0);
    var after := SyncCommit(s1.disk, UndoBatch(s1.log[0].desc, next));
    assert UndoStep(s1.disk, after);
    s2 := RecoveryHappens(s1, after, g);
    UndoBatchSetsRecovery(ix, s1.log[0].desc, next);
  }

  lemma {:induction false} UndoIsFinished(s2: System, g: Geometry) returns (s3: System)
    requires Inv(s2, g) && s2.session.None? && Unstuck(s2.disk) && s2.log == [] && |s2.disk.states| == 1 && s2.past == []
    requires Current(s2.disk).recovery == Some(RecoveryState(Undo, 1, Frontier(0, 0, Empty), 0, false))
    ensures Step(s2, RecoveryEvent(s3.disk), s3, g) && Inv(s3, g) && s3.session.None? && Unstuck(s3.disk)
    ensures s3.log == [] && s3.past == []
    ensures Current(s3.disk).recovery.Some? && Current(s3.disk).recovery.value.phase == Finalize
  {
    var rs := Current(s2.disk).recovery.value;
    var after := SyncCommit(s2.disk, TargetBatch(rs.target, Some(AfterUndo(rs))));
    assert FinishUndoStep(s2.disk, after);
    s3 := RecoveryHappens(s2, after, g);
    ApplyTarget(Current(s2.disk), rs.target, Some(AfterUndo(rs)));
  }

  /** The first write of a store, and a system crash that keeps its index batch and none of its bytes. */
  lemma {:induction false} WriteLosesItsBytes(g: Geometry) returns (s: System)
    requires g == PRODUCTION
    ensures Leads(EMPTY_SYSTEM, [OpenEvent, CommitEvent(ExampleTx(1), false, NoFault), StopEvent(Some(1), VLog([], 0, []))],
                  s, false, g)
    ensures Inv(s, g) && s.session.None? && s.log == [ExampleTx(1)] && s.disk.vlog == VLog([], 0, [])
    ensures |s.disk.states| == 1 && Current(s.disk).recovery.None? && Current(s.disk).frontier.seqNo == 0
  {
    var t, gone := ExampleTx(1), VLog([], 0, []);
    ExampleFits(1);
    var s0 := EmptyOpens(g);
    var s1 := WriteHappens(s0, t, g);
    var write, crash := CommitEvent(t, false, NoFault), StopEvent(Some(1), gone);
    OneMoreEvent(EMPTY_SYSTEM, [OpenEvent], s0, write, s1, false, g);
    UnsyncedBytesMayGo(s1, g);
    s := StopResult(s1, Some(1), gone);
    StopKeepsInv(s1, Some(1), gone, g);
    OneMoreEvent(EMPTY_SYSTEM, [OpenEvent] + [write], s1, crash, s, false, g);
    assert [OpenEvent] + [write] + [crash] == [OpenEvent, write, crash];
  }

  lemma {:induction false} UnsyncedBytesMayGo(s: System, g: Geometry)
    requires |s.disk.states| == 2 && Current(s.disk).recovery.None? && s.disk.vlog.synced == 0
    ensures CrashWhileDown(s.disk, StopDisk(s.disk, Some(1), VLog([], 0, [])), g)
  {
    assert StopDisk(s.disk, Some(1), VLog([], 0, [])).states == [s.disk.states[1]];
  }

  /**
   * From an empty store to one that Open refuses: a write whose bytes are lost is undone, the last
   * commit of that recovery is applied without being durable, the store is opened and written to, and
   * a system crash brings the recovery record back.
   */
  lemma {:induction false} RefusedStoreIsReachable() returns (s: System, a: Disk, b: Disk, c: Disk, d: Disk, vlog: VLog)
    ensures Leads(EMPTY_SYSTEM, FailingRun(a, b, c, d, vlog), s, false, PRODUCTION)
    ensures s.session.None? && s.disk.states != [] && Analyze(Current(s.disk), s.disk.vlog, PRODUCTION) == Err(Corruption)
  {
    var g := PRODUCTION;
    ExampleFits(2);
    var s0 := WriteLosesItsBytes(g);
    var s1, s2, s3 := LostWriteIsUndone(s0, g);
    var s4, cleared := UnsyncedClearLeavesRecord(s3, g);
    var s5, s6, s7 := RecordBehindCanStick(s4, 0, ExampleTx(2), g);
    s, a, b, c, d, vlog := s7, s1.disk, s2.disk, s3.disk, cleared, s6.disk.vlog;
    RecoveryFollows(s0, s1, s2, s3, s4, d, g);
    SessionFollows(FailingStart() + FailingRecovery(a, b, c, d), s4, s5, s6, s7, g);
    AnalysisFindsTarget(s7.log, s7.disk, s7.safe, g);
  }

  function FailingStart(): seq<Event> {
    [OpenEvent, CommitEvent(ExampleTx(1), false, NoFault), StopEvent(Some(1), VLog([], 0, []))]
  }

  function FailingRecovery(a: Disk, b: Disk, c: Disk, d: Disk): seq<Event> {
    [RecoveryEvent(a), RecoveryEvent(b), RecoveryEvent(c), RecoveryEvent(d)]
  }

  function FailingSession(vlog: VLog): seq<Event> {
    [OpenEvent, CommitEvent(ExampleTx(2), false, NoFault), StopEvent(Some(0), vlog)]
  }

  function FailingRun(a: Disk, b: Disk, c: Disk, d: Disk, vlog: VLog): seq<Event> {
    FailingStart() + FailingRecovery(a, b, c, d) + FailingSession(vlog)
  }

  lemma {:induction false} RecoveryFollows(s0: System, s1: System, s2: System, s3: System, s4: System, d: Disk, g: Geometry)
    requires Leads(EMPTY_SYSTEM, FailingStart(), s0, false, g)
    requires Step(s0, RecoveryEvent(s1.disk), s1, g) && Step(s1, RecoveryEvent(s2.disk), s2, g)
    requires Step(s2, RecoveryEvent(s3.disk), s3, g) && Step(s3, RecoveryEvent(d), s4, g)
    ensures Leads(EMPTY_SYSTEM, FailingStart() + FailingRecovery(s1.disk, s2.disk, s3.disk, d), s4, false, g)
  {
    var start := FailingStart();
    var x, y, z, w := RecoveryEvent(s1.disk), RecoveryEvent(s2.disk), RecoveryEvent(s3.disk), RecoveryEvent(d);
    TwoMoreEvents(EMPTY_SYSTEM, start, s0, x, s1, y, s2, false, g);
    TwoMoreEvents(EMPTY_SYSTEM, start + [x, y], s2, z, s3, w, s4, false, g);
    assert start + [x, y] + [z, w] == start + FailingRecovery(s1.disk, s2.disk, s3.disk, d);
  }

  lemma {:induction false} SessionFollows(events: seq<Event>, s4: System, s5: System, s6: System, s7: System, g: Geometry)
    requires Leads(EMPTY_SYSTEM, events, s4, false, g)
    requires Step(s4, OpenEvent, s5, g) && Step(s5, CommitEvent(ExampleTx(2), false, NoFault), s6, g)
    requires Step(s6, StopEvent(Some(0), s6.disk.vlog), s7, g)
    ensures Leads(EMPTY_SYSTEM, events + FailingSession(s6.disk.vlog), s7, false, g)
  {
    var write, crash := CommitEvent(ExampleTx(2), false, NoFault), StopEvent(Some(0), s6.disk.vlog);
    TwoMoreEvents(EMPTY_SYSTEM, events, s4, OpenEvent, s5, write, s6, false, g);
    OneMoreEvent(EMPTY_SYSTEM, events + [OpenEvent, write], s6, crash, s7, false, g);
    assert events + [OpenEvent, write] + [crash] == events + FailingSession(s6.disk.vlog);
  }

  /** Nothing but another stop can happen to a refused store, and only losing bytes can free it. */
  lemma {:induction false} RefusedStaysRefused(s: System, e: Event, s': System, g: Geometry)
    requires Inv(s, g) && s.session.None? && Stuck(Current(s.disk), s.disk.vlog.files) && |s.disk.states| == 1
    requires Step(s, e, s', g)
    ensures e.StopEvent? && s'.session.None? && s'.disk.states == s.disk.states
    ensures Stuck(Current(s'.disk), s'.disk.vlog.files)
         <==> HasSuffixAfter(e.vlog.files, Current(s.disk).recovery.value.target.end)
  {
  }
}
