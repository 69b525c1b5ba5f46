/**
 * The two promises that the store does not keep, each with the exact condition under which it does:
 * an acknowledgement of durability can be broken after a commit whose outcome was unknown, and Open can
 * be refused after a recovery commit whose outcome was unknown. Both end in concrete runs.
 */
module Exceptions {
  import opened Basics
  import opened Index
  import opened CommitProtocol
  import opened Topology
  import opened History
  import opened Recovery
  import opened RecoveryInvariant
  import opened RecoverySteps
  import opened RestartableRecovery
  import opened Open
  import opened Running
  import opened StoreSystem
  import opened StoreSteps
  import opened CrashConsistency
  import opened Durability

  // ---------------------------------------------------------------- reachable stores

  /** No sync, barrier or recovery commit of this run stays unknown. */
  predicate Quiet(states: seq<System>, events: seq<Event>) {
    |states| == |events| + 1 && forall i :: 0 <= i < |events| ==> QuietAt(states, events, i)
  }

  predicate QuietAt(states: seq<System>, events: seq<Event>, i: nat)
    requires i < |events| < |states|
  {
    !Doubts(states[i], events[i], false)
  }

  /** The events lead from `first` to `last`, quietly if that is asked for. */
  ghost predicate Leads(first: System, events: seq<Event>, last: System, quiet: bool, g: Geometry) {
    exists states :: LeadsBy(states, first, events, last, quiet, g)
  }

  ghost predicate LeadsBy(
    states: seq<System>, first: System, events: seq<Event>, last: System, quiet: bool, g: Geometry)
  {
    Run(states, events, g) && states[0] == first && states[|events|] == last && (quiet ==> Quiet(states, events))
  }

  lemma {:induction false} NoEvents(s: System, quiet: bool, g: Geometry)
    ensures Leads(s, [], s, quiet, g)
  {
    assert LeadsBy([s], s, [], s, quiet, g);
  }

  lemma {:induction false} OneMoreEvent(
    first: System, events: seq<Event>, s: System, e: Event, s': System, quiet: bool, g: Geometry)
    requires Leads(first, events, s, quiet, g) && Step(s, e, s', g) && (quiet ==> !Doubts(s, e, false))
    ensures Leads(first, events + [e], s', quiet, g)
  {
    var states :| LeadsBy(states, first, events, s, quiet, g);
    RunExtends(states, events, e, s', g);
    if quiet { QuietExtends(states, events, e, s'); }
    assert LeadsBy(states + [s'], first, events + [e], s', quiet, g);
  }

  lemma {:induction false} TwoMoreEvents(
    first: System, events: seq<Event>, s: System, e: Event, s': System, e': Event, s'': System, quiet: bool, g: Geometry)
    requires Leads(first, events, s, quiet, g) && Step(s, e, s', g) && Step(s', e', s'', g)
    requires quiet ==> !Doubts(s, e, false) && !Doubts(s', e', false)
    ensures Leads(first, events + [e, e'], s'', quiet, g)
  {
    OneMoreEvent(first, events, s, e, s', quiet, g);
    OneMoreEvent(first, events + [e], s', e', s'', quiet, g);
    assert events + [e] + [e'] == events + [e, e'];
  }

  lemma {:induction false} RunExtends(states: seq<System>, events: seq<Event>, e: Event, s': System, g: Geometry)
    requires Run(states, events, g) && Step(states[|events|], e, s', g)
    ensures Run(states + [s'], events + [e], g)
  {
    var longer, more := states + [s'], events + [e];
    forall i | 0 <= i < |more| ensures StepAt(longer, more, g, i) {
      if i < |events| { assert StepAt(states, events, g, i); }
    }
  }

  lemma {:induction false} QuietExtends(states: seq<System>, events: seq<Event>, e: Event, s': System)
    requires Quiet(states, events) && !Doubts(states[|events|], e, false)
    ensures Quiet(states + [s'], events + [e])
  {
    var longer, more := states + [s'], events + [e];
    forall i | 0 <= i < |more| ensures QuietAt(longer, more, i) {
      if i < |events| { assert QuietAt(states, events, i); }
    }
  }

  /** Exactly the stuck ones among the reachable stores are refused by analysis. */
  lemma {:induction false} AnalysisFailsExactly(events: seq<Event>, s: System, g: Geometry)
    requires Leads(EMPTY_SYSTEM, events, s, false, g)
    ensures s.disk.states != []
    ensures Analyze(Current(s.disk), s.disk.vlog, g).Err? <==> Stuck(Current(s.disk), s.disk.vlog.files)
  {
    var states :| LeadsBy(states, EMPTY_SYSTEM, events, s, false, g);
    EmptyKeepsInv(g);
    RunsKeepInv(states, events, g, |events|);
    AnalysisFindsTarget(s.log, s.disk, s.safe, g);
  }

  // ---------------------------------------------------------------- a broken acknowledgement

  /** A system crash may keep the Value Log and any one of the index states. */
  lemma {:induction false} AnyStateMaySurvive(log: Log, d: Disk, safe: nat, g: Geometry, survivor: Option<nat>)
    requires Solo(log, d, safe, g) && Current(d).recovery.None? && (survivor.Some? ==> survivor.value < |d.states|)
    ensures CrashWhileDown(d, StopDisk(d, survivor, d.vlog), g)
  {
    forall j | 0 <= j < |d.vlog.envs| ensures Decays(d.vlog.envs[j], d.vlog.envs[j], j < d.vlog.synced) {
    }
    var after := StopDisk(d, survivor, d.vlog);
    assert survivor.Some? ==> after.states == [d.states[survivor.value]];
  }

  lemma {:induction false} StopHappens(s: System, survivor: Option<nat>, g: Geometry) returns (s': System)
    requires Inv(s, g) && Current(s.disk).recovery.None? && (survivor.Some? ==> survivor.value < |s.disk.states|)
    ensures s' == StopResult(s, survivor, s.disk.vlog) && Step(s, StopEvent(survivor, s.disk.vlog), s', g) && Inv(s', g)
  {
    AnyStateMaySurvive(s.log, s.disk, s.safe, g, survivor);
    StopKeepsInv(s, survivor, s.disk.vlog, g);
    s' := StopResult(s, survivor, s.disk.vlog);
  }

  /** `s1` shows `t` on top of what `s` showed, but a crash may still bring back the older index. */
  ghost predicate AppliedOnly(s: System, t: Tx, s1: System, g: Geometry) {
    && Live(s1.past, s1.log, s1.disk, s1.safe, g) && s1.log == s.log + [t] && s1.told == s.told
    && Current(s1.disk).frontier == FrontierAt(s1.log)
    && s1.past == s.past + [s.log]
  }

  /** A sync commit that was applied but not made durable. */
  lemma {:induction false} AppliedButUnsynced(s: System, t: Tx, g: Geometry)
    requires Inv(s, g) && s.session.Some? && s.session.value.health == Healthy
    requires TxOk(s.log, t) && (HasEnvelope(t) ==> Fits(t.desc.meta.end, g)) && Fresh(t.desc.meta.uuid, s.past)
    ensures AppliedOnly(s, t, CommitResult(s, t, true, Unknown(true), g), g)
  {
    AppendStages(s, t, g);
    AppliedAfterAppend(AfterAppend(s, t, g), t, g);
    AppendKeepsRecord(s, t, g, SyncAndCommit(AfterAppend(s, t, g), t, true, Unknown(true)));
  }

  lemma {:induction false} AppendKeepsRecord(s: System, t: Tx, g: Geometry, s1: System)
    requires s.session.Some? && AppliedOnly(AfterAppend(s, t, g), t, s1, g)
    ensures AppliedOnly(s, t, s1, g)
  {
  }

  lemma {:induction false} AppliedAfterAppend(a: System, t: Tx, g: Geometry)
    requires Staged(a, t, g)
    ensures AppliedOnly(a, t, SyncAndCommit(a, t, true, Unknown(true)), g)
  {
    TargetIsFrontier(a, t, g);
    var x := a.session.value;
    if TargetVLogSeq(x, t) > x.frontier.vlogSeq {
      SyncStages(a, t, g);
      UnknownPublishes(AfterSync(a), t, g);
      SyncKeepsRecord(a, t, g, CommitIndex(AfterSync(a), t, Some(FrontierAt(a.log + [t])), Unknown(true)));
    } else {
      NoSyncNeeded(a, t, g);
      UnknownPublishes(a, t, g);
    }
  }

  lemma {:induction false} SyncKeepsRecord(a: System, t: Tx, g: Geometry, s1: System)
    requires a.session.Some? && AppliedOnly(AfterSync(a), t, s1, g)
    ensures AppliedOnly(a, t, s1, g)
  {
  }

  lemma {:induction false} UnknownPublishes(s: System, t: Tx, g: Geometry)
    requires Staged(s, t, g) && |EnvelopesOf(s.log + [t])| <= s.disk.vlog.synced
    ensures AppliedOnly(s, t, CommitIndex(s, t, Some(FrontierAt(s.log + [t])), Unknown(true)), g)
  {
    var f := Some(FrontierAt(s.log + [t]));
    BufferCommitKeepsLive(s.past, s.log, t, s.disk, s.safe, g, f);
    CommittedStateOk(Current(s.disk), s.log, t, f, s.disk.vlog, s.safe);
  }

  lemma {:induction false} FilledTail(end: VLogEnd, g: Geometry)
    ensures PhysicalTail(Filled(end, g)) == end
  {
  }

  lemma {:induction false} FullyPublishedIsRecovered(past: seq<Log>, log: Log, d: Disk, safe: nat, g: Geometry)
    requires Live(past, log, d, safe, g) && Current(d).frontier == FrontierAt(log)
    ensures Recovered(d, g)
  {
    FilledTail(FrontierAt(log).end, g);
    TailMatchesExactly(d.vlog.files, FrontierAt(log).end, g);
    NothingLeftIsRecovered(log, d, safe, g);
  }

  /** The restarted store: opened without repair, and acknowledged by an empty sync batch. */
  lemma {:induction false} RestartAcknowledges(s1: System, g: Geometry) returns (s2: System, s3: System, s4: System)
    requires Inv(s1, g) && Live(s1.past, s1.log, s1.disk, s1.safe, g) && Current(s1.disk).frontier == FrontierAt(s1.log)
    requires s1.told <= |s1.log|
    ensures Step(s1, StopEvent(None, s1.disk.vlog), s2, g) && Step(s2, OpenEvent, s3, g) && Step(s3, BarrierEvent(NoFault), s4, g)
    ensures s3.session.Some? && BarrierOutcome(s3.session.value, NoFault) == Committed
    ensures s3.session.value.head == s3.session.value.frontier.seqNo
    ensures s4.told == |s1.log| && s4.past == s1.past && s4.disk == s1.disk && Inv(s4, g)
  {
    s2 := StopHappens(s1, None, g);
    assert s2.disk == s1.disk;
    FullyPublishedIsRecovered(s1.past, s1.log, s1.disk, s1.safe, g);
    HandOffIsAccepted(s2, g);
    s3 := s2.(session := Some(OpenedSession(s2.disk)));
    s4 := BarrierResult(s3, NoFault);
  }

  /**
   * The exception is real: after any sync commit whose outcome was unknown because the index applied
   * it without making it durable, a restarted store reports it durable, an empty sync batch
   * acknowledges it without I/O, and a system crash can still take it away.
   */
  lemma {:induction false} UnknownCommitCanBeAcknowledgedAndLost(s: System, t: Tx, g: Geometry)
    returns (s1: System, s2: System, s3: System, s4: System, s5: System)
    requires Inv(s, g) && s.session.Some? && s.session.value.health == Healthy && s.told <= |s.log|
    requires TxOk(s.log, t) && (HasEnvelope(t) ==> Fits(t.desc.meta.end, g)) && Fresh(t.desc.meta.uuid, s.past)
    ensures Step(s, CommitEvent(t, true, Unknown(true)), s1, g)
    ensures Step(s1, StopEvent(None, s1.disk.vlog), s2, g) && Step(s2, OpenEvent, s3, g) && Step(s3, BarrierEvent(NoFault), s4, g)
    ensures s3.session.Some? && BarrierOutcome(s3.session.value, NoFault) == Committed
    ensures s3.session.value.head == s3.session.value.frontier.seqNo
    ensures Step(s4, StopEvent(Some(|s.past|), s1.disk.vlog), s5, g)
    ensures s5.told == |s.log| + 1 && s5.log == s.log && |Shown(s5)| <= |s.log|
  {
    s1 := UnknownCommitHappens(s, t, g);
    s2, s3, s4 := RestartAcknowledges(s1, g);
    s5 := StopHappens(s4, Some(|s.past|), g);
    ShownCoversSafe(s5, g);
  }

  lemma {:induction false} UnknownCommitHappens(s: System, t: Tx, g: Geometry) returns (s1: System)
    requires Inv(s, g) && s.session.Some? && s.session.value.health == Healthy
    requires TxOk(s.log, t) && (HasEnvelope(t) ==> Fits(t.desc.meta.end, g)) && Fresh(t.desc.meta.uuid, s.past)
    ensures Step(s, CommitEvent(t, true, Unknown(true)), s1, g) && Inv(s1, g) && AppliedOnly(s, t, s1, g)
  {
    s1 := CommitResult(s, t, true, Unknown(true), g);
    AppliedButUnsynced(s, t, g);
    CommitKeepsInv(s, t, true, Unknown(true), g);
  }

  // ---------------------------------------------------------------- exactly when it is kept

  /** Nothing is in doubt, and nothing was promised in vain. */
  ghost predicate Sure(s: System, g: Geometry) {
    Trusted(s, g) && Uniform(s.disk)
  }

  lemma {:induction false} QuietRunsStaySure(states: seq<System>, events: seq<Event>, g: Geometry, n: nat)
    requires Run(states, events, g) && Quiet(states, events) && n < |states| && Sure(states[0], g)
    ensures Sure(states[n], g)
  {
    if n > 0 {
      QuietRunsStaySure(states, events, g, n - 1);
      QuietStep(states, events, g, n - 1);
    }
  }

  lemma {:induction false} QuietStep(states: seq<System>, events: seq<Event>, g: Geometry, i: nat)
    requires Run(states, events, g) && Quiet(states, events) && i < |events|
    requires Sure(states[i], g)
    ensures Sure(states[i + 1], g)
  {
    assert StepAt(states, events, g, i) && QuietAt(states, events, i);
    StepKeepsTrust(states[i], events[i], states[i + 1], g);
    StepKeepsUniform(states[i], events[i], states[i + 1], false, g);
  }

  /** A quiet run from a sync write whose caller was told `outcome` to the store `last`. */
  ghost predicate Continues(
    s: System, t: Tx, outcome: WriteOutcome, fault: Fault, next: System, events: seq<Event>, last: System, g: Geometry)
  {
    && s.session.Some? && CommitOutcome(s.session.value, t, true, fault) == outcome
    && Step(s, CommitEvent(t, true, fault), next, g) && Leads(next, events, last, true, g)
  }

  /** Whatever happens after that outcome, nothing that callers were told is lost. */
  ghost predicate Honoured(s: System, t: Tx, outcome: WriteOutcome, g: Geometry) {
    forall fault, next, events, last ::
      Continues(s, t, outcome, fault, next, events, last, g) ==> last.told <= |Shown(last)|
  }

  /**
   * The exact condition, in what a caller can see: from any healthy store that no unknown outcome
   * preceded, every acknowledgement after a sync write is kept in all continuations if and only if the
   * outcome that the caller was told is not CommitUnknown.
   */
  lemma {:induction false} OutcomeDecides(
    past: seq<System>, events: seq<Event>, t: Tx, outcome: WriteOutcome, g: Geometry)
    requires Run(past, events, g) && past[0] == EMPTY_SYSTEM
    requires OpensUndoubted(past, events, |events|) && !Doubt(past, events, |events|)
    requires var s := past[|events|];
             && s.session.Some? && s.session.value.health == Healthy && TxOk(s.log, t)
             && (HasEnvelope(t) ==> Fits(t.desc.meta.end, g)) && Fresh(t.desc.meta.uuid, s.past)
    ensures Honoured(past[|events|], t, outcome, g) <==> outcome != CommitUnknown
  {
    var s := past[|events|];
    UndoubtedRunsAreTrusted(past, events, g, |events|);
    if outcome == CommitUnknown {
      UnknownIsNotHonoured(s, t, g);
    } else {
      KnownIsHonoured(s, t, outcome, g);
    }
  }

  lemma {:induction false} KnownIsHonoured(s: System, t: Tx, outcome: WriteOutcome, g: Geometry)
    requires Sure(s, g) && outcome != CommitUnknown
    ensures Honoured(s, t, outcome, g)
  {
    forall fault, next, events, last | Continues(s, t, outcome, fault, next, events, last, g)
      ensures last.told <= |Shown(last)|
    {
      KnownContinuationIsKept(s, t, outcome, fault, next, events, last, g);
    }
  }

  lemma {:induction false} KnownContinuationIsKept(
    s: System, t: Tx, outcome: WriteOutcome, fault: Fault, next: System, events: seq<Event>, last: System, g: Geometry)
    requires Sure(s, g) && outcome != CommitUnknown
    requires Continues(s, t, outcome, fault, next, events, last, g)
    ensures last.told <= |Shown(last)|
  {
    StepKeepsTrust(s, CommitEvent(t, true, fault), next, g);
    StepKeepsUniform(s, CommitEvent(t, true, fault), next, false, g);
    QuietRunKeepsTold(next, events, last, g);
  }

  lemma {:induction false} QuietRunKeepsTold(first: System, events: seq<Event>, last: System, g: Geometry)
    requires Sure(first, g) && Leads(first, events, last, true, g)
    ensures last.told <= |Shown(last)|
  {
    var states :| LeadsBy(states, first, events, last, true, g);
    QuietRunsStaySure(states, events, g, |events|);
    ShownCoversSafe(last, g);
  }

  lemma {:induction false} UnknownIsNotHonoured(s: System, t: Tx, g: Geometry)
    requires Trusted(s, g) && s.session.Some? && s.session.value.health == Healthy
    requires TxOk(s.log, t) && (HasEnvelope(t) ==> Fits(t.desc.meta.end, g)) && Fresh(t.desc.meta.uuid, s.past)
    ensures !Honoured(s, t, CommitUnknown, g)
  {
    ShownCoversSafe(s, g);
    var s1, s2, s3, s4, s5 := UnknownCommitCanBeAcknowledgedAndLost(s, t, g);
    NoEvents(s1, true, g);
    LossFollows(s1, [], s1, s2, s3, s4, s5, |s.past|, true, g);
    var events := [] + LossEvents(s1.disk.vlog, |s.past|);
    assert Continues(s, t, CommitUnknown, Unknown(true), s1, events, s5, g);
  }

  /** A restart, a fast acknowledgement, and a system crash. */
  function LossEvents(vlog: VLog, survivor: nat): seq<Event> {
    [StopEvent(None, vlog), OpenEvent, BarrierEvent(NoFault), StopEvent(Some(survivor), vlog)]
  }

  lemma {:induction false} LossFollows(
    first: System, events: seq<Event>, s1: System, s2: System, s3: System, s4: System, s5: System, survivor: nat,
    quiet: bool, g: Geometry)
    requires Leads(first, events, s1, quiet, g)
    requires Step(s1, StopEvent(None, s1.disk.vlog), s2, g) && Step(s2, OpenEvent, s3, g)
    requires Step(s3, BarrierEvent(NoFault), s4, g) && Step(s4, StopEvent(Some(survivor), s1.disk.vlog), s5, g)
    requires s3.session.Some? && s3.session.value.head == s3.session.value.frontier.seqNo
    ensures Leads(first, events + LossEvents(s1.disk.vlog, survivor), s5, quiet, g)
  {
    var vlog := s1.disk.vlog;
    var a, b, c := StopEvent(None, vlog), BarrierEvent(NoFault), StopEvent(Some(survivor), vlog);
    TwoMoreEvents(first, events, s1, a, s2, OpenEvent, s3, quiet, g);
    TwoMoreEvents(first, events + [a, OpenEvent], s3, b, s4, c, s5, quiet, g);
    assert events + LossEvents(vlog, survivor) == events + [a, OpenEvent] + [b, c];
  }

  // ---------------------------------------------------------------- one such run

  /** The first transaction of a store: one empty value under one key, right after the first headers. */
  function ExampleTx(tag: byte): Tx {
    var ops, pointers := [Put([0], [])], [Some(ValuePointer(0, 0, 135, 56, 0))];
    var meta := TxMeta(VLogEnvelope, 1, seq(16, _ => tag), 0, Pos(0, 0), Pos(0, 302), 1, |DistinctKeys(ops)|, 0);
    Tx(ops, pointers, Descriptor(meta, PlannedMutations(map[], ops, pointers)))
  }

  lemma {:induction false} ExampleFits(tag: byte)
    requires tag != 0
    ensures TxOk([], ExampleTx(tag)) && HasEnvelope(ExampleTx(tag)) && Fits(ExampleTx(tag).desc.meta.end, PRODUCTION)
    ensures Fresh(ExampleTx(tag).desc.meta.uuid, []) && Fresh(ExampleTx(tag).desc.meta.uuid, [[]])
  {
    var t := ExampleTx(tag);
    assert t.desc.meta.uuid[0] != 0;
    assert t.ops[0].Put?;
  }

  /** The empty store, opened. */
  lemma {:induction false} EmptyOpens(g: Geometry) returns (s: System)
    ensures s == EMPTY_SYSTEM.(session := Some(OpenedSession(EMPTY_SYSTEM.disk)))
    ensures Inv(s, g) && s.session.value.health == Healthy && Leads(EMPTY_SYSTEM, [OpenEvent], s, false, g)
  {
    EmptyKeepsInv(g);
    NoEvents(EMPTY_SYSTEM, false, g);
    assert Recovered(EMPTY_SYSTEM.disk, g);
    HandOffIsAccepted(EMPTY_SYSTEM, g);
    s := EMPTY_SYSTEM.(session := Some(OpenedSession(EMPTY_SYSTEM.disk)));
    OneMoreEvent(EMPTY_SYSTEM, [], EMPTY_SYSTEM, OpenEvent, s, false, g);
    assert [] + [OpenEvent] == [OpenEvent];
  }

  /** From an empty store to an acknowledged write that is gone: Open, one write, restart, Open, sync, crash. */
  lemma {:induction false} AcknowledgedAndLost() returns (s: System, vlog: VLog)
    ensures Leads(EMPTY_SYSTEM,
                  [OpenEvent, CommitEvent(ExampleTx(1), true, Unknown(true)), StopEvent(None, vlog), OpenEvent,
                   BarrierEvent(NoFault), StopEvent(Some(0), vlog)], s, false, PRODUCTION)
    ensures s.told == 1 && s.log == [] && Shown(s) == []
  {
    var t, g := ExampleTx(1), PRODUCTION;
    ExampleFits(1);
    var s0 := EmptyOpens(g);
    s, vlog := LossFollowsWrite(EMPTY_SYSTEM, [OpenEvent], s0, t, g);
    var commit := CommitEvent(t, true, Unknown(true));
    assert [OpenEvent] + [commit] + LossEvents(vlog, 0)
        == [OpenEvent, commit, StopEvent(None, vlog), OpenEvent, BarrierEvent(NoFault), StopEvent(Some(0), vlog)];
  }

  lemma {:induction false} LossFollowsWrite(first: System, events: seq<Event>, s: System, t: Tx, g: Geometry)
    returns (last: System, vlog: VLog)
    requires Leads(first, events, s, false, g)
    requires Inv(s, g) && s.session.Some? && s.session.value.health == Healthy && s.told <= |s.log|
    requires TxOk(s.log, t) && (HasEnvelope(t) ==> Fits(t.desc.meta.end, g)) && Fresh(t.desc.meta.uuid, s.past)
    ensures Leads(first, events + [CommitEvent(t, true, Unknown(true))] + LossEvents(vlog, |s.past|), last, false, g)
    ensures last.told == |s.log| + 1 && last.log == s.log && |Shown(last)| <= |s.log|
  {
    var s1, s2, s3, s4, s5 := UnknownCommitCanBeAcknowledgedAndLost(s, t, g);
    last, vlog := s5, s1.disk.vlog;
    OneMoreEvent(first, events, s, CommitEvent(t, true, Unknown(true)), s1, false, g);
    LossFollows(first, events + [CommitEvent(t, true, Unknown(true))], s1, s2, s3, s4, s5, |s.past|, false, g);
  }
}
