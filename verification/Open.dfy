/**
 * Open on a reachable disk: exactly one check of the recovery program can fail there, before anything
 * is changed. Otherwise it stops only when the environment does, and success leaves exactly the
 * outcome that the surviving history dictates.
 */
module Open {
  import opened Basics
  import opened Index
  import opened CommitProtocol
  import opened Topology
  import opened History
  import opened Recovery
  import opened RecoveryInvariant
  import opened RecoverySteps
  import opened RestartableRecovery
  import opened RecoveryExecution

  /** The plan was made for a history `log`, and the disk now shows `now`, a prefix of it. */
  ghost predicate Follows(log: Log, now: Log, d: Disk, plan: Plan, acked: nat, g: Geometry) {
    && WellFormed(log) && now <= log && Solo(now, d, acked, g)
    && Current(d).frontier.seqNo <= |now|
    && var f, n := plan.frontier.seqNo, TargetCount(now, Current(d), d.vlog.envs);
       && f <= n <= |now|
       && plan.frontier == FrontierAt(log[..f]) && plan.accepted == FrontierAt(log[..n])
       && plan.descriptors == DescriptorsOf(log, f, |log|)
  }

  lemma {:induction false} PlanFollows(log: Log, d: Disk, plan: Plan, acked: nat, g: Geometry)
    requires Solo(log, d, acked, g) && Analyze(Current(d), d.vlog, g) == Ok(plan)
    ensures Follows(log, log, d, plan, acked, g)
  {
    AnalysisFindsTarget(log, d, acked, g);
  }

  /** Each effect keeps the plan in force. */
  lemma {:induction false} EffectFollows(log: Log, now: Log, d: Disk, d': Disk, plan: Plan, acked: nat, g: Geometry)
    requires Follows(log, now, d, plan, acked, g) && RecoveryStep(d, d', g)
    ensures d'.states != [] && Follows(log, LogAfter(now, d'), d', plan, acked, g)
  {
    EffectKeepsOutcome(now, d, d', acked, g);
    SamePrefixLength(Outcome(now, d), Outcome(LogAfter(now, d'), d'));
    assert LogAfter(now, d') <= now;
    PrefixTransitive(LogAfter(now, d'), now, log);
  }

  lemma {:induction false} SamePrefixLength(a: Log, b: Log)
    requires a == b
    ensures |a| == |b|
  {
  }

  lemma {:induction false} RunFollows(log: Log, start: Disk, trace: seq<Disk>, plan: Plan, acked: nat, g: Geometry)
    returns (now: Log)
    requires Solo(log, start, acked, g) && Analyze(Current(start), start.vlog, g) == Ok(plan)
    requires EffectsFrom(start, trace, g)
    ensures Follows(log, now, LastOf(start, trace), plan, acked, g)
    decreases |trace|
  {
    if trace == [] {
      now := log;
      PlanFollows(log, start, plan, acked, g);
    } else {
      var n := |trace| - 1;
      var init := trace[..n];
      StepOfRun(start, trace, g);
      var mid := RunFollows(log, start, init, plan, acked, g);
      EffectFollows(log, mid, LastOf(start, init), trace[n], plan, acked, g);
      now := LogAfter(mid, trace[n]);
    }
  }

  lemma {:induction false} StepOfRun(start: Disk, trace: seq<Disk>, g: Geometry)
    requires EffectsFrom(start, trace, g) && trace != []
    ensures EffectsFrom(start, trace[..|trace| - 1], g)
    ensures RecoveryStep(LastOf(start, trace[..|trace| - 1]), trace[|trace| - 1], g)
  {
    var init := trace[..|trace| - 1];
    forall i | 0 <= i < |init| - 1 ensures RecoveryStep(init[i], init[i + 1], g) {
      assert RecoveryStep(trace[i], trace[i + 1], g);
    }
    if |trace| > 1 {
      var i := |trace| - 2;
      assert RecoveryStep(trace[i], trace[i + 1], g);
    }
  }

  // ---------------------------------------------------------------- no check fails

  /** A frontier's log sequence names its own transaction, or is inherited from an earlier frontier. */
  lemma {:induction false} LogSequenceIsNamed(log: Log, f: nat, n: nat)
    requires WellFormed(log) && f <= n <= |log|
    ensures var a, b := FrontierAt(log[..f]), FrontierAt(log[..n]);
            || (b.vlogSeq == a.vlogSeq && b.end == a.end)
            || (f < b.vlogSeq <= n && HasEnvelope(log[b.vlogSeq - 1])
                && log[b.vlogSeq - 1].desc.meta.seqNo == b.vlogSeq && b.end == At(log[b.vlogSeq - 1].desc.meta.end))
    decreases n
  {
    if f < n {
      LogSequenceIsNamed(log, f, n - 1);
      FrontierStep(log, n - 1);
    }
  }

  /** The envelope of every transaction of a held prefix can be read. */
  lemma {:induction false} HeldIsReadable(log: Log, envs: seq<Envelope>, n: nat, k: nat)
    requires WellFormed(log) && Chained(envs) && Agree(log, envs) && k < n <= |log| && HasEnvelope(log[k])
    requires Holds(log, envs, n)
    ensures EnvelopeReadable(envs, log[k].desc)
  {
    HoldsShorter(log, envs, n, k);
    HoldsShorter(log, envs, n, k + 1);
    ReadableExactlyWhenSurviving(log, envs, k);
  }

  lemma {:induction false} TargetReadsBack(log: Log, vlog: VLog, f: nat, n: nat, plan: Plan, g: Geometry)
    requires WellFormed(log) && VLogSound(vlog, g) && Agree(log, vlog.envs) && f <= n <= |log| && Holds(log, vlog.envs, n)
    requires plan.frontier == FrontierAt(log[..f]) && plan.accepted == FrontierAt(log[..n])
    requires n - f <= |plan.descriptors| && forall i :: 0 <= i < n - f ==> plan.descriptors[i] == log[f + i].desc
    ensures BoundaryOk(plan, vlog.envs)
  {
    LogSequenceIsNamed(log, f, n);
    FrontiersGrow(log, f, n);
    if plan.accepted.vlogSeq == plan.frontier.vlogSeq {
      IntactPrefixIsStable(log, vlog, n, g);
    } else {
      var k := plan.accepted.vlogSeq - 1;
      HeldIsReadable(log, vlog.envs, n, k);
      assert plan.descriptors[k - f] == log[f + (k - f)].desc;
    }
  }

  /** The plan's frontiers and the descriptors up to its target, told by the history that is shown now. */
  lemma {:induction false} PlanFitsNow(log: Log, now: Log, plan: Plan, f: nat, n: nat)
    requires now <= log && f <= n <= |now|
    requires plan.frontier == FrontierAt(log[..f]) && plan.accepted == FrontierAt(log[..n])
    requires plan.descriptors == DescriptorsOf(log, f, |log|)
    ensures plan.frontier == FrontierAt(now[..f]) && plan.accepted == FrontierAt(now[..n])
    ensures n - f <= |plan.descriptors| && forall i :: 0 <= i < n - f ==> plan.descriptors[i] == now[f + i].desc
  {
    assert now[..n] == log[..n] && now[..f] == log[..f];
    forall i | 0 <= i < n - f ensures plan.descriptors[i] == now[f + i].desc {
      assert now[f + i] == log[f + i];
    }
  }

  lemma {:induction false} BoundaryReadsBack(log: Log, now: Log, d: Disk, plan: Plan, acked: nat, g: Geometry)
    requires Follows(log, now, d, plan, acked, g)
    ensures BoundaryOk(plan, d.vlog.envs)
  {
    var f, n := plan.frontier.seqNo, TargetCount(now, Current(d), d.vlog.envs);
    PlanFitsNow(log, now, plan, f, n);
    SoloReadsBack(now, d, f, n, plan, acked, g);
  }

  lemma {:induction false} SoloReadsBack(now: Log, d: Disk, f: nat, n: nat, plan: Plan, acked: nat, g: Geometry)
    requires Solo(now, d, acked, g) && n == TargetCount(now, Current(d), d.vlog.envs) && f <= n <= |now|
    requires plan.frontier == FrontierAt(now[..f]) && plan.accepted == FrontierAt(now[..n])
    requires n - f <= |plan.descriptors| && forall i :: 0 <= i < n - f ==> plan.descriptors[i] == now[f + i].desc
    ensures BoundaryOk(plan, d.vlog.envs)
  {
    TargetIsSafe(now, d, acked, g);
    TargetReadsBack(now, d.vlog, f, n, plan, g);
  }

  /** The last transaction of a reachable index is stored as committed and still visible. */
  lemma {:induction false} LastIsUndoable(now: Log, ix: Index, acked: nat)
    requires Replays(ix, now, acked) && ix.frontier.seqNo < |now|
    ensures LoadDescriptor(ix.txs, |now|) == Some(now[|now| - 1].desc)
    ensures ShowsAfterStates(ix, now[|now| - 1].desc)
  {
    LoadsCommittedDescriptor(ix.txs, now, ix.frontier.seqNo, ix.head, |now|);
    assert now[..|now|] == now;
    LastDescriptorRestores(now, ix);
  }

  lemma {:induction false} UndoNotRefused(log: Log, now: Log, d: Disk, plan: Plan, acked: nat, g: Geometry)
    requires Follows(log, now, d, plan, acked, g)
    ensures !UndoRefused(plan, Current(d))
  {
    var ix := Current(d);
    if ix.recovery.Some? && ix.recovery.value.phase == Undo && ix.recovery.value.nextUndo > ix.recovery.value.target.seqNo {
        LastIsUndoable(now, ix, acked);
      var k := |now|;
      assert now[k - 1] == log[k - 1];
      assert plan.descriptors[k - plan.frontier.seqNo - 1] == log[k - 1].desc;
      NamedDescriptorPasses(plan, ix, k, now[k - 1].desc);
    }
  }

  lemma {:induction false} NamedDescriptorPasses(plan: Plan, ix: Index, n: nat, desc: Descriptor)
    requires plan.frontier.seqNo < n && n - plan.frontier.seqNo - 1 < |plan.descriptors|
    requires plan.descriptors[n - plan.frontier.seqNo - 1] == desc
    requires LoadDescriptor(ix.txs, n) == Some(desc) && ShowsAfterStates(ix, desc)
    ensures CheckedDescriptor(plan, ix, n) == Ok(desc)
  {
  }

  lemma {:induction false} TrimNotRefused(now: Log, d: Disk, acked: nat, g: Geometry)
    requires Solo(now, d, acked, g)
    ensures !TrimRefused(Current(d), d.vlog.files, g)
  {
    var ix := Current(d);
    if ix.recovery.Some? && ix.recovery.value.phase == Trim {
      TargetIsSafe(now, d, acked, g);
      var n := ix.recovery.value.target.seqNo;
      IntactPrefixIsStable(now, d.vlog, n, g);
      WellFormedPrefix(now, n);
      FrontierPositionsValid(now[..n]);
      TrimReachesEnd(d.vlog.files, ix.recovery.value.target.end, g);
    }
  }

  /** On a reachable disk the recovery program is never refused. */
  lemma {:induction false} NeverRefused(log: Log, now: Log, d: Disk, plan: Plan, acked: nat, g: Geometry)
    requires Follows(log, now, d, plan, acked, g)
    ensures !Refuses(plan, d, g)
  {
    BoundaryReadsBack(log, now, d, plan, acked, g);
    UndoNotRefused(log, now, d, plan, acked, g);
    TrimNotRefused(now, d, acked, g);
  }

  // ---------------------------------------------------------------- a finished run is accepted

  /** Head and frontier at the end of the history, no state, no bytes beyond: Open accepts that. */
  lemma {:induction false} NothingLeftIsRecovered(now: Log, d: Disk, acked: nat, g: Geometry)
    requires Solo(now, d, acked, g) && Current(d).recovery.None?
    requires Current(d).frontier.seqNo == |now| && !HasSuffixAfter(d.vlog.files, Current(d).frontier.end)
    ensures Recovered(d, g)
  {
    MetadataIsSound(now, d, acked, g);
    assert now[..|now|] == now;
    IntactPrefixIsStable(now, d.vlog, |now|, g);
    TailMatchesExactly(d.vlog.files, Current(d).frontier.end, g);
  }

  lemma {:induction false} ClearedIsRecovered(now: Log, d: Disk, d': Disk, acked: nat, g: Geometry)
    requires Solo(now, d, acked, g) && ClearStep(d, d') && Unstuck(d)
    ensures Recovered(d', g)
  {
    ClearKeepsInv(now, d, d', acked, g);
    ApplySingle(Current(d), DeleteRecovery);
    assert now[..|now|] == now;
    TailMatchesExactly(d.vlog.files, Current(d).frontier.end, g);
    NothingLeftIsRecovered(now, d', acked, g);
  }

  lemma {:induction false} PromotedIsRecovered(now: Log, d: Disk, d': Disk, acked: nat, g: Geometry)
    requires Solo(now, d, acked, g) && PromoteStep(d, d', g)
    ensures Recovered(d', g)
  {
    PromoteKeepsInv(now, d, d', acked, g);
    var plan := PromoteMovesFrontier(d, d', g);
    PlanFacts(now, d, acked, g, plan);
    assert now[..|now|] == now;
    NothingLeftIsRecovered(now, d', acked, g);
  }

  lemma {:induction false} EndedIsRecovered(log: Log, start: Disk, trace: seq<Disk>, plan: Plan, acked: nat, g: Geometry)
    requires Solo(log, start, acked, g) && Analyze(Current(start), start.vlog, g) == Ok(plan)
    requires EffectsFrom(start, trace, g) && Ended(start, trace, plan, g)
    ensures Recovered(LastOf(start, trace), g)
  {
    if trace == [] {
      PlanFacts(log, start, acked, g, plan);
      assert log[..|log|] == log;
      NothingLeftIsRecovered(log, start, acked, g);
    } else {
      StepOfRun(start, trace, g);
      var init := trace[..|trace| - 1];
      var now := RunFollows(log, start, init, plan, acked, g);
      if ClearStep(LastOf(start, init), trace[|trace| - 1]) {
        ClearedIsRecovered(now, LastOf(start, init), trace[|trace| - 1], acked, g);
      } else {
        PromotedIsRecovered(now, LastOf(start, init), trace[|trace| - 1], acked, g);
      }
    }
  }

  /** A disk that a run of effects reached and that passes the final check shows the outcome. */
  lemma {:induction false} RecoveredRunShowsOutcome(log: Log, start: Disk, trace: seq<Disk>, plan: Plan, acked: nat, g: Geometry)
    requires Solo(log, start, acked, g) && Analyze(Current(start), start.vlog, g) == Ok(plan)
    requires EffectsFrom(start, trace, g) && Recovered(LastOf(start, trace), g)
    ensures acked <= plan.accepted.seqNo <= |log|
    ensures plan.accepted.seqNo == TargetCount(log, Current(start), start.vlog.envs)
    ensures Solo(log[..plan.accepted.seqNo], LastOf(start, trace), acked, g)
  {
    PlanFollows(log, start, plan, acked, g);
    OutcomeBounds(log, start, acked, g);
    var now := RunFollows(log, start, trace, plan, acked, g);
    RecoveredShowsHistory(now, LastOf(start, trace), acked, g);
    assert now == log[..plan.accepted.seqNo];
  }

  /** The whole invariant along a run of effects. */
  lemma {:induction false} RunKeepsDown(past: seq<Log>, log: Log, start: Disk, trace: seq<Disk>, acked: nat, g: Geometry)
    returns (past': seq<Log>, log': Log)
    requires DownInv(past, log, start, acked, g) && EffectsFrom(start, trace, g)
    ensures DownInv(past', log', LastOf(start, trace), acked, g) && log' <= log
    decreases |trace|
  {
    past', log' := past, log;
    if trace != [] {
      var n := |trace| - 1;
      StepOfRun(start, trace, g);
      past', log' := RunKeepsDown(past, log, start, trace[..n], acked, g);
      EffectKeepsDown(past', log', LastOf(start, trace[..n]), trace[n], acked, g);
      var last := LogAfter(log', trace[n]);
      PrefixTransitive(last, log', log);
      past', log' := PastAfter(past', log', LastOf(start, trace[..n]), trace[n]), last;
    }
  }

  /** The store as Open hands it over shows exactly the history `kept`. */
  ghost predicate Shows(kept: Log, d: Disk, acked: nat, g: Geometry) {
    && (exists past :: DownInv(past, kept, d, acked, g)) && Recovered(d, g)
    && Current(d).user == UserAfter(kept) && Current(d).frontier == FrontierAt(kept)
    && d.vlog.envs == EnvelopesOf(kept) && d.vlog.synced == |d.vlog.envs|
  }

  /** A stopped attempt has left a reachable disk, on which the next analysis succeeds. */
  ghost predicate Interrupted(log: Log, start: Disk, after: Disk, effects: nat, acked: nat, g: Geometry) {
    && (exists past, now :: now <= log && DownInv(past, now, after, acked, g))
    && (exists trace: seq<Disk> :: |trace| == effects && EffectsFrom(start, trace, g) && LastOf(start, trace) == after)
    && after.states != [] && Analyze(Current(after), after.vlog, g).Ok?
  }

  /**
   * Open: on a reachable disk it is refused if and only if the disk is stuck, and then nothing was
   * changed. Otherwise it fails only if the environment fails it, and then it may be retried; success
   * keeps exactly the longest surviving prefix (or the target fixed before).
   */
  method OpenStore(
    disk: Disk, budget: nat, unsynced: bool, g: Geometry, ghost past: seq<Log>, ghost log: Log, ghost acked: nat)
    returns (r: Result<RecoveredState>, after: Disk)
    requires DownInv(past, log, disk, acked, g)
    ensures Current(disk).frontier.seqNo <= |log| && TargetCount(log, Current(disk), disk.vlog.envs) <= |log|
    ensures r == Err(Corruption) <==> Stuck(Current(disk), disk.vlog.files)
    ensures r == Err(Corruption) ==> after == disk
    ensures r.Err? && r.error != Corruption ==> Interrupted(log, disk, after, budget, acked, g)
    ensures r.Ok? ==> Shows(Outcome(log, disk), after, acked, g)
    ensures r.Ok? ==> r.value == RecoveredState(|Outcome(log, disk)|, FrontierAt(Outcome(log, disk)))
  {
    AnalysisFindsTarget(log, disk, acked, g);
    OutcomeBounds(log, disk, acked, g);
    var plan := Analyze(Current(disk), disk.vlog, g);
    if plan.Err? {
      return Err(plan.error), disk;
    }
    var store := new Store(disk, budget, unsynced, g);
    r := store.ExecuteRecovery(plan.value);
    after := Disk(store.states, store.vlog);
    if r.Err? {
      AttemptIsInterrupted(past, log, disk, store.trace, plan.value, acked, g);
    } else {
      SuccessShows(past, log, disk, store.trace, plan.value, acked, g);
    }
  }

  lemma {:induction false} AttemptIsInterrupted(
    past: seq<Log>, log: Log, start: Disk, trace: seq<Disk>, plan: Plan, acked: nat, g: Geometry)
    requires DownInv(past, log, start, acked, g) && Analyze(Current(start), start.vlog, g) == Ok(plan)
    requires EffectsFrom(start, trace, g)
    ensures var after := LastOf(start, trace);
            && Interrupted(log, start, after, |trace|, acked, g) && !Refuses(plan, after, g)
            && (Ended(start, trace, plan, g) ==> Recovered(after, g))
  {
    var after := LastOf(start, trace);
    var past', log' := RunKeepsDown(past, log, start, trace, acked, g);
    var now := RunFollows(log, start, trace, plan, acked, g);
    NeverRefused(log, now, after, plan, acked, g);
    if Ended(start, trace, plan, g) {
      EndedIsRecovered(log, start, trace, plan, acked, g);
    }
    EffectsStayUnstuck(start, trace, g);
    AnalysisFindsTarget(now, after, acked, g);
  }

  lemma {:induction false} SuccessShows(
    past: seq<Log>, log: Log, start: Disk, trace: seq<Disk>, plan: Plan, acked: nat, g: Geometry)
    requires DownInv(past, log, start, acked, g) && Analyze(Current(start), start.vlog, g) == Ok(plan)
    requires EffectsFrom(start, trace, g) && Recovered(LastOf(start, trace), g)
    ensures Current(start).frontier.seqNo <= |log| && TargetCount(log, Current(start), start.vlog.envs) <= |log|
    ensures Shows(Outcome(log, start), LastOf(start, trace), acked, g)
    ensures Current(LastOf(start, trace)).head == |Outcome(log, start)|
  {
    var after := LastOf(start, trace);
    RecoveredRunShowsOutcome(log, start, trace, plan, acked, g);
    RecoveredShowsHistory(Outcome(log, start), after, acked, g);
    var past', log' := RunKeepsDown(past, log, start, trace, acked, g);
    assert log' == Outcome(log, start) by { assert |log'| == Current(after).head; }
  }
}
