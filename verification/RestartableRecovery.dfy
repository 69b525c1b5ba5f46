/**
 * Recovery may be stopped between any two of its effects, any number of times, and any of its commits
 * may be applied without being durable. Once the accepted prefix is safe in every index state that a
 * crash may leave, every continuation ends with the same head, frontier and user map.
 */
module RestartableRecovery {
  import opened Basics
  import opened Index
  import opened CommitProtocol
  import opened Topology
  import opened History
  import opened Recovery
  import opened RecoveryInvariant
  import opened RecoverySteps

  // ---------------------------------------------------------------- settled disks

  /** Recovery from this state keeps exactly `kept`, whatever a crash still takes from the Value Log. */
  predicate Pinned(kept: Log, log: Log, s: Index, vlog: VLog) {
    var n := |kept|;
    && n <= |log| && log[..n] == kept && Safe(log, vlog, n) && !Stuck(s, vlog.files)
    && if s.recovery.Some? then s.recovery.value.target.seqNo == n
       else s.frontier.seqNo <= n && (n == |log| || !Holds(log, vlog.envs, n + 1))
  }

  predicate PinnedAt(kept: Log, past: seq<Log>, log: Log, d: Disk, i: nat)
    requires i <= |past| < |d.states|
  {
    Pinned(kept, LogOf(past, log, i), d.states[i], d.vlog)
  }

  /** The outcome no longer depends on what a crash loses. */
  predicate Settled(kept: Log, past: seq<Log>, log: Log, d: Disk) {
    |d.states| == |past| + 1 && forall i :: 0 <= i <= |past| ==> PinnedAt(kept, past, log, d, i)
  }

  /** The length of the history that recovery of this disk ends with. */
  lemma {:induction false} OutcomeBounds(log: Log, d: Disk, acked: nat, g: Geometry)
    requires Solo(log, d, acked, g)
    ensures Current(d).frontier.seqNo <= TargetCount(log, Current(d), d.vlog.envs) <= |log|
    ensures acked <= |Outcome(log, d)| <= Current(d).head == |log|
    ensures Outcome(log, d) <= log
  {
    TargetIsSafe(log, d, acked, g);
  }

  lemma {:induction false} PinnedOutcome(kept: Log, log: Log, s: Index, vlog: VLog)
    requires Pinned(kept, log, s, vlog) && s.frontier.seqNo <= |log|
    ensures TargetCount(log, s, vlog.envs) == |kept|
  {
    if s.recovery.None? {
      var f, n := s.frontier.seqNo, |kept|;
      HeldPrefixSurvives(log, vlog.envs, f, n);
      if n < |log| {
        HoldsShorter(log, vlog.envs, n, f);
        LossStopsSurvival(log, vlog.envs, f, n);
      }
    }
  }

  /** A state that carries its target, or whose frontier is its head, is pinned to its outcome. */
  lemma {:induction false} DecidedIsPinned(log: Log, d: Disk, acked: nat, g: Geometry)
    requires Solo(log, d, acked, g) && Unstuck(d)
    requires Current(d).recovery.Some? || Current(d).frontier.seqNo == |log|
    ensures TargetCount(log, Current(d), d.vlog.envs) <= |log| && Pinned(Outcome(log, d), log, Current(d), d.vlog)
  {
    TargetIsSafe(log, d, acked, g);
  }

  lemma {:induction false} PinnedWeathers(kept: Log, log: Log, s: Index, vlog: VLog, vlog': VLog, safe: nat)
    requires Pinned(kept, log, s, vlog) && Weathered(vlog, vlog', safe) && |EnvelopesOf(kept)| <= safe
    requires !Stuck(s, vlog'.files)
    ensures Pinned(kept, log, s, vlog')
  {
    var n := |kept|;
    HeldAfter(log, vlog, vlog', safe, n);
    if n < |log| && Holds(log, vlog'.envs, n + 1) { HeldBefore(log, vlog, vlog', safe, n + 1); }
  }

  lemma {:induction false} SettledWeathers(kept: Log, past: seq<Log>, log: Log, d: Disk, d': Disk, safe: nat)
    requires Settled(kept, past, log, d) && d'.states == d.states && Weathered(d.vlog, d'.vlog, safe)
    requires |EnvelopesOf(kept)| <= safe
    requires forall i :: 0 <= i <= |past| ==> !Stuck(d.states[i], d'.vlog.files)
    ensures Settled(kept, past, log, d')
  {
    forall i | 0 <= i <= |past| ensures PinnedAt(kept, past, log, d', i) {
      assert PinnedAt(kept, past, log, d, i);
      PinnedWeathers(kept, LogOf(past, log, i), d.states[i], d.vlog, d'.vlog, safe);
    }
  }

  /** The current state of a settled disk, and the count that its outcome has in the Value Log. */
  lemma {:induction false} SettledHere(kept: Log, past: seq<Log>, log: Log, d: Disk, acked: nat, g: Geometry)
    requires DownInv(past, log, d, acked, g) && Settled(kept, past, log, d)
    ensures Unstuck(d) && Pinned(kept, log, Current(d), d.vlog)
    ensures TargetCount(log, Current(d), d.vlog.envs) == |kept| <= |log| && Outcome(log, d) == kept
    ensures |EnvelopesOf(kept)| <= SafeCount(d)
  {
    assert PinnedAt(kept, past, log, d, |past|);
    PinnedOutcome(kept, log, Current(d), d.vlog);
    TargetEnd(log, d, acked, g);
  }

  // ---------------------------------------------------------------- effects

  /** After a recovery commit the current state carries its target, or its frontier is its head. */
  lemma {:induction false} CommitDecides(d: Disk, d': Disk, g: Geometry)
    requires RecoveryStep(d, d', g) && !SyncStep(d, d', g) && !TrimStep(d, d')
    ensures d'.states != []
    ensures || Current(d').recovery.Some?
            || Current(d').frontier.seqNo == Current(d').head
            || (Current(d').frontier == Current(d).frontier && Current(d').head == Current(d).head
                && Current(d).recovery.Some? && Current(d).recovery.value.phase != Undo)
  {
    if BeginStep(d, d', g) {
      ApplySingle(Current(d), PutRecovery(StartState(Analyze(Current(d), d.vlog, g).value)));
    } else if PromoteStep(d, d', g) {
      ApplyTarget(Current(d), Analyze(Current(d), d.vlog, g).value.accepted, None);
    } else {
      PhaseCommitDecides(d, d');
    }
  }

  lemma {:induction false} PhaseCommitDecides(d: Disk, d': Disk)
    requires UndoStep(d, d') || FinishUndoStep(d, d') || ClearStep(d, d')
    ensures d'.states != []
    ensures || Current(d').recovery.Some?
            || (Current(d').frontier == Current(d).frontier && Current(d').head == Current(d).head
                && Current(d).recovery.value.phase != Undo)
  {
    var rs := Current(d).recovery.value;
    if UndoStep(d, d') {
      UndoBatchSetsRecovery(Current(d), LoadDescriptor(Current(d).txs, rs.nextUndo).value, rs.(nextUndo := rs.nextUndo - 1));
    } else if FinishUndoStep(d, d') {
      ApplyTarget(Current(d), rs.target, Some(AfterUndo(rs)));
    } else {
      ApplySingle(Current(d), DeleteRecovery);
    }
  }

  /** Whatever a recovery commit leaves is pinned to the outcome that there was before it. */
  lemma {:induction false} CommitPins(log: Log, d: Disk, d': Disk, acked: nat, g: Geometry)
    requires Solo(log, d, acked, g) && RecoveryStep(d, d', g) && !SyncStep(d, d', g) && !TrimStep(d, d')
    ensures Kept(log, d, d', acked, g) && Pinned(Outcome(log, d), LogAfter(log, d'), Current(d'), d'.vlog)
  {
    EffectKeepsOutcome(log, d, d', acked, g);
    EffectKeepsUnstuck(d, d', g);
    CommitDecides(d, d', g);
    DecidedIsPinned(LogAfter(log, d'), d', acked, g);
  }

  /** One completed recovery commit settles the outcome. */
  lemma {:induction false} DurableCommitSettles(past: seq<Log>, log: Log, d: Disk, d': Disk, acked: nat, g: Geometry)
    requires DownInv(past, log, d, acked, g) && RecoveryStep(d, d', g) && !SyncStep(d, d', g) && !TrimStep(d, d')
    requires |d'.states| == 1
    ensures Kept(log, d, d', acked, g) && DownInv([], LogAfter(log, d'), d', acked, g)
    ensures Settled(Outcome(log, d), [], LogAfter(log, d'), d')
  {
    CommitPins(log, d, d', acked, g);
  }

  lemma {:induction false} CommitKeepsSettled(kept: Log, past: seq<Log>, log: Log, d: Disk, d': Disk, acked: nat, g: Geometry)
    requires DownInv(past, log, d, acked, g) && Settled(kept, past, log, d)
    requires RecoveryStep(d, d', g) && !SyncStep(d, d', g) && !TrimStep(d, d')
    ensures d'.states != [] && Settled(kept, PastAfter(past, log, d, d'), LogAfter(log, d'), d')
  {
    SettledHere(kept, past, log, d, acked, g);
    CommitPins(log, d, d', acked, g);
    CommitsOrNot(d, d', g);
    OneMorePinned(kept, past, log, d, LogAfter(log, d'), d');
  }

  lemma {:induction false} OneMorePinned(kept: Log, past: seq<Log>, log: Log, d: Disk, log': Log, d': Disk)
    requires Settled(kept, past, log, d) && d'.vlog == d.vlog && d'.states != []
    requires d'.states == [Current(d')] || d'.states == d.states + [Current(d')]
    requires Pinned(kept, log', Current(d'), d'.vlog)
    ensures Settled(kept, PastAfter(past, log, d, d'), log', d')
  {
    var past' := PastAfter(past, log, d, d');
    forall i | 0 <= i <= |past'| ensures PinnedAt(kept, past', log', d', i) {
      if i < |past'| { assert PinnedAt(kept, past, log, d, i); }
    }
  }

  /** Every recovery state of a settled disk has the same target. */
  lemma {:induction false} SettledTarget(kept: Log, past: seq<Log>, log: Log, d: Disk, acked: nat, g: Geometry, i: nat)
    requires DownInv(past, log, d, acked, g) && Settled(kept, past, log, d) && i <= |past| && d.states[i].recovery.Some?
    ensures d.states[i].recovery.value.target == FrontierAt(kept)
  {
    assert PinnedAt(kept, past, log, d, i);
    if i < |past| { assert Older(past, log, d, acked, i); }
  }

  lemma {:induction false} VLogEffectKeepsSettled(kept: Log, past: seq<Log>, log: Log, d: Disk, d': Disk, acked: nat, g: Geometry)
    requires DownInv(past, log, d, acked, g) && Settled(kept, past, log, d) && (SyncStep(d, d', g) || TrimStep(d, d'))
    ensures Settled(kept, past, log, d') && d'.states == d.states
  {
    SettledHere(kept, past, log, d, acked, g);
    assert log[..|log|] == log;
    if SyncStep(d, d', g) {
      SyncWeathers(log, d, d', acked, g);
      forall i | 0 <= i <= |past| ensures !Stuck(d.states[i], d'.vlog.files) {
        assert PinnedAt(kept, past, log, d, i);
      }
      SettledWeathers(kept, past, log, d, d', d.vlog.synced);
    } else {
      TrimWeathers(log, d, d', acked, g);
      SettledTarget(kept, past, log, d, acked, g, |past|);
      forall i | 0 <= i <= |past| ensures !Stuck(d.states[i], d'.vlog.files) {
        if d.states[i].recovery.Some? { SettledTarget(kept, past, log, d, acked, g, i); }
      }
      SettledWeathers(kept, past, log, d, d', |EnvelopesOf(log)|);
    }
  }

  // ---------------------------------------------------------------- runs

  /** One thing that can happen to a stopped store. */
  ghost predicate DownStep(d: Disk, d': Disk, g: Geometry) {
    RecoveryStep(d, d', g) || CrashWhileDown(d, d', g)
  }

  ghost predicate DownRun(trace: seq<Disk>, g: Geometry) {
    trace != [] && forall i :: 0 <= i < |trace| - 1 ==> DownStep(trace[i], trace[i + 1], g)
  }

  /** A crash of a settled disk leaves a settled disk. */
  lemma {:induction false} CrashKeepsSettled(kept: Log, past: seq<Log>, log: Log, d: Disk, d': Disk, acked: nat, g: Geometry)
    returns (past': seq<Log>, log': Log)
    requires DownInv(past, log, d, acked, g) && Settled(kept, past, log, d) && CrashWhileDown(d, d', g)
    ensures DownInv(past', log', d', acked, g) && Settled(kept, past', log', d')
  {
    var whole := d'.(states := d.states);
    SettledHere(kept, past, log, d, acked, g);
    RestartKeepsDown(past, log, d, whole, acked, g);
    forall i | 0 <= i <= |past| ensures !Stuck(d.states[i], d'.vlog.files) {
      assert PinnedAt(kept, past, log, d, i);
    }
    SettledWeathers(kept, past, log, d, whole, SafeCount(d));
    if d'.states == d.states {
      past', log' := past, log;
    } else {
      var i :| 0 <= i < |d.states| && d'.states == [d.states[i]];
      CrashKeepsDown(past, log, d, d', i, acked, g);
      assert PinnedAt(kept, past, log, whole, i);
      past', log' := [], LogOf(past, log, i);
    }
  }

  lemma {:induction false} StepKeepsSettled(kept: Log, past: seq<Log>, log: Log, d: Disk, d': Disk, acked: nat, g: Geometry)
    returns (past': seq<Log>, log': Log)
    requires DownInv(past, log, d, acked, g) && Settled(kept, past, log, d) && DownStep(d, d', g)
    ensures DownInv(past', log', d', acked, g) && Settled(kept, past', log', d')
  {
    if RecoveryStep(d, d', g) {
      EffectKeepsDown(past, log, d, d', acked, g);
      past', log' := PastAfter(past, log, d, d'), LogAfter(log, d');
      if SyncStep(d, d', g) || TrimStep(d, d') {
        VLogEffectKeepsSettled(kept, past, log, d, d', acked, g);
        assert log[..|log|] == log;
      } else {
        CommitKeepsSettled(kept, past, log, d, d', acked, g);
      }
    } else {
      past', log' := CrashKeepsSettled(kept, past, log, d, d', acked, g);
    }
  }

  /**
   * Restartable recovery: along every run of effects and crashes from a settled disk, with any commit
   * possibly applied and then lost, the outcome stays the same, no analysis fails, and a disk that
   * Open accepts shows exactly that outcome.
   */
  lemma {:induction false} RestartsReachTheSameOutcome(
    kept: Log, past: seq<Log>, log: Log, trace: seq<Disk>, acked: nat, g: Geometry)
    returns (past': seq<Log>, log': Log)
    requires DownRun(trace, g) && DownInv(past, log, trace[0], acked, g) && Settled(kept, past, log, trace[0])
    ensures var d := trace[|trace| - 1];
            && DownInv(past', log', d, acked, g) && Settled(kept, past', log', d)
            && Analyze(Current(d), d.vlog, g).Ok?
            && TargetCount(log', Current(d), d.vlog.envs) == |kept| <= |log'| && Outcome(log', d) == kept
    ensures var d := trace[|trace| - 1];
            Recovered(d, g) ==>
              && log' == kept && Sized(kept)
              && Current(d).head == |kept| && Current(d).frontier == FrontierAt(kept)
              && Current(d).user == UserAfter(kept)
    decreases |trace|
  {
    if |trace| == 1 {
      past', log' := past, log;
    } else {
      var n := |trace| - 1;
      var before := trace[..n];
      past', log' := RestartsReachTheSameOutcome(kept, past, log, before, acked, g);
      assert before[n - 1] == trace[n - 1];
      assert DownStep(trace[n - 1], trace[n - 1 + 1], g);
      past', log' := StepKeepsSettled(kept, past', log', trace[n - 1], trace[n], acked, g);
    }
    var last := trace[|trace| - 1];
    SettledHere(kept, past', log', last, acked, g);
    AnalysisFindsTarget(log', last, acked, g);
    if Recovered(last, g) {
      RecoveredShowsHistory(log', last, acked, g);
    }
  }

  /** A disk that passes the final check shows its whole surviving history, and nothing is left to do. */
  lemma {:induction false} RecoveredShowsHistory(log: Log, d: Disk, acked: nat, g: Geometry)
    requires Solo(log, d, acked, g) && Recovered(d, g)
    ensures TargetCount(log, Current(d), d.vlog.envs) == |log| && Outcome(log, d) == log
    ensures Current(d).user == UserAfter(log) && Current(d).frontier == FrontierAt(log)
    ensures d.vlog.envs == EnvelopesOf(log) && d.vlog.synced == |d.vlog.envs|
    ensures PhysicalTail(d.vlog.files) == FrontierAt(log).end
  {
    assert log[..|log|] == log;
    TargetIsSafe(log, d, acked, g);
    TargetEnd(log, d, acked, g);
    TailMatchesExactly(d.vlog.files, FrontierAt(log).end, g);
  }

  // ---------------------------------------------------------------- termination

  /** How many recovery commits are still to come; a persisted state makes this number final. */
  function CommitsLeft(ix: Index): nat {
    match ix.recovery
    case None => 0
    case Some(rs) =>
      if rs.phase != Undo then 1
      else if rs.nextUndo < rs.target.seqNo then 2
      else 2 + (rs.nextUndo - rs.target.seqNo)
  }

  /**
   * Every recovery commit after the first uses up exactly one of them. A crash adds one only by
   * bringing back an older state, which takes a commit that was applied without being durable.
   */
  lemma {:induction false} RecoveryTerminates(log: Log, d: Disk, d': Disk, acked: nat, g: Geometry)
    requires Solo(log, d, acked, g) && Current(d).recovery.Some? && DownStep(d, d', g) && d'.states != []
    ensures RecoveryStep(d, d', g) && d'.states != d.states ==> CommitsLeft(Current(d')) == CommitsLeft(Current(d)) - 1
    ensures CrashWhileDown(d, d', g) ==> exists i :: 0 <= i < |d.states| && Current(d') == d.states[i]
    ensures CrashWhileDown(d, d', g) && |d.states| == 1 ==> CommitsLeft(Current(d')) == CommitsLeft(Current(d))
  {
    if RecoveryStep(d, d', g) {
      if UndoStep(d, d') || FinishUndoStep(d, d') || ClearStep(d, d') {
        PhaseCommitUsesOne(d, d');
      } else if !TrimStep(d, d') {
        PlanFacts(log, d, acked, g, Analyze(Current(d), d.vlog, g).value);
      }
    }
    if CrashWhileDown(d, d', g) {
      SurvivorIsAmongStates(d, d', g);
    }
  }

  lemma {:induction false} PhaseCommitUsesOne(d: Disk, d': Disk)
    requires UndoStep(d, d') || FinishUndoStep(d, d') || ClearStep(d, d')
    ensures d'.states != [] && CommitsLeft(Current(d')) == CommitsLeft(Current(d)) - 1
  {
    var rs := Current(d).recovery.value;
    if UndoStep(d, d') {
      UndoBatchSetsRecovery(Current(d), LoadDescriptor(Current(d).txs, rs.nextUndo).value, rs.(nextUndo := rs.nextUndo - 1));
    } else if FinishUndoStep(d, d') {
      ApplyTarget(Current(d), rs.target, Some(AfterUndo(rs)));
    } else {
      ApplySingle(Current(d), DeleteRecovery);
    }
  }

  lemma {:induction false} SurvivorIsAmongStates(d: Disk, d': Disk, g: Geometry)
    requires Crash(d, d', g)
    ensures d'.states != [] && exists i :: 0 <= i < |d.states| && Current(d') == d.states[i]
  {
    if d'.states == d.states {
      assert Current(d') == d.states[|d.states| - 1];
    } else {
      var i :| 0 <= i < |d.states| && d'.states == [d.states[i]];
      assert Current(d') == d.states[i];
    }
  }
}
