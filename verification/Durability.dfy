/**
 * Which runs honour every acknowledgement and every Open. The condition speaks of the events of the
 * run: a store must not be opened while the outcome of a sync commit, of a barrier or of a recovery
 * commit is still unknown, unless a system crash or a completed sync has settled it since.
 */
module Durability {
  import opened Basics
  import opened Index
  import opened CommitProtocol
  import opened Topology
  import opened History
  import opened Recovery
  import opened RecoveryInvariant
  import opened RecoverySteps
  import opened RestartableRecovery
  import opened Running
  import opened StoreSystem
  import opened StoreSteps
  import opened CrashConsistency

  // ---------------------------------------------------------------- doubt

  /** Whether a sync or a recovery commit may be shown without being durable, after one more event. */
  predicate Doubts(s: System, e: Event, before: bool) {
    match e
    case CommitEvent(t, sync, fault) =>
      if s.session.None? || !sync then before
      else Unsettled(CommitOutcome(s.session.value, t, sync, fault), fault, before)
    case BarrierEvent(fault) =>
      if s.session.None? || s.session.value.head == s.session.value.frontier.seqNo then before
      else Unsettled(BarrierOutcome(s.session.value, fault), fault, before)
    case CleanupEvent(_) => before
    case StopEvent(survivor, _) => before && survivor.None?
    case RecoveryEvent(after) =>
      |after.states| > |s.disk.states| || (before && after.states == s.disk.states)
    case OpenEvent => before
  }

  /** A completed sync settles everything before it, an unknown outcome settles nothing. */
  predicate Unsettled(outcome: WriteOutcome, fault: Fault, before: bool) {
    match outcome
    case Committed => false
    case CommitUnknown => before || fault == Unknown(true)
    case _ => before
  }

  /** The doubt before event `n` of a run from a store without doubt. */
  predicate Doubt(states: seq<System>, events: seq<Event>, n: nat)
    requires |states| == |events| + 1 && n < |states|
    decreases n
  {
    n > 0 && Doubts(states[n - 1], events[n - 1], Doubt(states, events, n - 1))
  }

  /** None of the first `n` events opens the store while there is doubt. */
  predicate OpensUndoubted(states: seq<System>, events: seq<Event>, n: nat) {
    && n <= |events| && |states| == |events| + 1
    && forall i :: 0 <= i < n && events[i].OpenEvent? ==> !Doubt(states, events, i)
  }

  // ---------------------------------------------------------------- without doubt

  predicate Plain(ix: Index, f: Frontier) {
    ix.frontier == f && ix.recovery.None?
  }

  /** Every state that a crash may bring back has the frontier that is shown, and none is in recovery. */
  predicate Uniform(d: Disk) {
    && d.states != []
    && (|d.states| == 1 || forall i :: 0 <= i < |d.states| ==> Plain(d.states[i], Current(d).frontier))
  }

  lemma {:induction false} OneMorePlain(d: Disk, d': Disk)
    requires Uniform(d) && Current(d).recovery.None?
    requires d'.states != [] && d'.states == d.states + [Current(d')] && Plain(Current(d'), Current(d).frontier)
    ensures Uniform(d')
  {
    forall i | 0 <= i < |d'.states| ensures Plain(d'.states[i], Current(d').frontier) {
      if i < |d.states| && |d.states| > 1 { assert Plain(d.states[i], Current(d).frontier); }
    }
  }

  /** What a commit does to the index states. */
  lemma {:induction false} CommitStates(s: System, t: Tx, sync: bool, fault: Fault, g: Geometry)
    requires s.session.Some? && s.disk.states != []
    ensures var s', o := CommitResult(s, t, sync, fault, g), CommitOutcome(s.session.value, t, sync, fault);
            || (s'.disk.states == s.disk.states && o != Committed)
            || (sync && o == Committed && |s'.disk.states| == 1)
            || (sync && o == CommitUnknown && fault == Unknown(true))
            || (!sync && s'.disk.states == s.disk.states + [Apply(Current(s.disk), CommitBatch(t.desc))])
  {
  }

  lemma {:induction false} BarrierStates(s: System, fault: Fault)
    requires s.session.Some? && s.disk.states != []
    ensures var s', x := BarrierResult(s, fault), s.session.value; var o := BarrierOutcome(x, fault);
            || (s'.disk.states == s.disk.states && (o != Committed || x.head == x.frontier.seqNo))
            || (x.head != x.frontier.seqNo && o == Committed && |s'.disk.states| == 1)
            || (x.head != x.frontier.seqNo && o == CommitUnknown && fault == Unknown(true))
  {
  }

  lemma {:induction false} BufferedIsPlain(s: System, t: Tx, g: Geometry)
    requires Inv(s, g) && s.session.Some? && TxOk(s.log, t)
    ensures Plain(Apply(Current(s.disk), CommitBatch(t.desc)), Current(s.disk).frontier)
  {
    CommitBatchRefinesOperations(Current(s.disk), t.desc, t.ops, t.pointers, None);
  }

  lemma {:induction false} CommitKeepsUniform(s: System, t: Tx, sync: bool, fault: Fault, before: bool, g: Geometry)
    requires Inv(s, g) && s.session.Some? && TxOk(s.log, t) && (!before ==> Uniform(s.disk))
    requires !Doubts(s, CommitEvent(t, sync, fault), before)
    requires Inv(CommitResult(s, t, sync, fault, g), g)
    ensures Uniform(CommitResult(s, t, sync, fault, g).disk)
  {
    CommitStates(s, t, sync, fault, g);
    BufferedIsPlain(s, t, g);
    var d' := CommitResult(s, t, sync, fault, g).disk;
    if d'.states != s.disk.states && !sync { OneMorePlain(s.disk, d'); }
  }

  lemma {:induction false} BarrierKeepsUniform(s: System, fault: Fault, before: bool, g: Geometry)
    requires Inv(s, g) && s.session.Some? && (!before ==> Uniform(s.disk))
    requires !Doubts(s, BarrierEvent(fault), before)
    ensures Uniform(BarrierResult(s, fault).disk)
  {
    BarrierStates(s, fault);
  }

  lemma {:induction false} RecoveryKeepsUniform(s: System, after: Disk, before: bool, g: Geometry)
    requires RecoveryStep(s.disk, after, g) && (!before ==> Uniform(s.disk))
    requires !Doubts(s, RecoveryEvent(after), before)
    ensures Uniform(after)
  {
    if !SyncStep(s.disk, after, g) && !TrimStep(s.disk, after) {
      CommitsOrNot(s.disk, after, g);
    }
  }

  /** As long as there is no doubt, every surviving state has the frontier that is shown. */
  lemma {:induction false} StepKeepsUniform(s: System, e: Event, s': System, before: bool, g: Geometry)
    requires Inv(s, g) && Step(s, e, s', g) && (!before ==> Uniform(s.disk)) && !Doubts(s, e, before)
    ensures Uniform(s'.disk)
  {
    match e
    case CommitEvent(t, sync, fault) =>
      CommitKeepsInv(s, t, sync, fault, g);
      CommitKeepsUniform(s, t, sync, fault, before, g);
    case BarrierEvent(fault) => BarrierKeepsUniform(s, fault, before, g);
    case CleanupEvent(keys) => OneMorePlain(s.disk, s'.disk);
    case StopEvent(_, _) =>
    case RecoveryEvent(after) => RecoveryKeepsUniform(s, after, before, g);
    case OpenEvent =>
  }

  // ---------------------------------------------------------------- what callers were told

  /** Whatever a caller was told is durable is covered by a completed SyncAll commit. */
  predicate ToldIsSafe(s: System) {
    && s.told <= s.safe && s.disk.states != []
    && (s.session.None? && FrontierIsDurable(s.disk) ==> Current(s.disk).frontier.seqNo <= s.safe)
    && (s.session.Some? && s.session.value.health == Healthy ==> s.session.value.frontier.seqNo <= s.safe)
  }

  lemma {:induction false} CommitIndexKeepsTold(s: System, t: Tx, frontier: Option<Frontier>, fault: Fault)
    requires s.session.Some? && s.session.value.health == Healthy && s.disk.states != [] && ToldIsSafe(s)
    requires frontier.Some? ==> frontier.value.seqNo == t.desc.meta.seqNo
    ensures ToldIsSafe(CommitIndex(s, t, frontier, fault))
  {
  }

  lemma {:induction false} SyncAndCommitKeepsTold(s: System, t: Tx, sync: bool, fault: Fault)
    requires s.session.Some? && s.session.value.health == Healthy && s.disk.states != [] && ToldIsSafe(s)
    ensures ToldIsSafe(SyncAndCommit(s, t, sync, fault))
  {
    var x := s.session.value;
    var frontier := if sync then Some(Frontier(t.desc.meta.seqNo, TargetVLogSeq(x, t), TargetVLogEnd(x, t))) else None;
    CommitIndexKeepsTold(s, t, frontier, fault);
    CommitIndexKeepsTold(AfterSync(s), t, frontier, fault);
  }

  lemma {:induction false} CommitKeepsTold(s: System, t: Tx, sync: bool, fault: Fault, g: Geometry)
    requires s.session.Some? && s.disk.states != [] && ToldIsSafe(s)
    ensures ToldIsSafe(CommitResult(s, t, sync, fault, g))
  {
    if s.session.value.health == Healthy {
      SyncAndCommitKeepsTold(AfterAppend(s, t, g), t, sync, fault);
    }
  }

  lemma {:induction false} BarrierKeepsTold(s: System, fault: Fault)
    requires s.session.Some? && s.disk.states != [] && ToldIsSafe(s)
    ensures ToldIsSafe(BarrierResult(s, fault))
  {
  }

  lemma {:induction false} StepKeepsTold(s: System, e: Event, s': System, g: Geometry)
    requires Inv(s, g) && Step(s, e, s', g) && ToldIsSafe(s)
    requires e.OpenEvent? ==> FrontierIsDurable(s.disk)
    ensures ToldIsSafe(s')
  {
    match e
    case CommitEvent(t, sync, fault) => CommitKeepsTold(s, t, sync, fault, g);
    case BarrierEvent(fault) => BarrierKeepsTold(s, fault);
    case CleanupEvent(_) =>
    case OpenEvent =>
    case _ => StepKeepsInv(s, e, s', g); LossRefines(s, e, s', g);
  }

  // ---------------------------------------------------------------- no stuck state behind

  /** No state that a crash may bring back would be refused, and a session has none in recovery behind it. */
  predicate NoneStuck(s: System) {
    && (forall i :: 0 <= i < |s.disk.states| ==> !Stuck(s.disk.states[i], s.disk.vlog.files))
    && (s.session.Some? ==> forall i :: 0 <= i < |s.disk.states| ==> s.disk.states[i].recovery.None?)
  }

  /** A running store adds at most one index state, or replaces all by one. */
  predicate Moves(states: seq<Index>, states': seq<Index>) {
    states' == states || |states'| == 1 || (|states'| == |states| + 1 && states'[..|states|] == states)
  }

  lemma {:induction false} CommitMoves(s: System, t: Tx, sync: bool, fault: Fault, g: Geometry)
    requires s.session.Some? && s.disk.states != []
    ensures Moves(s.disk.states, CommitResult(s, t, sync, fault, g).disk.states)
    ensures CommitResult(s, t, sync, fault, g).session.Some?
  {
  }

  lemma {:induction false} BarrierMoves(s: System, fault: Fault)
    requires s.session.Some? && s.disk.states != []
    ensures Moves(s.disk.states, BarrierResult(s, fault).disk.states) && BarrierResult(s, fault).session.Some?
  {
  }

  /** In a session the state that is shown is not in recovery, and then none of them is. */
  lemma {:induction false} MovesKeepNoneStuck(s: System, s': System, g: Geometry)
    requires s.session.Some? && s'.session.Some? && Inv(s', g) && NoneStuck(s) && Moves(s.disk.states, s'.disk.states)
    ensures NoneStuck(s')
  {
    var states, states' := s.disk.states, s'.disk.states;
    forall i | 0 <= i < |states'| ensures states'[i].recovery.None? {
      if i < |states'| - 1 { assert states'[..|states|][i] == states[i]; }
    }
  }

  lemma {:induction false} RecoveryKeepsNoneStuck(s: System, after: Disk, g: Geometry)
    requires s.disk.states != [] && RecoveryStep(s.disk, after, g) && NoneStuck(s)
    ensures NoneStuck(RecoveryResult(s, after))
  {
    EffectKeepsUnstuck(s.disk, after, g);
    if TrimStep(s.disk, after) {
      forall i | 0 <= i < |s.disk.states| ensures !Stuck(s.disk.states[i], after.vlog.files) {
        if s.disk.states[i].recovery.Some? {
          TrimAddsNoSuffix(s.disk.vlog.files, Current(s.disk).recovery.value.target.end, s.disk.states[i].recovery.value.target.end);
        }
      }
    } else if !SyncStep(s.disk, after, g) {
      CommitsOrNot(s.disk, after, g);
    }
  }

  lemma {:induction false} CommitKeepsNoneStuck(s: System, t: Tx, sync: bool, fault: Fault, g: Geometry)
    requires s.session.Some? && s.disk.states != [] && NoneStuck(s) && Inv(CommitResult(s, t, sync, fault, g), g)
    ensures NoneStuck(CommitResult(s, t, sync, fault, g))
  {
    CommitMoves(s, t, sync, fault, g);
    MovesKeepNoneStuck(s, CommitResult(s, t, sync, fault, g), g);
  }

  lemma {:induction false} BarrierKeepsNoneStuck(s: System, fault: Fault, g: Geometry)
    requires s.session.Some? && s.disk.states != [] && NoneStuck(s) && Inv(BarrierResult(s, fault), g)
    ensures NoneStuck(BarrierResult(s, fault))
  {
    BarrierMoves(s, fault);
    MovesKeepNoneStuck(s, BarrierResult(s, fault), g);
  }

  /** A stop adds no bytes, so it makes no state stuck. */
  lemma {:induction false} StopKeepsNoneStuck(s: System, survivor: Option<nat>, vlog: VLog, g: Geometry)
    requires NoneStuck(s) && |s.disk.states| == |s.past| + 1 && (survivor.Some? ==> survivor.value < |s.disk.states|)
    requires CrashWhileDown(s.disk, StopDisk(s.disk, survivor, vlog), g)
    ensures NoneStuck(StopResult(s, survivor, vlog))
  {
    forall i | 0 <= i < |s.disk.states| ensures !Stuck(s.disk.states[i], vlog.files) {
    }
  }

  lemma {:induction false} StepKeepsNoneStuck(s: System, e: Event, s': System, g: Geometry)
    requires Inv(s, g) && Step(s, e, s', g) && NoneStuck(s) && Inv(s', g)
    requires e.OpenEvent? ==> Uniform(s.disk)
    ensures NoneStuck(s')
  {
    match e
    case CommitEvent(t, sync, fault) => CommitKeepsNoneStuck(s, t, sync, fault, g);
    case BarrierEvent(fault) => BarrierKeepsNoneStuck(s, fault, g);
    case CleanupEvent(_) => MovesKeepNoneStuck(s, s', g);
    case StopEvent(survivor, vlog) => StopKeepsNoneStuck(s, survivor, vlog, g);
    case RecoveryEvent(after) => RecoveryKeepsNoneStuck(s, after, g);
    case OpenEvent =>
      forall i | 0 <= i < |s.disk.states| ensures s.disk.states[i].recovery.None? {
        if |s.disk.states| > 1 { assert Plain(s.disk.states[i], Current(s.disk).frontier); }
      }
  }

  // ---------------------------------------------------------------- whole runs

  ghost predicate Trusted(s: System, g: Geometry) {
    Inv(s, g) && ToldIsSafe(s) && NoneStuck(s)
  }

  lemma {:induction false} StepKeepsTrust(s: System, e: Event, s': System, g: Geometry)
    requires Trusted(s, g) && Step(s, e, s', g) && (e.OpenEvent? ==> Uniform(s.disk))
    ensures Trusted(s', g)
  {
    StepKeepsInv(s, e, s', g);
    if e.OpenEvent? { UniformIsDurable(s.disk); }
    StepKeepsTold(s, e, s', g);
    StepKeepsNoneStuck(s, e, s', g);
  }

  lemma {:induction false} UniformIsDurable(d: Disk)
    requires Uniform(d)
    ensures FrontierIsDurable(d)
  {
    forall i | 0 <= i < |d.states| ensures d.states[i].frontier == Current(d).frontier {
      if |d.states| > 1 { assert Plain(d.states[i], Current(d).frontier); }
    }
  }

  lemma {:induction false} EmptyIsTrusted(g: Geometry)
    ensures Trusted(EMPTY_SYSTEM, g) && Uniform(EMPTY_SYSTEM.disk)
  {
    EmptyKeepsInv(g);
  }

  /** Runs whose Opens are undoubted stay trusted. */
  lemma {:induction false} UndoubtedRunsAreTrusted(states: seq<System>, events: seq<Event>, g: Geometry, n: nat)
    requires Run(states, events, g) && states[0] == EMPTY_SYSTEM && OpensUndoubted(states, events, n)
    ensures Trusted(states[n], g) && (!Doubt(states, events, n) ==> Uniform(states[n].disk))
  {
    if n == 0 {
      EmptyIsTrusted(g);
    } else {
      UndoubtedRunsAreTrusted(states, events, g, n - 1);
      UndoubtedStep(states, events, g, n - 1);
    }
  }

  lemma {:induction false} UndoubtedStep(states: seq<System>, events: seq<Event>, g: Geometry, i: nat)
    requires Run(states, events, g) && i < |events| && Trusted(states[i], g)
    requires !Doubt(states, events, i) ==> Uniform(states[i].disk)
    requires events[i].OpenEvent? ==> !Doubt(states, events, i)
    ensures Trusted(states[i + 1], g) && (!Doubt(states, events, i + 1) ==> Uniform(states[i + 1].disk))
  {
    assert StepAt(states, events, g, i);
    StepKeepsTrust(states[i], events[i], states[i + 1], g);
    if !Doubt(states, events, i + 1) {
      StepKeepsUniform(states[i], events[i], states[i + 1], Doubt(states, events, i), g);
    }
  }

  /** The safe part of the history before a step is its beginning afterwards. */
  predicate SafePartKept(s: System, s': System) {
    s.safe <= s'.safe && s.safe <= |Shown(s)| && s.safe <= |Shown(s')| && Shown(s')[..s.safe] == Shown(s)[..s.safe]
  }

  lemma {:induction false} CommitKeepsSafePart(s: System, t: Tx, sync: bool, fault: Fault, g: Geometry)
    requires Inv(s, g) && s.session.Some? && TxOk(s.log, t)
    ensures SafePartKept(s, CommitResult(s, t, sync, fault, g))
  {
    ShownCoversSafe(s, g);
    CommitEffect(s, t, sync, fault, g);
    SessionStays(s, t, sync, fault, g);
  }

  lemma {:induction false} BarrierKeepsSafePart(s: System, fault: Fault, g: Geometry)
    requires Inv(s, g) && s.session.Some?
    ensures SafePartKept(s, BarrierResult(s, fault))
  {
    ShownCoversSafe(s, g);
    BarrierEffect(s, fault);
    BarrierSafeGrows(s, fault, g);
  }

  /** No step touches the safe part of the history. */
  lemma {:induction false} StepKeepsSafePart(s: System, e: Event, s': System, g: Geometry)
    requires Inv(s, g) && Step(s, e, s', g)
    ensures SafePartKept(s, s')
  {
    match e
    case CommitEvent(t, sync, fault) => CommitKeepsSafePart(s, t, sync, fault, g);
    case BarrierEvent(fault) => BarrierKeepsSafePart(s, fault, g);
    case CleanupEvent(_) => ShownCoversSafe(s, g);
    case OpenEvent => ShownCoversSafe(s, g); RecoveredShowsHistory(s.log, s.disk, s.safe, g);
    case _ => LossKeepsSafePart(s, e, s', g);
  }

  lemma {:induction false} LossKeepsSafePart(s: System, e: Event, s': System, g: Geometry)
    requires Inv(s, g) && Step(s, e, s', g) && (e.StopEvent? || e.RecoveryEvent?)
    ensures SafePartKept(s, s')
  {
    ShownCoversSafe(s, g);
    LossRefines(s, e, s', g);
    PrefixKeepsStart(Shown(s'), Shown(s), s.safe);
  }

  lemma {:induction false} PrefixKeepsStart<T>(a: seq<T>, b: seq<T>, n: nat)
    requires a <= b && n <= |a|
    ensures a[..n] == b[..n]
  {
  }

  lemma {:induction false} BarrierSafeGrows(s: System, fault: Fault, g: Geometry)
    requires Inv(s, g) && s.session.Some?
    ensures s.safe <= BarrierResult(s, fault).safe && BarrierResult(s, fault).session.Some?
  {
  }

  /**
   * Acknowledged durability: in every run whose Opens were undoubted, everything that callers had been
   * told is durable by `m` is part of the history at `m` and unchanged in the history at every later
   * point, through any number of failures, crashes and recoveries.
   */
  lemma {:induction false} AcknowledgedWritesAreKept(states: seq<System>, events: seq<Event>, g: Geometry, m: nat, n: nat)
    requires Run(states, events, g) && states[0] == EMPTY_SYSTEM && OpensUndoubted(states, events, n) && m <= n
    ensures var told := states[m].told;
            && told <= states[m].safe <= states[n].safe
            && told <= |Shown(states[m])| && told <= |Shown(states[n])| && Shown(states[n])[..told] == Shown(states[m])[..told]
    decreases n
  {
    UndoubtedToldIsShown(states, events, g, m);
    if m < n {
      AcknowledgedWritesAreKept(states, events, g, m, n - 1);
      UndoubtedStepKeepsSafePart(states, events, g, n - 1);
      SharedThrough(Shown(states[m]), Shown(states[n - 1]), Shown(states[n]), states[m].told, states[n - 1].safe);
    }
  }

  lemma {:induction false} UndoubtedToldIsShown(states: seq<System>, events: seq<Event>, g: Geometry, n: nat)
    requires Run(states, events, g) && states[0] == EMPTY_SYSTEM && OpensUndoubted(states, events, n)
    ensures states[n].told <= states[n].safe <= |Shown(states[n])|
  {
    UndoubtedRunsAreTrusted(states, events, g, n);
    ShownCoversSafe(states[n], g);
  }

  lemma {:induction false} UndoubtedStepKeepsSafePart(states: seq<System>, events: seq<Event>, g: Geometry, i: nat)
    requires Run(states, events, g) && states[0] == EMPTY_SYSTEM && OpensUndoubted(states, events, i) && i < |events|
    ensures SafePartKept(states[i], states[i + 1])
  {
    UndoubtedRunsAreTrusted(states, events, g, i);
    assert StepAt(states, events, g, i);
    StepKeepsSafePart(states[i], events[i], states[i + 1], g);
  }

  lemma {:induction false} SharedThrough<T>(a: seq<T>, b: seq<T>, c: seq<T>, k: nat, n: nat)
    requires k <= n && k <= |a| && n <= |b| && n <= |c| && b[..k] == a[..k] && c[..n] == b[..n]
    ensures c[..k] == a[..k]
  {
    assert c[..k] == c[..n][..k] && b[..k] == b[..n][..k];
  }

  /** In the same runs no analysis ever fails, so Open is never refused. */
  lemma {:induction false} OpenIsNeverRefused(states: seq<System>, events: seq<Event>, g: Geometry, n: nat)
    requires Run(states, events, g) && states[0] == EMPTY_SYSTEM && OpensUndoubted(states, events, n)
    ensures states[n].disk.states != [] && Analyze(Current(states[n].disk), states[n].disk.vlog, g).Ok?
  {
    UndoubtedRunsAreTrusted(states, events, g, n);
    AnalysisFindsTarget(states[n].log, states[n].disk, states[n].safe, g);
  }
}
