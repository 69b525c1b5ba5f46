/**
 * Whole runs of the store: any mix of commits, failures, barriers, cleanup batches, stops, recovery
 * effects and Opens, starting from an empty store.
 */
module CrashConsistency {
  import opened Basics
  import opened Index
  import opened CommitProtocol
  import opened Topology
  import opened History
  import opened Recovery
  import opened RecoveryInvariant
  import opened RecoverySteps
  import opened RestartableRecovery
  import opened Running
  import opened StoreSystem
  import opened StoreSteps

  datatype Event =
    | CommitEvent(t: Tx, sync: bool, fault: Fault)
    | BarrierEvent(fault: Fault)
    | CleanupEvent(keys: set<TxKey>)
    | StopEvent(survivor: Option<nat>, vlog: VLog)
    | RecoveryEvent(after: Disk)
    | OpenEvent

  // ---------------------------------------------------------------- stopping and opening

  /** Every index state that a crash may leave carries the frontier that the index shows now. */
  predicate FrontierIsDurable(d: Disk)
    requires d.states != []
  {
    forall i :: 0 <= i < |d.states| ==> d.states[i].frontier.seqNo >= Current(d).frontier.seqNo
  }

  function SafeAfter(d: Disk, safe: nat): nat
    requires d.states != []
  {
    if FrontierIsDurable(d) && safe <= Current(d).frontier.seqNo then Current(d).frontier.seqNo else safe
  }

  /** The process stops and all index states stay, or the system stops and one of them survives. */
  function StopDisk(d: Disk, survivor: Option<nat>, vlog: VLog): Disk
    requires survivor.Some? ==> survivor.value < |d.states|
  {
    Disk(if survivor.Some? then [d.states[survivor.value]] else d.states, vlog)
  }

  function StopResult(s: System, survivor: Option<nat>, vlog: VLog): System
    requires |s.disk.states| == |s.past| + 1 && (survivor.Some? ==> survivor.value < |s.disk.states|)
  {
    var after := StopDisk(s.disk, survivor, vlog);
    System(after, None, if survivor.Some? then [] else s.past,
           if survivor.Some? then LogOf(s.past, s.log, survivor.value) else s.log, SafeAfter(after, s.safe), s.told)
  }

  function RecoveryResult(s: System, after: Disk): System
    requires after.states != []
  {
    System(after, None, PastAfter(s.past, s.log, s.disk, after), LogAfter(s.log, after), SafeAfter(after, s.safe), s.told)
  }

  /** The session that Open starts from what recovery left. */
  function OpenedSession(d: Disk): Session
    requires d.states != []
  {
    var f := Current(d).frontier;
    Session(Current(d).head, f, f.vlogSeq, f.end, Writer(AppendPosition(f.end), None, false, false), Healthy, false)
  }

  function CleanupResult(s: System, keys: set<TxKey>): System
    requires s.disk.states != []
  {
    s.(disk := s.disk.(states := s.disk.states + [CleanedIndex(Current(s.disk), keys)]), past := s.past + [s.log])
  }

  /** validate_initial_state: what the coordinator demands of the recovered state. */
  predicate InitialStateValid(x: Session) {
    && FrontierValid(x.frontier) && x.frontier.seqNo <= x.head
    && x.frontier.seqNo == x.head && x.frontier.vlogSeq == x.vlogSeq && x.vlogSeq <= x.head
    && x.frontier.end == x.vlogEnd
    && match x.vlogEnd
       case Empty => x.vlogSeq == 0 && x.writer.position == Pos(0, 0)
       case At(end) => x.vlogSeq != 0 && x.writer.position == end
  }

  // ---------------------------------------------------------------- steps and runs

  ghost predicate Step(s: System, e: Event, s': System, g: Geometry) {
    && s.disk.states != []
    && match e
       case CommitEvent(t, sync, fault) =>
         && s.session.Some? && TxOk(s.log, t) && (HasEnvelope(t) ==> Fits(t.desc.meta.end, g))
         && Fresh(t.desc.meta.uuid, s.past) && FaultFits(fault, s.disk.vlog, t, g)
         && s' == CommitResult(s, t, sync, fault, g)
       case BarrierEvent(fault) =>
         && s.session.Some? && (fault.NotApplied? ==> fault.stop != Healthy)
         && s' == BarrierResult(s, fault)
       case CleanupEvent(keys) =>
         && s.session.Some? && Cleanable(Current(s.disk), keys)
         && s' == CleanupResult(s, keys)
       case StopEvent(survivor, vlog) =>
         && |s.disk.states| == |s.past| + 1 && (survivor.Some? ==> survivor.value < |s.disk.states|)
         && CrashWhileDown(s.disk, StopDisk(s.disk, survivor, vlog), g)
         && s' == StopResult(s, survivor, vlog)
       case RecoveryEvent(after) =>
         && s.session.None? && RecoveryStep(s.disk, after, g) && after.states != []
         && s' == RecoveryResult(s, after)
       case OpenEvent =>
         && s.session.None? && Recovered(s.disk, g) && InitialStateValid(OpenedSession(s.disk))
         && s' == s.(session := Some(OpenedSession(s.disk)))
  }

  /** `states` has one more element than `events`. */
  ghost predicate Run(states: seq<System>, events: seq<Event>, g: Geometry) {
    && |states| == |events| + 1
    && forall i :: 0 <= i < |events| ==> StepAt(states, events, g, i)
  }

  ghost predicate StepAt(states: seq<System>, events: seq<Event>, g: Geometry, i: nat)
    requires i < |events| < |states|
  {
    Step(states[i], events[i], states[i + 1], g)
  }

  const EMPTY_SYSTEM := System(Disk([EMPTY_INDEX], VLog([], 0, [])), None, [], [], 0, 0)

  // ---------------------------------------------------------------- the invariant over every run

  lemma {:induction false} EmptyKeepsInv(g: Geometry)
    ensures Inv(EMPTY_SYSTEM, g)
  {
  }

  lemma {:induction false} SaferKeepsDown(past: seq<Log>, log: Log, d: Disk, safe: nat, g: Geometry)
    requires DownInv(past, log, d, safe, g)
    ensures DownInv(past, log, d, SafeAfter(d, safe), g) && safe <= SafeAfter(d, safe) <= Current(d).frontier.seqNo
  {
    var safe' := SafeAfter(d, safe);
    forall i | 0 <= i < |past| ensures Older(past, log, d, safe', i) {
      assert Older(past, log, d, safe, i);
    }
  }

  lemma {:induction false} StopKeepsInv(s: System, survivor: Option<nat>, vlog: VLog, g: Geometry)
    requires Inv(s, g) && (survivor.Some? ==> survivor.value < |s.disk.states|)
    requires CrashWhileDown(s.disk, StopDisk(s.disk, survivor, vlog), g)
    ensures Inv(StopResult(s, survivor, vlog), g)
  {
    var after := StopDisk(s.disk, survivor, vlog);
    if survivor.Some? {
      CrashKeepsDown(s.past, s.log, s.disk, after, survivor.value, s.safe, g);
      SaferKeepsDown([], LogOf(s.past, s.log, survivor.value), after, s.safe, g);
    } else {
      RestartKeepsDown(s.past, s.log, s.disk, after, s.safe, g);
      SaferKeepsDown(s.past, s.log, after, s.safe, g);
    }
  }

  lemma {:induction false} RecoveryKeepsInv(s: System, after: Disk, g: Geometry)
    requires Inv(s, g) && RecoveryStep(s.disk, after, g) && after.states != []
    ensures Inv(RecoveryResult(s, after), g)
  {
    EffectKeepsDown(s.past, s.log, s.disk, after, s.safe, g);
    SaferKeepsDown(PastAfter(s.past, s.log, s.disk, after), LogAfter(s.log, after), after, s.safe, g);
  }

  /**
   * Recovery hand-off: what the final check accepts is a healthy disk, and the coordinator's own
   * check of its initial state cannot fail on it.
   */
  lemma {:induction false} HandOffIsAccepted(s: System, g: Geometry)
    requires Inv(s, g) && s.session.None? && Recovered(s.disk, g)
    ensures InitialStateValid(OpenedSession(s.disk))
    ensures Inv(s.(session := Some(OpenedSession(s.disk))), g)
    ensures Current(s.disk).user == UserAfter(s.log)
  {
    RecoveredShowsHistory(s.log, s.disk, s.safe, g);
    RecoveredFilesAreFilled(s.disk.vlog.files, FrontierAt(s.log).end, g);
    assert s.log[..|s.log|] == s.log;
  }

  lemma {:induction false} CleanupKeepsInv(s: System, keys: set<TxKey>, g: Geometry)
    requires Inv(s, g) && s.session.Some? && Cleanable(Current(s.disk), keys)
    ensures Inv(CleanupResult(s, keys), g)
  {
    CleanupKeepsDown(s.past, s.log, s.disk, s.safe, g, keys);
  }

  lemma {:induction false} StepKeepsInv(s: System, e: Event, s': System, g: Geometry)
    requires Inv(s, g) && Step(s, e, s', g)
    ensures Inv(s', g)
  {
    match e
    case CommitEvent(t, sync, fault) => CommitKeepsInv(s, t, sync, fault, g);
    case BarrierEvent(fault) => BarrierKeepsInv(s, fault, g);
    case CleanupEvent(keys) => CleanupKeepsInv(s, keys, g);
    case StopEvent(survivor, vlog) => StopKeepsInv(s, survivor, vlog, g);
    case RecoveryEvent(after) => RecoveryKeepsInv(s, after, g);
    case OpenEvent => HandOffIsAccepted(s, g);
  }

  /** The invariant holds in every state of every run. */
  lemma {:induction false} RunsKeepInv(states: seq<System>, events: seq<Event>, g: Geometry, n: nat)
    requires Run(states, events, g) && Inv(states[0], g) && n < |states|
    ensures Inv(states[n], g)
  {
    if n > 0 {
      RunsKeepInv(states, events, g, n - 1);
      RunStepKeepsInv(states, events, g, n - 1);
    }
  }

  lemma {:induction false} RunStepKeepsInv(states: seq<System>, events: seq<Event>, g: Geometry, i: nat)
    requires Run(states, events, g) && i < |events| && Inv(states[i], g)
    ensures Inv(states[i + 1], g)
  {
    assert StepAt(states, events, g, i);
    StepKeepsInv(states[i], events[i], states[i + 1], g);
  }

  // ---------------------------------------------------------------- refinement

  /**
   * The store as a caller may think of it: a history of writes, of which a prefix is safe, and the
   * length of the prefix that was acknowledged last.
   */
  datatype Abstract = Abstract(history: seq<seq<Operation>>, safe: nat, told: nat)

  /** The history of a running store; for a stopped one, the history that recovery will end with. */
  function Shown(s: System): Log {
    if s.session.None? && s.disk.states != [] && Current(s.disk).frontier.seqNo <= |s.log|
       && TargetCount(s.log, Current(s.disk), s.disk.vlog.envs) <= |s.log|
    then Outcome(s.log, s.disk) else s.log
  }

  function Requests(log: Log): seq<seq<Operation>> {
    seq(|log|, i requires 0 <= i < |log| => log[i].ops)
  }

  function Abstraction(s: System): Abstract {
    Abstract(Requests(Shown(s)), s.safe, s.told)
  }

  /** The history after a write request whose caller was told `outcome`. */
  predicate Wrote(a: Abstract, ops: seq<Operation>, sync: bool, outcome: WriteOutcome, a': Abstract) {
    match outcome
    case Committed =>
      var n := |a.history| + 1;
      a' == if sync then Abstract(a.history + [ops], n, n) else a.(history := a.history + [ops])
    case CommitUnknown => a' == a || a' == a.(history := a.history + [ops])
    case _ => a' == a
  }

  /**
   * The history after an empty sync batch. A committed one acknowledges the whole history, and makes
   * it safe unless the frontier already was at the head.
   */
  predicate Synced(a: Abstract, atFrontier: bool, outcome: WriteOutcome, a': Abstract) {
    match outcome
    case Committed => a' == a.(safe := if atFrontier then a.safe else |a.history|, told := |a.history|)
    case _ => a' == a
  }

  /** Some writes after the safe prefix are gone, in order from the last; more of the rest may be safe. */
  predicate Lost(a: Abstract, a': Abstract) {
    && a.safe <= |a'.history| && a'.history <= a.history
    && a.safe <= a'.safe <= |a'.history| && a'.told == a.told
  }

  ghost predicate AbstractStep(a: Abstract, e: Event, x: Option<Session>, a': Abstract) {
    match e
    case CommitEvent(t, sync, fault) => x.Some? && Wrote(a, t.ops, sync, CommitOutcome(x.value, t, sync, fault), a')
    case BarrierEvent(fault) =>
      x.Some? && Synced(a, x.value.head == x.value.frontier.seqNo, BarrierOutcome(x.value, fault), a')
    case CleanupEvent(_) => a' == a
    case StopEvent(_, _) => Lost(a, a')
    case RecoveryEvent(_) => a'.history == a.history && a.safe <= a'.safe <= |a.history| && a'.told == a.told
    case OpenEvent => a' == a
  }

  lemma {:induction false} RequestsOfPrefix(a: Log, b: Log)
    requires a <= b
    ensures Requests(a) <= Requests(b)
  {
    assert forall i :: 0 <= i < |a| ==> a[i] == b[i];
  }

  lemma {:induction false} RequestsOfLonger(log: Log, t: Tx)
    ensures Requests(log + [t]) == Requests(log) + [t.ops]
  {
  }

  /** What a commit does to the history, by the outcome its caller is told. */
  lemma {:induction false} CommitEffect(s: System, t: Tx, sync: bool, fault: Fault, g: Geometry)
    requires s.session.Some? && s.disk.states != [] && t.desc.meta.seqNo == |s.log| + 1
    ensures var s', n := CommitResult(s, t, sync, fault, g), |s.log| + 1;
            match CommitOutcome(s.session.value, t, sync, fault)
            case Committed =>
              && s'.log == s.log + [t]
              && s'.safe == (if sync then n else s.safe) && s'.told == if sync then n else s.told
            case CommitUnknown => s'.safe == s.safe && s'.told == s.told && (s'.log == s.log || s'.log == s.log + [t])
            case _ => s'.log == s.log && s'.safe == s.safe && s'.told == s.told
  {
  }

  /** What an empty sync batch does, by the outcome its caller is told. */
  lemma {:induction false} BarrierEffect(s: System, fault: Fault)
    requires s.session.Some? && s.disk.states != []
    ensures var s', x := BarrierResult(s, fault), s.session.value;
            && s'.log == s.log && s'.session.Some?
            && match BarrierOutcome(x, fault)
               case Committed =>
                 s'.told == x.head && s'.safe == if x.head == x.frontier.seqNo then s.safe else x.head
               case _ => s'.told == s.told && s'.safe == s.safe
  {
  }

  /** What is shown covers what is safe. */
  lemma {:induction false} ShownCoversSafe(s: System, g: Geometry)
    requires Inv(s, g)
    ensures s.safe <= |Shown(s)| && Shown(s) <= s.log
    ensures s.session.None? ==> Current(s.disk).frontier.seqNo <= TargetCount(s.log, Current(s.disk), s.disk.vlog.envs) <= |s.log|
  {
    OutcomeBounds(s.log, s.disk, s.safe, g);
  }

  /** Damage to the Value Log only shortens what recovery ends with. */
  lemma {:induction false} WeatheredTarget(log: Log, d: Disk, d': Disk, safe: nat, acked: nat, g: Geometry)
    requires Solo(log, d, acked, g) && Solo(log, d', acked, g) && d'.states == d.states && Weathered(d.vlog, d'.vlog, safe)
    ensures TargetCount(log, Current(d'), d'.vlog.envs) <= TargetCount(log, Current(d), d.vlog.envs) <= |log|
  {
    TargetIsSafe(log, d, acked, g);
    TargetIsSafe(log, d', acked, g);
    var n := TargetCount(log, Current(d'), d'.vlog.envs);
    HeldBefore(log, d.vlog, d'.vlog, safe, n);
    if Current(d).recovery.None? {
      HeldPrefixSurvives(log, d.vlog.envs, Current(d).frontier.seqNo, n);
    }
  }

  /** Whichever state survives, recovery of it ends with a prefix of what was shown before the stop. */
  lemma {:induction false} SurvivorShowsPrefix(past: seq<Log>, log: Log, d: Disk, whole: Disk, i: nat, acked: nat, g: Geometry)
    requires DownInv(past, log, d, acked, g) && DownInv(past, log, whole, acked, g) && i <= |past|
    requires whole.states == d.states && Weathered(d.vlog, whole.vlog, SafeCount(d))
    ensures var own, ix := LogOf(past, log, i), d.states[i];
            && ix.frontier.seqNo <= |own|
            && var n := TargetCount(own, ix, whole.vlog.envs);
               && n <= TargetCount(log, Current(d), d.vlog.envs) <= |log| && n <= |own| && own[..n] == log[..n]
  {
    WeatheredTarget(log, d, whole, SafeCount(d), acked, g);
    if i < |past| {
      assert Older(past, log, whole, acked, i);
      OlderOutcome(past[i], d.states[i], log, Current(whole), whole.vlog, acked);
    }
  }

  lemma {:induction false} StopShowsPrefix(s: System, survivor: Option<nat>, vlog: VLog, g: Geometry)
    requires Inv(s, g) && (survivor.Some? ==> survivor.value < |s.disk.states|)
    requires CrashWhileDown(s.disk, StopDisk(s.disk, survivor, vlog), g)
    ensures Shown(StopResult(s, survivor, vlog)) <= Shown(s)
  {
    var s' := StopResult(s, survivor, vlog);
    var i := if survivor.Some? then survivor.value else |s.past|;
    StopKeepsInv(s, survivor, vlog, g);
    ShownCoversSafe(s, g);
    ShownCoversSafe(s', g);
    RestartKeepsDown(s.past, s.log, s.disk, Disk(s.disk.states, vlog), s.safe, g);
    SurvivorShowsPrefix(s.past, s.log, s.disk, Disk(s.disk.states, vlog), i, s.safe, g);
  }

  lemma {:induction false} RecoveryKeepsShown(s: System, after: Disk, g: Geometry)
    requires Inv(s, g) && s.session.None? && RecoveryStep(s.disk, after, g) && after.states != []
    ensures Shown(RecoveryResult(s, after)) == Shown(s)
  {
    EffectKeepsOutcome(s.log, s.disk, after, s.safe, g);
  }

  lemma {:induction false} LossRefines(s: System, e: Event, s': System, g: Geometry)
    requires Inv(s, g) && Step(s, e, s', g) && (e.StopEvent? || e.RecoveryEvent?)
    ensures Shown(s') <= Shown(s) && (e.RecoveryEvent? ==> Shown(s') == Shown(s))
    ensures s.safe <= s'.safe <= |Shown(s')|
  {
    StepKeepsInv(s, e, s', g);
    ShownCoversSafe(s', g);
    if e.StopEvent? {
      StopShowsPrefix(s, e.survivor, e.vlog, g);
    } else {
      RecoveryKeepsShown(s, e.after, g);
    }
  }

  lemma {:induction false} CommitRefines(s: System, t: Tx, sync: bool, fault: Fault, s': System, g: Geometry)
    requires Inv(s, g) && s.session.Some? && TxOk(s.log, t) && s' == CommitResult(s, t, sync, fault, g)
    ensures Wrote(Abstraction(s), t.ops, sync, CommitOutcome(s.session.value, t, sync, fault), Abstraction(s'))
  {
    CommitEffect(s, t, sync, fault, g);
    RequestsOfLonger(s.log, t);
    SessionStays(s, t, sync, fault, g);
  }

  lemma {:induction false} SessionStays(s: System, t: Tx, sync: bool, fault: Fault, g: Geometry)
    requires s.session.Some? && s.disk.states != []
    ensures CommitResult(s, t, sync, fault, g).session.Some? && BarrierResult(s, fault).session.Some?
  {
  }

  lemma {:induction false} BarrierRefines(s: System, fault: Fault, s': System, g: Geometry)
    requires Inv(s, g) && s.session.Some? && s' == BarrierResult(s, fault)
    ensures var x := s.session.value;
            Synced(Abstraction(s), x.head == x.frontier.seqNo, BarrierOutcome(x, fault), Abstraction(s'))
  {
    BarrierEffect(s, fault);
  }

  /** Refinement: every step of the store is a step of the abstract durable history. */
  lemma {:induction false} StepRefines(s: System, e: Event, s': System, g: Geometry)
    requires Inv(s, g) && Step(s, e, s', g)
    ensures AbstractStep(Abstraction(s), e, s.session, Abstraction(s'))
  {
    match e
    case CommitEvent(t, sync, fault) => CommitRefines(s, t, sync, fault, s', g);
    case BarrierEvent(fault) => BarrierRefines(s, fault, s', g);
    case CleanupEvent(_) =>
    case OpenEvent => RecoveredShowsHistory(s.log, s.disk, s.safe, g);
    case _ => LossRefines(s, e, s', g); RequestsOfPrefix(Shown(s'), Shown(s));
  }

  // ---------------------------------------------------------------- what an answer is worth

  /** A commit is refused exactly by a stopped instance, and succeeds whenever nothing fails. */
  lemma {:induction false} AnswersFit(x: Session, t: Tx, sync: bool, fault: Fault)
    ensures CommitOutcome(x, t, sync, fault) == Refused <==> x.health != Healthy
    ensures BarrierOutcome(x, fault) == Refused <==> x.health != Healthy
    ensures x.health == Healthy && fault.NoFault? ==>
              CommitOutcome(x, t, sync, fault) == Committed && BarrierOutcome(x, fault) == Committed
    ensures CommitOutcome(x, t, sync, fault) == CommitUnknown ==> fault.Unknown?
    ensures BarrierOutcome(x, fault) == CommitUnknown ==> fault.Unknown?
  {
  }

  /** The state of the instance after a commit: an unknown outcome or a failed sync always poisons it. */
  lemma {:induction false} CommitLatches(s: System, t: Tx, sync: bool, fault: Fault, g: Geometry)
    requires s.session.Some? && s.disk.states != [] && s.session.value.health == Healthy
    ensures var s', o := CommitResult(s, t, sync, fault, g), CommitOutcome(s.session.value, t, sync, fault);
            && s'.session.Some?
            && match o
               case Committed =>
                 && s'.session.value.health == Healthy && s'.session.value.head == t.desc.meta.seqNo
                 && (HasEnvelope(t) ==>
                       && s'.session.value.writer.position == t.desc.meta.end
                       && s'.session.value.writer.lastAppended == Some((t.desc.meta.seqNo, t.desc.meta.end)))
               case CommitUnknown => s'.session.value.health == Poisoned && s'.session.value.unknown
               case NotCommitted =>
                 || (fault.SyncFault? && s'.session.value.health == Poisoned && s'.session.value.writer.failed)
                 || ((fault.PreparationFault? || fault.AppendFault? || fault.NotApplied?) && s'.session.value.health == fault.stop)
               case Refused => false
  {
  }

  /** A damaged append, and everything that fails once the Value Log sync has begun, ends the writer. */
  predicate StopsWriter(x: Session, t: Tx, sync: bool, fault: Fault) {
    match fault
    case PreparationFault(_) => false
    case AppendFault(damage, _) => damage.Some?
    case _ => sync && TargetVLogSeq(x, t) > x.frontier.vlogSeq
  }

  lemma {:induction false} WriterAfterSync(s: System, t: Tx, sync: bool, fault: Fault)
    requires s.session.Some? && s.disk.states != [] && !s.session.value.writer.pending
    requires !fault.PreparationFault? && !fault.AppendFault?
    ensures var x, s' := s.session.value, SyncAndCommit(s, t, sync, fault);
            && s'.session.Some? && !s'.session.value.writer.pending
            && s'.session.value.writer.failed == (x.writer.failed || (!fault.NoFault? && StopsWriter(x, t, sync, fault)))
  {
  }

  /** A commit never leaves a sync pending, and ends the writer exactly in those cases. */
  lemma {:induction false} WriterAfterCommit(s: System, t: Tx, sync: bool, fault: Fault, g: Geometry)
    requires s.session.Some? && s.disk.states != [] && s.session.value.health == Healthy
    ensures CommitResult(s, t, sync, fault, g).session.Some?
    ensures var w, w' := s.session.value.writer, CommitResult(s, t, sync, fault, g).session.value.writer;
            !w.pending ==>
              && !w'.pending
              && match CommitOutcome(s.session.value, t, sync, fault)
                 case Committed => w'.failed == w.failed
                 case _ => w'.failed == (w.failed || StopsWriter(s.session.value, t, sync, fault))
  {
    if !s.session.value.writer.pending && !fault.PreparationFault? && !fault.AppendFault? {
      WriterAfterSync(AfterAppend(s, t, g), t, sync, fault);
    }
  }

  lemma {:induction false} BarrierLatches(s: System, fault: Fault)
    requires s.session.Some? && s.disk.states != [] && s.session.value.health == Healthy
    ensures var s', o := BarrierResult(s, fault), BarrierOutcome(s.session.value, fault);
            && s'.session.Some?
            && match o
               case Committed => s'.session.value.health == Healthy
               case CommitUnknown => s'.session.value.health == Poisoned && s'.session.value.unknown
               case NotCommitted =>
                 || (fault.SyncFault? && s'.session.value.health == Poisoned && s'.session.value.writer.failed)
                 || (fault.NotApplied? && s'.session.value.health == fault.stop)
               case Refused => false
    ensures var x, w' := s.session.value, BarrierResult(s, fault).session.value.writer;
            !x.writer.pending ==>
              && !w'.pending
              && match BarrierOutcome(x, fault)
                 case Committed => w'.failed == x.writer.failed
                 case _ => w'.failed == (x.writer.failed || x.vlogSeq > x.frontier.vlogSeq)
  {
  }

  /** The caller of this event is told that the whole history is durable, and it was not known to be before. */
  predicate Acknowledges(s: System, e: Event) {
    && s.session.Some?
    && var x := s.session.value;
       match e
       case CommitEvent(t, sync, fault) => sync && CommitOutcome(x, t, sync, fault) == Committed
       case BarrierEvent(fault) => x.head != x.frontier.seqNo && BarrierOutcome(x, fault) == Committed
       case _ => false
  }

  /** A history that is safe as a whole is in every index state that a crash may leave, with all its bytes synced. */
  ghost predicate AllDurable(s: System) {
    && s.disk.states != []
    && forall i :: 0 <= i < |s.disk.states| ==> StateHolds(s.disk.states[i], s.log, s.disk.vlog)
  }

  predicate StateHolds(ix: Index, log: Log, vlog: VLog) {
    && ix.recovery.None? && ix.head == |log| && ix.frontier == FrontierAt(log)
    && EnvelopesOf(log) <= vlog.envs && |EnvelopesOf(log)| <= vlog.synced
  }

  lemma {:induction false} AcknowledgedCommitLeavesOne(s: System, e: Event, s': System, g: Geometry)
    requires Inv(s, g) && Step(s, e, s', g) && Acknowledges(s, e)
    ensures s'.safe == |s'.log| == s'.told && |s'.disk.states| == 1 && s'.past == [] && s'.session.Some?
    ensures s'.session.value.frontier.seqNo == s'.session.value.head == |s'.log|
  {
    if e.CommitEvent? {
      SyncCommitLeavesOne(s, e.t, e.fault, g);
    } else {
      SlowBarrierLeavesOne(s, e.fault, g);
    }
  }

  lemma {:induction false} SyncCommitLeavesOne(s: System, t: Tx, fault: Fault, g: Geometry)
    requires s.session.Some? && s.disk.states != [] && t.desc.meta.seqNo == |s.log| + 1
    requires CommitOutcome(s.session.value, t, true, fault) == Committed
    ensures var s' := CommitResult(s, t, true, fault, g);
            && s'.safe == |s'.log| == s'.told && |s'.disk.states| == 1 && s'.past == [] && s'.session.Some?
            && s'.session.value.frontier.seqNo == s'.session.value.head == |s'.log|
  {
  }

  lemma {:induction false} SlowBarrierLeavesOne(s: System, fault: Fault, g: Geometry)
    requires Inv(s, g) && s.session.Some? && s.session.value.head != s.session.value.frontier.seqNo
    requires BarrierOutcome(s.session.value, fault) == Committed
    ensures var s' := BarrierResult(s, fault);
            && s'.safe == |s'.log| == s'.told && |s'.disk.states| == 1 && s'.past == [] && s'.session.Some?
            && s'.session.value.frontier.seqNo == s'.session.value.head == |s'.log|
  {
  }

  /**
   * What an acknowledgement is worth: after every sync write that was committed, and every empty sync
   * batch that had something to do and was committed, the one index state on disk is the replay of the
   * whole history with its frontier, every envelope of it is synced, and so every crash keeps all of it.
   */
  lemma {:induction false} AcknowledgedSurvivesEveryCrash(
    s: System, e: Event, s': System, survivor: Option<nat>, vlog: VLog, g: Geometry)
    requires Inv(s, g) && Step(s, e, s', g) && Acknowledges(s, e)
    requires |s'.disk.states| == |s'.past| + 1 && (survivor.Some? ==> survivor.value < |s'.disk.states|)
    requires CrashWhileDown(s'.disk, StopDisk(s'.disk, survivor, vlog), g)
    ensures s'.told == |s'.log| && AllDurable(s')
    ensures Shown(StopResult(s', survivor, vlog)) == s'.log
  {
    StepKeepsInv(s, e, s', g);
    AcknowledgedCommitLeavesOne(s, e, s', g);
    SafeIsDurable(s', g);
    SafeSurvivesEveryStop(s', survivor, vlog, g);
  }

  /** A history that is safe as a whole survives every stop as a whole. */
  lemma {:induction false} SafeSurvivesEveryStop(s: System, survivor: Option<nat>, vlog: VLog, g: Geometry)
    requires Inv(s, g) && s.session.Some? && s.safe == |s.log| && (survivor.Some? ==> survivor.value < |s.disk.states|)
    requires CrashWhileDown(s.disk, StopDisk(s.disk, survivor, vlog), g)
    ensures Shown(StopResult(s, survivor, vlog)) == s.log
  {
    StopShowsPrefix(s, survivor, vlog, g);
    StopKeepsInv(s, survivor, vlog, g);
    ShownCoversSafe(StopResult(s, survivor, vlog), g);
    StopKeepsSafe(s, survivor, vlog, g);
  }

  lemma {:induction false} StopKeepsSafe(s: System, survivor: Option<nat>, vlog: VLog, g: Geometry)
    requires Inv(s, g) && (survivor.Some? ==> survivor.value < |s.disk.states|)
    ensures s.safe <= StopResult(s, survivor, vlog).safe
  {
  }

  lemma {:induction false} SafeIsDurable(s: System, g: Geometry)
    requires Inv(s, g) && s.session.Some? && s.safe == |s.log| && |s.disk.states| == 1
    ensures AllDurable(s)
  {
    assert s.log[..|s.log|] == s.log;
    assert s.disk.states[0] == Current(s.disk);
  }
}
