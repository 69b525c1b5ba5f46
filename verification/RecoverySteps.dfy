/**
 * Recovery over whole runs of effects: when analysis succeeds and what it finds, and that every
 * effect and every crash keeps the invariant of a stopped store and does not change the outcome.
 */
module RecoverySteps {
  import opened Basics
  import opened Index
  import opened CommitProtocol
  import opened Topology
  import opened History
  import opened Recovery
  import opened RecoveryInvariant

  // ---------------------------------------------------------------- when analysis succeeds

  /** The target of recovery lies between the durable sequence and the head, and its envelopes are held. */
  lemma {:induction false} TargetIsSafe(log: Log, d: Disk, acked: nat, g: Geometry)
    requires Solo(log, d, acked, g)
    ensures var ix := Current(d);
            && ix.frontier.seqNo <= Extent(ix) <= TargetCount(log, ix, d.vlog.envs) <= |log|
            && Holds(log, d.vlog.envs, TargetCount(log, ix, d.vlog.envs))
  {
    var ix := Current(d);
    if ix.recovery.None? {
      SurvivorsAreHeld(log, d.vlog.envs, ix.frontier.seqNo);
    }
  }

  lemma {:induction false} MetadataIsSound(log: Log, d: Disk, acked: nat, g: Geometry)
    requires Solo(log, d, acked, g)
    ensures MetadataSound(Current(d), d.vlog, g)
  {
    var ix := Current(d);
    var f := ix.frontier.seqNo;
    WellFormedPrefix(log, f);
    FrontierPositionsValid(log[..f]);
    HoldsShorter(log, d.vlog.envs, Extent(ix), f);
    IntactPrefixIsStable(log, d.vlog, f, g);
    forall k | k in ix.txs ensures k.seqNo <= ix.head {
      assert OwnEntry(ix.txs, log, ix.head, k);
    }
    if ix.recovery.Some? {
      WellFormedPrefix(log, ix.recovery.value.target.seqNo);
      FrontierPositionsValid(log[..ix.recovery.value.target.seqNo]);
    }
  }

  lemma {:induction false} PlanBuilt(log: Log, ix: Index, vlog: VLog, n: nat, g: Geometry)
    requires WellFormed(log) && VLogSound(vlog, g)
    requires ix.frontier.seqNo <= n <= |log| == ix.head
    requires ix.frontier == FrontierAt(log[..ix.frontier.seqNo])
    requires Holds(log, vlog.envs, n)
    ensures BuildPlan(ix, vlog, FrontierAt(log[..n]), DescriptorsOf(log, ix.frontier.seqNo, |log|))
         == Ok(Plan(ix.frontier, ix.head, FrontierAt(log[..n]), DescriptorsOf(log, ix.frontier.seqNo, |log|),
                    ix.recovery, n < ix.head, n > ix.frontier.seqNo,
                    HasSuffixAfter(vlog.files, FrontierAt(log[..n]).end)))
  {
    IntactPrefixIsStable(log, vlog, n, g);
    FrontiersGrow(log, ix.frontier.seqNo, n);
  }

  lemma {:induction false} FixedTargetReaccepted(log: Log, d: Disk, acked: nat, g: Geometry)
    requires Solo(log, d, acked, g) && Current(d).recovery.Some?
    ensures var ix := Current(d); var rs := ix.recovery.value;
            && ix.frontier.seqNo <= rs.target.seqNo <= |log|
            && Accept(DescriptorsOf(log, ix.frontier.seqNo, |log|)[..rs.target.seqNo - ix.frontier.seqNo],
                      ix.frontier, d.vlog.envs) == rs.target
            && ValidAgainstCurrent(rs, ix.frontier, ix.head)
  {
    var ix := Current(d);
    var rs := ix.recovery.value;
    var f, n := ix.frontier.seqNo, rs.target.seqNo;
    FrontiersGrow(log, f, n);
    AcceptsIntactPrefix(log, d.vlog.envs, f, n);
  }

  /**
   * Analysis of a reachable disk fails if and only if a persisted recovery state ruled out a trim and
   * the files go on after its target. Otherwise its plan is determined by the surviving history: the
   * longest prefix whose envelopes can be read, or the target that was fixed before.
   */
  lemma {:induction false} AnalysisFindsTarget(log: Log, d: Disk, acked: nat, g: Geometry)
    requires Solo(log, d, acked, g)
    ensures Current(d).frontier.seqNo <= TargetCount(log, Current(d), d.vlog.envs) <= |log|
    ensures Analyze(Current(d), d.vlog, g)
         == if Stuck(Current(d), d.vlog.files) then Err(Corruption) else Ok(ExpectedPlan(log, Current(d), d.vlog))
  {
    var ix := Current(d);
    TargetIsSafe(log, d, acked, g);
    MetadataIsSound(log, d, acked, g);
    LoadsCommittedDescriptors(ix.txs, log, ix.frontier.seqNo, ix.head, ix.head);
    TargetIsChosen(log, d, acked, g);
  }

  lemma {:induction false} TargetIsChosen(log: Log, d: Disk, acked: nat, g: Geometry)
    requires Solo(log, d, acked, g)
    ensures Current(d).frontier.seqNo <= TargetCount(log, Current(d), d.vlog.envs) <= |log|
    ensures ChooseTarget(Current(d), d.vlog, DescriptorsOf(log, Current(d).frontier.seqNo, |log|))
         == if Stuck(Current(d), d.vlog.files) then Err(Corruption) else Ok(ExpectedPlan(log, Current(d), d.vlog))
  {
    var ix := Current(d);
    TargetIsSafe(log, d, acked, g);
    PlanBuilt(log, ix, d.vlog, TargetCount(log, ix, d.vlog.envs), g);
    if ix.recovery.None? {
      AcceptsTheSurvivingPrefix(log, d.vlog.envs, ix.frontier.seqNo);
    } else {
      FixedTargetReaccepted(log, d, acked, g);
    }
  }

  // ---------------------------------------------------------------- the outcome of recovery

  /** The history that recovery of this disk will end with. */
  function Outcome(log: Log, d: Disk): Log
    requires d.states != [] && Current(d).frontier.seqNo <= |log|
    requires TargetCount(log, Current(d), d.vlog.envs) <= |log|
  {
    log[..TargetCount(log, Current(d), d.vlog.envs)]
  }

  /** The history that the index shows after one effect: only undo shortens it, by one transaction. */
  function LogAfter(log: Log, d': Disk): Log
    requires d'.states != []
  {
    if Current(d').head <= |log| then log[..Current(d').head] else log
  }

  /** The effect keeps the invariant and does not change what recovery will end with. */
  ghost predicate Kept(log: Log, d: Disk, d': Disk, acked: nat, g: Geometry)
    requires Solo(log, d, acked, g)
  {
    && d'.states != []
    && var log' := LogAfter(log, d');
       && Solo(log', d', acked, g)
       && Current(d).frontier.seqNo <= |log| && TargetCount(log, Current(d), d.vlog.envs) <= |log|
       && Current(d').frontier.seqNo <= |log'| && TargetCount(log', Current(d'), d'.vlog.envs) <= |log'|
       && Outcome(log', d') == Outcome(log, d)
       && Advances(log, Current(d), log', Current(d'), d.vlog.envs)
  }

  /**
   * How the shown history may move on: it keeps what every state so far is sure to keep, and gives up
   * what may be shared only where an envelope is lost.
   */
  predicate Advances(log: Log, cur: Index, log': Log, cur': Index, envs: seq<Envelope>) {
    && Extent(cur) <= Extent(cur') <= Reach(log', cur') <= |log'| && Extent(cur) <= Reach(log, cur) <= |log|
    && var n := if Reach(log, cur) <= Reach(log', cur') then Reach(log, cur) else Reach(log', cur');
       log'[..n] == log[..n] && (n == Reach(log, cur) || !Holds(log, envs, n + 1))
  }

  /** The targeted prefix is where the accepted end says it is. */
  lemma {:induction false} TargetEnd(log: Log, d: Disk, acked: nat, g: Geometry)
    requires Solo(log, d, acked, g)
    ensures Current(d).frontier.seqNo <= TargetCount(log, Current(d), d.vlog.envs) <= |log|
    ensures var n := TargetCount(log, Current(d), d.vlog.envs); var m := |EnvelopesOf(log[..n])|;
            && m <= |d.vlog.envs|
            && FrontierAt(log[..n]).end == EndBefore(d.vlog.envs, m)
            && CountThrough(d.vlog.envs, FrontierAt(log[..n]).end) == m
            && (!HasSuffixAfter(d.vlog.files, FrontierAt(log[..n]).end) ==> |d.vlog.envs| == m)
  {
    TargetIsSafe(log, d, acked, g);
    var n := TargetCount(log, Current(d), d.vlog.envs);
    var m := |EnvelopesOf(log[..n])|;
    IntactPrefixIsStable(log, d.vlog, n, g);
    CountThroughPrefix(d.vlog.envs, m);
    if m < |d.vlog.envs| {
      assert InFiles(d.vlog.envs, m, d.vlog.files, g);
    }
  }

  /** What an effect that follows an analysis may rely on. */
  lemma {:induction false} PlanFacts(log: Log, d: Disk, acked: nat, g: Geometry, plan: Plan)
    requires Solo(log, d, acked, g) && Analyze(Current(d), d.vlog, g) == Ok(plan)
    ensures var ix := Current(d);
            && ix.frontier.seqNo <= TargetCount(log, ix, d.vlog.envs) <= |log|
            && var n := TargetCount(log, ix, d.vlog.envs);
               && plan.accepted == FrontierAt(log[..n]) && plan.head == |log| && plan.recovery == ix.recovery
               && (ix.recovery.None? ==> (plan.needsUndo <==> n < |log|))
               && (plan.needsPromote <==> n > ix.frontier.seqNo)
               && plan.needsTrim == HasSuffixAfter(d.vlog.files, plan.accepted.end)
               && plan.frontier == ix.frontier
  {
    AnalysisFindsTarget(log, d, acked, g);
  }

  /** Accepting nothing new in the Value Log needs no sync: the frontier already covers it. */
  lemma {:induction false} AcceptedIsSynced(log: Log, d: Disk, acked: nat, g: Geometry, plan: Plan)
    requires Solo(log, d, acked, g) && Analyze(Current(d), d.vlog, g) == Ok(plan) && AcceptedIsSafe(plan, d.vlog)
    ensures CountThrough(d.vlog.envs, plan.accepted.end) <= d.vlog.synced
  {
    PlanFacts(log, d, acked, g, plan);
    if plan.accepted.vlogSeq == plan.frontier.vlogSeq {
      var f := Current(d).frontier.seqNo;
      FrontiersGrow(log, f, TargetCount(log, Current(d), d.vlog.envs));
      HoldsShorter(log, d.vlog.envs, Extent(Current(d)), f);
      IntactPrefixIsStable(log, d.vlog, f, g);
      CountThroughPrefix(d.vlog.envs, |EnvelopesOf(log[..f])|);
    }
  }

  // ---------------------------------------------------------------- effects that write the index

  lemma {:induction false} BeginFixesTarget(d: Disk, d': Disk, g: Geometry) returns (plan: Plan)
    requires BeginStep(d, d', g)
    ensures Analyze(Current(d), d.vlog, g) == Ok(plan) && NeedsRepair(plan) && AcceptedIsSafe(plan, d.vlog)
    ensures d'.states != [] && d'.vlog == d.vlog
    ensures Current(d') == Current(d).(recovery := Some(StartState(plan)))
  {
    plan := Analyze(Current(d), d.vlog, g).value;
    ApplySingle(Current(d), PutRecovery(StartState(plan)));
  }

  lemma {:induction false} PromoteMovesFrontier(d: Disk, d': Disk, g: Geometry) returns (plan: Plan)
    requires PromoteStep(d, d', g)
    ensures Analyze(Current(d), d.vlog, g) == Ok(plan) && AcceptedIsSafe(plan, d.vlog)
    ensures plan.recovery.None? && !NeedsRepair(plan) && plan.needsPromote
    ensures d'.states != [] && d'.vlog == d.vlog
    ensures Current(d') == Current(d).(head := plan.accepted.seqNo, frontier := plan.accepted)
  {
    plan := Analyze(Current(d), d.vlog, g).value;
    ApplyTarget(Current(d), plan.accepted, None);
  }

  lemma {:induction false} BeginKeepsInv(log: Log, d: Disk, d': Disk, acked: nat, g: Geometry)
    requires Solo(log, d, acked, g) && BeginStep(d, d', g)
    ensures Kept(log, d, d', acked, g)
  {
    var plan := BeginFixesTarget(d, d', g);
    PlanFacts(log, d, acked, g, plan);
    AcceptedIsSynced(log, d, acked, g, plan);
    FixedTargetKeepsInv(log, d, d', acked, g, TargetCount(log, Current(d), d.vlog.envs));
  }

  lemma {:induction false} FixedTargetKeepsInv(log: Log, d: Disk, d': Disk, acked: nat, g: Geometry, n: nat)
    requires Solo(log, d, acked, g) && Current(d).recovery.None?
    requires Current(d).frontier.seqNo <= n == TargetCount(log, Current(d), d.vlog.envs) <= |log|
    requires CountThrough(d.vlog.envs, FrontierAt(log[..n]).end) <= d.vlog.synced
    requires d'.vlog == d.vlog && d'.states != [] && Current(d') == Current(d).(recovery := Current(d').recovery)
    requires Current(d').recovery.Some?
    requires var rs := Current(d').recovery.value;
             rs.phase == Undo && rs.target == FrontierAt(log[..n]) && rs.nextUndo == |log| == rs.originalHead
    ensures Kept(log, d, d', acked, g)
  {
    TargetIsSafe(log, d, acked, g);
    TargetEnd(log, d, acked, g);
    assert log[..|log|] == log;
    FixedTargetState(Current(d), log, d.vlog, acked, n, Current(d'));
    FixedTargetAdvances(Current(d), log, d.vlog.envs, n, Current(d'));
  }

  /** Fixing a target gives up only what follows a lost envelope. */
  lemma {:induction false} FixedTargetAdvances(ix: Index, log: Log, envs: seq<Envelope>, n: nat, ix': Index)
    requires ix.recovery.None? && ix.frontier.seqNo <= |log| && n == SurvivingCount(log, envs, ix.frontier.seqNo)
    requires ix'.recovery.Some? && ix'.recovery.value.target.seqNo == n
    ensures Advances(log, ix, log, ix', envs)
  {
  }

  lemma {:induction false} FixedTargetState(ix: Index, log: Log, vlog: VLog, acked: nat, n: nat, ix': Index)
    requires StateOk(ix, log, vlog, acked) && ix.frontier.seqNo <= n <= |log| && Safe(log, vlog, n)
    requires ix' == ix.(recovery := ix'.recovery) && ix'.recovery.Some?
    requires var rs := ix'.recovery.value;
             rs.phase == Undo && rs.target == FrontierAt(log[..n]) && rs.nextUndo == |log| == rs.originalHead
    ensures StateOk(ix', log, vlog, acked)
  {
  }

  lemma {:induction false} ApplyTarget(ix: Index, target: Frontier, next: Option<RecoveryState>)
    ensures Apply(ix, TargetBatch(target, next))
         == ix.(head := target.seqNo, frontier := target, recovery := if next.Some? then next else ix.recovery)
  {
    var two: Batch := [PutHead(target.seqNo), PutFrontier(target)];
    assert two == [PutHead(target.seqNo)] + [PutFrontier(target)];
    ApplyConcat(ix, [PutHead(target.seqNo)], [PutFrontier(target)]);
    ApplySingle(ix, PutHead(target.seqNo));
    ApplySingle(ix.(head := target.seqNo), PutFrontier(target));
    if next.Some? {
      ApplyConcat(ix, two, [PutRecovery(next.value)]);
      ApplySingle(Apply(ix, two), PutRecovery(next.value));
    } else {
      assert TargetBatch(target, next) == two;
    }
  }

  /** An index whose frontier moves up to its head, over a safe prefix, is still a good state. */
  lemma {:induction false} FrontierMayReachHead(ix: Index, log: Log, vlog: VLog, acked: nat, ix': Index)
    requires StateOk(ix, log, vlog, acked) && Safe(log, vlog, |log|)
    requires ix' == ix.(frontier := FrontierAt(log), recovery := ix'.recovery)
    requires ix'.recovery.Some? ==>
               RecoveryOk(log, ix', ix'.recovery.value) && ix'.recovery.value.target.seqNo == |log|
    ensures StateOk(ix', log, vlog, acked)
  {
    assert log[..|log|] == log;
  }

  lemma {:induction false} PromoteKeepsInv(log: Log, d: Disk, d': Disk, acked: nat, g: Geometry)
    requires Solo(log, d, acked, g) && PromoteStep(d, d', g)
    ensures Kept(log, d, d', acked, g)
  {
    var plan := PromoteMovesFrontier(d, d', g);
    PlanFacts(log, d, acked, g, plan);
    AcceptedIsSynced(log, d, acked, g, plan);
    PromotedKeepsInv(log, d, d', acked, g);
  }

  lemma {:induction false} PromotedKeepsInv(log: Log, d: Disk, d': Disk, acked: nat, g: Geometry)
    requires Solo(log, d, acked, g) && Current(d).recovery.None?
    requires Current(d).frontier.seqNo <= |log| == TargetCount(log, Current(d), d.vlog.envs)
    requires CountThrough(d.vlog.envs, FrontierAt(log[..|log|]).end) <= d.vlog.synced
    requires d'.states != [] && d'.vlog == d.vlog
    requires Current(d') == Current(d).(head := |log|, frontier := FrontierAt(log[..|log|]))
    ensures Kept(log, d, d', acked, g)
  {
    TargetIsSafe(log, d, acked, g);
    TargetEnd(log, d, acked, g);
    assert log[..|log|] == log;
    FrontierMayReachHead(Current(d), log, d.vlog, acked, Current(d'));
  }

  lemma {:induction false} FinishUndoKeepsInv(log: Log, d: Disk, d': Disk, acked: nat, g: Geometry)
    requires Solo(log, d, acked, g) && FinishUndoStep(d, d')
    ensures Kept(log, d, d', acked, g)
  {
    var rs := Current(d).recovery.value;
    ApplyTarget(Current(d), rs.target, Some(AfterUndo(rs)));
    assert log[..|log|] == log;
    FrontierMayReachHead(Current(d), log, d.vlog, acked, Current(d'));
  }

  lemma {:induction false} ClearKeepsInv(log: Log, d: Disk, d': Disk, acked: nat, g: Geometry)
    requires Solo(log, d, acked, g) && ClearStep(d, d')
    ensures Kept(log, d, d', acked, g)
  {
    ApplySingle(Current(d), DeleteRecovery);
    assert log[..|log|] == log;
  }

  /** The user map before the last transaction is what its descriptor's before-states restore. */
  lemma {:induction false} LastDescriptorRestores(log: Log, ix: Index)
    requires WellFormed(log) && Sized(log) && log != [] && ix.user == UserAfter(log)
    ensures var t := log[|log| - 1]; var user := UserAfter(log[..|log| - 1]);
            && NoDuplicates(MutatedKeys(t.desc.mutations))
            && (forall i :: 0 <= i < |t.desc.mutations| ==>
                  t.desc.mutations[i].before == Lookup(user, t.desc.mutations[i].key)
                  && t.desc.mutations[i].after == Lookup(ix.user, t.desc.mutations[i].key))
            && (forall k :: k !in MutatedKeys(t.desc.mutations) ==> Lookup(ix.user, k) == Lookup(user, k))
  {
    var t := log[|log| - 1];
    var user := UserAfter(log[..|log| - 1]);
    assert TxAt(log, |log| - 1);
    DistinctKeysDoNotRepeat(t.ops);
    assert MutatedKeys(t.desc.mutations) == DistinctKeys(t.ops);
    forall k | k !in MutatedKeys(t.desc.mutations) ensures Lookup(ix.user, k) == Lookup(user, k) {
      UntouchedKeyIsKept(user, t.ops, t.pointers, k);
    }
  }

  /** Removing the last transaction's entries leaves exactly the entries of the others. */
  lemma {:induction false} LastEntriesRemoved(txs: map<TxKey, TxValue>, log: Log, durable: nat)
    requires TxsOk(txs, log, durable, |log|) && durable < |log|
    ensures var n := |log|; var d := log[n - 1].desc;
            TxsOk(txs - MutationKeys(n, |d.mutations|) - {MetaKey(n)}, log[..n - 1], durable, n - 1)
  {
    var n := |log|;
    var d := log[n - 1].desc;
    var rest := txs - MutationKeys(n, |d.mutations|) - {MetaKey(n)};
    forall k | k in rest ensures OwnEntry(rest, log[..n - 1], n - 1, k) {
      assert OwnEntry(txs, log, n, k);
    }
    var short := log[..n - 1];
    forall m | durable < m <= n - 1 ensures EntriesPresent(rest, short, m) {
      assert EntriesPresent(txs, log, m);
    }
  }

  /** The descriptor that an undo finds is the last one committed, and its batch restores what was before. */
  lemma {:induction false} UndoRestores(log: Log, d: Disk, d': Disk, acked: nat)
    requires d.states != [] && Replays(Current(d), log, acked) && UndoStep(d, d')
    ensures var n, ix := |log|, Current(d);
            && log != [] && ix.frontier.seqNo < n && Sized(log[..n - 1]) && d'.states != [] && d'.vlog == d.vlog
            && Current(d') == Index(UserAfter(log[..n - 1]), ix.txs - MutationKeys(n, |log[n - 1].desc.mutations|) - {MetaKey(n)},
                                    n - 1, ix.frontier, Some(ix.recovery.value.(nextUndo := n - 1)))
  {
    var ix, n := Current(d), |log|;
    LoadsCommittedDescriptor(ix.txs, log, ix.frontier.seqNo, ix.head, n);
    LastDescriptorRestores(log, ix);
    DescriptorAtIsValid(log, n - 1);
    UndoBatchRestores(ix, log[n - 1].desc, ix.recovery.value.(nextUndo := n - 1), UserAfter(log[..n - 1]));
  }

  lemma {:induction false} UndoKeepsInv(log: Log, d: Disk, d': Disk, acked: nat, g: Geometry)
    requires Solo(log, d, acked, g) && UndoStep(d, d')
    ensures Kept(log, d, d', acked, g)
  {
    UndoRestores(log, d, d', acked);
    LastEntriesRemoved(Current(d).txs, log, Current(d).frontier.seqNo);
    ShorterHistoryKeepsInv(log, d, d', acked, g);
  }

  lemma {:induction false} ShorterHistoryKeepsInv(log: Log, d: Disk, d': Disk, acked: nat, g: Geometry)
    requires Solo(log, d, acked, g) && log != [] && Current(d).recovery.Some?
    requires var rs := Current(d).recovery.value; rs.phase == Undo && rs.target.seqNo < |log|
    requires d'.states != [] && d'.vlog == d.vlog
    requires var n, ix, ix' := |log|, Current(d), Current(d');
             && Sized(log[..n - 1])
             && ix' == Index(UserAfter(log[..n - 1]), ix'.txs, n - 1, ix.frontier,
                             Some(ix.recovery.value.(nextUndo := n - 1)))
             && TxsOk(ix'.txs, log[..n - 1], ix.frontier.seqNo, n - 1)
    ensures Kept(log, d, d', acked, g)
  {
    var short := log[..|log| - 1];
    WellFormedPrefix(log, |log| - 1);
    AgreePrefix(log, d.vlog.envs, |log| - 1);
    var t, f := Current(d).recovery.value.target.seqNo, Current(d).frontier.seqNo;
    assert short[..t] == log[..t] && short[..f] == log[..f] && short[..|short|] == short;
  }

  // ---------------------------------------------------------------- effects on the Value Log, and crashes

  predicate Decays(e: Envelope, e': Envelope, safe: bool) {
    && e'.(intact := true) == e.(intact := true)
    && (e'.intact ==> e.intact) && (safe ==> e'.intact == e.intact)
  }

  /** The first `safe` envelopes are as they were; later ones may be damaged or gone. */
  predicate Weathered(vlog: VLog, vlog': VLog, safe: nat) {
    && safe <= vlog'.synced <= |vlog'.envs| <= |vlog.envs|
    && forall i :: 0 <= i < |vlog'.envs| ==> Decays(vlog.envs[i], vlog'.envs[i], i < safe)
  }

  lemma {:induction false} WeatheredChain(vlog: VLog, vlog': VLog, safe: nat)
    requires Chained(vlog.envs) && Weathered(vlog, vlog', safe)
    ensures Chained(vlog'.envs)
  {
    forall i | 0 <= i < |vlog'.envs| ensures ChainLink(vlog'.envs, i) {
      assert ChainLink(vlog.envs, i);
      assert Decays(vlog.envs[i], vlog'.envs[i], i < safe);
      if i > 0 { assert Decays(vlog.envs[i - 1], vlog'.envs[i - 1], i - 1 < safe); }
    }
  }

  /** Nothing comes back: what is held afterwards was held before. */
  lemma {:induction false} HeldBefore(log: Log, vlog: VLog, vlog': VLog, safe: nat, n: nat)
    requires Weathered(vlog, vlog', safe) && n <= |log| && Holds(log, vlog'.envs, n)
    ensures Holds(log, vlog.envs, n)
  {
    var own := EnvelopesOf(log[..n]);
    EnvelopesAreIntact(log[..n]);
    forall i | 0 <= i < |own| ensures own[i] == vlog.envs[i] {
      assert Decays(vlog.envs[i], vlog'.envs[i], i < safe);
      assert own[i] == vlog'.envs[i] && own[i].intact;
    }
  }

  /** What is safe stays held. */
  lemma {:induction false} HeldAfter(log: Log, vlog: VLog, vlog': VLog, safe: nat, n: nat)
    requires Weathered(vlog, vlog', safe) && n <= |log| && Holds(log, vlog.envs, n) && |EnvelopesOf(log[..n])| <= safe
    ensures Holds(log, vlog'.envs, n)
  {
    var own := EnvelopesOf(log[..n]);
    forall i | 0 <= i < |own| ensures own[i] == vlog'.envs[i] {
      assert Decays(vlog.envs[i], vlog'.envs[i], i < safe);
      assert own[i] == vlog.envs[i];
    }
  }

  lemma {:induction false} WeatheredState(s: Index, log: Log, vlog: VLog, vlog': VLog, safe: nat, acked: nat)
    requires StateOk(s, log, vlog, acked) && Weathered(vlog, vlog', safe)
    requires |EnvelopesOf(log[..Extent(s)])| <= safe
    ensures StateOk(s, log, vlog', acked)
  {
    HeldAfter(log, vlog, vlog', safe, Extent(s));
    forall n | 0 <= n < |log| ensures AgreeAt(log, vlog'.envs, n) {
      assert AgreeAt(log, vlog.envs, n);
      if Holds(log, vlog'.envs, n) {
        HeldBefore(log, vlog, vlog', safe, n);
        var e := |EnvelopesOf(log[..n])|;
        if e < |vlog'.envs| { assert Decays(vlog.envs[e], vlog'.envs[e], e < safe); }
      }
    }
  }

  lemma {:induction false} WeatheredJoin(
    older: Log, s: Index, log: Log, cur: Index, vlog: VLog, vlog': VLog, safe: nat)
    requires Joins(older, s, log, cur, vlog.envs) && Weathered(vlog, vlog', safe)
    ensures Joins(older, s, log, cur, vlog'.envs)
  {
    var n: nat :| Shares(older, s, log, cur, vlog.envs, n);
    if n < |older| && Holds(older, vlog'.envs, n + 1) { HeldBefore(older, vlog, vlog', safe, n + 1); }
    assert Shares(older, s, log, cur, vlog'.envs, n);
  }

  /** What an older state is sure to keep is no more than what the current one is. */
  lemma {:induction false} OlderExtent(older: Log, s: Index, log: Log, cur: Index, envs: seq<Envelope>)
    requires Joins(older, s, log, cur, envs) && Extent(cur) <= |log|
    ensures Extent(s) <= |older| && |EnvelopesOf(older[..Extent(s)])| <= |EnvelopesOf(log[..Extent(cur)])|
  {
    var n: nat :| Shares(older, s, log, cur, envs, n);
    assert older[..Extent(s)] == older[..n][..Extent(s)] == log[..n][..Extent(s)] == log[..Extent(s)];
    CountGrows(log, Extent(s), Extent(cur));
  }

  /** Every surviving state weathers what the current one is sure to weather. */
  lemma {:induction false} WeatheredDown(past: seq<Log>, log: Log, d: Disk, d': Disk, safe: nat, acked: nat, g: Geometry)
    requires DownInv(past, log, d, acked, g) && d'.states == d.states
    requires Weathered(d.vlog, d'.vlog, safe) && FilesSound(d'.vlog.envs, d'.vlog.files, g)
    requires |EnvelopesOf(log[..Extent(Current(d))])| <= safe
    ensures DownInv(past, log, d', acked, g)
  {
    WeatheredSolo(log, d, d', safe, acked, g);
    forall i | 0 <= i < |past| ensures Older(past, log, d', acked, i) {
      assert Older(past, log, d, acked, i);
      WeatheredOlder(past[i], d.states[i], log, Current(d), d.vlog, d'.vlog, safe, acked);
    }
  }

  lemma {:induction false} WeatheredSolo(log: Log, d: Disk, d': Disk, safe: nat, acked: nat, g: Geometry)
    requires Solo(log, d, acked, g) && d'.states == d.states
    requires Weathered(d.vlog, d'.vlog, safe) && FilesSound(d'.vlog.envs, d'.vlog.files, g)
    requires |EnvelopesOf(log[..Extent(Current(d))])| <= safe
    ensures Solo(log, d', acked, g)
  {
    WeatheredChain(d.vlog, d'.vlog, safe);
    WeatheredState(Current(d), log, d.vlog, d'.vlog, safe, acked);
  }

  lemma {:induction false} WeatheredOlder(
    older: Log, s: Index, log: Log, cur: Index, vlog: VLog, vlog': VLog, safe: nat, acked: nat)
    requires StateOk(s, older, vlog, acked) && Joins(older, s, log, cur, vlog.envs)
    requires Weathered(vlog, vlog', safe) && Extent(cur) <= |log| && |EnvelopesOf(log[..Extent(cur)])| <= safe
    ensures StateOk(s, older, vlog', acked) && Joins(older, s, log, cur, vlog'.envs)
  {
    OlderExtent(older, s, log, cur, vlog.envs);
    WeatheredState(s, older, vlog, vlog', safe, acked);
    WeatheredJoin(older, s, log, cur, vlog, vlog', safe);
  }

  lemma {:induction false} SyncWeathers(log: Log, d: Disk, d': Disk, acked: nat, g: Geometry)
    requires Solo(log, d, acked, g) && SyncStep(d, d', g)
    ensures Weathered(d.vlog, d'.vlog, d.vlog.synced) && VLogSound(d'.vlog, g) && d'.states == d.states
  {
    forall i | 0 <= i < |d.vlog.envs| ensures Decays(d.vlog.envs[i], d'.vlog.envs[i], i < d.vlog.synced) {
    }
  }

  lemma {:induction false} SyncKeepsInv(log: Log, d: Disk, d': Disk, acked: nat, g: Geometry)
    requires Solo(log, d, acked, g) && SyncStep(d, d', g)
    ensures Kept(log, d, d', acked, g)
  {
    SyncWeathers(log, d, d', acked, g);
    WeatheredSolo(log, d, d', d.vlog.synced, acked, g);
    SameEnvelopesKeep(log, d, d', acked, g);
  }

  /** With the same index and the same envelopes, recovery ends the same. */
  lemma {:induction false} SameEnvelopesKeep(log: Log, d: Disk, d': Disk, acked: nat, g: Geometry)
    requires Solo(log, d, acked, g) && Solo(log, d', acked, g) && d'.states == d.states && d'.vlog.envs == d.vlog.envs
    ensures Kept(log, d, d', acked, g)
  {
    TargetIsSafe(log, d, acked, g);
    assert log[..|log|] == log;
  }

  /** Trimming keeps everything up to the target: its files stay stable and its envelopes stay listed. */
  lemma {:induction false} TrimKeepsFilesSound(vlog: VLog, m: nat, g: Geometry)
    requires Chained(vlog.envs) && FilesSound(vlog.envs, vlog.files, g) && IntactThrough(vlog.envs, m)
    ensures FilesSound(vlog.envs[..m], TrimmedFiles(vlog.files, EndBefore(vlog.envs, m)), g)
    ensures PhysicalTail(TrimmedFiles(vlog.files, EndBefore(vlog.envs, m))) == EndBefore(vlog.envs, m)
  {
    var end := EndBefore(vlog.envs, m);
    var files, envs := TrimmedFiles(vlog.files, end), vlog.envs[..m];
    if m > 0 {
      var p := end.pos;
      assert InFiles(vlog.envs, m - 1, vlog.files, g);
      assert vlog.files[p.file].file == p.file && vlog.files[p.file].len >= p.offset;
      TrimReachesEnd(vlog.files, end, g);
      TrimmedForm(vlog.files, p, p.file);
      forall i | 0 <= i < m ensures InFiles(envs, i, files, g) {
        TrimKeepsEnvelope(vlog.envs, vlog.files, m, i, g);
      }
    } else {
      TrimReachesEnd(vlog.files, end, g);
    }
  }

  lemma {:induction false} TrimKeepsEnvelope(envs: seq<Envelope>, files: Inventory, m: nat, i: nat, g: Geometry)
    requires Chained(envs) && FilesSound(envs, files, g) && IntactThrough(envs, m) && i < m
    requires StableFiles(files, At(envs[m - 1].end), g)
    ensures var p := envs[m - 1].end;
            InFiles(envs[..m], i, files[..p.file] + [FileEntry(p.file, p.offset)], g)
  {
    var p := envs[m - 1].end;
    var kept := files[..p.file] + [FileEntry(p.file, p.offset)];
    assert InFiles(envs, i, files, g);
    assert IntactThrough(envs, i + 1);
    if i < m - 1 { ChainEndsGrow(envs, i, m - 1); }
    StableInTrimmed(files, envs[i].end, p, g);
    assert ChainLink(envs, i);
    assert EndBefore(envs[..m], i) == EndBefore(envs, i);
    assert kept[p.file] == FileEntry(p.file, p.offset);
  }

  lemma {:induction false} StableInTrimmed(files: Inventory, e: Pos, p: Pos, g: Geometry)
    requires StableFiles(files, At(p), g) && StableFiles(files, At(e), g) && PosLeq(e, p)
    ensures StableFiles(files[..p.file] + [FileEntry(p.file, p.offset)], At(e), g)
  {
  }

  lemma {:induction false} TrimWeathers(log: Log, d: Disk, d': Disk, acked: nat, g: Geometry)
    requires Solo(log, d, acked, g) && TrimStep(d, d')
    ensures d'.states == d.states && VLogSound(d'.vlog, g)
    ensures Weathered(d.vlog, d'.vlog, |EnvelopesOf(log)|) && log[..Extent(Current(d))] == log
    ensures !HasSuffixAfter(d'.vlog.files, Current(d).recovery.value.target.end)
  {
    TargetIsSafe(log, d, acked, g);
    TargetEnd(log, d, acked, g);
    assert log[..|log|] == log;
    var m := |EnvelopesOf(log)|;
    HeldIsIntact(log, d.vlog.envs, |log|);
    TrimKeepsFilesSound(d.vlog, m, g);
    ChainPrefix(d.vlog.envs, m);
    TailMatchesExactly(d'.vlog.files, EndBefore(d.vlog.envs, m), g);
    forall i | 0 <= i < m ensures Decays(d.vlog.envs[i], d'.vlog.envs[i], i < m) {
    }
  }

  lemma {:induction false} TrimKeepsInv(log: Log, d: Disk, d': Disk, acked: nat, g: Geometry)
    requires Solo(log, d, acked, g) && TrimStep(d, d')
    ensures Kept(log, d, d', acked, g)
  {
    TrimWeathers(log, d, d', acked, g);
    WeatheredState(Current(d), log, d.vlog, d'.vlog, |EnvelopesOf(log)|, acked);
    assert log[..|log|] == log;
  }

  /** Every persistent effect of recovery keeps the invariant and the outcome, durable or not. */
  lemma {:induction false} EffectKeepsOutcome(log: Log, d: Disk, d': Disk, acked: nat, g: Geometry)
    requires Solo(log, d, acked, g) && RecoveryStep(d, d', g)
    ensures Kept(log, d, d', acked, g)
  {
    if SyncStep(d, d', g) { SyncKeepsInv(log, d, d', acked, g); }
    else if BeginStep(d, d', g) { BeginKeepsInv(log, d, d', acked, g); }
    else if PromoteStep(d, d', g) { PromoteKeepsInv(log, d, d', acked, g); }
    else if UndoStep(d, d') { UndoKeepsInv(log, d, d', acked, g); }
    else if FinishUndoStep(d, d') { FinishUndoKeepsInv(log, d, d', acked, g); }
    else if TrimStep(d, d') { TrimKeepsInv(log, d, d', acked, g); }
    else { ClearKeepsInv(log, d, d', acked, g); }
  }

  // ---------------------------------------------------------------- older states along the effects

  /** The histories of the older states after an effect: one more if its commit may still be lost. */
  function PastAfter(past: seq<Log>, log: Log, d: Disk, d': Disk): seq<Log> {
    if |d'.states| > |d.states| then past + [log] else if |d'.states| < |d.states| then [] else past
  }

  lemma {:induction false} AdvancedJoin(
    older: Log, s: Index, log: Log, cur: Index, log': Log, cur': Index, envs: seq<Envelope>)
    requires Joins(older, s, log, cur, envs) && Advances(log, cur, log', cur', envs)
    ensures Joins(older, s, log', cur', envs)
  {
    var n: nat :| Shares(older, s, log, cur, envs, n);
    var r := Reach(log', cur');
    if n <= r {
      assert log'[..n] == log[..n] by {
        var k := if Reach(log, cur) <= r then Reach(log, cur) else r;
        assert log'[..n] == log'[..k][..n] && log[..n] == log[..k][..n];
      }
      assert Shares(older, s, log', cur', envs, n);
    } else {
      assert older[..r] == older[..n][..r] && log[..r] == log[..n][..r];
      assert older[..r + 1] == older[..n][..r + 1] && log[..r + 1] == log[..n][..r + 1];
      assert Shares(older, s, log', cur', envs, r);
    }
  }

  lemma {:induction false} JoinsItself(log: Log, s: Index, envs: seq<Envelope>)
    requires s.frontier.seqNo <= |log| && (s.recovery.Some? ==> RecoveryOk(log, s, s.recovery.value))
    ensures Joins(log, s, log, s, envs)
  {
    assert Shares(log, s, log, s, envs, Reach(log, s));
  }

  /** A commit whose batch is applied on top of the older states, which a crash may bring back. */
  lemma {:induction false} LandedKeepsDown(past: seq<Log>, log: Log, d: Disk, log': Log, d': Disk, acked: nat, g: Geometry)
    requires DownInv(past, log, d, acked, g) && Solo(log', d', acked, g) && d'.vlog == d.vlog
    requires Advances(log, Current(d), log', Current(d'), d.vlog.envs)
    requires d'.states == d.states + [Current(d')]
    ensures DownInv(past + [log], log', d', acked, g)
  {
    forall i | 0 <= i < |past + [log]| ensures Older(past + [log], log', d', acked, i) {
      if i < |past| {
        assert Older(past, log, d, acked, i);
      } else {
        JoinsItself(log, Current(d), d.vlog.envs);
      }
      AdvancedJoin((past + [log])[i], d.states[i], log, Current(d), log', Current(d'), d.vlog.envs);
    }
  }

  /** Every effect keeps the whole invariant, whether or not its commit may still be lost. */
  lemma {:induction false} EffectKeepsDown(past: seq<Log>, log: Log, d: Disk, d': Disk, acked: nat, g: Geometry)
    requires DownInv(past, log, d, acked, g) && RecoveryStep(d, d', g)
    ensures d'.states != [] && DownInv(PastAfter(past, log, d, d'), LogAfter(log, d'), d', acked, g)
  {
    if SyncStep(d, d', g) || TrimStep(d, d') {
      VLogEffectKeepsDown(past, log, d, d', acked, g);
    } else {
      EffectKeepsOutcome(log, d, d', acked, g);
      CommitsOrNot(d, d', g);
      if |d'.states| == |d.states| + 1 {
        LandedKeepsDown(past, log, d, LogAfter(log, d'), d', acked, g);
      }
    }
  }

  /** An effect that does not touch the Value Log is one commit. */
  lemma {:induction false} CommitsOrNot(d: Disk, d': Disk, g: Geometry)
    requires RecoveryStep(d, d', g) && !SyncStep(d, d', g) && !TrimStep(d, d')
    ensures d'.states != [] && d'.vlog == d.vlog
    ensures d'.states == [Current(d')] || d'.states == d.states + [Current(d')]
  {
  }

  lemma {:induction false} VLogEffectKeepsDown(past: seq<Log>, log: Log, d: Disk, d': Disk, acked: nat, g: Geometry)
    requires DownInv(past, log, d, acked, g) && (SyncStep(d, d', g) || TrimStep(d, d'))
    ensures d'.states != [] && DownInv(PastAfter(past, log, d, d'), LogAfter(log, d'), d', acked, g)
  {
    assert log[..|log|] == log;
    if SyncStep(d, d', g) {
      SyncWeathers(log, d, d', acked, g);
      WeatheredDown(past, log, d, d', d.vlog.synced, acked, g);
    } else {
      TrimWeathers(log, d, d', acked, g);
      WeatheredDown(past, log, d, d', |EnvelopesOf(log)|, acked, g);
    }
  }

  /** No effect leaves a disk that the next analysis would refuse. */
  lemma {:induction false} EffectKeepsUnstuck(d: Disk, d': Disk, g: Geometry)
    requires RecoveryStep(d, d', g)
    ensures Unstuck(d')
  {
    if SyncStep(d, d', g) {
    } else if BeginStep(d, d', g) {
      ApplySingle(Current(d), PutRecovery(StartState(Analyze(Current(d), d.vlog, g).value)));
    } else if PromoteStep(d, d', g) {
      ApplyTarget(Current(d), Analyze(Current(d), d.vlog, g).value.accepted, None);
    } else {
      var rs := Current(d).recovery.value;
      if UndoStep(d, d') {
        UndoBatchSetsRecovery(Current(d), LoadDescriptor(Current(d).txs, rs.nextUndo).value, rs.(nextUndo := rs.nextUndo - 1));
      } else if FinishUndoStep(d, d') {
        ApplyTarget(Current(d), rs.target, Some(AfterUndo(rs)));
      } else if TrimStep(d, d') {
        TrimAddsNoSuffix(d.vlog.files, rs.target.end, rs.target.end);
      } else {
        ApplySingle(Current(d), DeleteRecovery);
      }
    }
  }

  lemma {:induction false} UndoBatchSetsRecovery(ix: Index, desc: Descriptor, next: RecoveryState)
    ensures Apply(ix, UndoBatch(desc, next)).recovery == Some(next)
  {
    var batch := UndoBatch(desc, next);
    assert batch[|batch| - 1] == PutRecovery(next);
  }

  /** A trim leaves nothing behind any position that was not there before. */
  lemma {:induction false} TrimAddsNoSuffix(files: Inventory, end: VLogEnd, after: VLogEnd)
    ensures HasSuffixAfter(TrimmedFiles(files, end), after) ==> HasSuffixAfter(files, after)
    decreases |files|
  {
    if end.At? && files != [] {
      var init := files[..|files| - 1];
      if files[|files| - 1].file > end.pos.file {
        TrimAddsNoSuffix(init, end, after);
        MoreFilesMoreSuffix(init, files, after);
      } else {
        MoreFilesMoreSuffix(TrimmedFiles(files, end), files, after);
      }
    }
  }

  lemma {:induction false} MoreFilesMoreSuffix(a: Inventory, b: Inventory, after: VLogEnd)
    requires |a| <= |b| && forall i :: 0 <= i < |a| ==> a[i].file == b[i].file && a[i].len <= b[i].len
    ensures HasSuffixAfter(a, after) ==> HasSuffixAfter(b, after)
  {
    if HasSuffixAfter(a, after) && after.At? {
      var p := after.pos;
      var i :| 0 <= i < |a| && (a[i].file > p.file || (a[i].file == p.file && a[i].len > p.offset));
      assert b[i].file > p.file || (b[i].file == p.file && b[i].len > p.offset);
    }
  }

  // ---------------------------------------------------------------- crashes

  /** A stop keeps the first `safe` envelopes; later ones may be damaged or gone, and files follow suit. */
  predicate VLogSurvives(vlog: VLog, vlog': VLog, safe: nat, g: Geometry) {
    Weathered(vlog, vlog', safe) && vlog'.synced == safe && FilesSound(vlog'.envs, vlog'.files, g)
  }

  /** Either the process restarts over an intact system, or the system loses unsynced index batches. */
  predicate StatesSurvive(states: seq<Index>, states': seq<Index>) {
    states' == states || exists i :: 0 <= i < |states| && states' == [states[i]]
  }

  /** An interrupted trim may already have removed anything after its target. */
  function SafeCount(d: Disk): nat
    requires d.states != []
  {
    var r := Current(d).recovery;
    if r.Some? && r.value.phase == Trim && CountThrough(d.vlog.envs, r.value.target.end) < d.vlog.synced
    then CountThrough(d.vlog.envs, r.value.target.end) else d.vlog.synced
  }

  /** A stop at any point: process exit, power loss, or an I/O error that ends the attempt. */
  predicate Crash(d: Disk, d': Disk, g: Geometry) {
    && d.states != [] && StatesSurvive(d.states, d'.states)
    && VLogSurvives(d.vlog, d'.vlog, SafeCount(d), g)
  }

  /** While the store is stopped nothing is appended, so no stop makes a file longer. */
  ghost predicate CrashWhileDown(d: Disk, d': Disk, g: Geometry) {
    && Crash(d, d', g)
    && forall end :: HasSuffixAfter(d'.vlog.files, end) ==> HasSuffixAfter(d.vlog.files, end)
  }

  /** What the current state is sure to keep is among the envelopes that no crash takes. */
  lemma {:induction false} SafeCoversExtent(log: Log, d: Disk, acked: nat, g: Geometry)
    requires Solo(log, d, acked, g)
    ensures |EnvelopesOf(log[..Extent(Current(d))])| <= SafeCount(d) <= d.vlog.synced
  {
    TargetEnd(log, d, acked, g);
  }

  /** A stop of the process leaves every state in place. */
  lemma {:induction false} RestartKeepsDown(past: seq<Log>, log: Log, d: Disk, d': Disk, acked: nat, g: Geometry)
    requires DownInv(past, log, d, acked, g) && Crash(d, d', g) && d'.states == d.states
    ensures DownInv(past, log, d', acked, g)
  {
    SafeCoversExtent(log, d, acked, g);
    WeatheredDown(past, log, d, d', SafeCount(d), acked, g);
  }

  /** A crash of the system leaves any one of them, with its own history. */
  lemma {:induction false} CrashKeepsDown(past: seq<Log>, log: Log, d: Disk, d': Disk, i: nat, acked: nat, g: Geometry)
    requires DownInv(past, log, d, acked, g) && Crash(d, d', g) && i < |d.states| && d'.states == [d.states[i]]
    ensures DownInv([], LogOf(past, log, i), d', acked, g)
  {
    RestartKeepsDown(past, log, d, d'.(states := d.states), acked, g);
    if i < |past| { assert Older(past, log, d'.(states := d.states), acked, i); }
  }

  /** After any crash the disk is good again, for the history of the state that survived. */
  lemma {:induction false} CrashKeepsInv(past: seq<Log>, log: Log, d: Disk, d': Disk, acked: nat, g: Geometry)
    returns (past': seq<Log>, log': Log)
    requires DownInv(past, log, d, acked, g) && Crash(d, d', g)
    ensures DownInv(past', log', d', acked, g)
  {
    if d'.states == d.states {
      RestartKeepsDown(past, log, d, d', acked, g);
      past', log' := past, log;
    } else {
      var i :| 0 <= i < |d.states| && d'.states == [d.states[i]];
      CrashKeepsDown(past, log, d, d', i, acked, g);
      past', log' := [], LogOf(past, log, i);
    }
  }

  /** What recovery of an older state keeps is shared with the current history. */
  lemma {:induction false} OlderOutcomeIsShared(older: Log, s: Index, log: Log, cur: Index, vlog: VLog, acked: nat)
    requires StateOk(s, older, vlog, acked) && Joins(older, s, log, cur, vlog.envs)
    ensures var n := TargetCount(older, s, vlog.envs);
            n <= |older| && n <= Reach(log, cur) && n <= |log| && older[..n] == log[..n]
  {
    var k: nat :| Shares(older, s, log, cur, vlog.envs, k);
    var n := TargetCount(older, s, vlog.envs);
    if s.recovery.None? && k < |older| { LossStopsSurvival(older, vlog.envs, s.frontier.seqNo, k); }
    assert older[..n] == older[..k][..n] && log[..n] == log[..k][..n];
  }

  /** What recovery of an older state keeps, recovery of the current one keeps too. */
  lemma {:induction false} OlderOutcome(older: Log, s: Index, log: Log, cur: Index, vlog: VLog, acked: nat)
    requires StateOk(s, older, vlog, acked) && Joins(older, s, log, cur, vlog.envs)
    requires StateOk(cur, log, vlog, acked)
    ensures var n := TargetCount(older, s, vlog.envs);
            n <= TargetCount(log, cur, vlog.envs) <= |log| && n <= |older| && older[..n] == log[..n]
  {
    OlderOutcomeIsShared(older, s, log, cur, vlog, acked);
    var n := TargetCount(older, s, vlog.envs);
    if cur.recovery.None? && cur.frontier.seqNo <= n {
      if s.recovery.None? { SurvivorsAreHeld(older, vlog.envs, s.frontier.seqNo); }
      HeldPrefixSurvives(log, vlog.envs, cur.frontier.seqNo, n);
    }
  }
}
