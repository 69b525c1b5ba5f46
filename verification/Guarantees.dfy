/**
 * What a user of the store may rely on, derived from the invariant over whole runs: which writes a
 * crash can take, that visible values are the latest ones and never trimmed, and that a restart loses
 * nothing.
 */
module Guarantees {
  import opened Basics
  import opened Index
  import opened CommitProtocol
  import opened Topology
  import opened History
  import opened Recovery
  import opened RecoveryInvariant
  import opened RecoverySteps
  import opened RestartableRecovery
  import opened Running
  import opened StoreSystem
  import opened StoreSteps
  import opened CrashConsistency
  import opened Durability

  // ---------------------------------------------------------------- visible values

  /** Operation `i` of the readable envelope `e` put `value` under `key`, and its record is at `p`. */
  predicate HeldIn(envs: seq<Envelope>, e: nat, i: nat, p: ValuePointer, key: Bytes, value: Bytes) {
    && e < |envs| && envs[e].intact && i < |envs[e].ops| == |envs[e].pointers|
    && envs[e].ops[i] == Put(key, value) && envs[e].pointers[i] == Some(p)
    && PosLeq(envs[e].begin, RecordStart(p)) && PosLeq(RecordEnd(p), envs[e].end)
  }

  ghost predicate Held(envs: seq<Envelope>, p: ValuePointer, key: Bytes, value: Bytes) {
    exists e, i :: HeldIn(envs, e, i, p, key, value)
  }

  /** Reading every key through its pointer gives exactly the map `values`. */
  ghost predicate Reads(user: map<Bytes, ValuePointer>, envs: seq<Envelope>, values: map<Bytes, Bytes>) {
    && (forall k :: k in user <==> k in values)
    && (forall k :: k in user ==> Held(envs, user[k], k, values[k]))
  }

  lemma {:induction false} BackedIsHeld(log: Log, envs: seq<Envelope>, p: ValuePointer, key: Bytes, value: Bytes)
    requires WellFormed(log) && Holds(log, envs, |log|) && Backed(log, p, key, value)
    ensures Held(envs, p, key, value)
  {
    var t: nat, i: nat :| Provides(log, t, i, p, key, value);
    ProvidedRecordIsInside(log, t, i, p, key, value);
    EnvelopeAt(log, t);
    HeldIsIntact(log, envs, |log|);
    assert log[..|log|] == log;
    var e := |EnvelopesOf(log[..t])|;
    assert envs[e] == EnvelopesOf(log)[e];
    assert HeldIn(envs, e, i, p, key, value);
  }

  /** An index that shows a history whose envelopes are held reads as that history's latest values. */
  lemma {:induction false} HistoryReads(log: Log, envs: seq<Envelope>)
    requires WellFormed(log) && Sized(log) && Holds(log, envs, |log|)
    ensures Reads(UserAfter(log), envs, LogicalMap(log))
  {
    UserMapHoldsLogicalMap(log, |log|);
    assert log[..|log|] == log;
    var user, values := UserAfter(log), LogicalMap(log);
    forall k | k in user ensures Held(envs, user[k], k, values[k]) {
      assert Backed(log, user[k], k, values[k]);
      BackedIsHeld(log, envs, user[k], k, values[k]);
    }
  }

  /** A healthy session reads the latest value of every key. */
  lemma {:induction false} SessionReads(s: System, g: Geometry)
    requires Inv(s, g) && s.session.Some? && s.session.value.health == Healthy
    ensures Reads(Current(s.disk).user, s.disk.vlog.envs, LogicalMap(s.log))
  {
    assert s.log[..|s.log|] == s.log;
    HistoryReads(s.log, s.disk.vlog.envs);
  }

  /**
   * Trim safety: when recovery trims, every pointer in the user index has its record before the cut,
   * inside an envelope that the trim keeps, and the files still hold every byte up to the cut.
   */
  lemma {:induction false} TrimKeepsVisibleRecords(log: Log, d: Disk, d': Disk, safe: nat, g: Geometry)
    requires Solo(log, d, safe, g) && TrimStep(d, d')
    ensures Reads(Current(d').user, d'.vlog.envs, LogicalMap(log))
    ensures forall k :: k in Current(d').user ==>
              var end := Current(d).recovery.value.target.end;
              end.At? && PosLeq(RecordEnd(Current(d').user[k]), end.pos)
    ensures StableFiles(d'.vlog.files, Current(d).recovery.value.target.end, g)
  {
    TrimKeepsInv(log, d, d', safe, g);
    assert log[..|log|] == log;
    HistoryReads(log, d'.vlog.envs);
    IntactPrefixIsStable(log, d'.vlog, |log|, g);
    UserMapHoldsLogicalMap(log, |log|);
    forall k | k in Current(d').user
      ensures FrontierAt(log).end.At? && PosLeq(RecordEnd(Current(d').user[k]), FrontierAt(log).end.pos)
    {
      var p := Current(d').user[k];
      assert Backed(log, p, k, LogicalMap(log)[k]);
      var t, i :| Provides(log, t, i, p, k, LogicalMap(log)[k]);
      RecordEndsBeforeFrontier(log, t, i, p, k, LogicalMap(log)[k]);
    }
  }

  // ---------------------------------------------------------------- what a crash can take

  predicate DownEvents(events: seq<Event>, lo: nat, hi: nat) {
    hi <= |events| && forall i :: lo <= i < hi ==> events[i].StopEvent? || events[i].RecoveryEvent?
  }

  /** While the store is down, what recovery will show only loses writes beyond the safe prefix. */
  lemma {:induction false} DownSegmentKeepsPrefix(states: seq<System>, events: seq<Event>, g: Geometry, lo: nat, hi: nat)
    requires Run(states, events, g) && Inv(states[0], g) && lo <= hi && DownEvents(events, lo, hi)
    ensures Shown(states[hi]) <= Shown(states[lo])
    ensures states[lo].safe <= states[hi].safe <= |Shown(states[hi])|
    ensures states[hi].told == states[lo].told
    decreases hi
  {
    if lo < hi {
      DownSegmentKeepsPrefix(states, events, g, lo, hi - 1);
      DownStepKeepsPrefix(states, events, g, hi - 1);
      PrefixTransitive(Shown(states[hi]), Shown(states[hi - 1]), Shown(states[lo]));
    } else {
      RunsKeepInv(states, events, g, hi);
      ShownCoversSafe(states[hi], g);
    }
  }

  lemma {:induction false} DownStepKeepsPrefix(states: seq<System>, events: seq<Event>, g: Geometry, i: nat)
    requires Run(states, events, g) && Inv(states[0], g) && i < |events| && (events[i].StopEvent? || events[i].RecoveryEvent?)
    ensures Shown(states[i + 1]) <= Shown(states[i])
    ensures states[i].safe <= states[i + 1].safe <= |Shown(states[i + 1])|
    ensures states[i + 1].told == states[i].told
  {
    RunsKeepInv(states, events, g, i);
    assert StepAt(states, events, g, i);
    LossRefines(states[i], events[i], states[i + 1], g);
  }

  /** What Open hands over: the index shows the history, and every key reads as its latest value. */
  ghost predicate Serves(s: System) {
    && s.disk.states != [] && Sized(s.log) && Current(s.disk).head == |s.log|
    && Current(s.disk).user == UserAfter(s.log)
    && Reads(Current(s.disk).user, s.disk.vlog.envs, LogicalMap(s.log))
  }

  lemma {:induction false} OpenServes(states: seq<System>, events: seq<Event>, g: Geometry, i: nat)
    requires Run(states, events, g) && Inv(states[0], g) && i < |events| && events[i].OpenEvent?
    ensures Serves(states[i + 1]) && states[i + 1].log == Shown(states[i])
  {
    RunsKeepInv(states, events, g, i);
    assert StepAt(states, events, g, i);
    HandOffIsAccepted(states[i], g);
    RecoveredShowsHistory(states[i].log, states[i].disk, states[i].safe, g);
    SessionReads(states[i + 1], g);
  }

  /**
   * Crash consistency: whatever happened before, once the store stops, every later successful Open
   * (after any number of interrupted recoveries) shows exactly the first `n` transactions of what was
   * shown, where `n` covers everything safe at the stop, everything that callers had been told is
   * durable (if the Opens before were undoubted), and nothing beyond what the stop left.
   */
  lemma {:induction false} OpenShowsASafePrefix(
    states: seq<System>, events: seq<Event>, g: Geometry, stop: nat, open: nat)
    requires Run(states, events, g) && states[0] == EMPTY_SYSTEM
    requires stop < open < |events| && events[stop].StopEvent? && events[open].OpenEvent? && DownEvents(events, stop, open)
    ensures var before, reopened := states[stop], states[open + 1]; var n := |reopened.log|;
            && before.safe <= n <= |Shown(states[stop + 1])| <= |Shown(before)|
            && reopened.log == Shown(before)[..n] && Serves(reopened)
            && (OpensUndoubted(states, events, stop) ==> before.told <= n)
  {
    EmptyKeepsInv(g);
    DownSegmentKeepsPrefix(states, events, g, stop, stop + 1);
    DownSegmentKeepsPrefix(states, events, g, stop, open);
    DownSegmentKeepsPrefix(states, events, g, stop + 1, open);
    OpenServes(states, events, g, open);
    if OpensUndoubted(states, events, stop) {
      UndoubtedToldIsShown(states, events, g, stop);
    }
  }

  /** A restart without a system crash loses nothing: recovery of an undamaged disk keeps everything. */
  lemma {:induction false} RestartLosesNothing(s: System, g: Geometry)
    requires Inv(s, g) && s.session.Some? && s.session.value.health == Healthy
    ensures Current(s.disk).frontier.seqNo <= |s.log|
    ensures TargetCount(s.log, Current(s.disk), s.disk.vlog.envs) == |s.log|
    ensures Outcome(s.log, s.disk) == s.log
  {
    assert s.log[..|s.log|] == s.log;
    HeldPrefixSurvives(s.log, s.disk.vlog.envs, Current(s.disk).frontier.seqNo, |s.log|);
  }
}
