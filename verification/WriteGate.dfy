/**
 * Write admission (src/runtime/state.rs, src/runtime/write_gate.rs): a FIFO queue in front of one
 * active slot, and the instance-state latch. Each critical section of the gate lock is one step; what
 * a thread does to a request's own phase after it released the gate is a later step of its own, in
 * any order with everything else.
 */
module WriteGate {
  import opened Basics

  type Id = nat

  datatype RequestPhase = Queued | Started | Cancelled(state: Health) | Completed

  /** A phase update that some thread still has to make. */
  datatype Effect = MarkStarted(id: Id) | MarkCompleted(id: Id) | CancelPhase(id: Id, state: Health)

  /** What an error says about the instance, as far as the latch looks at it. */
  datatype Failure = Failure(commitUnknown: bool, duringVLogSync: bool, untrusted: bool, writeStopped: bool)

  /** abandoned_active_write_error: the outcome is unknown, and the instance is to be poisoned. */
  const ABANDONED := Failure(true, false, true, false)

  // ---------------------------------------------------------------- the packed state word

  function Rank(h: Health): nat {
    match h
    case Healthy => 0
    case WriteStopped => 1
    case Poisoned => 2
  }

  /** encode_state: the epoch above two state bits, in a 64-bit word. */
  function EncodeState(h: Health, epoch: nat): nat {
    (epoch * 4) % (U64_MAX + 1) + Rank(h)
  }

  function DecodeState(word: nat): (Health, nat) {
    (if word % 4 == 0 then Healthy else if word % 4 == 1 then WriteStopped else Poisoned, word / 4)
  }

  lemma {:induction false} StateWordRoundTrip(h: Health, epoch: nat)
    requires epoch * 4 <= U64_MAX
    ensures DecodeState(EncodeState(h, epoch)) == (h, epoch)
  {
  }

  /** The health is lost on no word, whatever became of the epoch above it. */
  lemma {:induction false} WordKeepsHealth(h: Health, epoch: nat)
    ensures DecodeState(EncodeState(h, epoch)).0 == h
  {
    var n := epoch * 4;
    assert (n % (U64_MAX + 1)) % 4 == 0 by {
      assert n % (U64_MAX + 1) == n - (n / (U64_MAX + 1)) * (U64_MAX + 1);
      assert (U64_MAX + 1) == 4 * 0x4000_0000_0000_0000;
    }
  }

  /** An outcome or data that cannot be trusted any more. */
  predicate Untrusting(e: Failure) {
    e.commitUnknown || e.duringVLogSync || e.untrusted
  }

  /** `r` is the best of all states that are no better than any of the two. */
  ghost predicate WorseOf(r: Health, a: Health, b: Health) {
    && Rank(a) <= Rank(r) && Rank(b) <= Rank(r)
    && forall h :: Rank(a) <= Rank(h) && Rank(b) <= Rank(h) ==> Rank(r) <= Rank(h)
  }

  /**
   * required_failure_state: an error may demand a worse state than its caller asked for, and nothing
   * worse than the worse of the two is ever latched.
   */
  function RequiredState(target: Health, e: Failure): (r: Health)
    ensures Untrusting(e) ==> r == Poisoned
    ensures !Untrusting(e) && e.writeStopped ==> WorseOf(r, target, WriteStopped)
    ensures !Untrusting(e) && !e.writeStopped ==> r == target
  {
    var required :=
      if e.commitUnknown || e.duringVLogSync || e.untrusted then Poisoned
      else if e.writeStopped then WriteStopped
      else Healthy;
    if Rank(required) > Rank(target) then required else target
  }

  // ---------------------------------------------------------------- the gate

  /**
   * `accepting`, `active`, `queue`, `word` and `firstError` are the fields under the lock; `phases`
   * are the requests' own; `pending` are updates still to be made. `enqueued`, `granted` and
   * `cancelled` record what happened and are never read.
   */
  datatype Gate = Gate(
    accepting: bool, active: Option<Id>, queue: seq<Id>, word: nat, firstError: Option<Failure>,
    phases: map<Id, RequestPhase>, pending: set<Effect>,
    enqueued: seq<Id>, granted: seq<Id>, cancelled: set<Id>)

  const NEW_GATE := Gate(true, None, [], 0, None, map[], {}, [], [], {})

  function HealthOf(g: Gate): Health {
    DecodeState(g.word).0
  }

  function EpochOf(g: Gate): nat {
    DecodeState(g.word).1
  }

  predicate Admits(g: Gate) {
    HealthOf(g) == Healthy && g.accepting
  }

  /** enqueue_write. */
  function Enqueue(g: Gate, id: Id): Gate {
    if !Admits(g) then g
    else
      var created := g.(phases := g.phases[id := Queued], enqueued := g.enqueued + [id]);
      if g.active.None? && g.queue == [] then
        created.(active := Some(id), granted := g.granted + [id], pending := g.pending + {MarkStarted(id)})
      else created.(queue := g.queue + [id])
  }

  /** finish_write: the slot goes to the head of the queue, if writes are still admitted. */
  function Finish(g: Gate, id: Id): Gate {
    if g.active != Some(id) then g
    else if Admits(g) && g.queue != [] then
      var next := g.queue[0];
      g.(active := Some(next), queue := g.queue[1..], granted := g.granted + [next],
         pending := g.pending + {MarkCompleted(id), MarkStarted(next)})
    else g.(active := None, pending := g.pending + {MarkCompleted(id)})
  }

  function Without(queue: seq<Id>, id: Id): seq<Id> {
    if queue == [] then []
    else if queue[0] == id then queue[1..]
    else [queue[0]] + Without(queue[1..], id)
  }

  /** cancel_queued_write, and the first critical section of abandon_write. */
  function CancelQueued(g: Gate, id: Id): Gate {
    if id !in g.queue then g
    else g.(queue := Without(g.queue, id), pending := g.pending + {CancelPhase(id, Healthy)}, cancelled := g.cancelled + {id})
  }

  function AllCancelled(queue: seq<Id>, state: Health): set<Effect> {
    set id | id in queue :: CancelPhase(id, state)
  }

  function Members(queue: seq<Id>): set<Id> {
    set id | id in queue
  }

  /** close_write_admission. */
  function Close(g: Gate): Gate {
    g.(accepting := false, queue := [], pending := g.pending + AllCancelled(g.queue, HealthOf(g)),
       cancelled := g.cancelled + Members(g.queue))
  }

  /** latch_failure: only ever to a worse state; the first failure is kept. */
  function Latch(g: Gate, target: Health, e: Failure): Gate {
    var state := RequiredState(target, e);
    if Rank(state) <= Rank(HealthOf(g)) then g
    else
      g.(accepting := false, queue := [], word := EncodeState(state, EpochOf(g) + 1),
         firstError := if HealthOf(g) == Healthy && g.firstError.None? then Some(e) else g.firstError,
         pending := g.pending + AllCancelled(g.queue, state), cancelled := g.cancelled + Members(g.queue))
  }

  /** mark_started, mark_completed and cancel_for_state each look at the phase first. */
  function ApplyEffect(g: Gate, e: Effect): Gate {
    var rest := g.(pending := g.pending - {e});
    if e.id !in g.phases then rest
    else match e
      case MarkStarted(id) => if g.phases[id] == Queued then rest.(phases := g.phases[id := Started]) else rest
      case MarkCompleted(id) => if g.phases[id] == Started then rest.(phases := g.phases[id := Completed]) else rest
      case CancelPhase(id, state) => if g.phases[id] == Queued then rest.(phases := g.phases[id := Cancelled(state)]) else rest
  }

  /** One step of any thread. A request's id is fresh when it is created. */
  ghost predicate Step(g: Gate, g': Gate) {
    || (exists id :: id !in g.enqueued && g' == Enqueue(g, id))
    || (exists id :: g' == Finish(g, id))
    || (exists id :: g' == CancelQueued(g, id))
    || g' == Close(g)
    || (exists target, e :: g' == Latch(g, target, e))
    || (exists e :: e in g.pending && g' == ApplyEffect(g, e))
  }

  // ---------------------------------------------------------------- the invariant

  /** The requests that were enqueued and not cancelled, in the order they were enqueued. */
  function Uncancelled(enqueued: seq<Id>, cancelled: set<Id>): seq<Id> {
    if enqueued == [] then []
    else
      var last := enqueued[|enqueued| - 1];
      var earlier := Uncancelled(enqueued[..|enqueued| - 1], cancelled);
      if last in cancelled then earlier else earlier + [last]
  }

  predicate Distinct(s: seq<Id>) {
    forall i, j :: 0 <= i < j < |s| ==> s[i] != s[j]
  }

  /** Granted requests come first, the queue follows: FIFO among the uncancelled. */
  ghost predicate Fifo(g: Gate) {
    && Distinct(g.enqueued) && Uncancelled(g.enqueued, g.cancelled) == g.granted + g.queue
    && (forall id :: id in g.cancelled ==> id in g.enqueued)
  }

  /** The slot: owned by the last request granted, and never empty while requests wait. */
  predicate SlotOk(g: Gate) {
    && (g.active.Some? ==> g.granted != [] && g.granted[|g.granted| - 1] == g.active.value)
    && (g.active.None? ==> g.queue == [])
    && (!g.accepting ==> g.queue == [])
    && (HealthOf(g) != Healthy ==> !g.accepting)
  }

  /** The state word: the epoch counts upgrades, so it always fits. */
  predicate WordOk(g: Gate) {
    && g.word == EncodeState(HealthOf(g), EpochOf(g)) && EpochOf(g) <= Rank(HealthOf(g))
    && (g.firstError.Some? <==> HealthOf(g) != Healthy)
  }

  /** What a request can have seen or will see agrees with what the gate decided about it. */
  predicate EffectOk(g: Gate, e: Effect) {
    && e.id in g.phases
    && match e
       case MarkStarted(id) => id in g.granted
       case MarkCompleted(id) => id in g.granted && g.active != Some(id)
       case CancelPhase(id, _) => id in g.cancelled
  }

  predicate PhaseOk(g: Gate, id: Id)
    requires id in g.phases
  {
    && id in g.enqueued
    && match g.phases[id]
       case Queued =>
         || id in g.queue
         || MarkStarted(id) in g.pending
         || (exists state :: CancelPhase(id, state) in g.pending)
       case Started => id in g.granted
       case Completed => id in g.granted && g.active != Some(id)
       case Cancelled(_) => id in g.cancelled
  }

  ghost predicate PhasesOk(g: Gate) {
    && (forall e :: e in g.pending ==> EffectOk(g, e))
    && (forall id :: id in g.phases ==> PhaseOk(g, id))
    && (forall id :: id in g.enqueued ==> id in g.phases)
  }

  ghost predicate GateInv(g: Gate) {
    Fifo(g) && SlotOk(g) && WordOk(g) && PhasesOk(g)
  }

  // ---------------------------------------------------------------- order under cancellation

  function Minus(s: seq<Id>, gone: set<Id>): seq<Id> {
    if s == [] then []
    else
      var last := s[|s| - 1];
      if last in gone then Minus(s[..|s| - 1], gone) else Minus(s[..|s| - 1], gone) + [last]
  }

  lemma {:induction false} CancellingRemoves(enqueued: seq<Id>, cancelled: set<Id>, gone: set<Id>)
    ensures Uncancelled(enqueued, cancelled + gone) == Minus(Uncancelled(enqueued, cancelled), gone)
  {
    if enqueued != [] {
      var n := |enqueued| - 1;
      CancellingRemoves(enqueued[..n], cancelled, gone);
      var earlier, last := Uncancelled(enqueued[..n], cancelled), enqueued[n];
      assert (earlier + [last])[..|earlier|] == earlier;
    }
  }

  lemma {:induction false} MinusConcat(a: seq<Id>, b: seq<Id>, gone: set<Id>)
    ensures Minus(a + b, gone) == Minus(a, gone) + Minus(b, gone)
    decreases |b|
  {
    if b == [] {
      assert a + b == a;
    } else {
      var n := |b| - 1;
      assert (a + b)[..|a + b| - 1] == a + b[..n];
      MinusConcat(a, b[..n], gone);
    }
  }

  lemma {:induction false} MinusDisjoint(s: seq<Id>, gone: set<Id>)
    requires forall id :: id in s ==> id !in gone
    ensures Minus(s, gone) == s
  {
    if s != [] {
      var n := |s| - 1;
      assert s[n] in s;
      forall id | id in s[..n] ensures id !in gone { assert id in s; }
      MinusDisjoint(s[..n], gone);
    }
  }

  lemma {:induction false} MinusAll(s: seq<Id>, gone: set<Id>)
    requires forall id :: id in s ==> id in gone
    ensures Minus(s, gone) == []
  {
    if s != [] {
      var n := |s| - 1;
      assert s[n] in s;
      forall id | id in s[..n] ensures id in gone { assert id in s; }
      MinusAll(s[..n], gone);
    }
  }

  lemma {:induction false} MinusOne(queue: seq<Id>, id: Id)
    requires Distinct(queue) && id in queue
    ensures Minus(queue, {id}) == Without(queue, id)
    decreases |queue|
  {
    var rest := queue[1..];
    assert queue == [queue[0]] + rest;
    MinusConcat([queue[0]], rest, {id});
    assert Minus([queue[0]], {id}) == if queue[0] == id then [] else [queue[0]] by {
      assert [queue[0]][..0] == [];
    }
    if queue[0] == id {
      MinusDisjoint(rest, {id});
    } else {
      MinusOne(rest, id);
    }
  }

  /** What is uncancelled was enqueued, once. */
  lemma {:induction false} UncancelledIsDistinct(enqueued: seq<Id>, cancelled: set<Id>)
    requires Distinct(enqueued)
    ensures Distinct(Uncancelled(enqueued, cancelled))
    ensures forall id :: id in Uncancelled(enqueued, cancelled) <==> id in enqueued && id !in cancelled
  {
    if enqueued != [] {
      var n := |enqueued| - 1;
      UncancelledIsDistinct(enqueued[..n], cancelled);
      var earlier := Uncancelled(enqueued[..n], cancelled);
      assert enqueued == enqueued[..n] + [enqueued[n]];
      assert enqueued[n] !in enqueued[..n];
    }
  }

  lemma {:induction false} WithoutMembers(queue: seq<Id>, id: Id)
    ensures forall x :: x in Without(queue, id) ==> x in queue
    ensures forall x :: x in queue && x != id ==> x in Without(queue, id)
  {
    if queue != [] && queue[0] != id {
      WithoutMembers(queue[1..], id);
      assert queue == [queue[0]] + queue[1..];
    } else if queue != [] {
      assert queue == [queue[0]] + queue[1..];
    }
  }

  lemma {:induction false} HalvesAreDisjoint(a: seq<Id>, b: seq<Id>)
    requires Distinct(a + b)
    ensures forall id :: id in a ==> id !in b
  {
    var all := a + b;
    forall i, j | 0 <= i < |a| && 0 <= j < |b| ensures a[i] != b[j] {
      assert all[i] == a[i] && all[|a| + j] == b[j];
    }
  }

  /** Granted and queued requests are different, all enqueued and none cancelled. */
  lemma {:induction false} FifoFacts(g: Gate)
    requires Fifo(g)
    ensures Distinct(g.granted + g.queue)
    ensures forall id :: id in g.granted ==> id in g.enqueued && id !in g.cancelled && id !in g.queue
    ensures forall id :: id in g.queue ==> id in g.enqueued && id !in g.cancelled
    ensures forall id :: id in g.enqueued ==> id in g.granted || id in g.queue || id in g.cancelled
  {
    UncancelledIsDistinct(g.enqueued, g.cancelled);
    var all := g.granted + g.queue;
    HalvesAreDisjoint(g.granted, g.queue);
    forall id | id in g.granted ensures id in all {
    }
    forall id | id in g.queue ensures id in all {
      var j :| 0 <= j < |g.queue| && g.queue[j] == id;
      assert all[|g.granted| + j] == id;
    }
  }

  // ---------------------------------------------------------------- every step keeps the invariant

  lemma {:induction false} EnqueueKeepsInv(g: Gate, id: Id)
    requires GateInv(g) && id !in g.enqueued
    ensures GateInv(Enqueue(g, id))
  {
    if Admits(g) {
      EnqueueKeepsFifo(g, id);
      EnqueueKeepsSlot(g, id);
      EnqueueKeepsPhases(g, id);
    }
  }

  lemma {:induction false} EnqueueKeepsSlot(g: Gate, id: Id)
    requires SlotOk(g) && WordOk(g) && Admits(g)
    ensures SlotOk(Enqueue(g, id)) && WordOk(Enqueue(g, id))
  {
    var g' := Enqueue(g, id);
    assert g'.word == g.word && g'.firstError == g.firstError;
  }

  lemma {:induction false} EnqueueKeepsFifo(g: Gate, id: Id)
    requires Fifo(g) && id !in g.enqueued && Admits(g)
    ensures Fifo(Enqueue(g, id))
  {
    var g' := Enqueue(g, id);
    assert g'.enqueued[..|g.enqueued|] == g.enqueued;
    assert id !in g.cancelled;
    if g.active.None? && g.queue == [] {
      assert g.granted + g.queue == g.granted && (g.granted + [id]) + [] == g.granted + [id];
    } else {
      assert g.granted + (g.queue + [id]) == (g.granted + g.queue) + [id];
    }
  }

  lemma {:induction false} EnqueueKeepsPhases(g: Gate, id: Id)
    requires GateInv(g) && id !in g.enqueued && Admits(g)
    ensures PhasesOk(Enqueue(g, id))
  {
    FifoFacts(g);
    var g' := Enqueue(g, id);
    forall x | x in g.phases ensures x in g.enqueued {
      assert PhaseOk(g, x);
    }
    assert id in g'.enqueued by { assert g'.enqueued[|g.enqueued|] == id; }
    forall e | e in g'.pending ensures EffectOk(g', e) {
      if e in g.pending { assert EffectOk(g, e); }
    }
    forall x | x in g'.phases ensures PhaseOk(g', x) {
      if x != id { assert PhaseOk(g, x); }
    }
  }

  lemma {:induction false} FinishKeepsInv(g: Gate, id: Id)
    requires GateInv(g)
    ensures GateInv(Finish(g, id))
  {
    if g.active == Some(id) {
      FifoFacts(g);
      var g' := Finish(g, id);
      if Admits(g) && g.queue != [] {
        assert g.queue == [g.queue[0]] + g.queue[1..];
        assert g'.granted + g'.queue == g.granted + g.queue;
      }
      FinishKeepsPhases(g, id);
    }
  }

  lemma {:induction false} FinishKeepsPhases(g: Gate, id: Id)
    requires GateInv(g) && g.active == Some(id)
    ensures PhasesOk(Finish(g, id))
  {
    FifoFacts(g);
    var g' := Finish(g, id);
    assert id in g.granted;
    forall e | e in g'.pending ensures EffectOk(g', e) {
      if e in g.pending { assert EffectOk(g, e); }
    }
    forall x | x in g'.phases ensures PhaseOk(g', x) {
      assert PhaseOk(g, x);
      if g.phases[x] == Queued && exists state :: CancelPhase(x, state) in g.pending {
        var state :| CancelPhase(x, state) in g.pending;
        assert CancelPhase(x, state) in g'.pending;
      }
    }
  }

  /** Cancelling part of the queue, however it comes about. */
  lemma {:induction false} CancellingKeepsInv(g: Gate, g': Gate, gone: set<Id>, rest: seq<Id>, state: Health)
    requires GateInv(g) && gone <= Members(g.queue) && Minus(g.queue, gone) == rest
    requires forall id :: id in rest ==> id in g.queue
    requires forall id :: id in g.queue && id !in gone ==> id in rest
    requires g' == g.(queue := rest, cancelled := g.cancelled + gone, pending := g.pending + (set id | id in gone :: CancelPhase(id, state)),
                      accepting := g'.accepting, word := g'.word, firstError := g'.firstError)
    requires SlotOk(g') && WordOk(g')
    ensures GateInv(g')
  {
    FifoFacts(g);
    CancellingRemoves(g.enqueued, g.cancelled, gone);
    MinusConcat(g.granted, g.queue, gone);
    MinusDisjoint(g.granted, gone);
    assert g'.pending >= g.pending;
    forall e | e in g'.pending ensures EffectOk(g', e) {
      if e in g.pending { assert EffectOk(g, e); }
    }
    forall x | x in g'.phases ensures PhaseOk(g', x) {
      assert PhaseOk(g, x);
      if g.phases[x] == Queued {
        if x in gone {
          assert CancelPhase(x, state) in g'.pending;
        } else if !(x in g.queue) && !(MarkStarted(x) in g.pending) {
          var s :| CancelPhase(x, s) in g.pending;
          assert CancelPhase(x, s) in g'.pending;
        }
      }
    }
  }

  lemma {:induction false} CancelQueuedKeepsInv(g: Gate, id: Id)
    requires GateInv(g)
    ensures GateInv(CancelQueued(g, id))
  {
    if id in g.queue {
      FifoFacts(g);
      QueueIsDistinct(g);
      MinusOne(g.queue, id);
      WithoutMembers(g.queue, id);
      assert (set x | x in {id} :: CancelPhase(x, Healthy)) == {CancelPhase(id, Healthy)};
      CancellingKeepsInv(g, CancelQueued(g, id), {id}, Without(g.queue, id), Healthy);
    }
  }

  lemma {:induction false} QueueIsDistinct(g: Gate)
    requires Distinct(g.granted + g.queue)
    ensures Distinct(g.queue)
  {
    var all, n := g.granted + g.queue, |g.granted|;
    forall i, j | 0 <= i < j < |g.queue| ensures g.queue[i] != g.queue[j] {
      assert all[n + i] == g.queue[i] && all[n + j] == g.queue[j];
    }
  }

  lemma {:induction false} CloseKeepsInv(g: Gate)
    requires GateInv(g)
    ensures GateInv(Close(g))
  {
    MinusAll(g.queue, Members(g.queue));
    assert AllCancelled(g.queue, HealthOf(g)) == (set id | id in Members(g.queue) :: CancelPhase(id, HealthOf(g)));
    CancellingKeepsInv(g, Close(g), Members(g.queue), [], HealthOf(g));
  }

  lemma {:induction false} LatchKeepsInv(g: Gate, target: Health, e: Failure)
    requires GateInv(g)
    ensures GateInv(Latch(g, target, e))
  {
    var state := RequiredState(target, e);
    if Rank(state) > Rank(HealthOf(g)) {
      MinusAll(g.queue, Members(g.queue));
      StateWordRoundTrip(state, EpochOf(g) + 1);
      assert AllCancelled(g.queue, state) == (set id | id in Members(g.queue) :: CancelPhase(id, state));
      CancellingKeepsInv(g, Latch(g, target, e), Members(g.queue), [], state);
    }
  }

  lemma {:induction false} EffectKeepsInv(g: Gate, e: Effect)
    requires GateInv(g) && e in g.pending
    ensures GateInv(ApplyEffect(g, e))
  {
    EffectKeepsPhases(g, e);
    EffectKeepsGate(g, e);
  }

  lemma {:induction false} EffectKeepsGate(g: Gate, e: Effect)
    requires Fifo(g) && SlotOk(g) && WordOk(g)
    ensures Fifo(ApplyEffect(g, e)) && SlotOk(ApplyEffect(g, e)) && WordOk(ApplyEffect(g, e))
  {
    var g' := ApplyEffect(g, e);
    assert g' == g.(phases := g'.phases, pending := g'.pending);
  }

  lemma {:induction false} EffectKeepsPhases(g: Gate, e: Effect)
    requires PhasesOk(g) && e in g.pending
    ensures PhasesOk(ApplyEffect(g, e))
  {
    var g' := ApplyEffect(g, e);
    assert EffectOk(g, e);
    forall x | x in g'.pending ensures EffectOk(g', x) {
      assert EffectOk(g, x);
    }
    forall x | x in g'.phases ensures PhaseOk(g', x) {
      assert PhaseOk(g, x);
      if x == e.id { EffectKeepsOwnPhase(g, e); } else { EffectKeepsOtherPhase(g, e, x); }
    }
  }

  lemma {:induction false} EffectKeepsOwnPhase(g: Gate, e: Effect)
    requires e in g.pending && EffectOk(g, e) && PhaseOk(g, e.id)
    ensures PhaseOk(ApplyEffect(g, e), e.id)
  {
    var g' := ApplyEffect(g, e);
    if g'.phases[e.id] == Queued && e.id !in g.queue && MarkStarted(e.id) !in g.pending {
      var s :| CancelPhase(e.id, s) in g.pending;
      assert CancelPhase(e.id, s) in g'.pending;
    }
  }

  lemma {:induction false} EffectKeepsOtherPhase(g: Gate, e: Effect, x: Id)
    requires e in g.pending && EffectOk(g, e) && x in g.phases && x != e.id && PhaseOk(g, x)
    ensures PhaseOk(ApplyEffect(g, e), x)
  {
    var g' := ApplyEffect(g, e);
    if g.phases[x] == Queued && x !in g.queue && MarkStarted(x) !in g.pending {
      var s :| CancelPhase(x, s) in g.pending;
      assert CancelPhase(x, s) in g'.pending;
    }
  }

  lemma {:induction false} StepKeepsInv(g: Gate, g': Gate)
    requires GateInv(g) && Step(g, g')
    ensures GateInv(g')
  {
    if id :| id !in g.enqueued && g' == Enqueue(g, id) {
      EnqueueKeepsInv(g, id);
    } else if id :| g' == Finish(g, id) {
      FinishKeepsInv(g, id);
    } else if id :| g' == CancelQueued(g, id) {
      CancelQueuedKeepsInv(g, id);
    } else if g' == Close(g) {
      CloseKeepsInv(g);
    } else if target, e :| g' == Latch(g, target, e) {
      LatchKeepsInv(g, target, e);
    } else {
      var e :| e in g.pending && g' == ApplyEffect(g, e);
      EffectKeepsInv(g, e);
    }
  }

  // ---------------------------------------------------------------- over whole runs

  ghost predicate Run(gates: seq<Gate>) {
    gates != [] && gates[0] == NEW_GATE && forall i :: 0 <= i < |gates| - 1 ==> Step(gates[i], gates[i + 1])
  }

  lemma {:induction false} RunsKeepInv(gates: seq<Gate>, n: nat)
    requires Run(gates) && n < |gates|
    ensures GateInv(gates[n])
  {
    if n > 0 {
      RunsKeepInv(gates, n - 1);
      var i := n - 1;
      assert Step(gates[i], gates[i + 1]);
      StepKeepsInv(gates[i], gates[i + 1]);
    }
  }

  /**
   * What one step can do: the slot passes only from its owner's finish or from empty, to the next
   * uncancelled request in enqueue order; after a latch or a close nothing is granted any more; the
   * latch only goes up and the first failure stays.
   */
  ghost predicate SafeStep(g: Gate, g': Gate) {
    && (g'.granted == g.granted || GrantsNext(g, g'))
    && (!g.accepting ==> g'.granted == g.granted && !g'.accepting && (g'.active == g.active || g'.active == None))
    && Rank(HealthOf(g')) >= Rank(HealthOf(g))
    && EpochOf(g') == EpochOf(g) + (if HealthOf(g') != HealthOf(g) then 1 else 0)
    && (g.firstError.Some? ==> g'.firstError == g.firstError)
    && (HealthOf(g') != HealthOf(g) ==> !g'.accepting && g'.queue == [] && g'.firstError.Some?)
    && g.cancelled <= g'.cancelled && g.enqueued <= g'.enqueued
  }

  ghost predicate GrantsNext(g: Gate, g': Gate) {
    && Admits(g) && |g'.granted| == |g.granted| + 1 && g.granted <= g'.granted
    && g'.active == Some(g'.granted[|g.granted|]) && g'.active.value !in g.cancelled
    && g'.granted <= Uncancelled(g'.enqueued, g'.cancelled)
  }

  lemma {:induction false} EnqueueIsSafe(g: Gate, id: Id)
    requires GateInv(g) && id !in g.enqueued
    ensures SafeStep(g, Enqueue(g, id))
  {
    if Admits(g) {
      EnqueueKeepsFifo(g, id);
    }
  }

  lemma {:induction false} FinishIsSafe(g: Gate, id: Id)
    requires GateInv(g)
    ensures SafeStep(g, Finish(g, id))
  {
    FinishKeepsInv(g, id);
    FifoFacts(g);
  }

  lemma {:induction false} LatchIsSafe(g: Gate, target: Health, e: Failure)
    requires GateInv(g)
    ensures SafeStep(g, Latch(g, target, e))
  {
    if Rank(RequiredState(target, e)) > Rank(HealthOf(g)) {
      StateWordRoundTrip(RequiredState(target, e), EpochOf(g) + 1);
    }
  }

  lemma {:induction false} CancelIsSafe(g: Gate, id: Id)
    ensures SafeStep(g, CancelQueued(g, id))
  {
  }

  lemma {:induction false} CloseIsSafe(g: Gate)
    ensures SafeStep(g, Close(g))
  {
  }

  lemma {:induction false} EffectIsSafe(g: Gate, e: Effect)
    ensures SafeStep(g, ApplyEffect(g, e))
  {
  }

  lemma {:induction false} StepIsSafe(g: Gate, g': Gate)
    requires GateInv(g) && Step(g, g')
    ensures SafeStep(g, g')
  {
    if id :| id !in g.enqueued && g' == Enqueue(g, id) {
      EnqueueIsSafe(g, id);
    } else if id :| g' == Finish(g, id) {
      FinishIsSafe(g, id);
    } else if id :| g' == CancelQueued(g, id) {
      CancelIsSafe(g, id);
    } else if g' == Close(g) {
      CloseIsSafe(g);
    } else if target, e :| g' == Latch(g, target, e) {
      LatchIsSafe(g, target, e);
    } else {
      var e :| e in g.pending && g' == ApplyEffect(g, e);
      EffectIsSafe(g, e);
    }
  }

  /** A cancelled request never owns the slot, never owned it, and never reads as started. */
  lemma {:induction false} CancelledNeverRuns(gates: seq<Gate>, n: nat, id: Id)
    requires Run(gates) && n < |gates| && id in gates[n].cancelled
    ensures id !in gates[n].granted && gates[n].active != Some(id) && id in gates[n].phases
    ensures gates[n].phases[id] != Started && gates[n].phases[id] != Completed
  {
    RunsKeepInv(gates, n);
    FifoFacts(gates[n]);
    assert id in gates[n].phases;
    assert PhaseOk(gates[n], id);
  }

  /** No request is lost: while it waits unanswered it is queued, or its answer is on the way. */
  lemma {:induction false} NoRequestIsLost(gates: seq<Gate>, n: nat, id: Id)
    requires Run(gates) && n < |gates| && id in gates[n].enqueued
    ensures id in gates[n].phases
    ensures gates[n].phases[id] == Queued ==>
              || (id in gates[n].queue && gates[n].active.Some? && gates[n].active.value != id && Admits(gates[n]))
              || MarkStarted(id) in gates[n].pending
              || exists state :: CancelPhase(id, state) in gates[n].pending
  {
    RunsKeepInv(gates, n);
    FifoFacts(gates[n]);
    assert PhaseOk(gates[n], id);
  }

  // ---------------------------------------------------------------- every request is served

  /** A healthy open gate takes every request: at once if the slot is free, else behind all others. */
  lemma {:induction false} EnqueueServes(g: Gate, id: Id)
    requires GateInv(g) && id !in g.enqueued
    ensures var g' := Enqueue(g, id);
            if HealthOf(g) == Healthy && g.accepting then
              && g'.enqueued == g.enqueued + [id] && g'.cancelled == g.cancelled
              && g'.granted + g'.queue == g.granted + g.queue + [id]
              && g'.active == if g.active.None? then Some(id) else g.active
            else g' == g
  {
    if g.active.Some? {
      assert g.granted + (g.queue + [id]) == g.granted + g.queue + [id];
    }
  }

  /** The owner's finish is answered, loses nobody, and hands the slot to the first that waits. */
  lemma {:induction false} FinishServes(g: Gate, id: Id)
    requires GateInv(g) && g.active == Some(id)
    ensures var g' := Finish(g, id);
            && g'.granted + g'.queue == g.granted + g.queue && g'.cancelled == g.cancelled
            && MarkCompleted(id) in g'.pending
            && g'.active == if g.queue == [] then None else Some(g.queue[0])
  {
    if g.queue != [] {
      assert g.queue == [g.queue[0]] + g.queue[1..];
      assert g.granted + [g.queue[0]] + g.queue[1..] == g.granted + g.queue;
    }
  }

  /** The request waited, it is told, and its own call or the end of admission is the reason. */
  ghost predicate Dismissed(g: Gate, g': Gate, x: Id) {
    && x in g.queue && (exists state :: CancelPhase(x, state) in g'.pending)
    && (g' == CancelQueued(g, x) || (!g'.accepting && g'.queue == []))
  }

  lemma {:induction false} DrainDismisses(g: Gate, g': Gate, state: Health, x: Id)
    requires x in g'.cancelled && x !in g.cancelled && !g'.accepting && g'.queue == []
    requires g'.cancelled == g.cancelled + Members(g.queue) && g'.pending == g.pending + AllCancelled(g.queue, state)
    ensures Dismissed(g, g', x)
  {
    assert CancelPhase(x, state) in g'.pending;
  }

  lemma {:induction false} CancelDismisses(g: Gate, id: Id, x: Id)
    requires x in CancelQueued(g, id).cancelled && x !in g.cancelled
    ensures Dismissed(g, CancelQueued(g, id), x)
  {
    assert CancelPhase(x, Healthy) in CancelQueued(g, id).pending;
  }

  /** A request is cancelled only while it waits, by its own call or because admission ends, and is told. */
  lemma {:induction false} CancelsOnlyTheWaiting(g: Gate, g': Gate, x: Id)
    requires Step(g, g') && x in g'.cancelled && x !in g.cancelled
    ensures Dismissed(g, g', x)
  {
    if g' == Close(g) {
      DrainDismisses(g, g', HealthOf(g), x);
    } else if target, e :| g' == Latch(g, target, e) {
      DrainDismisses(g, g', RequiredState(target, e), x);
    } else {
      var id :| g' == CancelQueued(g, id);
      CancelDismisses(g, id, x);
    }
  }

  // ---------------------------------------------------------------- the calls of one thread

  /** A thread's own phase updates, one after the other. */
  function Settle(g: Gate, effects: seq<Effect>): Gate {
    if effects == [] then g else ApplyEffect(Settle(g, effects[..|effects| - 1]), effects[|effects| - 1])
  }

  function CancelEffects(queue: seq<Id>, state: Health): (r: seq<Effect>)
    ensures |r| == |queue| && forall i :: 0 <= i < |queue| ==> r[i] == CancelPhase(queue[i], state)
  {
    seq(|queue|, i requires 0 <= i < |queue| => CancelPhase(queue[i], state))
  }

  /** Phase updates leave the gate's own fields alone. */
  lemma {:induction false} SettleKeepsGate(g: Gate, effects: seq<Effect>)
    ensures var s := Settle(g, effects); s == g.(phases := s.phases, pending := s.pending)
  {
    if effects != [] { SettleKeepsGate(g, effects[..|effects| - 1]); }
  }

  /** Poisoned for a reason that is kept if it is the first one; nobody waits, and the owner stays. */
  predicate PoisonedBy(g: Gate, s: Gate, e: Failure) {
    && HealthOf(s) == Poisoned && s.queue == [] && s.active == g.active && s.granted == g.granted
    && s.firstError == FirstOf(g, e)
  }

  function FirstOf(g: Gate, e: Failure): Option<Failure> {
    if HealthOf(g) == Healthy && g.firstError.None? then Some(e) else g.firstError
  }

  lemma {:induction false} LatchPoisons(g: Gate, e: Failure)
    requires WordOk(g) && SlotOk(g)
    ensures forall effects :: PoisonedBy(g, Settle(Latch(g, Poisoned, e), effects), e)
  {
    forall effects ensures PoisonedBy(g, Settle(Latch(g, Poisoned, e), effects), e) {
      SettleKeepsGate(Latch(g, Poisoned, e), effects);
      StateWordRoundTrip(Poisoned, EpochOf(g) + 1);
    }
  }

  class RuntimeControl {
    var accepting: bool
    var active: Option<Id>
    var queue: seq<Id>
    var word: nat
    var firstError: Option<Failure>
    var phases: map<Id, RequestPhase>
    ghost var pending: set<Effect>
    ghost var enqueued: seq<Id>
    ghost var granted: seq<Id>
    ghost var cancelled: set<Id>

    constructor ()
      ensures View() == NEW_GATE
    {
      accepting, active, queue, word, firstError, phases := true, None, [], 0, None, map[];
      pending, enqueued, granted, cancelled := {}, [], [], {};
    }

    ghost function View(): Gate
      reads this
    {
      Gate(accepting, active, queue, word, firstError, phases, pending, enqueued, granted, cancelled)
    }

    /** One request's phase update, taken under its own lock. */
    method Update(e: Effect)
      modifies this`phases, this`pending
      ensures View() == ApplyEffect(old(View()), e)
    {
      if e.id in phases {
        match e {
          case MarkStarted(id) => if phases[id] == Queued { phases := phases[id := Started]; }
          case MarkCompleted(id) => if phases[id] == Started { phases := phases[id := Completed]; }
          case CancelPhase(id, state) => if phases[id] == Queued { phases := phases[id := Cancelled(state)]; }
        }
      }
      pending := pending - {e};
    }

    method EnqueueWrite(id: Id) returns (accepted: bool)
      modifies this
      ensures accepted == Admits(old(View()))
      ensures var g := Enqueue(old(View()), id);
              View() == if accepted && g.active == Some(id) && old(active).None? && old(queue) == []
                        then ApplyEffect(g, MarkStarted(id)) else g
    {
      var (health, _) := DecodeState(word);
      if health != Healthy || !accepting {
        return false;
      }
      phases := phases[id := Queued];
      enqueued := enqueued + [id];
      if active.None? && queue == [] {
        active := Some(id);
        granted, pending := granted + [id], pending + {MarkStarted(id)};
        Update(MarkStarted(id));
      } else {
        queue := queue + [id];
      }
      return true;
    }

    method FinishWrite(id: Id) returns (finished: bool)
      modifies this
      ensures finished <==> old(active) == Some(id)
      ensures var g := Finish(old(View()), id);
              View() == if !finished then g
                        else if g.active.Some? then ApplyEffect(ApplyEffect(g, MarkCompleted(id)), MarkStarted(g.active.value))
                        else ApplyEffect(g, MarkCompleted(id))
    {
      if active != Some(id) {
        return false;
      }
      active := None;
      var next: Option<Id> := None;
      var (health, _) := DecodeState(word);
      pending := pending + {MarkCompleted(id)};
      if health == Healthy && accepting && queue != [] {
        next := Some(queue[0]);
        active, queue := next, queue[1..];
        granted := granted + [next.value];
        pending := pending + {MarkStarted(next.value)};
        assert pending == old(pending) + {MarkCompleted(id), MarkStarted(next.value)};
      }
      Update(MarkCompleted(id));
      if next.Some? {
        Update(MarkStarted(next.value));
      }
      return true;
    }

    /** latch_failure: the critical section, then every drained request is told. */
    method LatchFailure(target: Health, e: Failure) returns (changed: bool)
      modifies this
      ensures changed <==> Rank(RequiredState(target, e)) > Rank(HealthOf(old(View())))
      ensures var effects := if changed then CancelEffects(old(queue), RequiredState(target, e)) else [];
              View() == Settle(Latch(old(View()), target, e), effects)
      ensures GateInv(old(View())) ==> GateInv(View())
      ensures LatchedAs(HealthOf(old(View())), HealthOf(View()), target, e)
    {
      ghost var before := View();
      LatchedHealth(before, target, e);
      var state := RequiredState(target, e);
      var (health, _) := DecodeState(word);
      if Rank(state) <= Rank(health) {
        return false;
      }
      var drained := queue;
      LatchState(state, target, e);
      CancelAll(drained, state);
      if GateInv(before) { LatchCallKeepsInv(before, target, e); }
      return true;
    }

    method LatchState(state: Health, ghost target: Health, e: Failure)
      requires state == RequiredState(target, e) && Rank(state) > Rank(HealthOf(View()))
      modifies this
      ensures View() == Latch(old(View()), target, e)
    {
      var (health, epoch) := DecodeState(word);
      accepting := false;
      if health == Healthy && firstError.None? {
        firstError := Some(e);
      }
      word := EncodeState(state, epoch + 1);
      pending := pending + AllCancelled(queue, state);
      cancelled := cancelled + Members(queue);
      queue := [];
    }

    /** cancel_queued_write. */
    method CancelQueuedWrite(id: Id) returns (cancelledNow: bool)
      modifies this
      ensures cancelledNow <==> id in old(queue)
      ensures var g := CancelQueued(old(View()), id);
              View() == if cancelledNow then ApplyEffect(g, CancelPhase(id, Healthy)) else g
    {
      if id !in queue {
        return false;
      }
      queue := Without(queue, id);
      pending := pending + {CancelPhase(id, Healthy)};
      cancelled := cancelled + {id};
      Update(CancelPhase(id, Healthy));
      return true;
    }

    /**
     * abandon_write, what dropping an unreleased ticket does: a queued request is cancelled, an
     * active one poisons the instance before it gives up the slot.
     */
    method AbandonWrite(id: Id)
      requires GateInv(View())
      modifies this
      ensures id in old(queue) ==> View() == ApplyEffect(CancelQueued(old(View()), id), CancelPhase(id, Healthy))
      ensures id !in old(queue) && old(active) != Some(id) ==> View() == old(View())
      ensures id !in old(queue) && old(active) == Some(id) ==>
                && HealthOf(View()) == Poisoned && active == None && queue == [] && granted == old(granted)
                && firstError == FirstOf(old(View()), ABANDONED)
    {
      var wasQueued := CancelQueuedWrite(id);
      if wasQueued || active != Some(id) {
        return;
      }
      LatchPoisons(View(), ABANDONED);
      var changed := LatchFailure(Poisoned, ABANDONED);
      var finished := FinishWrite(id);
    }

    /** close_write_admission. */
    method CloseWriteAdmission()
      modifies this
      ensures View() == Settle(Close(old(View())), CancelEffects(old(queue), HealthOf(old(View()))))
    {
      var (state, _) := DecodeState(word);
      accepting := false;
      var drained := queue;
      queue := [];
      pending := pending + AllCancelled(drained, state);
      cancelled := cancelled + Members(drained);
      assert View() == Close(old(View()));
      CancelAll(drained, state);
    }

    /** Tells every request of a drained queue that it will not run. */
    method CancelAll(drained: seq<Id>, state: Health)
      modifies this`phases, this`pending
      ensures View() == Settle(old(View()), CancelEffects(drained, state))
    {
      ghost var start, effects := View(), CancelEffects(drained, state);
      for i := 0 to |drained|
        invariant View() == Settle(start, effects[..i])
      {
        assert effects[..i + 1][..i] == effects[..i];
        Update(CancelPhase(drained[i], state));
      }
      assert effects[..|drained|] == effects;
    }
  }

  lemma {:induction false} SettleRemovesOnly(g: Gate, effects: seq<Effect>, e: Effect)
    requires e in g.pending && e !in effects
    ensures e in Settle(g, effects).pending
  {
    if effects != [] {
      var n := |effects| - 1;
      assert effects[n] in effects;
      assert e !in effects[..n];
      SettleRemovesOnly(g, effects[..n], e);
    }
  }

  /** A thread's updates that are pending are steps like any other, so they keep the invariant too. */
  lemma {:induction false} SettleKeepsInv(g: Gate, effects: seq<Effect>)
    requires GateInv(g) && (forall i :: 0 <= i < |effects| ==> effects[i] in g.pending)
    requires forall i, j :: 0 <= i < j < |effects| ==> effects[i] != effects[j]
    ensures GateInv(Settle(g, effects))
  {
    if effects != [] {
      var n := |effects| - 1;
      var init, last := effects[..n], effects[n];
      SettleKeepsInv(g, init);
      LastIsDifferent(effects);
      SettleRemovesOnly(g, init, last);
      assert Settle(g, effects) == ApplyEffect(Settle(g, init), last);
      EffectKeepsInv(Settle(g, init), last);
    }
  }

  lemma {:induction false} LastIsDifferent(effects: seq<Effect>)
    requires effects != [] && forall i, j :: 0 <= i < j < |effects| ==> effects[i] != effects[j]
    ensures effects[|effects| - 1] !in effects[..|effects| - 1]
  {
  }

  /** Cancellations do not touch the state word. */
  lemma {:induction false} SettleKeepsWord(g: Gate, effects: seq<Effect>)
    ensures Settle(g, effects).word == g.word
  {
    if effects != [] { SettleKeepsWord(g, effects[..|effects| - 1]); }
  }

  /** What a latch call leaves: never better than before, never worse than before, target and error demand. */
  ghost predicate LatchedAs(before: Health, after: Health, target: Health, e: Failure) {
    && (Untrusting(e) ==> after == Poisoned)
    && (!Untrusting(e) && !e.writeStopped ==> WorseOf(after, before, target))
    && (!Untrusting(e) && e.writeStopped ==>
          exists wanted :: WorseOf(wanted, target, WriteStopped) && WorseOf(after, before, wanted))
  }

  lemma {:induction false} LatchedHealth(g: Gate, target: Health, e: Failure)
    ensures forall effects :: LatchedAs(HealthOf(g), HealthOf(Settle(Latch(g, target, e), effects)), target, e)
  {
    var state := RequiredState(target, e);
    WordKeepsHealth(state, EpochOf(g) + 1);
    forall effects ensures LatchedAs(HealthOf(g), HealthOf(Settle(Latch(g, target, e), effects)), target, e) {
      SettleKeepsWord(Latch(g, target, e), effects);
      assert WorseOf(HealthOf(Settle(Latch(g, target, e), effects)), HealthOf(g), state);
    }
  }

  /** A whole latch call, including its cancellations, keeps the invariant. */
  lemma {:induction false} LatchCallKeepsInv(g: Gate, target: Health, e: Failure)
    requires GateInv(g) && Rank(RequiredState(target, e)) > Rank(HealthOf(g))
    ensures GateInv(Settle(Latch(g, target, e), CancelEffects(g.queue, RequiredState(target, e))))
  {
    var state := RequiredState(target, e);
    var effects := CancelEffects(g.queue, state);
    LatchKeepsInv(g, target, e);
    FifoFacts(g);
    QueueIsDistinct(g);
    forall i, j | 0 <= i < j < |effects| ensures effects[i] != effects[j] {
      assert g.queue[i] != g.queue[j];
    }
    forall i | 0 <= i < |effects| ensures effects[i] in Latch(g, target, e).pending {
      assert g.queue[i] in g.queue;
    }
    SettleKeepsInv(Latch(g, target, e), effects);
  }
}
