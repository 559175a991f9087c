/**
 * One key of the job coordinator as a concurrent protocol: any number of workflow instances, their RPCs at
 * every point inside the Durable Object, the ungated status checks and turn events between the gated phases,
 * enqueues of any kind, and instances that die anywhere. A call that was made stays in `calls`: it may run late,
 * never (a lost request or answer) or again (a retried step).
 */
module LockProtocol {
  import opened Wrappers
  import opened Sequences
  import opened KeyLock
  import Runs

  /** A workflow instance's own view. An enqueue registers the id while the instance is still absent. */
  datatype Phase = Absent | Acquiring | Holding | Finishing | Ended

  /** RPCs, each at the point it has reached inside the Durable Object. */
  datatype Call =
    | AcquireRequest(id: Id)
    | AcquireCheck(id: Id, holder: Id)
    | AcquireVerdict(id: Id, holder: Id, stale: bool)
    | AcquireAnswer(id: Id, granted: bool)
    | ReleaseRequest(id: Id)
    | WakeCall(id: Id)
    | EnqueueRequest(id: Id, supersedes: bool, hash: Option<string>)
    | EnqueueCheck(id: Id, supersedes: bool, hash: Option<string>, candidate: Id)
    | EnqueueVerdict(id: Id, supersedes: bool, hash: Option<string>, candidate: Id, stale: bool)

  datatype System = System(lock: KeyState, phases: map<Id, Phase>, calls: set<Call>)

  datatype Step =
    | Create(id: Id)
    | SendAcquire(id: Id)
    | TakeGrant(id: Id)
    | FinishHandler(id: Id)
    | SendRelease(id: Id)
    | Retire(id: Id)
    | Die(id: Id)
    | SendEnqueue(id: Id, supersedes: bool, hash: Option<string>)
    | Gate(call: Call)                 // the call runs its next gated phase
    | Check(call: Call, stale: bool)   // an ungated status check answers
    | Wake(id: Id, woken: bool)        // an ungated turn event answers

  function PhaseOf(s: System, id: Id): Phase {
    if id in s.phases then s.phases[id] else Absent
  }

  /** The handler is over: the instance will never use a grant again. */
  const OVER: set<Phase> := {Finishing, Ended}

  predicate IsOver(s: System, id: Id) { PhaseOf(s, id) in OVER }

  // ---- The gated phases --------------------------------------------------------------------------

  predicate IsGated(call: Call) {
    call.AcquireRequest? || call.AcquireVerdict? || call.ReleaseRequest? || call.EnqueueRequest? || call.EnqueueVerdict?
  }

  /** The record after the gated phase of `call`. */
  function Gated(lock: KeyState, call: Call): KeyState
    requires IsGated(call)
  {
    match call
    case AcquireRequest(id) => ReadAcquire(lock, id).0
    case AcquireVerdict(id, holder, stale) => AcquireAfterCheck(lock, id, holder, stale).0
    case ReleaseRequest(id) => Release(lock, id).0
    case EnqueueRequest(id, supersedes, hash) => ReadEnqueue(lock, supersedes, id, hash).0
    case EnqueueVerdict(id, supersedes, hash, candidate, stale) =>
      EnqueueAfterCheck(lock, candidate, stale, supersedes, id, hash).0
  }

  /** The call it leaves in flight: an answer, an ungated check, a turn event, or none. */
  function Onward(lock: KeyState, call: Call): set<Call>
    requires IsGated(call)
  {
    match call
    case AcquireRequest(id) =>
      (match ReadAcquire(lock, id).1
       case Granted => {AcquireAnswer(id, true)}
       case NeedsStaleCheck(holder) => {AcquireCheck(id, holder)})
    case AcquireVerdict(id, holder, stale) =>
      {AcquireAnswer(id, AcquireAfterCheck(lock, id, holder, stale).1)}
    case ReleaseRequest(id) =>
      var next := Release(lock, id).1;
      if next.Some? && next.value != "" then {WakeCall(next.value)} else {}
    case EnqueueRequest(id, supersedes, hash) =>
      (match ReadEnqueue(lock, supersedes, id, hash).1
       case Enqueued(_) => {}
       case CoalesceCandidate(candidate) => {EnqueueCheck(id, supersedes, hash, candidate)})
    case EnqueueVerdict(_, _, _, _, _) => {}
  }

  // ---- Steps -------------------------------------------------------------------------------------

  /** `blamed` holds the phases in which an instance may be reported stale, or not woken. */
  predicate Enabled(blamed: set<Phase>, s: System, step: Step) {
    match step
    case Create(id) => PhaseOf(s, id) == Absent
    case SendAcquire(id) => PhaseOf(s, id) == Acquiring
    case TakeGrant(id) => PhaseOf(s, id) == Acquiring && AcquireAnswer(id, true) in s.calls
    case FinishHandler(id) => PhaseOf(s, id) == Holding
    case SendRelease(id) => PhaseOf(s, id) == Finishing
    case Retire(id) => PhaseOf(s, id) == Finishing
    case Die(id) => PhaseOf(s, id) != Absent
    case SendEnqueue(_, _, _) => true
    case Gate(call) => call in s.calls && IsGated(call)
    case Check(call, stale) =>
      && call in s.calls
      && (call.AcquireCheck? || call.EnqueueCheck?)
      && (stale ==> PhaseOf(s, if call.AcquireCheck? then call.holder else call.candidate) in blamed)
    case Wake(id, woken) => WakeCall(id) in s.calls && (!woken ==> PhaseOf(s, id) in blamed)
  }

  function PhasesAfter(s: System, step: Step): map<Id, Phase> {
    match step
    case Create(id) => s.phases[id := Acquiring]
    case TakeGrant(id) => s.phases[id := Holding]
    case FinishHandler(id) => s.phases[id := Finishing]
    case Retire(id) => s.phases[id := Ended]
    case Die(id) => s.phases[id := Ended]
    case _ => s.phases
  }

  function Produced(s: System, step: Step): set<Call> {
    match step
    case SendAcquire(id) => {AcquireRequest(id)}
    case SendRelease(id) => {ReleaseRequest(id)}
    case SendEnqueue(id, supersedes, hash) => {EnqueueRequest(id, supersedes, hash)}
    case Gate(call) => if IsGated(call) then Onward(s.lock, call) else {}
    case Check(call, stale) =>
      (match call
       case AcquireCheck(id, holder) => {AcquireVerdict(id, holder, stale)}
       case EnqueueCheck(id, supersedes, hash, candidate) => {EnqueueVerdict(id, supersedes, hash, candidate, stale)}
       case _ => {})
    // A failed wake re-enters the gate as a release by the instance that could not be woken.
    case Wake(id, woken) => if woken then {} else {ReleaseRequest(id)}
    case _ => {}
  }

  function LockAfter(s: System, step: Step): KeyState {
    if step.Gate? && IsGated(step.call) then Gated(s.lock, step.call) else s.lock
  }

  function Apply(s: System, step: Step): System {
    System(LockAfter(s, step), PhasesAfter(s, step), s.calls + Produced(s, step))
  }

  /** No instance yet and nothing in flight, over any stored record. */
  function Init(lock: KeyState): System { System(lock, map[], {}) }

  function Rules(blamed: set<Phase>): (System, Step) -> bool {
    (s: System, step: Step) => Enabled(blamed, s, step)
  }

  ghost predicate Reaches(blamed: set<Phase>, lock: KeyState, t: System) {
    Runs.Reaches(Rules(blamed), Apply, Init(lock), t)
  }

  // ---- Mutual exclusion --------------------------------------------------------------------------

  ghost predicate AtMostOneHolds(s: System) {
    forall i, j :: PhaseOf(s, i) == Holding && PhaseOf(s, j) == Holding ==> i == j
  }

  /** Holding the key, or answered "granted" and still able to act on it. */
  ghost predicate MayUse(s: System, i: Id) {
    PhaseOf(s, i) == Holding || (AcquireAnswer(i, true) in s.calls && !IsOver(s, i))
  }

  /** From the answer to its acquire until its handler is over, at most one instance has the key. */
  ghost predicate AtMostOneMayUse(s: System) {
    forall i, j :: MayUse(s, i) && MayUse(s, j) ==> i == j
  }

  /** Whoever holds a grant it may still use is the recorded holder; only instances whose handler is over are
      ever taken over from or released. */
  ghost predicate Safe(s: System) {
    && (forall i :: PhaseOf(s, i) == Holding ==> s.lock.running == Some(i))
    && (forall i :: AcquireAnswer(i, true) in s.calls && !IsOver(s, i) ==> s.lock.running == Some(i))
    && (forall i, h :: AcquireVerdict(i, h, true) in s.calls ==> IsOver(s, h))
    && (forall i :: ReleaseRequest(i) in s.calls ==> IsOver(s, i))
  }

  lemma OverIsForGood(blamed: set<Phase>, s: System, step: Step, i: Id)
    requires Enabled(blamed, s, step) && IsOver(s, i)
    ensures IsOver(Apply(s, step), i)
  {
  }

  /** The key is never taken from an instance that may still use it. */
  lemma HolderIsKept(blamed: set<Phase>, s: System, step: Step, i: Id)
    requires Safe(s) && Enabled(blamed, s, step)
    requires s.lock.running == Some(i) && !IsOver(s, i)
    ensures LockAfter(s, step).running == Some(i)
  {
    if step.Gate? {
      match step.call
      case AcquireRequest(id) =>
      case AcquireVerdict(id, holder, stale) =>
      case ReleaseRequest(id) =>
      case EnqueueRequest(id, supersedes, hash) =>
        CandidateIsPendingUnderHash(s.lock, supersedes, id, hash);
      case EnqueueVerdict(id, supersedes, hash, candidate, stale) =>
        TwoPhaseEnqueueIsCorrect(s.lock, candidate, stale, supersedes, id, hash);
    }
  }

  /** A grant is only answered to the recorded holder. */
  lemma GrantIsRecorded(s: System, step: Step, i: Id)
    requires AcquireAnswer(i, true) in Produced(s, step)
    ensures LockAfter(s, step).running == Some(i)
  {
    if step.Gate? {
      match step.call
      case AcquireRequest(id) =>
      case AcquireVerdict(id, holder, stale) =>
      case ReleaseRequest(id) =>
      case EnqueueRequest(id, supersedes, hash) =>
      case _ =>
    }
  }

  /** Nobody is declared stale or released whose handler is not over. */
  lemma BlameIsDeserved(blamed: set<Phase>, s: System, step: Step, i: Id, h: Id)
    requires blamed <= OVER && Enabled(blamed, s, step)
    requires AcquireVerdict(i, h, true) in Produced(s, step) || ReleaseRequest(h) in Produced(s, step)
    ensures IsOver(s, h)
  {
  }

  lemma StepKeepsSafe(blamed: set<Phase>, s: System, step: Step)
    requires blamed <= OVER
    requires Safe(s) && Enabled(blamed, s, step)
    ensures Safe(Apply(s, step))
  {
    var t := Apply(s, step);
    forall i | PhaseOf(t, i) == Holding ensures t.lock.running == Some(i) {
      HolderIsKeptWhenUsable(blamed, s, step, i);
    }
    forall i | AcquireAnswer(i, true) in t.calls && !IsOver(t, i) ensures t.lock.running == Some(i) {
      if AcquireAnswer(i, true) in Produced(s, step) {
        GrantIsRecorded(s, step, i);
      } else {
        assert AcquireAnswer(i, true) in s.calls;
        HolderIsKeptWhenUsable(blamed, s, step, i);
      }
    }
    forall i, h | AcquireVerdict(i, h, true) in t.calls ensures IsOver(t, h) {
      if AcquireVerdict(i, h, true) in Produced(s, step) {
        BlameIsDeserved(blamed, s, step, i, h);
      } else {
        assert AcquireVerdict(i, h, true) in s.calls;
      }
      OverIsForGood(blamed, s, step, h);
    }
    forall i | ReleaseRequest(i) in t.calls ensures IsOver(t, i) {
      if ReleaseRequest(i) in Produced(s, step) {
        BlameIsDeserved(blamed, s, step, i, i);
      } else {
        assert ReleaseRequest(i) in s.calls;
      }
      OverIsForGood(blamed, s, step, i);
    }
  }

  /** An instance that holds, or can still take a grant, is and stays the recorded holder. */
  lemma HolderIsKeptWhenUsable(blamed: set<Phase>, s: System, step: Step, i: Id)
    requires Safe(s) && Enabled(blamed, s, step) && !IsOver(Apply(s, step), i)
    requires PhaseOf(Apply(s, step), i) == Holding || AcquireAnswer(i, true) in s.calls
    ensures Apply(s, step).lock.running == Some(i)
  {
    if IsOver(s, i) {
      OverIsForGood(blamed, s, step, i);
      assert false;
    } else {
      assert PhaseOf(s, i) == Holding || AcquireAnswer(i, true) in s.calls;
      HolderIsKept(blamed, s, step, i);
    }
  }

  /** At most one live instance is ever between the answer that grants it the key and the end of its handler, in
      every run from any stored record; it is the recorded holder. */
  lemma MutualExclusion(blamed: set<Phase>, lock: KeyState, t: System)
    requires blamed <= OVER && Reaches(blamed, lock, t)
    ensures AtMostOneMayUse(t) && AtMostOneHolds(t)
    ensures forall i :: MayUse(t, i) ==> t.lock.running == Some(i)
  {
    var steps :| Runs.Valid(Rules(blamed), Apply, Init(lock), steps) && Runs.After(Apply, Init(lock), steps) == t;
    forall s, step | Safe(s) && Enabled(blamed, s, step) ensures Safe(Apply(s, step)) {
      StepKeepsSafe(blamed, s, step);
    }
    Runs.Keeps(Rules(blamed), Apply, Safe, Init(lock), steps);
  }

  // ---- The assumption is exact -------------------------------------------------------------------

  /** Every run keeps holders apart. */
  ghost predicate Excludes(blamed: set<Phase>) {
    forall lock, t :: Reaches(blamed, lock, t) ==> AtMostOneHolds(t)
  }

  /** Every run keeps apart all who may use the key. */
  ghost predicate ExcludesUse(blamed: set<Phase>) {
    forall lock, t :: Reaches(blamed, lock, t) ==> AtMostOneMayUse(t)
  }

  const EMPTY := KeyState([], None, map[])

  lemma Move(blamed: set<Phase>, t: System, step: Step, u: System)
    requires Reaches(blamed, EMPTY, t) && Enabled(blamed, t, step) && Apply(t, step) == u
    ensures Reaches(blamed, EMPTY, u)
  {
    Runs.Move(Rules(blamed), Apply, Init(EMPTY), t, step);
  }

  /** The record of a key held by `id` with nobody waiting. */
  function Held(id: Id): KeyState { KeyState([], Some(id), map[]) }

  function At(t: System, id: Id, phase: Phase): System { t.(phases := t.phases[id := phase]) }

  function With(t: System, call: Call): System { t.(calls := t.calls + {call}) }

  lemma Creates(blamed: set<Phase>, t: System, id: Id)
    requires Reaches(blamed, EMPTY, t) && PhaseOf(t, id) == Absent
    ensures Reaches(blamed, EMPTY, At(t, id, Acquiring))
  {
    assert t.calls + {} == t.calls;
    Move(blamed, t, Create(id), At(t, id, Acquiring));
  }

  lemma Requests(blamed: set<Phase>, t: System, id: Id)
    requires Reaches(blamed, EMPTY, t) && PhaseOf(t, id) == Acquiring
    ensures Reaches(blamed, EMPTY, With(t, AcquireRequest(id)))
  {
    Move(blamed, t, SendAcquire(id), With(t, AcquireRequest(id)));
  }

  /** A granted answer is taken. */
  lemma Takes(blamed: set<Phase>, t: System, id: Id)
    requires Reaches(blamed, EMPTY, t)
    requires PhaseOf(t, id) == Acquiring && AcquireAnswer(id, true) in t.calls
    ensures Reaches(blamed, EMPTY, At(t, id, Holding))
  {
    assert t.calls + {} == t.calls;
    Move(blamed, t, TakeGrant(id), At(t, id, Holding));
  }

  /** A call passes its gate. */
  lemma Passes(blamed: set<Phase>, t: System, call: Call, lock: KeyState, onward: Call)
    requires Reaches(blamed, EMPTY, t) && call in t.calls && IsGated(call)
    requires Gated(t.lock, call) == lock && Onward(t.lock, call) == {onward}
    ensures Reaches(blamed, EMPTY, With(t.(lock := lock), onward))
  {
    Move(blamed, t, Gate(call), With(t.(lock := lock), onward));
  }

  lemma GrantOfBareRecord(s: KeyState, id: Id)
    requires s.pending == [] && s.hashes == map[]
    ensures Grant(s, id) == Held(id)
  {
    assert s.hashes - {id} == map[];
  }

  function Acquired(t: System, id: Id): System {
    At(With(With(t, AcquireRequest(id)).(lock := Held(id)), AcquireAnswer(id, true)), id, Holding)
  }

  /** An instance that finds the key free or its own acquires it. */
  lemma Acquires(blamed: set<Phase>, t: System, id: Id)
    requires Reaches(blamed, EMPTY, t) && PhaseOf(t, id) == Acquiring
    requires t.lock == EMPTY || t.lock == Held(id)
    ensures Reaches(blamed, EMPTY, Acquired(t, id))
  {
    Requests(blamed, t, id);
    var u := With(t, AcquireRequest(id));
    GrantOfBareRecord(t.lock, id);
    Passes(blamed, u, AcquireRequest(id), Held(id), AcquireAnswer(id, true));
    Takes(blamed, With(u.(lock := Held(id)), AcquireAnswer(id, true)), id);
  }

  function Finished(t: System, x: Id): System { With(At(t, x, Finishing), ReleaseRequest(x)) }

  lemma Finishes(blamed: set<Phase>, t: System, x: Id)
    requires Reaches(blamed, EMPTY, t) && PhaseOf(t, x) == Holding
    ensures Reaches(blamed, EMPTY, Finished(t, x))
  {
    var u := At(t, x, Finishing);
    assert t.calls + {} == t.calls;
    Move(blamed, t, FinishHandler(x), u);
    Move(blamed, u, SendRelease(x), With(u, ReleaseRequest(x)));
  }

  function Registered(t: System, a: Id): System {
    With(t, EnqueueRequest(a, false, None)).(lock := t.lock.(pending := t.lock.pending + [a]))
  }

  lemma Registers(blamed: set<Phase>, t: System, a: Id)
    requires Reaches(blamed, EMPTY, t) && a !in t.lock.pending && t.lock.hashes == map[]
    ensures Reaches(blamed, EMPTY, Registered(t, a))
  {
    var call := EnqueueRequest(a, false, None);
    var u := With(t, call);
    Move(blamed, t, SendEnqueue(a, false, None), u);
    assert u.calls + {} == u.calls;
    assert Gated(u.lock, call) == t.lock.(pending := t.lock.pending + [a]) by {
      assert Dropped(t.lock, false, a) == [];
    }
    Move(blamed, u, Gate(call), Registered(t, a));
  }

  function HandedOver(t: System, x: Id, a: Id): System {
    With(Finished(Registered(t, a), x).(lock := Held(a)), WakeCall(a))
  }

  /** `a` is enqueued behind `x` but not created, and `x` hands the key to it. */
  lemma HandsOver(blamed: set<Phase>, t: System, x: Id, a: Id)
    requires Reaches(blamed, EMPTY, t) && PhaseOf(t, x) == Holding && t.lock == Held(x) && a != ""
    ensures Reaches(blamed, EMPTY, HandedOver(t, x, a))
  {
    Registers(blamed, t, a);
    var u := Registered(t, a);
    Finishes(blamed, u, x);
    assert u.lock.hashes - {a} == map[];
    Passes(blamed, Finished(u, x), ReleaseRequest(x), Held(a), WakeCall(a));
  }

  function Blamed(t: System, a: Id, b: Id): System {
    With(With(With(At(t, b, Acquiring), AcquireRequest(b)), AcquireCheck(b, a)), AcquireVerdict(b, a, true))
  }

  /** `b` asks for the key held by `a`, and `a` is reported stale. */
  lemma Blames(blamed: set<Phase>, t: System, a: Id, b: Id)
    requires Reaches(blamed, EMPTY, t) && t.lock == Held(a) && a != b
    requires PhaseOf(t, a) in blamed && PhaseOf(t, b) == Absent
    ensures Reaches(blamed, EMPTY, Blamed(t, a, b))
  {
    Creates(blamed, t, b);
    Requests(blamed, At(t, b, Acquiring), b);
    var u := With(At(t, b, Acquiring), AcquireRequest(b));
    Passes(blamed, u, AcquireRequest(b), Held(a), AcquireCheck(b, a));
    Move(blamed, With(u, AcquireCheck(b, a)), Check(AcquireCheck(b, a), true), Blamed(t, a, b));
  }

  /** The verdict is acted on although `a` has started its handler meanwhile. */
  lemma TwoHolders(blamed: set<Phase>, t: System, a: Id, b: Id)
    requires Reaches(blamed, EMPTY, t) && AcquireVerdict(b, a, true) in t.calls
    requires t.lock == Held(a) && a != b && PhaseOf(t, a) == Holding && PhaseOf(t, b) == Acquiring
    ensures !Excludes(blamed)
  {
    GrantOfBareRecord(t.lock, b);
    Passes(blamed, t, AcquireVerdict(b, a, true), Held(b), AcquireAnswer(b, true));
    var u := With(t.(lock := Held(b)), AcquireAnswer(b, true));
    Takes(blamed, u, b);
    var v := At(u, b, Holding);
    assert PhaseOf(v, a) == Holding && PhaseOf(v, b) == Holding;
    assert !AtMostOneHolds(v);
  }

  /** From the empty record: blaming one instance whose handler is not over lets two handlers run at once. In
      particular the hand-over can reach an id that is enqueued but not yet created. */
  lemma BlameBreaksExclusion(blamed: set<Phase>, p: Phase)
    requires p in blamed && p !in OVER
    ensures !Excludes(blamed)
  {
    var x, a, b := "x", "a", "b";
    Runs.Start(Rules(blamed), Apply, Init(EMPTY));
    Creates(blamed, Init(EMPTY), x);
    Acquires(blamed, At(Init(EMPTY), x, Acquiring), x);
    var s := Acquired(At(Init(EMPTY), x, Acquiring), x);
    HandsOver(blamed, s, x, a);
    var t := HandedOver(s, x, a);
    if p == Absent {
      Blames(blamed, t, a, b);
      t := Blamed(t, a, b);
    }
    Creates(blamed, t, a);
    t := At(t, a, Acquiring);
    if p == Acquiring {
      Blames(blamed, t, a, b);
      t := Blamed(t, a, b);
    }
    Acquires(blamed, t, a);
    t := Acquired(t, a);
    if p == Holding {
      Blames(blamed, t, a, b);
      t := Blamed(t, a, b);
    }
    TwoHolders(blamed, t, a, b);
  }

  lemma UseIncludesHolding(blamed: set<Phase>)
    ensures ExcludesUse(blamed) ==> Excludes(blamed)
  {
    if ExcludesUse(blamed) {
      forall lock, t | Reaches(blamed, lock, t) ensures AtMostOneHolds(t) {
        assert AtMostOneMayUse(t);
        assert forall i :: PhaseOf(t, i) == Holding ==> MayUse(t, i);
      }
    }
  }

  /** Handlers under one key never overlap exactly when "stale" and "could not be woken" are only ever said of
      instances whose handler is over. */
  lemma ExclusionIff(blamed: set<Phase>)
    ensures Excludes(blamed) <==> blamed <= OVER
    ensures ExcludesUse(blamed) <==> blamed <= OVER
  {
    if blamed <= OVER {
      forall lock, t | Reaches(blamed, lock, t) ensures AtMostOneHolds(t) && AtMostOneMayUse(t) {
        MutualExclusion(blamed, lock, t);
      }
    } else {
      UseIncludesHolding(blamed);
      var p :| p in blamed && p !in OVER;
      BlameBreaksExclusion(blamed, p);
    }
  }
}
