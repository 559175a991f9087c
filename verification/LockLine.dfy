/**
 * The waiting line of one key over whole runs of the lock protocol: it stays well formed, nobody leaves it
 * unnoticed, and hand-overs follow arrival.
 */
module LockLine {
  import opened Wrappers
  import opened Sequences
  import opened KeyLock
  import opened LockProtocol
  import Runs

  /** The ids a step reports to its caller for termination. */
  function Terminated(s: System, step: Step): seq<Id> {
    if !step.Gate? then []
    else
      match step.call
      case EnqueueRequest(id, supersedes, hash) =>
        var read := ReadEnqueue(s.lock, supersedes, id, hash).1;
        if read.Enqueued? then read.terminated else []
      case EnqueueVerdict(id, supersedes, hash, candidate, stale) =>
        EnqueueAfterCheck(s.lock, candidate, stale, supersedes, id, hash).1.terminated
      case _ => []
  }

  predicate Enqueues(step: Step, id: Id) {
    step.Gate? && (step.call.EnqueueRequest? || step.call.EnqueueVerdict?) && step.call.id == id
  }

  /** The step registers nobody under an empty id and no holder under its own id. */
  predicate Orderly(s: System, step: Step) {
    if !step.Gate? then true
    else
      match step.call
      case EnqueueRequest(id, supersedes, hash) =>
        ReadEnqueue(s.lock, supersedes, id, hash).1.CoalesceCandidate? || (id != "" && s.lock.running != Some(id))
      case EnqueueVerdict(id, supersedes, hash, candidate, stale) =>
        (!stale && MayCoalesce(s.lock, candidate, supersedes, hash)) || (id != "" && s.lock.running != Some(id))
      case AcquireVerdict(id, holder, stale) =>
        AcquireAfterCheck(s.lock, id, holder, stale).1 || id != ""
      case _ => true
  }

  // ---- Well-formed records -------------------------------------------------------------------------

  lemma StepKeepsWellFormedIff(blamed: set<Phase>, s: System, step: Step)
    requires WellFormed(s.lock) && Enabled(blamed, s, step)
    ensures WellFormed(LockAfter(s, step)) <==> Orderly(s, step)
  {
    if step.Gate? {
      match step.call
      case AcquireRequest(id) =>
        GrantKeepsWellFormed(s.lock, id);
      case AcquireVerdict(id, holder, stale) =>
        GrantKeepsWellFormed(s.lock, id);
        ParkKeepsWellFormedIff(s.lock, id);
      case ReleaseRequest(id) =>
        ReleaseKeepsWellFormed(s.lock, id);
      case EnqueueRequest(id, supersedes, hash) =>
        CommitEnqueueKeepsWellFormedIff(s.lock, supersedes, id, hash);
      case EnqueueVerdict(id, supersedes, hash, candidate, stale) =>
        CommitEnqueueKeepsWellFormedIff(s.lock, supersedes, id, hash);
    }
  }

  function OrderlyRules(blamed: set<Phase>): (System, Step) -> bool {
    (s: System, step: Step) => Enabled(blamed, s, step) && Orderly(s, step)
  }

  ghost predicate HasWellFormedLock(s: System) { WellFormed(s.lock) }

  /** The key has no row yet, or one in order, which may be of before hashes existed. */
  ghost predicate InOrder(row: Option<Row>) {
    match row
    case None => true
    case Some(r) =>
      && NoDuplicates(r.pending) && "" !in r.pending
      && (r.running.Some? ==> r.running.value !in r.pending)
      && (r.hashes.Some? ==> forall id :: id in r.hashes.value ==> id in r.pending)
  }

  /** Every record reached from an absent row, a legacy row or any other row in order is well formed as long as no
      empty id and no holder's own id is registered. */
  lemma ReachableRecordsAreWellFormed(blamed: set<Phase>, row: Option<Row>, steps: seq<Step>)
    requires InOrder(row)
    requires Runs.Valid(OrderlyRules(blamed), Apply, Init(Load(row)), steps)
    ensures WellFormed(Runs.After(Apply, Init(Load(row)), steps).lock)
  {
    forall s, step | HasWellFormedLock(s) && OrderlyRules(blamed)(s, step) ensures HasWellFormedLock(Apply(s, step)) {
      StepKeepsWellFormedIff(blamed, s, step);
    }
    Runs.Keeps(OrderlyRules(blamed), Apply, HasWellFormedLock, Init(Load(row)), steps);
  }

  lemma StepKeepsNoDuplicates(blamed: set<Phase>, s: System, step: Step)
    requires NoDuplicates(s.lock.pending) && Enabled(blamed, s, step)
    ensures NoDuplicates(LockAfter(s, step).pending)
  {
    if step.Gate? {
      match step.call
      case AcquireRequest(id) =>
        GrantKeepsNoDuplicates(s.lock, id);
      case AcquireVerdict(id, holder, stale) =>
        GrantKeepsNoDuplicates(s.lock, id);
        ParkKeepsNoDuplicates(s.lock, id);
      case ReleaseRequest(id) =>
        ReleaseKeepsNoDuplicates(s.lock, id);
      case EnqueueRequest(id, supersedes, hash) =>
        CommitEnqueueKeepsNoDuplicates(s.lock, supersedes, id, hash);
      case EnqueueVerdict(id, supersedes, hash, candidate, stale) =>
        CommitEnqueueKeepsNoDuplicates(s.lock, supersedes, id, hash);
    }
  }

  // ---- Nobody leaves unnoticed ---------------------------------------------------------------------

  /** A step takes an id out of the line only by giving it the key or by reporting it terminated. */
  lemma StepLosesNobody(blamed: set<Phase>, s: System, step: Step, x: Id)
    requires Enabled(blamed, s, step)
    requires x in s.lock.pending && x !in LockAfter(s, step).pending
    ensures LockAfter(s, step).running == Some(x) || x in Terminated(s, step)
  {
    match step.call
    case AcquireRequest(id) =>
      GrantKeepsLine(s.lock, id);
    case AcquireVerdict(id, holder, stale) =>
      GrantKeepsLine(s.lock, id);
      ParkKeepsLine(s.lock, id);
    case ReleaseRequest(id) =>
      ReleaseKeepsLine(s.lock, id);
    case EnqueueRequest(id, supersedes, hash) =>
      CommitEnqueueRegisters(s.lock, supersedes, id, hash);
    case EnqueueVerdict(id, supersedes, hash, candidate, stale) =>
      CommitEnqueueRegisters(s.lock, supersedes, id, hash);
  }

  /** Nobody is terminated but who waits behind the enqueued id that supersedes it; never the holder. */
  lemma TerminatedWasWaiting(blamed: set<Phase>, s: System, step: Step, x: Id)
    requires Enabled(blamed, s, step)
    ensures x in Terminated(s, step)
       <==> && step.Gate? && (step.call.EnqueueRequest? || step.call.EnqueueVerdict?) && step.call.supersedes
            && x in s.lock.pending && x != step.call.id && x !in LockAfter(s, step).pending
    ensures x in Terminated(s, step) && WellFormed(s.lock) ==> s.lock.running != Some(x)
    ensures x in Terminated(s, step) ==> LockAfter(s, step).running == s.lock.running
  {
    if step.Gate? {
      match step.call
      case EnqueueRequest(id, supersedes, hash) =>
        ReadEnqueueIsCorrect(s.lock, supersedes, id, hash);
      case EnqueueVerdict(id, supersedes, hash, candidate, stale) =>
        TwoPhaseEnqueueIsCorrect(s.lock, candidate, stale, supersedes, id, hash);
      case _ =>
    }
  }

  /** Over any orderly run from a row in order, each termination is of somebody who waits at that moment, and leaves
      the holder its key. */
  lemma RunsTerminateOnlyWaiters(blamed: set<Phase>, row: Option<Row>, steps: seq<Step>, k: nat, x: Id)
    requires InOrder(row) && Runs.Valid(OrderlyRules(blamed), Apply, Init(Load(row)), steps) && k < |steps|
    requires x in Terminated(Runs.After(Apply, Init(Load(row)), steps[..k]), steps[k])
    ensures var u := Runs.After(Apply, Init(Load(row)), steps[..k]);
            && x in u.lock.pending && u.lock.running != Some(x)
            && LockAfter(u, steps[k]).running == u.lock.running
  {
    Runs.Prefix(OrderlyRules(blamed), Apply, Init(Load(row)), steps, k);
    ReachableRecordsAreWellFormed(blamed, row, steps[..k]);
    TerminatedWasWaiting(blamed, Runs.After(Apply, Init(Load(row)), steps[..k]), steps[k], x);
  }

  /** Step `k` of the run took `x` out of the line, by giving it the key or by reporting it terminated. */
  ghost predicate LeavesAt(s: System, steps: seq<Step>, x: Id, k: nat)
    requires k < |steps|
  {
    var u := Runs.After(Apply, s, steps[..k]);
    && x in u.lock.pending
    && x !in LockAfter(u, steps[k]).pending
    && (LockAfter(u, steps[k]).running == Some(x) || x in Terminated(u, steps[k]))
  }

  /** Over any run, whoever waited and no longer waits was given the key or was reported terminated. */
  lemma {:induction false} NoWaiterIsLost(blamed: set<Phase>, s: System, steps: seq<Step>, x: Id)
    requires Runs.Valid(Rules(blamed), Apply, s, steps)
    requires x in s.lock.pending && x !in Runs.After(Apply, s, steps).lock.pending
    ensures exists k :: 0 <= k < |steps| && LeavesAt(s, steps, x, k)
    decreases |steps|
  {
    var t := Apply(s, steps[0]);
    if x !in t.lock.pending {
      StepLosesNobody(blamed, s, steps[0], x);
      assert steps[..0] == [];
      assert LeavesAt(s, steps, x, 0);
    } else {
      NoWaiterIsLost(blamed, t, steps[1..], x);
      var k :| 0 <= k < |steps[1..]| && LeavesAt(t, steps[1..], x, k);
      assert steps[..k + 1][1..] == steps[1..][..k];
      assert LeavesAt(s, steps, x, k + 1);
    }
  }

  // ---- Hashes of those who wait --------------------------------------------------------------------

  lemma StepKeepsHash(blamed: set<Phase>, s: System, step: Step, x: Id)
    requires Enabled(blamed, s, step) && NoDuplicates(s.lock.pending)
    requires x in s.lock.pending && x in LockAfter(s, step).pending && !Enqueues(step, x)
    ensures SameHash(s.lock, LockAfter(s, step), x)
  {
    if step.Gate? {
      match step.call
      case AcquireRequest(id) =>
        if x != id { OthersKeepTheirHashes(s.lock, false, id, None, x); }
      case AcquireVerdict(id, holder, stale) =>
        if x != id { OthersKeepTheirHashes(s.lock, false, id, None, x); }
      case ReleaseRequest(id) =>
        ReleaseKeepsHashes(s.lock, id, x);
      case EnqueueRequest(id, supersedes, hash) =>
        OthersKeepTheirHashes(s.lock, supersedes, id, hash, x);
      case EnqueueVerdict(id, supersedes, hash, candidate, stale) =>
        OthersKeepTheirHashes(s.lock, supersedes, id, hash, x);
    }
  }

  /** As long as it waits without being enqueued again, an id stays under the hash it was registered under, so later
      equal inputs find it. */
  lemma {:induction false} WaitersKeepTheirHash(blamed: set<Phase>, s: System, steps: seq<Step>, x: Id)
    requires Runs.Valid(Rules(blamed), Apply, s, steps)
    requires NoDuplicates(s.lock.pending) && Waits(s, steps, x, x)
    ensures SameHash(s.lock, Runs.After(Apply, s, steps).lock, x)
    decreases |steps|
  {
    if steps != [] {
      var t := Apply(s, steps[0]);
      StepKeepsNoDuplicates(blamed, s, steps[0]);
      assert x in t.lock.pending;
      StepKeepsHash(blamed, s, steps[0], x);
      WaitersKeepTheirHash(blamed, t, steps[1..], x);
    }
  }

  // ---- First come, first handed --------------------------------------------------------------------

  /** If `y` waits, it waits behind `x`. */
  ghost predicate Behind(s: KeyState, x: Id, y: Id) {
    y in s.pending ==> Before(s.pending, x, y)
  }

  lemma GrantKeepsBehind(s: KeyState, id: Id, x: Id, y: Id)
    requires Behind(s, x, y) && x in Grant(s, id).pending
    ensures Behind(Grant(s, id), x, y)
  {
    GrantKeepsLine(s, id);
  }

  lemma ParkKeepsBehind(s: KeyState, id: Id, x: Id, y: Id)
    requires Behind(s, x, y) && x in s.pending
    ensures Behind(Park(s, id), x, y)
  {
    ParkKeepsLine(s, id);
    if y !in s.pending && y in Park(s, id).pending {
      var i :| 0 <= i < |s.pending| && s.pending[i] == x;
      var t := Park(s, id).pending;
      assert t[i] == x && t[|s.pending|] == y;
    }
  }

  lemma CommitEnqueueKeepsBehind(s: KeyState, supersedes: bool, id: Id, hash: Option<string>, x: Id, y: Id)
    requires Behind(s, x, y) && x != id && y != id && x in CommitEnqueue(s, supersedes, id, hash).pending
    ensures Behind(CommitEnqueue(s, supersedes, id, hash), x, y)
  {
    CommitEnqueueKeepsLine(s, supersedes, id, hash);
    CommitEnqueueRegisters(s, supersedes, id, hash);
    assert y in CommitEnqueue(s, supersedes, id, hash).pending ==> y in s.pending;
  }

  lemma StepKeepsBehind(blamed: set<Phase>, s: System, step: Step, x: Id, y: Id)
    requires Enabled(blamed, s, step) && NoDuplicates(s.lock.pending)
    requires x in s.lock.pending && x in LockAfter(s, step).pending && Behind(s.lock, x, y)
    requires !Enqueues(step, x) && !Enqueues(step, y)
    ensures Behind(LockAfter(s, step), x, y)
  {
    if step.Gate? {
      match step.call
      case AcquireRequest(id) =>
        if s.lock.running.None? {
          GrantKeepsBehind(s.lock, id, x, y);
        }
      case AcquireVerdict(id, holder, stale) =>
        if AcquireAfterCheck(s.lock, id, holder, stale).0 == Park(s.lock, id) {
          ParkKeepsBehind(s.lock, id, x, y);
        } else if s.lock.running != Some(id) {
          GrantKeepsBehind(s.lock, id, x, y);
        }
      case ReleaseRequest(id) =>
        ReleaseKeepsLine(s.lock, id);
      case EnqueueRequest(id, supersedes, hash) =>
        if ReadEnqueue(s.lock, supersedes, id, hash).1.Enqueued? {
          CommitEnqueueKeepsBehind(s.lock, supersedes, id, hash, x, y);
        }
      case EnqueueVerdict(id, supersedes, hash, candidate, stale) =>
        if EnqueueAfterCheck(s.lock, candidate, stale, supersedes, id, hash).1.coalescedInto.None? {
          CommitEnqueueKeepsBehind(s.lock, supersedes, id, hash, x, y);
        }
    }
  }

  /** `x` waits in every state of the run, and neither `x` nor `y` is enqueued in it. */
  ghost predicate Waits(s: System, steps: seq<Step>, x: Id, y: Id)
    decreases |steps|
  {
    && x in s.lock.pending
    && (steps != [] ==>
          !Enqueues(steps[0], x) && !Enqueues(steps[0], y) && Waits(Apply(s, steps[0]), steps[1..], x, y))
  }

  lemma {:induction false} RunKeepsBehind(blamed: set<Phase>, s: System, steps: seq<Step>, x: Id, y: Id)
    requires Runs.Valid(Rules(blamed), Apply, s, steps)
    requires NoDuplicates(s.lock.pending) && Behind(s.lock, x, y) && Waits(s, steps, x, y)
    ensures var t := Runs.After(Apply, s, steps);
            NoDuplicates(t.lock.pending) && x in t.lock.pending && Behind(t.lock, x, y)
    decreases |steps|
  {
    if steps != [] {
      var t := Apply(s, steps[0]);
      StepKeepsNoDuplicates(blamed, s, steps[0]);
      assert x in t.lock.pending;
      StepKeepsBehind(blamed, s, steps[0], x, y);
      RunKeepsBehind(blamed, t, steps[1..], x, y);
    }
  }

  /** Hand-overs follow arrival: while `x` waits ahead of `y`, no release gives the key to `y`, whatever ran since
      and even if `y` left the line and came back. */
  lemma HandOversFollowArrival(blamed: set<Phase>, s: System, steps: seq<Step>, x: Id, y: Id, holder: Id)
    requires Runs.Valid(Rules(blamed), Apply, s, steps)
    requires NoDuplicates(s.lock.pending) && Before(s.lock.pending, x, y) && Waits(s, steps, x, y)
    ensures Release(Runs.After(Apply, s, steps).lock, holder).1 != Some(y)
  {
    RunKeepsBehind(blamed, s, steps, x, y);
    var line := Runs.After(Apply, s, steps).lock.pending;
    if y in line {
      HeadHasNobodyBefore(line, x, y);
    }
  }

  lemma HeadHasNobodyBefore(line: seq<Id>, x: Id, y: Id)
    requires NoDuplicates(line) && Before(line, x, y)
    ensures line[0] != y
  {
    var i, j :| 0 <= i < j < |line| && line[i] == x && line[j] == y;
    assert line[0] != line[j];
  }

  // ---- Who overtakes ---------------------------------------------------------------------------------

  /** The step gives the key to `y` past somebody who waits at the head of the line. */
  ghost predicate Overtakes(s: System, step: Step, y: Id) {
    && s.lock.running != Some(y) && LockAfter(s, step).running == Some(y)
    && s.lock.pending != [] && s.lock.pending[0] != y
  }

  /** The step handles a request of `y` on a free key, or a stale verdict of `y` about the holder itself; a verdict of
      either kind on a key that became free counts as a request. */
  ghost predicate AsksWhenAvailable(lock: KeyState, step: Step, y: Id) {
    step.Gate? &&
    match step.call
    case AcquireRequest(id) => id == y && lock.running.None?
    case AcquireVerdict(id, holder, stale) =>
      id == y && (lock.running.None? || (stale && lock.running == Some(holder)))
    case _ => false
  }

  /** Grants follow arrival except that whoever asks for an available key takes it: an instance overtakes the line
      exactly when it does not hold the key, somebody else is at the head, and it is its own acquire that finds the
      key free or held by the dead holder it checked. */
  lemma OvertakesIff(blamed: set<Phase>, s: System, step: Step, y: Id)
    requires Enabled(blamed, s, step)
    ensures Overtakes(s, step, y)
       <==> && s.lock.running != Some(y) && s.lock.pending != [] && s.lock.pending[0] != y
            && AsksWhenAvailable(s.lock, step, y)
  {
    if step.Gate? {
      match step.call
      case EnqueueRequest(id, supersedes, hash) =>
        CandidateIsPendingUnderHash(s.lock, supersedes, id, hash);
      case EnqueueVerdict(id, supersedes, hash, candidate, stale) =>
        TwoPhaseEnqueueIsCorrect(s.lock, candidate, stale, supersedes, id, hash);
      case _ =>
    }
  }

  /** So a free key is not first come, first served: in a run from the empty record `x` is enqueued, then `y`, and
      `y` asks first and has the key. */
  lemma FreeKeyIsNotFifo(blamed: set<Phase>, x: Id, y: Id)
    requires x != y
    ensures exists s, step ::
              && Reaches(blamed, EMPTY, s) && s.lock.pending == [x, y]
              && Enabled(blamed, s, step) && Overtakes(s, step, y)
  {
    var s0 := Init(EMPTY);
    Runs.Start(Rules(blamed), Apply, s0);
    Registers(blamed, s0, x);
    var s1 := Registered(s0, x);
    assert s1.lock.pending == [x];
    Registers(blamed, s1, y);
    var s2 := Registered(s1, y);
    assert s2.lock.pending == [x, y];
    Creates(blamed, s2, y);
    var s3 := At(s2, y, Acquiring);
    Requests(blamed, s3, y);
    var s4 := With(s3, AcquireRequest(y));
    OvertakesIff(blamed, s4, Gate(AcquireRequest(y)), y);
    assert Enabled(blamed, s4, Gate(AcquireRequest(y))) && Overtakes(s4, Gate(AcquireRequest(y)), y);
  }

  // ---- Recovery --------------------------------------------------------------------------------------

  /** `id` acquires by itself from here: a run leads to its grant. */
  ghost predicate CanTake(blamed: set<Phase>, s: System, id: Id) {
    exists steps ::
      && Runs.Valid(Rules(blamed), Apply, s, steps)
      && PhaseOf(Runs.After(Apply, s, steps), id) == Holding
      && Runs.After(Apply, s, steps).lock.running == Some(id)
  }

  lemma TakesLater(blamed: set<Phase>, s: System, step: Step, id: Id)
    requires Enabled(blamed, s, step) && CanTake(blamed, Apply(s, step), id)
    ensures CanTake(blamed, s, id)
  {
    var t := Apply(s, step);
    var steps :| Runs.Valid(Rules(blamed), Apply, t, steps) && PhaseOf(Runs.After(Apply, t, steps), id) == Holding
                 && Runs.After(Apply, t, steps).lock.running == Some(id);
    var all := [step] + steps;
    assert all[0] == step && all[1..] == steps;
    assert Runs.Valid(Rules(blamed), Apply, s, all);
    assert Runs.After(Apply, s, all) == Runs.After(Apply, t, steps);
  }

  /** A granted answer is there to be taken. */
  lemma GrantedTakes(blamed: set<Phase>, s: System, id: Id)
    requires PhaseOf(s, id) == Acquiring && AcquireAnswer(id, true) in s.calls && s.lock.running == Some(id)
    ensures CanTake(blamed, s, id)
  {
    var steps: seq<Step> := [TakeGrant(id)];
    var t := Apply(s, TakeGrant(id));
    assert steps[1..] == [];
    assert Runs.After(Apply, s, steps) == Runs.After(Apply, t, []) == t;
    assert Runs.Valid(Rules(blamed), Apply, s, steps);
    assert PhaseOf(t, id) == Holding && t.lock.running == Some(id);
  }

  /** The verdict that the holder is stale is acted on. */
  lemma StaleVerdictTakes(blamed: set<Phase>, s: System, id: Id, holder: Id)
    requires PhaseOf(s, id) == Acquiring && AcquireVerdict(id, holder, true) in s.calls && s.lock.running == Some(holder)
    ensures CanTake(blamed, s, id)
  {
    var step := Gate(AcquireVerdict(id, holder, true));
    GrantedTakes(blamed, Apply(s, step), id);
    TakesLater(blamed, s, step, id);
  }

  /** A waiting instance asks about the holder, and the holder is found stale. */
  lemma BlamedHolderIsReplaced(blamed: set<Phase>, s: System, id: Id, holder: Id)
    requires PhaseOf(s, id) == Acquiring && s.lock.running == Some(holder) && holder != id
    requires PhaseOf(s, holder) in blamed
    ensures CanTake(blamed, s, id)
  {
    var s1 := Apply(s, SendAcquire(id));
    var s2 := Apply(s1, Gate(AcquireRequest(id)));
    assert AcquireCheck(id, holder) in s2.calls && s2.lock == s.lock && s2.phases == s.phases;
    var check := Check(AcquireCheck(id, holder), true);
    var s3 := Apply(s2, check);
    assert AcquireVerdict(id, holder, true) in s3.calls && s3.lock == s.lock && s3.phases == s.phases;
    StaleVerdictTakes(blamed, s3, id, holder);
    TakesLater(blamed, s2, check, id);
    TakesLater(blamed, s1, Gate(AcquireRequest(id)), id);
    TakesLater(blamed, s, SendAcquire(id), id);
  }

  /** The key never stays with the dead: whenever its holder's handler is over, whatever was lost on the way, an
      instance that wants the key can take it by its own acquire, provided ended instances are found stale. */
  lemma DeadHolderIsReplaced(blamed: set<Phase>, s: System, id: Id, holder: Id)
    requires Ended in blamed && PhaseOf(s, id) == Acquiring && s.lock.running == Some(holder) && IsOver(s, holder)
    ensures CanTake(blamed, s, id)
  {
    if PhaseOf(s, holder) == Finishing {
      var t := Apply(s, Retire(holder));
      assert PhaseOf(t, holder) == Ended && PhaseOf(t, id) == Acquiring && t.lock == s.lock;
      BlamedHolderIsReplaced(blamed, t, id, holder);
      TakesLater(blamed, s, Retire(holder), id);
    } else {
      BlamedHolderIsReplaced(blamed, s, id, holder);
    }
  }

  /** A release wakes the next in line, which then holds the key, and nobody else. */
  lemma ReleaseWakesTheNext(blamed: set<Phase>, s: System, holder: Id)
    requires ReleaseRequest(holder) in s.calls && s.lock.running == Some(holder)
    requires s.lock.pending != [] && s.lock.pending[0] != ""
    ensures var t := Apply(s, Gate(ReleaseRequest(holder)));
            && t.lock.running == Some(s.lock.pending[0])
            && t.calls == s.calls + {WakeCall(s.lock.pending[0])}
  {
  }

  /** A successor that cannot be woken is passed over: the key goes on to whoever waits behind it, who is woken in
      turn. */
  lemma DeadSuccessorIsPassedOver(blamed: set<Phase>, s: System, dead: Id)
    requires WakeCall(dead) in s.calls && PhaseOf(s, dead) in blamed && s.lock.running == Some(dead)
    requires s.lock.pending != [] && s.lock.pending[0] != ""
    ensures var wake := Wake(dead, false);
            var release := Gate(ReleaseRequest(dead));
            var t := Apply(Apply(s, wake), release);
            && Enabled(blamed, s, wake) && Enabled(blamed, Apply(s, wake), release)
            && t.lock.running == Some(s.lock.pending[0]) && t.lock.pending == s.lock.pending[1..]
            && WakeCall(s.lock.pending[0]) in t.calls
  {
  }

  /** What was handed over is taken, without anybody being found dead: the head of the line has the key as soon as the
      holder releases it and it asks again. */
  lemma HandedOverKeyIsTaken(blamed: set<Phase>, s: System, holder: Id, id: Id)
    requires PhaseOf(s, holder) == Finishing && PhaseOf(s, id) == Acquiring
    requires s.lock.running == Some(holder) && s.lock.pending != [] && s.lock.pending[0] == id
    ensures CanTake(blamed, s, id)
  {
    var s1 := Apply(s, SendRelease(holder));
    var s2 := Apply(s1, Gate(ReleaseRequest(holder)));
    assert s2.lock.running == Some(id) && s2.phases == s.phases;
    var s3 := Apply(s2, SendAcquire(id));
    var s4 := Apply(s3, Gate(AcquireRequest(id)));
    assert AcquireAnswer(id, true) in s4.calls && s4.lock == s2.lock && s4.phases == s.phases;
    GrantedTakes(blamed, s4, id);
    TakesLater(blamed, s3, Gate(AcquireRequest(id)), id);
    TakesLater(blamed, s2, SendAcquire(id), id);
    TakesLater(blamed, s1, Gate(ReleaseRequest(holder)), id);
    TakesLater(blamed, s, SendRelease(holder), id);
  }

  /** A free key is there for whoever asks. */
  lemma FreeKeyIsTaken(blamed: set<Phase>, s: System, id: Id)
    requires PhaseOf(s, id) == Acquiring && s.lock.running == None
    ensures CanTake(blamed, s, id)
  {
    var s1 := Apply(s, SendAcquire(id));
    var s2 := Apply(s1, Gate(AcquireRequest(id)));
    assert AcquireAnswer(id, true) in s2.calls && s2.lock.running == Some(id) && s2.phases == s.phases;
    GrantedTakes(blamed, s2, id);
    TakesLater(blamed, s1, Gate(AcquireRequest(id)), id);
    TakesLater(blamed, s, SendAcquire(id), id);
  }
}
