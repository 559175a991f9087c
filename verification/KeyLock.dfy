/**
 * The per-key record behind the job coordinator, as a value, and what each storage-only phase of
 * `JobCoordinatorLogic` computes from it.
 */
module KeyLock {
  import opened Wrappers
  import opened Sequences

  type Id = string

  datatype KeyState = KeyState(pending: seq<Id>, running: Option<Id>, hashes: map<Id, string>)

  /** A stored row. Rows written before hashes existed have none. */
  datatype Row = Row(pending: seq<Id>, running: Option<Id>, hashes: Option<map<Id, string>>)

  datatype AcquireRead = Granted | NeedsStaleCheck(holder: Id)

  datatype EnqueueRead = Enqueued(terminated: seq<Id>) | CoalesceCandidate(id: Id)

  datatype EnqueueAnswer = EnqueueAnswer(terminated: seq<Id>, coalescedInto: Option<Id>)

  function Load(row: Option<Row>): KeyState {
    match row
    case None => KeyState([], None, map[])
    case Some(r) => KeyState(r.pending, r.running, if r.hashes.Some? then r.hashes.value else map[])
  }

  function Stored(s: KeyState): Row {
    Row(s.pending, s.running, Some(s.hashes))
  }

  /** The first pending id registered under `hash`. */
  function FirstWithHash(pending: seq<Id>, hashes: map<Id, string>, hash: string): (r: Option<Id>)
    ensures r.None? <==> forall p :: p in pending && p in hashes ==> hashes[p] != hash
    ensures r.Some? ==> r.value in pending && r.value in hashes && hashes[r.value] == hash
  {
    if pending == [] then None
    else if pending[0] in hashes && hashes[pending[0]] == hash then Some(pending[0])
    else FirstWithHash(pending[1..], hashes, hash)
  }

  /** The ids a commit reports for termination. */
  function Dropped(s: KeyState, supersedes: bool, id: Id): seq<Id> {
    if supersedes then Without(s.pending, id) else []
  }

  function CommitEnqueue(s: KeyState, supersedes: bool, id: Id, hash: Option<string>): KeyState {
    var kept := if supersedes then [] else Without(s.pending, id);
    var pruned := map k | k in s.hashes && k !in Dropped(s, supersedes, id) :: s.hashes[k];
    s.(pending := kept + [id],
       hashes := if hash.Some? then pruned[id := hash.value] else pruned)
  }

  function ReadEnqueue(s: KeyState, supersedes: bool, id: Id, hash: Option<string>): (KeyState, EnqueueRead) {
    var found := if supersedes && hash.Some? then FirstWithHash(s.pending, s.hashes, hash.value) else None;
    if found.Some? then (s, CoalesceCandidate(found.value))
    else (CommitEnqueue(s, supersedes, id, hash), Enqueued(Dropped(s, supersedes, id)))
  }

  /** Coalescing is only allowed into an id that is pending under this very hash at commit time. */
  predicate MayCoalesce(s: KeyState, candidate: Id, supersedes: bool, hash: Option<string>) {
    supersedes && hash.Some? && candidate in s.pending && candidate in s.hashes && s.hashes[candidate] == hash.value
  }

  function EnqueueAfterCheck(s: KeyState, candidate: Id, stale: bool, supersedes: bool, id: Id, hash: Option<string>)
    : (KeyState, EnqueueAnswer)
  {
    if !stale && MayCoalesce(s, candidate, supersedes, hash) then (s, EnqueueAnswer([], Some(candidate)))
    else (CommitEnqueue(s, supersedes, id, hash), EnqueueAnswer(Dropped(s, supersedes, id), None))
  }

  function Grant(s: KeyState, id: Id): KeyState {
    KeyState(Without(s.pending, id), Some(id), s.hashes - {id})
  }

  function Park(s: KeyState, id: Id): KeyState {
    if id in s.pending then s else s.(pending := s.pending + [id])
  }

  function ReadAcquire(s: KeyState, id: Id): (KeyState, AcquireRead) {
    match s.running
    case None => (Grant(s, id), Granted)
    case Some(holder) => (s, if holder == id then Granted else NeedsStaleCheck(holder))
  }

  /** The commit phase of acquire; true means granted. A stale verdict counts only against the id it was about. */
  function AcquireAfterCheck(s: KeyState, id: Id, checked: Id, stale: bool): (KeyState, bool) {
    if s.running == Some(id) then (s, true)
    else if s.running.None? || (stale && s.running == Some(checked)) then (Grant(s, id), true)
    else (Park(s, id), false)
  }

  /** An empty id is handed the key like any other but its hash is left behind, as the source tests it for truth. */
  function Release(s: KeyState, id: Id): (KeyState, Option<Id>) {
    if s.running != Some(id) then (s, None)
    else if s.pending == [] then (s.(running := None), None)
    else
      var next := s.pending[0];
      (KeyState(s.pending[1..], Some(next), if next != "" then s.hashes - {next} else s.hashes), Some(next))
  }

  /** What every reachable record satisfies. */
  ghost predicate WellFormed(s: KeyState) {
    && NoDuplicates(s.pending)
    && "" !in s.pending
    && (s.running.Some? ==> s.running.value !in s.pending)
    && (forall k :: k in s.hashes ==> k in s.pending)
  }

  // ---- The two-phase enqueue -------------------------------------------------------------------

  /** A committing enqueue registers its own id last; superseding leaves only it and reports exactly the others. */
  lemma CommitEnqueueRegisters(s: KeyState, supersedes: bool, id: Id, hash: Option<string>)
    ensures var t := CommitEnqueue(s, supersedes, id, hash);
            && t.running == s.running
            && t.pending != [] && t.pending[|t.pending| - 1] == id
            && (supersedes ==> t.pending == [id])
            && (hash.Some? ==> id in t.hashes && t.hashes[id] == hash.value)
            && (forall x :: x in Dropped(s, supersedes, id) <==> supersedes && x in s.pending && x != id)
            && (forall x :: x in s.pending ==> x in t.pending || x in Dropped(s, supersedes, id))
            && (NoDuplicates(s.pending) ==> NoDuplicates(t.pending) && NoDuplicates(Dropped(s, supersedes, id)))
  {
    if NoDuplicates(s.pending) {
      WithoutKeepsNoDuplicates(s.pending, id);
    }
  }

  /** Whatever ran between the phases, the second phase coalesces only into an id still pending under the same
      hash, and then changes nothing; otherwise it commits. Neither phase touches the holder. */
  lemma TwoPhaseEnqueueIsCorrect(s: KeyState, candidate: Id, stale: bool, supersedes: bool, id: Id, hash: Option<string>)
    ensures var (t, answer) := EnqueueAfterCheck(s, candidate, stale, supersedes, id, hash);
            && t.running == s.running
            && (answer.coalescedInto.Some? <==>
                  !stale && supersedes && hash.Some? && candidate in s.pending
                  && candidate in s.hashes && s.hashes[candidate] == hash.value)
            && (answer.coalescedInto.Some? ==> answer == EnqueueAnswer([], Some(candidate)) && t == s)
            && (answer.coalescedInto.None? ==>
                  && t.pending != [] && t.pending[|t.pending| - 1] == id
                  && (supersedes ==> t.pending == [id])
                  && (forall x :: x in answer.terminated <==> supersedes && x in s.pending && x != id))
  {
    CommitEnqueueRegisters(s, supersedes, id, hash);
  }

  /** The first phase offers a candidate exactly when a superseding enqueue finds its hash among the pending. */
  lemma CandidateIsPendingUnderHash(s: KeyState, supersedes: bool, id: Id, hash: Option<string>)
    ensures var (t, read) := ReadEnqueue(s, supersedes, id, hash);
            && (read.CoalesceCandidate? <==>
                  supersedes && hash.Some? && exists p :: p in s.pending && p in s.hashes && s.hashes[p] == hash.value)
            && (read.CoalesceCandidate? ==> t == s && MayCoalesce(s, read.id, supersedes, hash))
            && t.running == s.running
  {
  }

  /** A first phase that commits reports exactly the others who waited, once each and only under supersede; the holder
      is neither reported nor touched. The enqueued id comes last, behind the others unless it supersedes them. */
  lemma ReadEnqueueIsCorrect(s: KeyState, supersedes: bool, id: Id, hash: Option<string>)
    ensures var (t, read) := ReadEnqueue(s, supersedes, id, hash);
            read.Enqueued? ==>
              && t.running == s.running
              && (forall x :: x in read.terminated <==> supersedes && x in s.pending && x != id)
              && (NoDuplicates(s.pending) ==> NoDuplicates(read.terminated))
              && (WellFormed(s) && s.running.Some? ==> s.running.value !in read.terminated)
              && t.pending != [] && t.pending[|t.pending| - 1] == id
              && (supersedes ==> t.pending == [id])
              && (forall x :: x != id && !supersedes ==> (x in t.pending <==> x in s.pending))
              && (hash.Some? ==> id in t.hashes && t.hashes[id] == hash.value)
              && (hash.None? ==> SameHash(s, t, id))
  {
    CommitEnqueueRegisters(s, supersedes, id, hash);
  }

  // ---- The two-phase acquire -------------------------------------------------------------------

  /** Whatever ran between the phases: "granted" means holding the key and waiting no more, "pending" means waiting
      in line behind the same holder as before; and a holder is only ever replaced when it is the very one that was
      found stale. */
  lemma TwoPhaseAcquireIsCorrect(s: KeyState, id: Id, checked: Id, stale: bool)
    requires s.running != Some(id) || WellFormed(s)
    ensures var (t, granted) := AcquireAfterCheck(s, id, checked, stale);
            && (granted <==> t.running == Some(id))
            && (granted ==> id !in t.pending && id !in t.hashes)
            && (!granted ==> id in t.pending && t.running == s.running && s.running.Some?)
            && (t.running != s.running ==> s.running.None? || (stale && s.running == Some(checked)))
            && (forall x :: x != id ==> (x in t.pending <==> x in s.pending))
  {
  }

  /** The first phase grants exactly a free key or the asker's own; about any other holder it asks, and changes
      nothing. */
  lemma ReadAcquireIsCorrect(s: KeyState, id: Id)
    ensures var (t, read) := ReadAcquire(s, id);
            && (read.Granted? <==> s.running.None? || s.running == Some(id))
            && (read.Granted? ==> t.running == Some(id))
            && (s.running.None? ==> id !in t.pending && id !in t.hashes)
            && (s.running.Some? ==> t == s)
            && (read.NeedsStaleCheck? ==> s.running == Some(read.holder))
            && (forall x :: x != id ==> (x in t.pending <==> x in s.pending))
  {
  }

  /** Only the holder's release does anything: the key goes to whoever waits first, who is told so and waits no more,
      or becomes free when nobody waits. */
  lemma ReleaseIsCorrect(s: KeyState, id: Id)
    ensures var (t, next) := Release(s, id);
            && (s.running != Some(id) ==> t == s && next.None?)
            && (s.running == Some(id) ==> t.running == next && (next.None? <==> s.pending == []))
            && (next.Some? ==> [next.value] + t.pending == s.pending)
            && (next.None? ==> t.pending == s.pending)
            && (s.running == Some(id) && WellFormed(s) ==> t.running != Some(id))
  {
  }

  // ---- What a row says, and who keeps a hash -----------------------------------------------------

  /** A row of before hashes existed keeps its holder and its line and has no hashes; any other row loads as stored,
      and a missing one as a free key nobody waits for. */
  lemma LoadKeepsTheRow(row: Option<Row>)
    ensures var s := Load(row);
            && (row.None? ==> s.pending == [] && s.running.None? && s.hashes == map[])
            && (row.Some? ==> s.pending == row.value.pending && s.running == row.value.running)
            && (row.Some? ==> row.value.hashes == Some(s.hashes) || (row.value.hashes.None? && s.hashes == map[]))
            && (forall t: KeyState :: row == Some(Stored(t)) ==> s == t)
  {
  }

  /** The id has the same hash in both records, or none in either. */
  predicate SameHash(s: KeyState, t: KeyState, x: Id) {
    (x in s.hashes <==> x in t.hashes) && (x in s.hashes ==> s.hashes[x] == t.hashes[x])
  }

  /** Whatever is done about one id, whoever else goes on waiting keeps the hash it was registered under. */
  lemma OthersKeepTheirHashes(s: KeyState, supersedes: bool, id: Id, hash: Option<string>, x: Id)
    requires x != id && x in s.pending
    ensures SameHash(s, Grant(s, id), x) && SameHash(s, Park(s, id), x)
    ensures supersedes || SameHash(s, CommitEnqueue(s, supersedes, id, hash), x)
    ensures supersedes ==> x !in CommitEnqueue(s, supersedes, id, hash).hashes
  {
  }

  lemma ReleaseKeepsHashes(s: KeyState, id: Id, x: Id)
    requires NoDuplicates(s.pending)
    requires x in Release(s, id).0.pending
    ensures SameHash(s, Release(s, id).0, x)
  {
    var t := Release(s, id).0;
    if t.pending != s.pending {
      assert x in s.pending[1..] && s.pending[0] != x;
    }
  }

  // ---- What keeps a record well formed -----------------------------------------------------------

  /** Exactly the enqueue of an empty id, or of the holder's own id, spoils a record. */
  lemma CommitEnqueueKeepsWellFormedIff(s: KeyState, supersedes: bool, id: Id, hash: Option<string>)
    requires WellFormed(s)
    ensures WellFormed(CommitEnqueue(s, supersedes, id, hash)) <==> id != "" && s.running != Some(id)
  {
    var t := CommitEnqueue(s, supersedes, id, hash);
    CommitEnqueueRegisters(s, supersedes, id, hash);
    assert id in t.pending;
    forall k | k in t.hashes
      ensures k in t.pending
    {
      if k != id {
        assert k in s.pending && k !in Dropped(s, supersedes, id);
      }
    }
  }

  lemma GrantKeepsWellFormed(s: KeyState, id: Id)
    requires WellFormed(s)
    ensures WellFormed(Grant(s, id))
  {
    WithoutKeepsNoDuplicates(s.pending, id);
  }

  lemma ParkKeepsWellFormedIff(s: KeyState, id: Id)
    requires WellFormed(s)
    ensures WellFormed(Park(s, id)) <==> id in s.pending || (id != "" && s.running != Some(id))
  {
    if id !in s.pending {
      assert id in Park(s, id).pending;
    }
  }

  lemma ReleaseKeepsWellFormed(s: KeyState, id: Id)
    requires WellFormed(s)
    ensures WellFormed(Release(s, id).0)
  {
    if s.running == Some(id) && s.pending != [] {
      assert s.pending[0] in s.pending;
      assert s.pending[0] !in s.pending[1..];
    }
  }

  lemma CommitEnqueueKeepsNoDuplicates(s: KeyState, supersedes: bool, id: Id, hash: Option<string>)
    requires NoDuplicates(s.pending)
    ensures NoDuplicates(CommitEnqueue(s, supersedes, id, hash).pending)
  {
    CommitEnqueueRegisters(s, supersedes, id, hash);
  }

  lemma GrantKeepsNoDuplicates(s: KeyState, id: Id)
    requires NoDuplicates(s.pending)
    ensures NoDuplicates(Grant(s, id).pending)
  {
    WithoutKeepsNoDuplicates(s.pending, id);
  }

  lemma ParkKeepsNoDuplicates(s: KeyState, id: Id)
    requires NoDuplicates(s.pending)
    ensures NoDuplicates(Park(s, id).pending)
  {
  }

  lemma ReleaseKeepsNoDuplicates(s: KeyState, id: Id)
    requires NoDuplicates(s.pending)
    ensures NoDuplicates(Release(s, id).0.pending)
  {
  }

  // ---- Who leaves the line, and in which order ---------------------------------------------------

  /** Granting takes nobody but the grantee out of the line and reorders nobody. */
  lemma GrantKeepsLine(s: KeyState, id: Id)
    ensures forall x :: x in s.pending && x !in Grant(s, id).pending ==> Grant(s, id).running == Some(x)
    ensures forall x, y :: x != id && y != id && Before(s.pending, x, y) ==> Before(Grant(s, id).pending, x, y)
  {
    forall x, y | x != id && y != id && Before(s.pending, x, y)
      ensures Before(Grant(s, id).pending, x, y)
    {
      WithoutKeepsOrder(s.pending, id, x, y);
    }
  }

  lemma ParkKeepsLine(s: KeyState, id: Id)
    ensures s.pending <= Park(s, id).pending
    ensures forall x, y :: Before(s.pending, x, y) ==> Before(Park(s, id).pending, x, y)
  {
    forall x, y | Before(s.pending, x, y)
      ensures Before(Park(s, id).pending, x, y)
    {
      BeforeAppend(s.pending, Park(s, id).pending[|s.pending|..], x, y);
      assert s.pending + Park(s, id).pending[|s.pending|..] == Park(s, id).pending;
    }
  }

  lemma ReleaseKeepsLine(s: KeyState, id: Id)
    ensures var t := Release(s, id).0;
            && (forall x :: x in s.pending && x !in t.pending ==> t.running == Some(x))
            && (forall x, y :: x in t.pending && y in t.pending && Before(s.pending, x, y) && NoDuplicates(s.pending)
                  ==> Before(t.pending, x, y))
  {
    var t := Release(s, id).0;
    forall x, y | x in t.pending && y in t.pending && Before(s.pending, x, y) && NoDuplicates(s.pending)
      ensures Before(t.pending, x, y)
    {
      var i, j :| 0 <= i < j < |s.pending| && s.pending[i] == x && s.pending[j] == y;
      if t.pending != s.pending {
        assert t.pending == s.pending[1..];
        assert i != 0;
        assert t.pending[i - 1] == x && t.pending[j - 1] == y;
      }
    }
  }

  lemma CommitEnqueueKeepsLine(s: KeyState, supersedes: bool, id: Id, hash: Option<string>)
    ensures var t := CommitEnqueue(s, supersedes, id, hash);
            forall x, y :: !supersedes && x != id && y != id && Before(s.pending, x, y) ==> Before(t.pending, x, y)
  {
    var t := CommitEnqueue(s, supersedes, id, hash);
    forall x, y | !supersedes && x != id && y != id && Before(s.pending, x, y)
      ensures Before(t.pending, x, y)
    {
      WithoutKeepsOrder(s.pending, id, x, y);
      BeforeAppend(Without(s.pending, id), [id], x, y);
    }
  }
}
