/**
 * `JobCoordinatorLogic` over its storage, and the Durable Object's release loop.
 */
module JobCoordinator {
  import opened Wrappers
  import opened Sequences
  import opened KeyLock

  function StorageKey(key: string): (r: string)
    ensures forall other: string :: StorageKeyText(other) == r ==> other == key
  {
    assert forall other: string :: StorageKeyText(other)[|PREFIX|..] == other;
    StorageKeyText(key)
  }

  const PREFIX := "porulle-job-coordinator:"

  function StorageKeyText(key: string): string { PREFIX + key }

  class JobCoordinatorLogic {
    /** The Durable Object's storage. */
    var storage: map<string, Row>

    constructor (rows: map<string, Row>)
      ensures storage == rows
    {
      storage := rows;
    }

    function State(key: string): KeyState
      reads this
    {
      var k := StorageKey(key);
      Load(if k in storage then Some(storage[k]) else None)
    }

    /** The row of `key` now holds `s` and no other key's row changed. */
    twostate predicate Put(key: string, s: KeyState)
      reads this
    {
      && State(key) == s
      && forall other: string :: other != key ==> State(other) == old(State(other))
    }

    method PutState(key: string, s: KeyState)
      modifies this
      ensures Put(key, s)
    {
      storage := storage[StorageKey(key) := Stored(s)];
    }

    method EnqueueRead(key: string, supersedes: bool, id: Id, hash: Option<string>) returns (r: EnqueueRead)
      modifies this
      ensures Put(key, ReadEnqueue(old(State(key)), supersedes, id, hash).0)
      ensures r == ReadEnqueue(old(State(key)), supersedes, id, hash).1
    {
      var s := State(key);
      if supersedes && hash.Some? {
        var k := 0;
        while k < |s.pending|
          invariant 0 <= k <= |s.pending|
          invariant FirstWithHash(s.pending, s.hashes, hash.value) == FirstWithHash(s.pending[k..], s.hashes, hash.value)
        {
          if s.pending[k] in s.hashes && s.hashes[s.pending[k]] == hash.value {
            return CoalesceCandidate(s.pending[k]);
          }
          k := k + 1;
        }
      }
      var terminated := Commit(key, supersedes, id, hash, s);
      return Enqueued(terminated);
    }

    method EnqueueAfterLiveCandidate(key: string, candidate: Id, supersedes: bool, id: Id, hash: Option<string>)
      returns (r: EnqueueAnswer)
      modifies this
      ensures Put(key, EnqueueAfterCheck(old(State(key)), candidate, false, supersedes, id, hash).0)
      ensures r == EnqueueAfterCheck(old(State(key)), candidate, false, supersedes, id, hash).1
    {
      var s := State(key);
      if supersedes && hash.Some? && candidate in s.pending
         && candidate in s.hashes && s.hashes[candidate] == hash.value
      {
        return EnqueueAnswer([], Some(candidate));
      }
      var terminated := Commit(key, supersedes, id, hash, s);
      return EnqueueAnswer(terminated, None);
    }

    method EnqueueAfterStaleCandidate(key: string, candidate: Id, supersedes: bool, id: Id, hash: Option<string>)
      returns (r: EnqueueAnswer)
      modifies this
      ensures Put(key, EnqueueAfterCheck(old(State(key)), candidate, true, supersedes, id, hash).0)
      ensures r == EnqueueAfterCheck(old(State(key)), candidate, true, supersedes, id, hash).1
    {
      var s := State(key);
      var terminated := Commit(key, supersedes, id, hash, s);
      return EnqueueAnswer(terminated, None);
    }

    method Commit(key: string, supersedes: bool, id: Id, hash: Option<string>, s: KeyState)
      returns (terminated: seq<Id>)
      requires s == State(key)
      modifies this
      ensures Put(key, CommitEnqueue(old(State(key)), supersedes, id, hash))
      ensures terminated == Dropped(old(State(key)), supersedes, id)
    {
      terminated := if supersedes then Without(s.pending, id) else [];
      var kept := if supersedes then [] else Without(s.pending, id);
      var hashes := s.hashes;
      for k := 0 to |terminated|
        invariant hashes == map x | x in s.hashes && x !in terminated[..k] :: s.hashes[x]
      {
        hashes := hashes - {terminated[k]};
        assert terminated[..k + 1] == terminated[..k] + [terminated[k]];
      }
      assert terminated[..|terminated|] == terminated;
      if hash.Some? {
        hashes := hashes[id := hash.value];
      }
      PutState(key, s.(pending := kept + [id], hashes := hashes));
    }

    method AcquireRead(key: string, id: Id) returns (r: AcquireRead)
      modifies this
      ensures Put(key, ReadAcquire(old(State(key)), id).0)
      ensures r == ReadAcquire(old(State(key)), id).1
    {
      var s := State(key);
      if s.running == Some(id) {
        return Granted;
      }
      if s.running.None? {
        PutState(key, Grant(s, id));
        return Granted;
      }
      return NeedsStaleCheck(s.running.value);
    }

    method AcquireWhenHolderLive(key: string, id: Id, ghost checked: Id) returns (granted: bool)
      modifies this
      ensures Put(key, AcquireAfterCheck(old(State(key)), id, checked, false).0)
      ensures granted == AcquireAfterCheck(old(State(key)), id, checked, false).1
    {
      var s := State(key);
      if s.running == Some(id) {
        return true;
      }
      if s.running.None? {
        PutState(key, Grant(s, id));
        return true;
      }
      if id !in s.pending {
        PutState(key, s.(pending := s.pending + [id]));
      }
      return false;
    }

    method AcquireAfterStale(key: string, id: Id, checked: Id) returns (granted: bool)
      modifies this
      ensures Put(key, AcquireAfterCheck(old(State(key)), id, checked, true).0)
      ensures granted == AcquireAfterCheck(old(State(key)), id, checked, true).1
    {
      var s := State(key);
      if s.running == Some(id) {
        return true;
      }
      if s.running == Some(checked) {
        PutState(key, Grant(s, id));
        return true;
      }
      granted := AcquireWhenHolderLive(key, id, checked);
    }

    method Release(key: string, id: Id) returns (next: Option<Id>)
      modifies this
      ensures Put(key, KeyLock.Release(old(State(key)), id).0)
      ensures next == KeyLock.Release(old(State(key)), id).1
    {
      var s := State(key);
      if s.running != Some(id) {
        return None;
      }
      if s.pending == [] {
        PutState(key, KeyState([], None, s.hashes));
        return None;
      }
      next := Some(s.pending[0]);
      var hashes := s.hashes;
      if next.value != "" {
        hashes := hashes - {next.value};
      }
      PutState(key, KeyState(s.pending[1..], next, hashes));
    }
  }

  // ---- Handing the key on -------------------------------------------------------------------------

  /** How many pending ids the hand-over passes: those before the first that can be woken. The empty id also
      stops it, since the source reads it as "nobody is next". */
  function Passed(pending: seq<Id>, awake: set<Id>): (k: nat)
    ensures k <= |pending|
    ensures forall i :: 0 <= i < k ==> pending[i] !in awake && pending[i] != ""
    ensures k < |pending| ==> pending[k] in awake || pending[k] == ""
  {
    if pending == [] || pending[0] in awake || pending[0] == "" then 0
    else 1 + Passed(pending[1..], awake)
  }

  /** The first pending id that can be woken, unless an empty one stands before it. */
  function FirstAwake(pending: seq<Id>, awake: set<Id>): (r: Option<Id>)
    ensures r.Some? <==> exists k :: 0 <= k < |pending| && pending[k] in awake && "" !in pending[..k + 1]
  {
    if pending == [] || pending[0] == "" then None
    else if pending[0] in awake then
      assert pending[0] in awake && "" !in pending[..1];
      Some(pending[0])
    else
      AwakeInTail(pending, awake);
      FirstAwake(pending[1..], awake)
  }

  lemma AwakeInTail(pending: seq<Id>, awake: set<Id>)
    requires pending != [] && pending[0] != "" && pending[0] !in awake
    ensures (exists k :: 0 <= k < |pending| && pending[k] in awake && "" !in pending[..k + 1])
       <==> exists k :: 0 <= k < |pending[1..]| && pending[1..][k] in awake && "" !in pending[1..][..k + 1]
  {
    var rest := pending[1..];
    if k :| 0 <= k < |pending| && pending[k] in awake && "" !in pending[..k + 1] {
      assert pending[..k + 1] == [pending[0]] + rest[..k];
      assert rest[k - 1] in awake && "" !in rest[..k - 1 + 1];
    }
    if k :| 0 <= k < |rest| && rest[k] in awake && "" !in rest[..k + 1] {
      assert pending[..k + 2] == [pending[0]] + rest[..k + 1];
      assert pending[k + 1] in awake && "" !in pending[..k + 1 + 1];
    }
  }

  /** The ids whose hashes go when `ids` leave the line. */
  function Forgotten(ids: seq<Id>): set<Id> {
    set x | x in ids && x != ""
  }

  /** Where an undisturbed release leaves the record: the first id that can be woken holds the key, exactly the
      dead ids before it are gone, and only a line with nobody to wake leaves the key free. */
  ghost predicate HandedOn(s: KeyState, holder: Id, awake: set<Id>, t: KeyState) {
    if s.running != Some(holder) then t == s
    else
      var k := Passed(s.pending, awake);
      if k < |s.pending| then
        t == KeyState(s.pending[k + 1..], Some(s.pending[k]), s.hashes - Forgotten(s.pending[..k + 1]))
      else
        t == KeyState([], None, s.hashes - Forgotten(s.pending))
  }

  /** One step of the recursion: releasing the holder and then handing on from its dead successor. */
  lemma HandOnFromDeadSuccessor(s: KeyState, holder: Id, awake: set<Id>, t: KeyState)
    requires s.running == Some(holder) && s.pending != []
    requires s.pending[0] !in awake && s.pending[0] != ""
    requires HandedOn(KeyLock.Release(s, holder).0, s.pending[0], awake, t)
    ensures HandedOn(s, holder, awake, t)
  {
    var first, rest := s.pending[0], s.pending[1..];
    var k := Passed(rest, awake);
    if k < |rest| {
      assert s.pending[..k + 2] == [first] + rest[..k + 1];
      assert s.hashes - Forgotten(s.pending[..k + 2]) == (s.hashes - {first}) - Forgotten(rest[..k + 1]);
    } else {
      assert s.pending == [first] + rest;
      assert s.hashes - Forgotten(s.pending) == (s.hashes - {first}) - Forgotten(rest);
    }
  }

  /** The Durable Object: its record, and which instances a turn event still reaches. */
  class PorulleJobCoordinator {
    const logic: JobCoordinatorLogic
    const awake: set<Id>

    constructor (logic: JobCoordinatorLogic, awake: set<Id>)
      ensures this.logic == logic && this.awake == awake
    {
      this.logic := logic;
      this.awake := awake;
    }

    /** `#releaseAndWake` with no other call in between; it returns the id that was woken. */
    method ReleaseAndWake(key: string, holder: Id) returns (woken: Option<Id>)
      modifies logic
      ensures HandedOn(old(logic.State(key)), holder, awake, logic.State(key))
      ensures forall other: string :: other != key ==> logic.State(other) == old(logic.State(other))
      ensures woken.Some? ==> logic.State(key).running == woken && woken.value in awake
      ensures woken == if old(logic.State(key)).running == Some(holder) then FirstAwake(old(logic.State(key)).pending, awake)
                       else None
      ensures old(logic.State(key)).running != Some(holder) ==> woken.None?
      decreases |logic.State(key).pending|
    {
      ghost var before := logic.State(key);
      var next := logic.Release(key, holder);
      if next.None? || next.value == "" {
        return None;
      }
      if next.value in awake {
        return next;
      }
      woken := ReleaseAndWake(key, next.value);
      HandOnFromDeadSuccessor(before, holder, awake, logic.State(key));
    }
  }
}
