/**
 * The offline queue as a value: what each stretch of code between two awaits does to it. Operations are known by
 * their ids, which are distinct; an operation that left the queue keeps its state for a flush that still refers
 * to it.
 */
module QueueModel {
  import opened Wrappers
  import opened Sequences
  import opened Numbers

  type Id = string

  datatype LastError = NoError | Network | Http(status: int)

  datatype OpState = OpState(attempts: nat, failed: bool, lastError: LastError)

  /** Where the one active flush is suspended; `rest` is what is left of its snapshot. */
  datatype Flush =
    | NotFlushing
    | AwaitFetch(id: Id, rest: seq<Id>)
    | AwaitBody(id: Id, status: int, rest: seq<Id>)
    | AwaitPersist(rest: seq<Id>)
    | AwaitLastPersist(id: Id)

  datatype Queue = Queue(ops: map<Id, OpState>, order: seq<Id>, stored: seq<Id>, flush: Flush, timer: Option<nat>)

  datatype Settings = Settings(maxAttempts: int, backoffMs: nat)

  const MAX_DELAY_MS := 60_000
  const NEW := OpState(0, false, NoError)

  predicate IsRetryableStatus(status: int) { status >= 500 || status == 408 || status == 429 }

  /** `Math.min(backoffMs * 2 ** (attempts - 1), 60_000)` for at least one attempt. */
  function RetryDelay(c: Settings, attempts: nat): (d: nat)
    ensures d <= MAX_DELAY_MS
  {
    var delay := c.backoffMs * Pow2(if attempts == 0 then 0 else attempts - 1);
    if delay <= MAX_DELAY_MS then delay else MAX_DELAY_MS
  }

  /** The first retry waits the configured backoff, every further one twice as long, up to a minute. */
  lemma DelaysDouble(c: Settings, attempts: nat)
    requires attempts >= 1
    ensures RetryDelay(c, 1) == (if c.backoffMs <= MAX_DELAY_MS then c.backoffMs else MAX_DELAY_MS)
    ensures RetryDelay(c, attempts + 1)
         == (if 2 * RetryDelay(c, attempts) <= MAX_DELAY_MS then 2 * RetryDelay(c, attempts) else MAX_DELAY_MS)
  {
    assert Pow2(attempts) == 2 * Pow2(attempts - 1);
    assert c.backoffMs * Pow2(attempts) == 2 * (c.backoffMs * Pow2(attempts - 1));
    assert Pow2(0) == 1;
  }

  function Enqueue(q: Queue, id: Id): Queue {
    q.(ops := q.ops[id := NEW], order := q.order + [id], stored := q.order + [id])
  }

  function Retry(q: Queue, id: Id): Queue {
    if id in q.order && id in q.ops && q.ops[id].failed then q.(ops := q.ops[id := NEW], stored := q.order) else q
  }

  function Drop(q: Queue, id: Id): Queue {
    q.(order := Without(q.order, id), stored := Without(q.order, id))
  }

  predicate IsFailed(q: Queue, id: Id) { id in q.ops && q.ops[id].failed }

  /** The flush loop up to its next request: operations that are not pending are passed over. */
  function Advance(q: Queue, rest: seq<Id>): Queue
    decreases |rest|
  {
    if rest == [] then q.(flush := NotFlushing)
    else if IsFailed(q, rest[0]) then Advance(q, rest[1..])
    else q.(flush := AwaitFetch(rest[0], rest[1..]))
  }

  /** A flush that finds another one active does nothing. */
  function BeginFlush(q: Queue): Queue {
    if q.flush.NotFlushing? then Advance(q, q.order) else q
  }

  /** The request threw: count the attempt, persist, and stop draining. */
  function NetworkDown(q: Queue): Queue
    requires q.flush.AwaitFetch? && q.flush.id in q.ops
  {
    var id := q.flush.id;
    q.(ops := q.ops[id := OpState(q.ops[id].attempts + 1, q.ops[id].failed, Network)], stored := q.order, flush := AwaitLastPersist(id))
  }

  function Delivered(q: Queue): Queue
    requires q.flush.AwaitFetch?
  {
    var kept := Without(q.order, q.flush.id);
    q.(order := kept, stored := kept, flush := AwaitPersist(q.flush.rest))
  }

  function Refused(q: Queue, status: int): Queue
    requires q.flush.AwaitFetch? && q.flush.id in q.ops
  {
    var id := q.flush.id;
    q.(ops := q.ops[id := OpState(q.ops[id].attempts + 1, q.ops[id].failed, q.ops[id].lastError)],
       flush := AwaitBody(id, status, q.flush.rest))
  }

  predicate GivesUp(c: Settings, status: int, attempts: nat) {
    !IsRetryableStatus(status) || attempts >= c.maxAttempts
  }

  /** The error body was read (or could not be): record the failure, give up or schedule a retry, and persist. */
  function BodyRead(c: Settings, q: Queue): Queue
    requires q.flush.AwaitBody? && q.flush.id in q.ops
  {
    var id, op := q.flush.id, q.ops[q.flush.id];
    var over := GivesUp(c, q.flush.status, op.attempts);
    q.(ops := q.ops[id := OpState(op.attempts, op.failed || over, Http(q.flush.status))],
       timer := if over then q.timer else Some(RetryDelay(c, op.attempts)),
       stored := q.order,
       flush := AwaitPersist(q.flush.rest))
  }

  function Continue(q: Queue): Queue
    requires q.flush.AwaitPersist?
  {
    Advance(q, q.flush.rest)
  }

  function BackOff(c: Settings, q: Queue): Queue
    requires q.flush.AwaitLastPersist? && q.flush.id in q.ops
  {
    q.(timer := Some(RetryDelay(c, q.ops[q.flush.id].attempts)), flush := NotFlushing)
  }

  function TimerFires(q: Queue): Queue
    requires q.timer.Some?
  {
    BeginFlush(q.(timer := None))
  }

  // ---- What an answer does to the operation, and to nothing else ------------------------------------

  /** Only the state of `id` may differ. */
  ghost predicate OthersAsBefore(q: Queue, t: Queue, id: Id) {
    t.ops.Keys == q.ops.Keys && forall x :: x in q.ops && x != id ==> t.ops[x] == q.ops[x]
  }

  /** An HTTP refusal of a pending operation is final exactly for a status below 500 other than 408 and 429, or when
      the attempts are used up; otherwise the operation stays pending and a retry is scheduled. */
  lemma RefusalIsFinalIff(c: Settings, q: Queue)
    requires q.flush.AwaitBody? && q.flush.id in q.ops && !q.ops[q.flush.id].failed
    ensures var (t, status, attempts) := (BodyRead(c, q), q.flush.status, q.ops[q.flush.id].attempts);
            var op := t.ops[q.flush.id];
            && (op.failed <==> (status < 500 && status != 408 && status != 429) || attempts >= c.maxAttempts)
            && t.timer == (if op.failed then q.timer else Some(RetryDelay(c, attempts)))
            && op.attempts == attempts && op.lastError == Http(status)
            && OthersAsBefore(q, t, q.flush.id) && t.order == q.order == t.stored
  {
  }

  /** Every request that does not deliver counts as one attempt and leaves the operation pending until its answer is
      read; a network failure never fails it and ends the drain with a retry scheduled. */
  lemma AttemptsAreCounted(c: Settings, q: Queue, status: int)
    requires q.flush.AwaitFetch? && q.flush.id in q.ops && !q.ops[q.flush.id].failed
    ensures var (t, id) := (Refused(q, status), q.flush.id);
            && t.ops[id].attempts == q.ops[id].attempts + 1 && !t.ops[id].failed
            && t.flush == AwaitBody(id, status, q.flush.rest)
            && OthersAsBefore(q, t, id) && t.order == q.order && t.stored == q.stored && t.timer == q.timer
    ensures var (t, id) := (BackOff(c, NetworkDown(q)), q.flush.id);
            && t.ops[id] == OpState(q.ops[id].attempts + 1, false, Network)
            && t.timer == Some(RetryDelay(c, q.ops[id].attempts + 1)) && t.flush.NotFlushing?
            && OthersAsBefore(q, t, id) && t.order == q.order == t.stored
  {
  }

  /** There is one flush at a time: starting one while another runs does nothing, and starting one otherwise comes to the
      first pending operation. A timer that fires is gone, and starts a flush. */
  lemma OneFlushAtATime(q: Queue)
    ensures !q.flush.NotFlushing? ==> BeginFlush(q) == q
    ensures q.flush.NotFlushing? ==>
              var t := BeginFlush(q);
              && t == q.(flush := t.flush)
              && (t.flush.AwaitFetch? ==> Passed(q, q.order, t.flush.id, t.flush.rest) && !IsFailed(q, t.flush.id))
              && (t.flush.NotFlushing? ==> forall i :: 0 <= i < |q.order| ==> IsFailed(q, q.order[i]))
    ensures q.timer.Some? ==> TimerFires(q).timer.None? && TimerFires(q).flush == BeginFlush(q.(timer := None)).flush
  {
    AdvanceChangesOnlyFlush(q, q.order);
    AdvanceChangesOnlyFlush(q.(timer := None), q.order);
  }

  /** Retrying starts a failed queued operation over, as new, and does nothing about any other. */
  lemma RetryStartsOverIff(q: Queue, id: Id)
    ensures var t := Retry(q, id);
            && (id in q.order && id in q.ops && q.ops[id].failed ==>
                  && !t.ops[id].failed && t.ops[id].attempts == 0 && t.ops[id].lastError == NoError
                  && OthersAsBefore(q, t, id) && t.stored == q.order
                  && t == q.(ops := t.ops, stored := t.stored))
            && (id !in q.order || id !in q.ops || !q.ops[id].failed ==> t == q)
  {
  }

  /** `left` is what `rest` leaves after `id`, and everything before `id` was passed over. */
  ghost predicate Passed(q: Queue, rest: seq<Id>, id: Id, left: seq<Id>) {
    exists k :: 0 <= k < |rest| && rest[k] == id && left == rest[k + 1..] && forall i :: 0 <= i < k ==> IsFailed(q, rest[i])
  }

  /** Passing over operations changes only where the flush stands. */
  lemma {:induction false} AdvanceChangesOnlyFlush(q: Queue, rest: seq<Id>)
    ensures var t := Advance(q, rest);
            && t == q.(flush := t.flush)
            && (t.flush.NotFlushing? || (t.flush.AwaitFetch? && t.flush.id in rest && !IsFailed(q, t.flush.id)))
            && (t.flush.AwaitFetch? ==> Passed(q, rest, t.flush.id, t.flush.rest))
            && (t.flush.NotFlushing? ==> forall i :: 0 <= i < |rest| ==> IsFailed(q, rest[i]))
    decreases |rest|
  {
    if rest != [] {
      if IsFailed(q, rest[0]) {
        AdvanceChangesOnlyFlush(q, rest[1..]);
        assert forall i :: 1 <= i < |rest| ==> rest[i] == rest[1..][i - 1];
        var t := Advance(q, rest);
        if t.flush.AwaitFetch? {
          var k :| 0 <= k < |rest[1..]| && rest[1..][k] == t.flush.id && t.flush.rest == rest[1..][k + 1..]
                   && forall i :: 0 <= i < k ==> IsFailed(q, rest[1..][i]);
          assert rest[k + 1] == t.flush.id && t.flush.rest == rest[k + 2..];
        }
      } else {
        assert rest[0] == rest[0];
      }
    }
  }
}
