/** What one flush does to every operation, whatever each request is answered, while nothing else runs. */
module QueueOutcome {
  import opened Wrappers
  import opened Sequences
  import opened QueueModel
  import opened QueueRuns
  import opened QueueDrain

  datatype Answer = Accepted | Refusal(status: int) | Unreachable

  /** The flush to its end, each request answered by `answers`. */
  function Flushed(c: Settings, answers: Id -> Answer, q: Queue): Queue
    decreases if q.flush.AwaitFetch? then |q.flush.rest| + 1 else 0
  {
    if !q.flush.AwaitFetch? || q.flush.id !in q.ops then q
    else
      match answers(q.flush.id)
      case Accepted =>
        AdvanceShortens(Delivered(q), q.flush.rest);
        Flushed(c, answers, Continue(Delivered(q)))
      case Refusal(status) =>
        AdvanceShortens(BodyRead(c, Refused(q, status)), q.flush.rest);
        Flushed(c, answers, Continue(BodyRead(c, Refused(q, status))))
      case Unreachable => BackOff(c, NetworkDown(q))
  }

  function FlushOnce(c: Settings, answers: Id -> Answer, q: Queue): Queue {
    Flushed(c, answers, BeginFlush(q))
  }

  /** The flush gets to `id`: it is pending, and no pending operation before it finds the network down. */
  ghost predicate Tried(q: Queue, answers: Id -> Answer, rest: seq<Id>, id: Id) {
    exists k :: 0 <= k < |rest| && rest[k] == id && !IsFailed(q, id) && Reached(q, answers, rest, k)
  }

  ghost predicate Reached(q: Queue, answers: Id -> Answer, rest: seq<Id>, k: nat)
    requires k <= |rest|
  {
    forall i :: 0 <= i < k ==> IsFailed(q, rest[i]) || !answers(rest[i]).Unreachable?
  }

  /** What becomes of one operation. */
  ghost predicate Outcome(c: Settings, before: OpState, after: OpState, tried: bool, answer: Answer) {
    if !tried || answer.Accepted? then after == before
    else
      && after.attempts == before.attempts + 1
      && match answer
         case Refusal(status) =>
           && after.lastError == Http(status)
           && (after.failed <==>
                 (status < 500 && status != 408 && status != 429) || before.attempts + 1 >= c.maxAttempts)
         case Unreachable => after.lastError == Network && !after.failed
  }

  /** A tried operation is still pending, and the timer is set for it, after as many attempts as it has made. */
  ghost predicate Timed(c: Settings, answers: Id -> Answer, q: Queue, rest: seq<Id>, t: Queue) {
    exists id :: Tried(q, answers, rest, id) && id in t.order && TimedFor(c, t, id)
  }

  predicate TimedFor(c: Settings, t: Queue, id: Id) {
    id in t.ops && !t.ops[id].failed && t.timer == Some(RetryDelay(c, t.ops[id].attempts))
  }

  ghost predicate SomePending(t: Queue, ids: seq<Id>) {
    exists id :: id in ids && id in t.order && !IsFailed(t, id)
  }

  /** Those delivered. */
  ghost function Done(q: Queue, answers: Id -> Answer, rest: seq<Id>): (r: set<Id>)
    ensures forall id :: id in r <==> Tried(q, answers, rest, id) && answers(id).Accepted?
  {
    set id | id in rest && Tried(q, answers, rest, id) && answers(id).Accepted?
  }

  ghost predicate OpsDid(c: Settings, answers: Id -> Answer, q: Queue, rest: seq<Id>, t: Queue) {
    && t.ops.Keys == q.ops.Keys
    && forall id :: id in q.ops ==> Outcome(c, q.ops[id], t.ops[id], Tried(q, answers, rest, id), answers(id))
  }

  ghost predicate TimerDid(c: Settings, answers: Id -> Answer, q: Queue, rest: seq<Id>, t: Queue) {
    && (t.timer == q.timer || Timed(c, answers, q, rest, t))
    && (SomePending(t, rest) ==> Timed(c, answers, q, rest, t))
  }

  /** Everything about a flush that stood before `rest` in `q` and ended in `t`. */
  ghost predicate FlushDid(c: Settings, answers: Id -> Answer, q: Queue, before: seq<Id>, rest: seq<Id>, t: Queue) {
    && t.flush.NotFlushing? && t.stored == t.order
    && t.order == before + Remaining(rest, Done(q, answers, rest))
    && OpsDid(c, answers, q, rest, t)
    && TimerDid(c, answers, q, rest, t)
  }

  // ---- One operation of the flush --------------------------------------------------------------------

  /** `r` differs from `q` at most in what the flush did about the head of `rest`. */
  ghost predicate PastHead(q: Queue, r: Queue, answers: Id -> Answer, rest: seq<Id>) {
    && rest != [] && NoDuplicates(rest) && rest[0] in q.ops
    && OthersAsBefore(q, r, rest[0])
    && (IsFailed(q, rest[0]) || !answers(rest[0]).Unreachable?)
  }

  lemma HeadIsTriedOnce(q: Queue, r: Queue, answers: Id -> Answer, rest: seq<Id>)
    requires PastHead(q, r, answers, rest)
    ensures Tried(q, answers, rest, rest[0]) <==> !IsFailed(q, rest[0])
    ensures rest[0] !in rest[1..] && !Tried(r, answers, rest[1..], rest[0])
  {
    if !IsFailed(q, rest[0]) {
      assert Reached(q, answers, rest, 0);
    }
  }

  lemma ReachedInTail(q: Queue, r: Queue, answers: Id -> Answer, rest: seq<Id>, k: nat)
    requires PastHead(q, r, answers, rest) && k < |rest|
    ensures Reached(q, answers, rest, k + 1) <==> Reached(r, answers, rest[1..], k)
  {
    forall i | 1 <= i < |rest| ensures rest[1..][i - 1] == rest[i] && (IsFailed(q, rest[i]) <==> IsFailed(r, rest[i])) {
      assert rest[i] != rest[0];
    }
    if Reached(q, answers, rest, k + 1) {
      forall i | 0 <= i < k ensures IsFailed(r, rest[1..][i]) || !answers(rest[1..][i]).Unreachable? {
        assert rest[1..][i] == rest[i + 1];
      }
    }
    if Reached(r, answers, rest[1..], k) {
      forall i | 0 <= i < k + 1 ensures IsFailed(q, rest[i]) || !answers(rest[i]).Unreachable? {
        if i > 0 { assert rest[1..][i - 1] == rest[i]; }
      }
    }
  }

  lemma TailIsTried(q: Queue, r: Queue, answers: Id -> Answer, rest: seq<Id>, id: Id)
    requires PastHead(q, r, answers, rest) && id != rest[0]
    ensures Tried(q, answers, rest, id) <==> Tried(r, answers, rest[1..], id)
  {
    if Tried(q, answers, rest, id) {
      var k :| 0 <= k < |rest| && rest[k] == id && !IsFailed(q, id) && Reached(q, answers, rest, k);
      ReachedInTail(q, r, answers, rest, k - 1);
      assert rest[1..][k - 1] == id && !IsFailed(r, id);
    }
    if Tried(r, answers, rest[1..], id) {
      var k :| 0 <= k < |rest[1..]| && rest[1..][k] == id && !IsFailed(r, id) && Reached(r, answers, rest[1..], k);
      ReachedInTail(q, r, answers, rest, k);
      assert rest[k + 1] == id && !IsFailed(q, id);
    }
  }

  /** What is done about the head, the rest of the flush leaves alone. */
  lemma OpsLift(c: Settings, answers: Id -> Answer, q: Queue, r: Queue, rest: seq<Id>, t: Queue)
    requires PastHead(q, r, answers, rest) && OpsDid(c, answers, r, rest[1..], t)
    requires Outcome(c, q.ops[rest[0]], r.ops[rest[0]], !IsFailed(q, rest[0]), answers(rest[0]))
    ensures OpsDid(c, answers, q, rest, t) && t.ops[rest[0]] == r.ops[rest[0]]
  {
    HeadIsTriedOnce(q, r, answers, rest);
    forall id | id in q.ops ensures Outcome(c, q.ops[id], t.ops[id], Tried(q, answers, rest, id), answers(id)) {
      assert Outcome(c, r.ops[id], t.ops[id], Tried(r, answers, rest[1..], id), answers(id));
      if id != rest[0] {
        TailIsTried(q, r, answers, rest, id);
      }
    }
  }

  lemma OrderLifts(answers: Id -> Answer, q: Queue, r: Queue, rest: seq<Id>)
    requires PastHead(q, r, answers, rest)
    ensures Remaining(rest, Done(q, answers, rest))
         == (if IsFailed(q, rest[0]) || !answers(rest[0]).Accepted? then [rest[0]] else [])
            + Remaining(rest[1..], Done(r, answers, rest[1..]))
  {
    HeadIsTriedOnce(q, r, answers, rest);
    forall id | id in rest[1..] ensures id in Done(q, answers, rest) <==> id in Done(r, answers, rest[1..]) {
      TailIsTried(q, r, answers, rest, id);
    }
    RemainingAgrees(rest[1..], Done(q, answers, rest), Done(r, answers, rest[1..]));
  }

  lemma {:induction false} RemainingAgrees(ids: seq<Id>, gone: set<Id>, other: set<Id>)
    requires forall id :: id in ids ==> (id in gone <==> id in other)
    ensures Remaining(ids, gone) == Remaining(ids, other)
  {
    if ids != [] {
      RemainingAgrees(ids[1..], gone, other);
    }
  }

  lemma TimedLifts(c: Settings, answers: Id -> Answer, q: Queue, r: Queue, rest: seq<Id>, t: Queue)
    requires PastHead(q, r, answers, rest) && Timed(c, answers, r, rest[1..], t)
    ensures Timed(c, answers, q, rest, t)
  {
    var id :| Tried(r, answers, rest[1..], id) && id in t.order && TimedFor(c, t, id);
    HeadIsTriedOnce(q, r, answers, rest);
    TailIsTried(q, r, answers, rest, id);
  }

  /** The timer that is left is that of the tail, or else that of the head. */
  lemma TimerLifts(c: Settings, answers: Id -> Answer, q: Queue, r: Queue, rest: seq<Id>, t: Queue)
    requires PastHead(q, r, answers, rest) && TimerDid(c, answers, r, rest[1..], t)
    requires t.ops.Keys == r.ops.Keys && t.ops[rest[0]] == r.ops[rest[0]]
    requires if IsFailed(r, rest[0]) || rest[0] !in t.order then r.timer == q.timer
             else !IsFailed(q, rest[0]) && r.timer == Some(RetryDelay(c, r.ops[rest[0]].attempts))
    ensures TimerDid(c, answers, q, rest, t)
  {
    HeadIsTriedOnce(q, r, answers, rest);
    if Timed(c, answers, r, rest[1..], t) {
      TimedLifts(c, answers, q, r, rest, t);
    } else {
      assert !SomePending(t, rest[1..]) && t.timer == r.timer;
      if !IsFailed(r, rest[0]) && rest[0] in t.order {
        assert TimedFor(c, t, rest[0]);
      }
    }
  }

  lemma HeadStays(before: seq<Id>, rest: seq<Id>, tail: seq<Id>)
    requires rest != []
    ensures before + [rest[0]] + rest[1..] == before + rest
    ensures before + [rest[0]] + tail == before + ([rest[0]] + tail)
  {
    assert rest == [rest[0]] + rest[1..];
  }

  lemma TailHasNoDuplicates(before: seq<Id>, rest: seq<Id>)
    requires NoDuplicates(before + rest)
    ensures NoDuplicates(rest) && forall id :: id in rest ==> id !in before
  {
    assert forall i :: 0 <= i < |before| ==> before[i] == (before + rest)[i];
    assert forall i :: 0 <= i < |rest| ==> rest[i] == (before + rest)[|before| + i];
  }

  // ---- The whole flush -----------------------------------------------------------------------------------

  ghost predicate Ready(q: Queue, before: seq<Id>, rest: seq<Id>) {
    && q.order == before + rest && q.stored == q.order && NoDuplicates(q.order)
    && forall id :: id in q.order ==> id in q.ops
  }

  /** The head keeps its place: it was failed, or its request was refused. */
  lemma KeepsHead(c: Settings, answers: Id -> Answer, q: Queue, r: Queue, before: seq<Id>, rest: seq<Id>, t: Queue)
    requires Ready(q, before, rest) && PastHead(q, r, answers, rest)
    requires FlushDid(c, answers, r, before + [rest[0]], rest[1..], t)
    requires IsFailed(q, rest[0]) || answers(rest[0]).Refusal?
    requires Outcome(c, q.ops[rest[0]], r.ops[rest[0]], !IsFailed(q, rest[0]), answers(rest[0]))
    requires if IsFailed(r, rest[0]) then r.timer == q.timer
             else !IsFailed(q, rest[0]) && r.timer == Some(RetryDelay(c, r.ops[rest[0]].attempts))
    ensures FlushDid(c, answers, q, before, rest, t)
  {
    OpsLift(c, answers, q, r, rest, t);
    OrderLifts(answers, q, r, rest);
    HeadStays(before, rest, Remaining(rest[1..], Done(r, answers, rest[1..])));
    assert t.order[|before|] == rest[0];
    TimerLifts(c, answers, q, r, rest, t);
  }

  /** The head was delivered. */
  lemma TakesHead(c: Settings, answers: Id -> Answer, q: Queue, r: Queue, before: seq<Id>, rest: seq<Id>, t: Queue)
    requires Ready(q, before, rest) && PastHead(q, r, answers, rest) && r.ops == q.ops && r.timer == q.timer
    requires FlushDid(c, answers, r, before, rest[1..], t)
    requires !IsFailed(q, rest[0]) && answers(rest[0]).Accepted?
    ensures FlushDid(c, answers, q, before, rest, t)
  {
    OpsLift(c, answers, q, r, rest, t);
    OrderLifts(answers, q, r, rest);
    TailHasNoDuplicates(before, rest);
    HeadIsTriedOnce(q, r, answers, rest);
    TimerLifts(c, answers, q, r, rest, t);
  }

  /** The network is down at the head: the rest is left as it is. */
  lemma StopsAtHead(c: Settings, answers: Id -> Answer, q: Queue, before: seq<Id>, rest: seq<Id>)
    requires Ready(q, before, rest) && rest != [] && !IsFailed(q, rest[0]) && answers(rest[0]).Unreachable?
    ensures FlushDid(c, answers, q, before, rest, BackOff(c, NetworkDown(q.(flush := AwaitFetch(rest[0], rest[1..])))))
  {
    var a := q.(flush := AwaitFetch(rest[0], rest[1..]));
    var t := BackOff(c, NetworkDown(a));
    AttemptsAreCounted(c, a, 0);
    assert Reached(q, answers, rest, 0);
    assert forall id :: Tried(q, answers, rest, id) <==> id == rest[0];
    assert Done(q, answers, rest) == {};
    RemainingNothing(rest);
    assert rest[0] in q.order && TimedFor(c, t, rest[0]);
  }

  lemma {:induction false} FlushFrom(c: Settings, answers: Id -> Answer, q: Queue, before: seq<Id>, rest: seq<Id>)
    requires Ready(q, before, rest)
    ensures FlushDid(c, answers, q, before, rest, Flushed(c, answers, Advance(q, rest)))
    decreases |rest|
  {
    if rest == [] {
      assert before + rest == before;
    } else {
      var x := rest[0];
      var a := q.(flush := AwaitFetch(x, rest[1..]));
      TailHasNoDuplicates(before, rest);
      HeadStays(before, rest, []);
      if IsFailed(q, x) {
        FlushFrom(c, answers, q, before + [x], rest[1..]);
        KeepsHead(c, answers, q, q, before, rest, Flushed(c, answers, Advance(q, rest)));
      } else {
        match answers(x)
        case Accepted =>
          var r := Delivered(a);
          DeliveredTakesOut(a, before, rest[1..]);
          FlushFrom(c, answers, r, before, rest[1..]);
          TakesHead(c, answers, q, r, before, rest, Flushed(c, answers, Advance(q, rest)));
        case Refusal(status) =>
          var r := BodyRead(c, Refused(a, status));
          AttemptsAreCounted(c, a, status);
          RefusalIsFinalIff(c, Refused(a, status));
          FlushFrom(c, answers, r, before + [x], rest[1..]);
          KeepsHead(c, answers, q, r, before, rest, Flushed(c, answers, Advance(q, rest)));
        case Unreachable =>
          StopsAtHead(c, answers, q, before, rest);
      }
    }
  }

  /** What a flush does to each operation. It gets to every pending operation up to the first that finds the network
      down. An accepted one leaves the queue; a refused one has one attempt more, and has failed exactly for a status
      that is not worth a retry or when its attempts are used up; one that finds the network down has one attempt more
      and stays pending; and every other operation stays as it was. The order stays, storage agrees, and if any
      operation is left pending the timer is set, by the backoff of one that was tried. */
  lemma FlushOutcome(c: Settings, answers: Id -> Answer, q: Queue)
    requires q.flush.NotFlushing? && NoDuplicates(q.order) && q.stored == q.order
    requires forall id :: id in q.order ==> id in q.ops
    ensures var t := FlushOnce(c, answers, q);
            && t.flush.NotFlushing? && t.stored == t.order && t.ops.Keys == q.ops.Keys
            && t.order == Remaining(q.order, Done(q, answers, q.order))
            && (forall id :: id in q.ops ==>
                  Outcome(c, q.ops[id], t.ops[id], Tried(q, answers, q.order, id), answers(id)))
            && (SomePending(t, q.order) ==> Timed(c, answers, q, q.order, t))
            && (t.timer == q.timer || Timed(c, answers, q, q.order, t))
  {
    assert [] + q.order == q.order;
    FlushFrom(c, answers, q, [], q.order);
  }

  // ---- Flush after flush -----------------------------------------------------------------------------------

  /** `n` flushes, each answered alike. */
  function FlushTimes(c: Settings, answers: Id -> Answer, q: Queue, n: nat): Queue
    decreases n
  {
    if n == 0 then q else FlushOnce(c, answers, FlushTimes(c, answers, q, n - 1))
  }

  ghost predicate Idle(q: Queue) {
    q.flush.NotFlushing? && NoDuplicates(q.order) && q.stored == q.order && forall id :: id in q.order ==> id in q.ops
  }

  /** An operation that is refused makes one attempt more unless it had failed, and keeps its place. */
  lemma RefusedInOneFlush(c: Settings, answers: Id -> Answer, q: Queue, id: Id)
    requires Idle(q) && id in q.order
    requires (forall x :: !answers(x).Unreachable?) && answers(id).Refusal?
    ensures var t := FlushOnce(c, answers, q);
            Idle(t) && id in t.order && id in t.ops && Outcome(c, q.ops[id], t.ops[id], !q.ops[id].failed, answers(id))
  {
    FlushOutcome(c, answers, q);
    RemainingHasNoDuplicates(q.order, Done(q, answers, q.order));
    var k :| 0 <= k < |q.order| && q.order[k] == id;
    assert Reached(q, answers, q.order, k);
    assert Tried(q, answers, q.order, id) <==> !IsFailed(q, id);
  }

  /** Retries come to an end: an operation the server keeps refusing is sent once a flush, stays in the queue, and has
      failed for good after exactly as many attempts as allowed, or after one when the status is not worth a retry. */
  lemma {:induction false} RetriesEnd(c: Settings, answers: Id -> Answer, q: Queue, id: Id, n: nat)
    requires Idle(q) && id in q.order && q.ops[id] == NEW && n >= 1
    requires (forall x :: !answers(x).Unreachable?) && answers(id).Refusal?
    ensures var t := FlushTimes(c, answers, q, n);
            var status := answers(id).status;
            var allowed := if (status < 500 && status != 408 && status != 429) || c.maxAttempts < 1 then 1 else c.maxAttempts;
            && Idle(t) && id in t.order && id in t.ops
            && t.ops[id] == OpState(if n < allowed then n else allowed, n >= allowed, Http(status))
    decreases n
  {
    if n > 1 {
      RetriesEnd(c, answers, q, id, n - 1);
    }
    RefusedInOneFlush(c, answers, FlushTimes(c, answers, q, n - 1), id);
  }
}
