/**
 * Whole runs of the offline queue against a server: enqueue, drop and retry interleave with a flush at every
 * await, requests are applied late or never, and answers are lost.
 */
module QueueRuns {
  import opened Wrappers
  import opened Sequences
  import opened QueueModel
  import Runs

  /** The queue, the server's effects in order, and what happened so far: the operations that arrived (loaded or
      enqueued), those removed for an ok answer, those dropped, and every request sent. */
  datatype World = World(
    queue: Queue, effects: seq<Id>,
    arrived: seq<Id>, delivered: set<Id>, dropped: set<Id>, sent: seq<Id>)

  datatype Step =
    | DoEnqueue(id: Id)
    | DoDrop(id: Id)
    | DoRetry(id: Id)
    | DoFlush
    | FireTimer
    | Process(id: Id)         // a request reaches the server
    | AnswerOk
    | AnswerError(status: int)
    | NoAnswer                // the network fails; the request may or may not have been applied
    | ReadBody
    | Persisted
    | LastPersisted
    | Restart(saved: map<Id, OpState>)   // a new session on the same storage; requests may still be in flight

  /** `replays`: a repeated idempotency key replays the first result instead of acting again. */
  datatype Server = Server(replays: bool)

  predicate Enabled(c: Settings, w: World, step: Step) {
    var q := w.queue;
    match step
    case DoEnqueue(id) => id !in w.arrived
    case DoDrop(_) => true
    case DoRetry(_) => true
    case DoFlush => true
    case FireTimer => q.timer.Some?
    case Process(id) => id in w.sent
    case AnswerOk => q.flush.AwaitFetch? && q.flush.id in w.effects
    case AnswerError(_) => q.flush.AwaitFetch? && q.flush.id in q.ops
    case NoAnswer => q.flush.AwaitFetch? && q.flush.id in q.ops
    case ReadBody => q.flush.AwaitBody? && q.flush.id in q.ops
    case Persisted => q.flush.AwaitPersist?
    case LastPersisted => q.flush.AwaitLastPersist? && q.flush.id in q.ops
    case Restart(saved) => Restorable(c, q, saved)
  }

  /** The last answer was an HTTP status that is not worth a retry, or it came after too many attempts. */
  predicate FinallyRefused(c: Settings, op: OpState) {
    && op.lastError.Http?
    && (var status := op.lastError.status;
        (status < 500 && status != 408 && status != 429) || op.attempts >= c.maxAttempts)
  }

  /** What a new session may load: the stored operations, in any state the queue saves one in. The states may be older
      than those in memory. */
  predicate Restorable(c: Settings, q: Queue, saved: map<Id, OpState>) {
    && saved.Keys == (set id <- q.stored)
    && (forall id :: id in saved && saved[id].failed ==> FinallyRefused(c, saved[id]))
  }

  /** The loaded queue; the flush and the timer are gone. */
  function Restarted(q: Queue, saved: map<Id, OpState>): Queue {
    Queue(map id | id in q.ops :: if id in saved then saved[id] else q.ops[id], q.stored, q.stored, NotFlushing, None)
  }

  /** The request a step of the flush sends, if any. */
  function Sends(before: Queue, after: Queue): seq<Id> {
    if after.flush.AwaitFetch? && before.flush != after.flush then [after.flush.id] else []
  }

  function QueueAfter(c: Settings, w: World, step: Step): Queue {
    var q := w.queue;
    if !Enabled(c, w, step) then q
    else
      match step
      case DoEnqueue(id) => Enqueue(q, id)
      case DoDrop(id) => Drop(q, id)
      case DoRetry(id) => Retry(q, id)
      case DoFlush => BeginFlush(q)
      case FireTimer => TimerFires(q)
      case Process(_) => q
      case AnswerOk => Delivered(q)
      case AnswerError(status) => Refused(q, status)
      case NoAnswer => NetworkDown(q)
      case ReadBody => BodyRead(c, q)
      case Persisted => Continue(q)
      case LastPersisted => BackOff(c, q)
      case Restart(saved) => Restarted(q, saved)
  }

  function Apply(c: Settings, v: Server, w: World, step: Step): World {
    var q := QueueAfter(c, w, step);
    World(
      q,
      if step.Process? && !(v.replays && step.id in w.effects) then w.effects + [step.id] else w.effects,
      if step.DoEnqueue? then w.arrived + [step.id] else w.arrived,
      if step.AnswerOk? && w.queue.flush.AwaitFetch? then w.delivered + {w.queue.flush.id} else w.delivered,
      if step.DoDrop? && step.id in w.queue.order then w.dropped + {step.id} else w.dropped,
      w.sent + Sends(w.queue, q))
  }

  function Rules(c: Settings): (World, Step) -> bool {
    (w: World, step: Step) => Enabled(c, w, step)
  }

  function Moves(c: Settings, v: Server): (World, Step) -> World {
    (w: World, step: Step) => Apply(c, v, w, step)
  }

  /** What storage may hold: distinct operations, failed only for the reason the queue fails one. */
  ghost predicate Loadable(c: Settings, q: Queue) {
    && NoDuplicates(q.order) && q.stored == q.order
    && (forall id :: id in q.ops <==> id in q.order)
    && JustlyFailed(c, q)
    && q.flush.NotFlushing? && q.timer.None?
  }

  function Init(q: Queue): World { World(q, [], q.order, {}, {}, []) }

  ghost predicate Reaches(c: Settings, v: Server, w: World) {
    exists q :: Loadable(c, q) && Runs.Reaches(Rules(c), Moves(c, v), Init(q), w)
  }

  // ---- Invariants ------------------------------------------------------------------------------------

  /** An operation failed only on an HTTP answer that cannot be retried or came after too many attempts. */
  ghost predicate JustlyFailed(c: Settings, q: Queue) {
    forall id :: id in q.ops && q.ops[id].failed ==> FinallyRefused(c, q.ops[id])
  }

  /** `ids` without those in `gone`, in order. */
  function Remaining(ids: seq<Id>, gone: set<Id>): (r: seq<Id>)
    ensures forall x :: x in r <==> x in ids && x !in gone
  {
    if ids == [] then []
    else if ids[0] in gone then Remaining(ids[1..], gone)
    else [ids[0]] + Remaining(ids[1..], gone)
  }

  lemma {:induction false} RemainingOneMore(ids: seq<Id>, gone: set<Id>, x: Id)
    ensures Without(Remaining(ids, gone), x) == Remaining(ids, gone + {x})
  {
    if ids != [] {
      RemainingOneMore(ids[1..], gone, x);
      if ids[0] !in gone {
        assert Remaining(ids, gone)[1..] == Remaining(ids[1..], gone);
      }
    }
  }

  lemma {:induction false} RemainingAppend(ids: seq<Id>, gone: set<Id>, x: Id)
    requires x !in gone
    ensures Remaining(ids + [x], gone) == Remaining(ids, gone) + [x]
  {
    if ids == [] {
      assert [x][1..] == [];
    } else {
      RemainingAppend(ids[1..], gone, x);
      assert (ids + [x])[1..] == ids[1..] + [x];
    }
  }

  lemma {:induction false} RemainingHasNoDuplicates(ids: seq<Id>, gone: set<Id>)
    requires NoDuplicates(ids)
    ensures NoDuplicates(Remaining(ids, gone))
  {
    if ids != [] {
      RemainingHasNoDuplicates(ids[1..], gone);
      assert ids[0] !in ids[1..];
    }
  }

  lemma {:induction false} RemainingNothing(ids: seq<Id>)
    ensures Remaining(ids, {}) == ids
  {
    if ids != [] {
      RemainingNothing(ids[1..]);
    }
  }

  /** The ids a suspended flush still refers to. */
  function Ahead(f: Flush): seq<Id> {
    match f
    case NotFlushing => []
    case AwaitFetch(id, rest) => [id] + rest
    case AwaitBody(id, _, rest) => [id] + rest
    case AwaitPersist(rest) => rest
    case AwaitLastPersist(id) => [id]
  }

  /** The queue holds what arrived less what was delivered or dropped, in order, and storage agrees. */
  ghost predicate Accounted(w: World) {
    var q := w.queue;
    && NoDuplicates(w.arrived)
    && (forall id :: id in q.ops <==> id in w.arrived)
    && (forall id :: id in w.delivered || id in w.dropped ==> id in q.ops)
    && q.order == Remaining(w.arrived, w.delivered + w.dropped)
    && q.stored == q.order
  }

  /** A flush refers to known operations, and the one it is working on is pending. */
  ghost predicate Framed(q: Queue) {
    && (forall id :: id in Ahead(q.flush) ==> id in q.ops)
    && NoDuplicates(Ahead(q.flush))
    && (q.flush.AwaitFetch? || q.flush.AwaitBody? || q.flush.AwaitLastPersist? ==> !IsFailed(q, q.flush.id))
  }

  ghost predicate Timely(q: Queue) {
    q.timer.Some? ==> q.timer.value <= MAX_DELAY_MS
  }

  ghost predicate Consistent(c: Settings, w: World) {
    Accounted(w) && Framed(w.queue) && JustlyFailed(c, w.queue) && Timely(w.queue)
  }

  /** Effects come from requests, requests from operations that arrived, and an ok answer from an effect. */
  ghost predicate Traceable(w: World) {
    && (forall id :: id in w.effects ==> id in w.sent)
    && (forall id :: id in w.sent ==> id in w.arrived)
    && (forall id :: id in w.delivered ==> id in w.effects)
    && (w.queue.flush.AwaitFetch? ==> w.queue.flush.id in w.sent)
  }

  // ---- Steps keep them --------------------------------------------------------------------------------

  lemma AdvanceOf(w: World, step: Step)
    requires step.DoFlush? || step.FireTimer? || step.Persisted?
    requires step.Persisted? ==> w.queue.flush.AwaitPersist?
    ensures var q := w.queue;
            match step
            case DoFlush => Advance(q, q.order) == q.(flush := Advance(q, q.order).flush)
            case FireTimer => Advance(q.(timer := None), q.order) == q.(timer := None, flush := Advance(q.(timer := None), q.order).flush)
            case Persisted => Advance(q, q.flush.rest) == q.(flush := Advance(q, q.flush.rest).flush)
  {
    var q := w.queue;
    match step
    case DoFlush => AdvanceChangesOnlyFlush(q, q.order);
    case FireTimer => AdvanceChangesOnlyFlush(q.(timer := None), q.order);
    case Persisted => AdvanceChangesOnlyFlush(q, q.flush.rest);
  }

  lemma StepKeepsAccounted(c: Settings, v: Server, w: World, step: Step)
    requires Accounted(w) && Framed(w.queue) && Enabled(c, w, step)
    ensures Accounted(Apply(c, v, w, step))
  {
    var q := w.queue;
    var gone := w.delivered + w.dropped;
    match step
    case DoEnqueue(id) =>
      RemainingAppend(w.arrived, gone, id);
    case DoDrop(id) =>
      RemainingOneMore(w.arrived, gone, id);
      assert gone + {id} == w.delivered + (w.dropped + {id});
    case AnswerOk =>
      RemainingOneMore(w.arrived, gone, q.flush.id);
      assert gone + {q.flush.id} == (w.delivered + {q.flush.id}) + w.dropped;
      assert q.flush.id in Ahead(q.flush);
    case DoFlush => AdvanceOf(w, step);
    case FireTimer => AdvanceOf(w, step);
    case Persisted => AdvanceOf(w, step);
    case _ =>
  }

  lemma StepKeepsFramed(c: Settings, v: Server, w: World, step: Step)
    requires Accounted(w) && Framed(w.queue) && Enabled(c, w, step)
    ensures Framed(QueueAfter(c, w, step))
  {
    var q := w.queue;
    RemainingHasNoDuplicates(w.arrived, w.delivered + w.dropped);
    match step
    case DoFlush => AdvanceStaysFramed(q, q.order);
    case FireTimer => AdvanceStaysFramed(q.(timer := None), q.order);
    case Persisted => AdvanceStaysFramed(q, q.flush.rest);
    case AnswerOk => TailHasNoDuplicates(q.flush.id, q.flush.rest);
    case ReadBody => TailHasNoDuplicates(q.flush.id, q.flush.rest);
    case _ =>
  }

  lemma TailHasNoDuplicates(x: Id, rest: seq<Id>)
    requires NoDuplicates([x] + rest)
    ensures NoDuplicates(rest)
  {
    assert forall i :: 0 <= i < |rest| ==> rest[i] == ([x] + rest)[i + 1];
  }

  lemma AdvanceStaysFramed(q: Queue, rest: seq<Id>)
    requires (forall id :: id in rest ==> id in q.ops) && NoDuplicates(rest)
    ensures Framed(Advance(q, rest))
  {
    AdvanceChangesOnlyFlush(q, rest);
    var t := Advance(q, rest).flush;
    if t.AwaitFetch? {
      var k :| 0 <= k < |rest| && rest[k] == t.id && t.rest == rest[k + 1..];
      assert Ahead(t) == rest[k..];
      SuffixHasNoDuplicates(rest, k);
    }
  }

  lemma SuffixHasNoDuplicates(s: seq<Id>, k: nat)
    requires k <= |s| && NoDuplicates(s)
    ensures NoDuplicates(s[k..]) && forall x :: x in s[k..] ==> x in s
  {
    assert forall i :: 0 <= i < |s| - k ==> s[k..][i] == s[k + i];
  }

  lemma StepKeepsJustice(c: Settings, v: Server, w: World, step: Step)
    requires Framed(w.queue) && JustlyFailed(c, w.queue) && Timely(w.queue) && Enabled(c, w, step)
    ensures JustlyFailed(c, QueueAfter(c, w, step)) && Timely(QueueAfter(c, w, step))
  {
    match step
    case DoFlush => AdvanceOf(w, step);
    case FireTimer => AdvanceOf(w, step);
    case Persisted => AdvanceOf(w, step);
    case _ =>
  }

  lemma StepKeepsTraceable(c: Settings, v: Server, w: World, step: Step)
    requires Consistent(c, w) && Traceable(w) && Enabled(c, w, step)
    ensures Traceable(Apply(c, v, w, step))
  {
    var q := w.queue;
    match step
    case DoFlush => AdvanceChangesOnlyFlush(q, q.order);
    case FireTimer => AdvanceChangesOnlyFlush(q.(timer := None), q.order);
    case Persisted => AdvanceChangesOnlyFlush(q, q.flush.rest);
    case _ =>
  }

  /** What every step keeps: the queue's accounts, and where effects and answers come from. */
  lemma StepKeepsRecord(c: Settings, v: Server, w: World, step: Step)
    requires Consistent(c, w) && Traceable(w) && Enabled(c, w, step)
    ensures Consistent(c, Apply(c, v, w, step)) && Traceable(Apply(c, v, w, step))
  {
    StepKeepsAccounted(c, v, w, step);
    StepKeepsFramed(c, v, w, step);
    StepKeepsJustice(c, v, w, step);
    StepKeepsTraceable(c, v, w, step);
  }
}
