/** What the offline queue and a server that replays repeated keys guarantee over every run. */
module QueueGuarantees {
  import opened Wrappers
  import opened Sequences
  import opened QueueModel
  import opened QueueRuns
  import Runs

  ghost predicate Good(c: Settings, v: Server, w: World) {
    Consistent(c, w) && Traceable(w) && (v.replays ==> NoDuplicates(w.effects))
  }

  ghost function GoodIn(c: Settings, v: Server): World -> bool { (w: World) => Good(c, v, w) }

  lemma ReachableIsGood(c: Settings, v: Server, w: World)
    requires Reaches(c, v, w)
    ensures Good(c, v, w)
  {
    var q :| Loadable(c, q) && Runs.Reaches(Rules(c), Moves(c, v), Init(q), w);
    var steps :| Runs.Valid(Rules(c), Moves(c, v), Init(q), steps) && Runs.After(Moves(c, v), Init(q), steps) == w;
    InitIsGood(c, v, q);
    forall t, step | GoodIn(c, v)(t) && Rules(c)(t, step) ensures GoodIn(c, v)(Moves(c, v)(t, step)) {
      StepKeepsRecord(c, v, t, step);
    }
    Runs.Keeps(Rules(c), Moves(c, v), GoodIn(c, v), Init(q), steps);
  }

  lemma InitIsAccounted(c: Settings, q: Queue)
    requires Loadable(c, q)
    ensures Accounted(Init(q))
  {
    NothingRemoved(q.order);
  }

  lemma InitIsGood(c: Settings, v: Server, q: Queue)
    requires Loadable(c, q)
    ensures Good(c, v, Init(q))
  {
    InitIsAccounted(c, q);
    assert Init(q).queue == q && Framed(q) && JustlyFailed(c, q) && Timely(q);
    assert Init(q).effects == [] && Init(q).sent == [];
  }

  lemma NothingRemoved(ids: seq<Id>)
    ensures Remaining(ids, {} + {}) == ids
  {
    var none: set<Id> := {};
    assert none + none == none;
    RemainingNothing(ids);
  }

  /** Whatever ran during a flush's awaits, the queue is what was loaded and enqueued less what was delivered or
      dropped, in order; storage holds the same; and an operation failed only on an HTTP answer that cannot be
      retried or came after too many attempts. */
  lemma NothingIsLostOrResurrected(c: Settings, v: Server, w: World)
    requires Reaches(c, v, w)
    ensures w.queue.order == Remaining(w.arrived, w.delivered + w.dropped)
    ensures w.queue.stored == w.queue.order
    ensures forall id :: id in w.queue.ops && w.queue.ops[id].failed ==>
              var op := w.queue.ops[id];
              && op.lastError.Http?
              && (|| (op.lastError.status < 500 && op.lastError.status != 408 && op.lastError.status != 429)
                  || op.attempts >= c.maxAttempts)
    ensures w.queue.timer.Some? ==> w.queue.timer.value <= MAX_DELAY_MS
  {
    ReachableIsGood(c, v, w);
  }

  /** Against a server that replays, no operation acts twice, and one that left the queue without being dropped
      acted exactly once, whatever answers were lost. */
  lemma ExactlyOnce(c: Settings, v: Server, w: World, id: Id)
    requires Reaches(c, v, w) && v.replays && id in w.arrived
    ensures multiset(w.effects)[id] <= 1
    ensures id !in w.queue.order && id !in w.dropped ==> multiset(w.effects)[id] == 1
  {
    ReachableIsGood(c, v, w);
    OccursOnce(w.effects, id);
  }

  lemma {:induction false} OccursOnce(s: seq<Id>, x: Id)
    requires NoDuplicates(s)
    ensures multiset(s)[x] == if x in s then 1 else 0
  {
    if s != [] {
      OccursOnce(s[1..], x);
      assert s == [s[0]] + s[1..];
      assert s[0] !in s[1..];
    }
  }

  // ---- The server's part -------------------------------------------------------------------------------

  ghost predicate ActsAtMostOnce(c: Settings, v: Server) {
    forall w :: Reaches(c, v, w) ==> NoDuplicates(w.effects)
  }

  function Pending(a: Id, attempts: nat, error: LastError, flush: Flush, timer: Option<nat>): Queue {
    Queue(map[a := OpState(attempts, false, error)], [a], [a], flush, timer)
  }

  function Of(a: Id, q: Queue, effects: seq<Id>, sent: seq<Id>): World { World(q, effects, [a], {}, {}, sent) }

  lemma Go(c: Settings, v: Server, w: World, step: Step, t: World)
    requires Reaches(c, v, w) && Enabled(c, w, step) && Apply(c, v, w, step) == t
    ensures Reaches(c, v, t)
  {
    var q :| Loadable(c, q) && Runs.Reaches(Rules(c), Moves(c, v), Init(q), w);
    Runs.Move(Rules(c), Moves(c, v), Init(q), w, step);
  }

  lemma Loads(c: Settings, v: Server, a: Id)
    ensures Reaches(c, v, Of(a, Pending(a, 0, NoError, NotFlushing, None), [], []))
  {
    var q := Pending(a, 0, NoError, NotFlushing, None);
    assert Loadable(c, q);
    Runs.Start(Rules(c), Moves(c, v), Init(q));
  }

  lemma Flushes(c: Settings, v: Server, a: Id, q: Queue, effects: seq<Id>, sent: seq<Id>)
    requires q.flush.NotFlushing? && q.order == [a] && !IsFailed(q, a)
    requires Reaches(c, v, Of(a, q, effects, sent))
    ensures Reaches(c, v, Of(a, q.(flush := AwaitFetch(a, [])), effects, sent + [a]))
  {
    assert [a][1..] == [];
    Go(c, v, Of(a, q, effects, sent), DoFlush, Of(a, q.(flush := AwaitFetch(a, [])), effects, sent + [a]));
  }

  /** Without replays every request that arrives acts. */
  lemma Acts(c: Settings, v: Server, a: Id, q: Queue, effects: seq<Id>, sent: seq<Id>)
    requires !v.replays && a in sent && Reaches(c, v, Of(a, q, effects, sent))
    ensures Reaches(c, v, Of(a, q, effects + [a], sent))
  {
    assert sent + [] == sent;
    Go(c, v, Of(a, q, effects, sent), Process(a), Of(a, q, effects + [a], sent));
  }

  lemma NoAnswerTo(c: Settings, v: Server, a: Id, effects: seq<Id>, sent: seq<Id>)
    ensures var w := Of(a, Pending(a, 0, NoError, AwaitFetch(a, []), None), effects, sent);
            && Enabled(c, w, NoAnswer)
            && Apply(c, v, w, NoAnswer) == Of(a, Pending(a, 1, Network, AwaitLastPersist(a), None), effects, sent)
  {
    var p := Pending(a, 0, NoError, AwaitFetch(a, []), None);
    assert p.ops[a := OpState(1, false, Network)] == map[a := OpState(1, false, Network)];
    assert NetworkDown(p) == Pending(a, 1, Network, AwaitLastPersist(a), None);
    assert sent + [] == sent;
  }

  lemma FindsNoNetwork(c: Settings, v: Server, a: Id, effects: seq<Id>, sent: seq<Id>)
    requires Reaches(c, v, Of(a, Pending(a, 0, NoError, AwaitFetch(a, []), None), effects, sent))
    ensures Reaches(c, v, Of(a, Pending(a, 1, Network, AwaitLastPersist(a), None), effects, sent))
  {
    var p := Pending(a, 0, NoError, AwaitFetch(a, []), None);
    var q := Pending(a, 1, Network, AwaitLastPersist(a), None);
    NoAnswerTo(c, v, a, effects, sent);
    Go(c, v, Of(a, p, effects, sent), NoAnswer, Of(a, q, effects, sent));
  }

  /** The answer is lost and the flush gives up until its timer fires. */
  lemma LosesAnswer(c: Settings, v: Server, a: Id, effects: seq<Id>, sent: seq<Id>)
    requires Reaches(c, v, Of(a, Pending(a, 0, NoError, AwaitFetch(a, []), None), effects, sent))
    ensures Reaches(c, v, Of(a, Pending(a, 1, Network, NotFlushing, Some(RetryDelay(c, 1))), effects, sent))
  {
    FindsNoNetwork(c, v, a, effects, sent);
    var q := Pending(a, 1, Network, AwaitLastPersist(a), None);
    var r := Pending(a, 1, Network, NotFlushing, Some(RetryDelay(c, 1)));
    assert sent + [] == sent;
    assert BackOff(c, q) == r;
    Go(c, v, Of(a, q, effects, sent), LastPersisted, Of(a, r, effects, sent));
  }

  /** The first request takes effect and its answer is lost. */
  lemma ActsUnheard(c: Settings, v: Server, a: Id)
    requires !v.replays
    ensures Reaches(c, v, Of(a, Pending(a, 1, Network, NotFlushing, Some(RetryDelay(c, 1))), [a], [a]))
  {
    var none: seq<Id> := [];
    assert none + [a] == [a];
    Loads(c, v, a);
    Flushes(c, v, a, Pending(a, 0, NoError, NotFlushing, None), none, none);
    Acts(c, v, a, Pending(a, 0, NoError, AwaitFetch(a, []), None), none, [a]);
    LosesAnswer(c, v, a, [a], [a]);
  }

  /** The next flush sends the operation again, and it acts again. */
  lemma ActsTwice(c: Settings, v: Server, a: Id)
    requires !v.replays
    ensures !ActsAtMostOnce(c, v)
  {
    ActsUnheard(c, v, a);
    var q := Pending(a, 1, Network, NotFlushing, Some(RetryDelay(c, 1)));
    Flushes(c, v, a, q, [a], [a]);
    Acts(c, v, a, q.(flush := AwaitFetch(a, [])), [a], [a] + [a]);
    var effects := [a] + [a];
    assert effects[0] == effects[1];
  }

  /** The queue resends under the same key and cannot tell a lost request from a lost answer: effects are unique
      exactly when the server replays repeated keys. */
  lemma ActsAtMostOnceIff(c: Settings, v: Server)
    ensures ActsAtMostOnce(c, v) <==> v.replays
  {
    if v.replays {
      forall w | Reaches(c, v, w) ensures NoDuplicates(w.effects) {
        ReachableIsGood(c, v, w);
      }
    } else {
      ActsTwice(c, v, "a");
    }
  }

  // ---- After leaving the queue -------------------------------------------------------------------------

  /** What the running flush has yet to look at. */
  function Upcoming(f: Flush): seq<Id> {
    match f
    case AwaitFetch(_, rest) => rest
    case AwaitBody(_, _, rest) => rest
    case AwaitPersist(rest) => rest
    case _ => []
  }

  ghost predicate MaySend(c: Settings, v: Server, w: World, id: Id) {
    exists steps :: Runs.Valid(Rules(c), Moves(c, v), w, steps) && SendsIn(c, v, w, steps, id)
  }

  /** Some step of the run sends `id`. */
  ghost predicate SendsIn(c: Settings, v: Server, w: World, steps: seq<Step>, id: Id)
    decreases |steps|
  {
    steps != [] &&
    (id in Sends(w.queue, QueueAfter(c, w, steps[0])) || SendsIn(c, v, Apply(c, v, w, steps[0]), steps[1..], id))
  }

  /** Left the queue, and no running flush will come to it. */
  ghost predicate Gone(w: World, id: Id) {
    id in w.arrived && id !in w.queue.order && (id !in Upcoming(w.queue.flush) || IsFailed(w.queue, id))
  }

  lemma StepLeavesGone(c: Settings, v: Server, w: World, step: Step, id: Id)
    requires Consistent(c, w) && Enabled(c, w, step) && Gone(w, id)
    ensures Gone(Apply(c, v, w, step), id)
    ensures id !in Sends(w.queue, QueueAfter(c, w, step))
  {
    var q := w.queue;
    match step
    case DoFlush => AdvanceChangesOnlyFlush(q, q.order);
    case FireTimer => AdvanceChangesOnlyFlush(q.(timer := None), q.order);
    case Persisted => AdvanceChangesOnlyFlush(q, q.flush.rest);
    case _ =>
  }

  lemma {:induction false} GoneIsNeverSent(c: Settings, v: Server, w: World, steps: seq<Step>, id: Id)
    requires Consistent(c, w) && Traceable(w) && Gone(w, id) && Runs.Valid(Rules(c), Moves(c, v), w, steps)
    ensures !SendsIn(c, v, w, steps, id)
    decreases |steps|
  {
    if steps != [] {
      StepLeavesGone(c, v, w, steps[0], id);
      StepKeepsRecord(c, v, w, steps[0]);
      GoneIsNeverSent(c, v, Apply(c, v, w, steps[0]), steps[1..], id);
    }
  }

  lemma SendsLater(c: Settings, v: Server, w: World, step: Step, id: Id)
    requires Enabled(c, w, step)
    requires id in Sends(w.queue, QueueAfter(c, w, step)) || MaySend(c, v, Apply(c, v, w, step), id)
    ensures MaySend(c, v, w, id)
  {
    var t := Apply(c, v, w, step);
    var steps: seq<Step> := [];
    if MaySend(c, v, t, id) {
      steps :| Runs.Valid(Rules(c), Moves(c, v), t, steps) && SendsIn(c, v, t, steps, id);
    }
    var all := [step] + steps;
    assert all[1..] == steps;
    assert Runs.Valid(Rules(c), Moves(c, v), w, all);
    assert SendsIn(c, v, w, all, id);
  }

  lemma PendingIsNotPassed(q: Queue, rest: seq<Id>, next: Id, left: seq<Id>, id: Id)
    requires Passed(q, rest, next, left) && id in rest && !IsFailed(q, id)
    ensures id == next || id in left
    ensures |left| < |rest|
  {
    var k :| 0 <= k < |rest| && rest[k] == next && left == rest[k + 1..] && forall i :: 0 <= i < k ==> IsFailed(q, rest[i]);
    var j :| 0 <= j < |rest| && rest[j] == id;
    if j > k {
      assert left[j - k - 1] == id;
    }
  }

  /** A flush between two operations comes to every pending one it still has ahead. */
  lemma {:induction false} PersistedComesTo(c: Settings, v: Server, w: World, id: Id)
    requires Good(c, v, w) && w.queue.flush.AwaitPersist?
    requires id in w.queue.flush.rest && !IsFailed(w.queue, id)
    ensures MaySend(c, v, w, id)
    decreases |w.queue.flush.rest|, 0
  {
    var q := w.queue;
    var t := Apply(c, v, w, Persisted);
    AdvanceChangesOnlyFlush(q, q.flush.rest);
    StepKeepsRecord(c, v, w, Persisted);
    assert t.queue.flush.AwaitFetch?;
    PendingIsNotPassed(q, q.flush.rest, t.queue.flush.id, t.queue.flush.rest, id);
    if t.queue.flush.id != id {
      FetchComesTo(c, v, t, id);
    }
    SendsLater(c, v, w, Persisted, id);
  }

  lemma {:induction false} FetchComesTo(c: Settings, v: Server, w: World, id: Id)
    requires Good(c, v, w) && w.queue.flush.AwaitFetch?
    requires id in w.queue.flush.rest && !IsFailed(w.queue, id)
    ensures MaySend(c, v, w, id)
    decreases |w.queue.flush.rest|, 1
  {
    var x := w.queue.flush.id;
    var t := Apply(c, v, w, Process(x));
    StepKeepsRecord(c, v, w, Process(x));
    var u := Apply(c, v, t, AnswerOk);
    StepKeepsRecord(c, v, t, AnswerOk);
    PersistedComesTo(c, v, u, id);
    SendsLater(c, v, t, AnswerOk, id);
    SendsLater(c, v, w, Process(x), id);
  }

  lemma BodyComesTo(c: Settings, v: Server, w: World, id: Id)
    requires Good(c, v, w) && w.queue.flush.AwaitBody?
    requires id in w.queue.flush.rest && !IsFailed(w.queue, id)
    ensures MaySend(c, v, w, id)
  {
    var q := w.queue;
    assert q.flush.id in Ahead(q.flush);
    assert id != q.flush.id by {
      var j :| 0 <= j < |q.flush.rest| && q.flush.rest[j] == id;
      assert Ahead(q.flush)[0] != Ahead(q.flush)[j + 1];
    }
    StepKeepsRecord(c, v, w, ReadBody);
    PersistedComesTo(c, v, Apply(c, v, w, ReadBody), id);
    SendsLater(c, v, w, ReadBody, id);
  }

  /** An operation that left the queue, dropped or delivered, can be sent again exactly when the running flush
      still has it ahead in its snapshot and it is pending. */
  lemma SentAfterLeavingIff(c: Settings, v: Server, w: World, id: Id)
    requires Reaches(c, v, w) && id in w.arrived && id !in w.queue.order
    ensures MaySend(c, v, w, id) <==> id in Upcoming(w.queue.flush) && !IsFailed(w.queue, id)
  {
    ReachableIsGood(c, v, w);
    if id in Upcoming(w.queue.flush) && !IsFailed(w.queue, id) {
      match w.queue.flush
      case AwaitFetch(_, _) => FetchComesTo(c, v, w, id);
      case AwaitBody(_, _, _) => BodyComesTo(c, v, w, id);
      case AwaitPersist(_) => PersistedComesTo(c, v, w, id);
    } else if MaySend(c, v, w, id) {
      var steps :| Runs.Valid(Rules(c), Moves(c, v), w, steps) && SendsIn(c, v, w, steps, id);
      GoneIsNeverSent(c, v, w, steps, id);
    }
  }

  /** A run in which that happens: two operations, a flush sends the first, the second is dropped, and it is sent. */
  lemma DroppedCanStillBeSent(c: Settings, v: Server, a: Id, b: Id)
    requires a != b
    ensures exists w :: Reaches(c, v, w) && b in w.dropped && b !in w.queue.order && MaySend(c, v, w, b)
  {
    var both := [a, b];
    var q := Queue(map[a := NEW, b := NEW], both, both, NotFlushing, None);
    assert Loadable(c, q);
    Runs.Start(Rules(c), Moves(c, v), Init(q));
    assert both[1..] == [b];
    var flushing := q.(flush := AwaitFetch(a, [b]));
    assert Advance(q, both) == flushing;
    var none: seq<Id> := [];
    var w1 := World(flushing, [], both, {}, {}, none + [a]);
    Go(c, v, Init(q), DoFlush, w1);
    DropsLast(a, b);
    var w2 := World(flushing.(order := [a], stored := [a]), [], both, {}, {b}, none + [a]);
    assert none + [a] + [] == none + [a];
    assert {} + {b} == {b};
    Go(c, v, w1, DoDrop(b), w2);
    assert Upcoming(w2.queue.flush) == [b];
    SentAfterLeavingIff(c, v, w2, b);
  }

  lemma DropsLast(a: Id, b: Id)
    requires a != b
    ensures Without([a, b], b) == [a]
  {
    assert [a, b][1..] == [b] && [b][1..] == [];
  }
}
