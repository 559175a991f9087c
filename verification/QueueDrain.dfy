/** A flush while the server answers every request with ok, and nothing else runs. */
module QueueDrain {
  import opened Wrappers
  import opened Sequences
  import opened QueueModel

  /** The flush to its end. */
  function Drained(q: Queue): Queue
    decreases if q.flush.AwaitFetch? then |q.flush.rest| + 1 else 0
  {
    if q.flush.AwaitFetch? then
      AdvanceShortens(Delivered(q), q.flush.rest);
      Drained(Continue(Delivered(q)))
    else q
  }

  /** The requests it sends. */
  function Requests(q: Queue): seq<Id>
    decreases if q.flush.AwaitFetch? then |q.flush.rest| + 1 else 0
  {
    if q.flush.AwaitFetch? then
      AdvanceShortens(Delivered(q), q.flush.rest);
      [q.flush.id] + Requests(Continue(Delivered(q)))
    else []
  }

  lemma {:induction false} AdvanceShortens(q: Queue, rest: seq<Id>)
    ensures Advance(q, rest).flush.AwaitFetch? ==> |Advance(q, rest).flush.rest| < |rest|
    decreases |rest|
  {
    if rest != [] && IsFailed(q, rest[0]) {
      AdvanceShortens(q, rest[1..]);
    }
  }

  /** The ids that are failed (or pending), in order. */
  function Only(q: Queue, ids: seq<Id>, failed: bool): seq<Id> {
    if ids == [] then []
    else (if IsFailed(q, ids[0]) == failed then [ids[0]] else []) + Only(q, ids[1..], failed)
  }

  lemma {:induction false} OnlySkips(q: Queue, ids: seq<Id>, k: nat, failed: bool)
    requires k <= |ids| && forall i :: 0 <= i < k ==> IsFailed(q, ids[i])
    ensures Only(q, ids, failed) == (if failed then ids[..k] else []) + Only(q, ids[k..], failed)
    decreases k
  {
    if k == 0 {
      assert ids[0..] == ids && ids[..0] == [];
    } else {
      OnlySkips(q, ids[1..], k - 1, failed);
      assert ids[1..][k - 1..] == ids[k..];
      assert ids[..k] == [ids[0]] + ids[1..][..k - 1];
    }
  }

  lemma {:induction false} OnlyReadsOps(q: Queue, t: Queue, ids: seq<Id>, failed: bool)
    requires q.ops == t.ops
    ensures Only(q, ids, failed) == Only(t, ids, failed)
  {
    if ids != [] {
      OnlyReadsOps(q, t, ids[1..], failed);
    }
  }

  lemma OnlySplits(q: Queue, ids: seq<Id>, k: nat, failed: bool)
    requires k < |ids| && !IsFailed(q, ids[k]) && forall i :: 0 <= i < k ==> IsFailed(q, ids[i])
    ensures Only(q, ids, failed)
         == (if failed then ids[..k] else [ids[k]]) + Only(q, ids[k + 1..], failed)
  {
    OnlySkips(q, ids, k, failed);
    assert ids[k..][0] == ids[k] && ids[k..][1..] == ids[k + 1..];
  }

  /** Delivering what the flush works on takes exactly that out of the queue. */
  lemma DeliveredTakesOut(a: Queue, before: seq<Id>, left: seq<Id>)
    requires a.flush.AwaitFetch? && NoDuplicates(a.order) && a.order == before + [a.flush.id] + left
    ensures Delivered(a).order == before + left == Delivered(a).stored && NoDuplicates(before + left)
    ensures Delivered(a).ops == a.ops
  {
    TakeOut(before, a.flush.id, left);
  }

  ghost predicate DrainsTo(ops: map<Id, OpState>, a: Queue, order: seq<Id>, sent: seq<Id>) {
    var t := Drained(a);
    t.flush.NotFlushing? && t.ops == ops && t.order == order == t.stored && Requests(a) == sent
  }

  /** One delivery, and the drain of the rest. */
  lemma DrainOn(ops: map<Id, OpState>, a: Queue, order: seq<Id>, sent: seq<Id>)
    requires a.flush.AwaitFetch? && DrainsTo(ops, Advance(Delivered(a), a.flush.rest), order, sent)
    ensures DrainsTo(ops, a, order, [a.flush.id] + sent)
  {
    assert Continue(Delivered(a)) == Advance(Delivered(a), a.flush.rest);
  }

  lemma OnlyTogether(q: Queue, d: Queue, before: seq<Id>, rest: seq<Id>, k: nat)
    requires q.ops == d.ops && k < |rest| && !IsFailed(q, rest[k]) && forall i :: 0 <= i < k ==> IsFailed(q, rest[i])
    ensures before + rest[..k] + Only(d, rest[k + 1..], true) == before + Only(q, rest, true)
    ensures [rest[k]] + Only(d, rest[k + 1..], false) == Only(q, rest, false)
  {
    OnlySplits(q, rest, k, true);
    OnlySplits(q, rest, k, false);
    OnlyReadsOps(d, q, rest[k + 1..], true);
    OnlyReadsOps(d, q, rest[k + 1..], false);
    Regroup(before, rest[..k], Only(q, rest[k + 1..], true));
  }

  lemma NothingLeft(q: Queue, before: seq<Id>, rest: seq<Id>)
    requires q.order == before + rest == q.stored
    requires Advance(q, rest) == q.(flush := NotFlushing) && forall i :: 0 <= i < |rest| ==> IsFailed(q, rest[i])
    ensures DrainsTo(q.ops, Advance(q, rest), before + Only(q, rest, true), Only(q, rest, false))
  {
    OnlySkips(q, rest, |rest|, true);
    OnlySkips(q, rest, |rest|, false);
    assert rest[..|rest|] == rest && rest[|rest|..] == [];
  }

  /** Where the flush came to. */
  lemma FlushStandsAt(q: Queue, rest: seq<Id>) returns (k: nat)
    requires Advance(q, rest).flush.AwaitFetch?
    ensures var a := Advance(q, rest);
            && a == q.(flush := AwaitFetch(a.flush.id, a.flush.rest))
            && k < |rest| && rest[k] == a.flush.id && a.flush.rest == rest[k + 1..] && !IsFailed(q, rest[k])
    ensures forall i :: 0 <= i < k ==> IsFailed(q, rest[i])
  {
    AdvanceChangesOnlyFlush(q, rest);
    var a := Advance(q, rest);
    k :| 0 <= k < |rest| && rest[k] == a.flush.id && a.flush.rest == rest[k + 1..]
         && forall i :: 0 <= i < k ==> IsFailed(q, rest[i]);
  }

  lemma SplitsAt(before: seq<Id>, rest: seq<Id>, k: nat)
    requires k < |rest|
    ensures before + rest == before + rest[..k] + [rest[k]] + rest[k + 1..]
  {
    assert rest == rest[..k] + [rest[k]] + rest[k + 1..];
  }

  /** What the drain leaves of a queue whose part before `rest` was passed over. */
  lemma {:induction false} DrainFrom(q: Queue, before: seq<Id>, rest: seq<Id>)
    requires q.order == before + rest == q.stored && NoDuplicates(q.order)
    ensures DrainsTo(q.ops, Advance(q, rest), before + Only(q, rest, true), Only(q, rest, false))
    decreases |rest|, 0
  {
    AdvanceChangesOnlyFlush(q, rest);
    if Advance(q, rest).flush.NotFlushing? {
      NothingLeft(q, before, rest);
    } else {
      var k := FlushStandsAt(q, rest);
      SplitsAt(before, rest, k);
      DrainFromHere(q, Advance(q, rest), before, rest, k);
    }
  }

  lemma {:induction false} DrainFromHere(q: Queue, a: Queue, before: seq<Id>, rest: seq<Id>, k: nat)
    requires NoDuplicates(q.order) && k < |rest|
    requires a == q.(flush := AwaitFetch(rest[k], rest[k + 1..])) && !IsFailed(q, rest[k])
    requires forall i :: 0 <= i < k ==> IsFailed(q, rest[i])
    requires q.order == before + rest[..k] + [rest[k]] + rest[k + 1..]
    ensures DrainsTo(q.ops, a, before + Only(q, rest, true), Only(q, rest, false))
    decreases |rest| - 1, 1
  {
    var d := Delivered(a);
    DeliveredTakesOut(a, before + rest[..k], rest[k + 1..]);
    DrainFrom(d, before + rest[..k], rest[k + 1..]);
    DrainOn(q.ops, a, before + rest[..k] + Only(d, rest[k + 1..], true), Only(d, rest[k + 1..], false));
    OnlyTogether(q, d, before, rest, k);
  }

  lemma {:induction false} WithoutSkips(before: seq<Id>, after: seq<Id>, x: Id)
    requires x !in before
    ensures Without(before + after, x) == before + Without(after, x)
  {
    if before == [] {
      assert before + after == after;
    } else {
      assert (before + after)[1..] == before[1..] + after;
      WithoutSkips(before[1..], after, x);
      Regroup([before[0]], before[1..], Without(after, x));
    }
  }

  lemma TakeOut(before: seq<Id>, x: Id, after: seq<Id>)
    requires NoDuplicates(before + [x] + after)
    ensures Without(before + [x] + after, x) == before + after
    ensures NoDuplicates(before + after)
  {
    var s := before + [x] + after;
    assert s[|before|] == x;
    assert forall i :: 0 <= i < |before| ==> before[i] == s[i];
    assert forall i :: 0 <= i < |after| ==> after[i] == s[|before| + 1 + i];
    WithoutKeepsNoDuplicates(s, x);
    Regroup(before, [x], after);
    WithoutSkips(before, [x] + after, x);
    assert ([x] + after)[1..] == after;
  }

  /** Online, a flush sends every pending operation once, first in first out, and leaves exactly the failed ones. */
  lemma OnlineFlushDeliversEverything(q: Queue)
    requires q.flush.NotFlushing? && NoDuplicates(q.order) && q.stored == q.order
    ensures Requests(BeginFlush(q)) == Only(q, q.order, false)
    ensures var t := Drained(BeginFlush(q));
            t.flush.NotFlushing? && t.ops == q.ops && t.order == Only(q, q.order, true) == t.stored
  {
    assert [] + q.order == q.order;
    DrainFrom(q, [], q.order);
    assert [] + Only(q, q.order, true) == Only(q, q.order, true);
  }
}
