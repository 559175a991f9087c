/** `OfflineQueue`: operations are objects shared by the queue, its storage and the snapshot of a running flush. */
module OfflineQueue {
  import opened Wrappers
  import opened Sequences
  import opened QueueModel

  class QueuedOperation {
    const id: Id
    const body: map<string, string>
    var attempts: nat
    var failed: bool
    var lastError: LastError

    constructor (id: Id, body: map<string, string>)
      ensures this.id == id && this.body == body && View() == NEW
    {
      this.id, this.body := id, body;
      attempts, failed, lastError := 0, false, NoError;
    }

    function View(): OpState
      reads this
    {
      OpState(attempts, failed, lastError)
    }
  }

  /** The suspended frame of the active flush. */
  datatype Frame =
    | NoFrame
    | Fetching(op: QueuedOperation, rest: seq<QueuedOperation>)
    | ReadingBody(op: QueuedOperation, status: int, rest: seq<QueuedOperation>)
    | Persisting(rest: seq<QueuedOperation>)
    | PersistingLast(op: QueuedOperation)

  ghost function Ids(ops: seq<QueuedOperation>): (r: seq<Id>)
    ensures |r| == |ops|
  {
    seq(|ops|, i requires 0 <= i < |ops| => ops[i].id)
  }

  ghost function Others(ops: seq<QueuedOperation>, id: Id): seq<QueuedOperation> {
    if ops == [] then []
    else (if ops[0].id != id then [ops[0]] else []) + Others(ops[1..], id)
  }

  lemma IdsUnfold(op: QueuedOperation, rest: seq<QueuedOperation>)
    ensures Ids([op] + rest) == [op.id] + Ids(rest)
  {
  }

  lemma {:induction false} OthersAreWithout(ops: seq<QueuedOperation>, id: Id)
    ensures Ids(Others(ops, id)) == Without(Ids(ops), id)
    ensures forall op :: op in Others(ops, id) ==> op in ops
  {
    if ops != [] {
      var rest := Others(ops[1..], id);
      OthersAreWithout(ops[1..], id);
      IdsUnfold(ops[0], ops[1..]);
      IdsUnfold(ops[0], rest);
      assert ops == [ops[0]] + ops[1..];
      assert ([ops[0].id] + Ids(ops[1..]))[1..] == Ids(ops[1..]);
    }
  }

  method Filter(ops: seq<QueuedOperation>, id: Id) returns (kept: seq<QueuedOperation>)
    ensures kept == Others(ops, id)
  {
    kept := [];
    var i := 0;
    while i < |ops|
      invariant 0 <= i <= |ops|
      invariant kept + Others(ops[i..], id) == Others(ops, id)
    {
      assert ops[i..][1..] == ops[i + 1..];
      if ops[i].id != id {
        kept := kept + [ops[i]];
      }
      i := i + 1;
    }
  }

  ghost function SameKey(ops: seq<QueuedOperation>, id: Id): nat {
    if ops == [] then 0 else (if ops[0].id == id then 1 else 0) + SameKey(ops[1..], id)
  }

  lemma {:induction false} OthersAreFewer(ops: seq<QueuedOperation>, id: Id)
    ensures |Others(ops, id)| + SameKey(ops, id) == |ops|
    ensures SameKey(ops, id) == 0 ==> Others(ops, id) == ops
  {
    if ops != [] {
      OthersAreFewer(ops[1..], id);
    }
  }

  lemma {:induction false} KeysInBothParts(a: seq<QueuedOperation>, b: seq<QueuedOperation>, id: Id)
    ensures Others(a + b, id) == Others(a, id) + Others(b, id)
    ensures SameKey(a + b, id) == SameKey(a, id) + SameKey(b, id)
  {
    if a == [] {
      assert a + b == b;
    } else {
      assert (a + b)[1..] == a[1..] + b;
      KeysInBothParts(a[1..], b, id);
    }
  }

  lemma OneInTheMiddle(a: seq<QueuedOperation>, op: QueuedOperation, b: seq<QueuedOperation>)
    ensures Others(a + ([op] + b), op.id) == Others(a, op.id) + Others(b, op.id)
    ensures SameKey(a + ([op] + b), op.id) == SameKey(a, op.id) + 1 + SameKey(b, op.id)
  {
    KeysInBothParts(a, [op] + b, op.id);
    assert ([op] + b)[1..] == b;
  }

  lemma SplitAt(ops: seq<QueuedOperation>, k: nat)
    requires k < |ops|
    ensures ops == ops[..k] + ([ops[k]] + ops[k + 1..])
  {
  }

  /** An ok answer takes its own operation out of the queue and no other exactly when its key occurs once: all
      operations under one key leave together, those not sent yet among them. */
  lemma DeliveryTakesOnlyItselfIff(ops: seq<QueuedOperation>, k: nat)
    requires k < |ops|
    ensures Others(ops, ops[k].id) == ops[..k] + ops[k + 1..] <==> SameKey(ops, ops[k].id) == 1
  {
    var a, b, id := ops[..k], ops[k + 1..], ops[k].id;
    SplitAt(ops, k);
    OneInTheMiddle(a, ops[k], b);
    OthersAreFewer(a, id);
    OthersAreFewer(b, id);
    assert |a + b| == |a| + |b| && |Others(a, id) + Others(b, id)| == |Others(a, id)| + |Others(b, id)|;
  }

  ghost function FrameView(f: Frame): Flush {
    match f
    case NoFrame => NotFlushing
    case Fetching(op, rest) => AwaitFetch(op.id, Ids(rest))
    case ReadingBody(op, status, rest) => AwaitBody(op.id, status, Ids(rest))
    case Persisting(rest) => AwaitPersist(Ids(rest))
    case PersistingLast(op) => AwaitLastPersist(op.id)
  }

  class OfflineQueue {
    const settings: Settings
    const idempotencyField: string
    var operations: seq<QueuedOperation>
    /** What the synchronous storage last saved. */
    var saved: seq<QueuedOperation>
    var flushing: bool
    var retryTimer: Option<nat>
    /** The local state of the one flush past its `flushing` test. */
    var frame: Frame
    /** Every operation this queue has seen, by id. */
    ghost var known: map<Id, QueuedOperation>

    ghost predicate KnowsOp(op: QueuedOperation)
      reads this`known
    {
      op.id in known && known[op.id] == op
    }

    ghost predicate Knows(ops: seq<QueuedOperation>)
      reads this`known
    {
      forall op :: op in ops ==> KnowsOp(op)
    }

    ghost predicate KnowsFrame(f: Frame)
      reads this`known
    {
      match f
      case NoFrame => true
      case Fetching(op, rest) => KnowsOp(op) && Knows(rest)
      case ReadingBody(op, _, rest) => KnowsOp(op) && Knows(rest)
      case Persisting(rest) => Knows(rest)
      case PersistingLast(op) => KnowsOp(op)
    }

    ghost predicate Valid()
      reads this
    {
      && (forall id :: id in known ==> known[id].id == id)
      && (forall id :: id in known ==>
            idempotencyField in known[id].body && known[id].body[idempotencyField] == id)
      && Knows(operations) && Knows(saved) && KnowsFrame(frame)
      && (flushing <==> !frame.NoFrame?)
    }

    ghost function Ops(): map<Id, OpState>
      reads this`known, known.Values
    {
      map id | id in known :: known[id].View()
    }

    ghost function View(): Queue
      reads this, known.Values
    {
      Queue(Ops(), Ids(operations), Ids(saved), FrameView(frame), retryTimer)
    }

    /** Changing one operation object changes its entry and no other. */
    twostate lemma OneOperationChanged(op: QueuedOperation)
      requires known == old(known) && KnowsOp(op) && forall id :: id in known ==> known[id].id == id
      requires forall id :: id in known && known[id] != op ==> unchanged(known[id])
      ensures Ops() == old(Ops())[op.id := op.View()]
    {
    }

    twostate lemma OneOperationAdded(new op: QueuedOperation)
      requires known == old(known)[op.id := op] && op.id !in old(known)
      requires forall id :: id in old(known) ==> unchanged(old(known)[id])
      ensures Ops() == old(Ops())[op.id := op.View()]
    {
    }

    /** The constructor once storage has loaded. */
    constructor (settings: Settings, idempotencyField: string, loaded: seq<QueuedOperation>)
      requires forall i :: 0 <= i < |loaded| ==>
                 idempotencyField in loaded[i].body && loaded[i].body[idempotencyField] == loaded[i].id
      requires forall i, j :: 0 <= i < j < |loaded| ==> loaded[i].id != loaded[j].id
      ensures Valid()
      ensures View().order == Ids(loaded) == View().stored
      ensures View().flush.NotFlushing? && View().timer.None?
      ensures forall i :: 0 <= i < |loaded| ==> loaded[i].id in View().ops && View().ops[loaded[i].id] == loaded[i].View()
    {
      this.settings, this.idempotencyField := settings, idempotencyField;
      operations, saved := loaded, loaded;
      flushing, retryTimer, frame := false, None, NoFrame;
      known := map i | 0 <= i < |loaded| :: loaded[i].id := loaded[i];
    }

    method Persist()
      requires Valid()
      modifies this`saved
      ensures Valid() && View() == old(View()).(stored := old(View()).order)
    {
      saved := operations;
    }

    /** Saves, and suspends the flush at `f` until the save has settled. */
    method PersistIn(f: Frame)
      requires Valid() && flushing && KnowsFrame(f) && !f.NoFrame?
      modifies this`saved, this`frame
      ensures Valid() && frame == f
      ensures View() == old(View()).(stored := old(View()).order, flush := FrameView(f))
    {
      MoveTo(f);
      Persist();
    }

    /** The running flush goes on to wait at `f`. */
    method MoveTo(f: Frame)
      requires Valid() && flushing && KnowsFrame(f) && !f.NoFrame?
      modifies this`frame
      ensures Valid() && frame == f && View() == old(View()).(flush := FrameView(f))
    {
      frame := f;
    }

    method Enqueue(id: Id, body: map<string, string>) returns (operation: QueuedOperation)
      requires Valid() && id !in known
      modifies this`operations, this`saved, this`known
      ensures Valid() && fresh(operation)
      ensures View() == QueueModel.Enqueue(old(View()), id)
      ensures operation.id == id && operation.body == body[idempotencyField := id]
    {
      operation := new QueuedOperation(id, body[idempotencyField := id]);
      operations := operations + [operation];
      known := known[id := operation];
      OneOperationAdded(operation);
      assert Ids(operations) == Ids(old(operations)) + [id];
      Persist();
    }

    method Drop(id: Id)
      requires Valid()
      modifies this`operations, this`saved
      ensures Valid() && View() == QueueModel.Drop(old(View()), id)
    {
      RemoveFromQueue(id);
      Persist();
    }

    /** `this.operations = this.operations.filter((op) => op.id !== id)` */
    method RemoveFromQueue(id: Id)
      requires Valid()
      modifies this`operations
      ensures Valid() && View() == old(View()).(order := Without(old(View()).order, id))
    {
      OthersAreWithout(operations, id);
      operations := Filter(operations, id);
      OnlyOrderChanged();
    }

    twostate lemma OnlyOrderChanged()
      requires old(Valid()) && Knows(operations)
      requires known == old(known) && saved == old(saved) && frame == old(frame) && retryTimer == old(retryTimer)
      requires flushing == old(flushing) && forall id :: id in known ==> unchanged(known[id])
      ensures Valid() && View() == old(View()).(order := Ids(operations))
    {
    }

    method Retry(id: Id)
      requires Valid()
      modifies this`saved, operations
      ensures Valid() && View() == QueueModel.Retry(old(View()), id)
    {
      var i := 0;
      while i < |operations| && operations[i].id != id
        invariant 0 <= i <= |operations|
        invariant forall j :: 0 <= j < i ==> operations[j].id != id
      {
        i := i + 1;
      }
      if i < |operations| {
        var operation := operations[i];
        assert operation in operations && Ids(operations)[i] == id;
        assert KnowsOp(operation);
        if operation.failed {
          Update(operation, 0, false, NoError);
          Persist();
        }
      }
    }

    method ScheduleRetry(attempts: nat)
      requires Valid()
      modifies this`retryTimer
      ensures Valid() && View() == old(View()).(timer := Some(RetryDelay(settings, attempts)))
    {
      retryTimer := Some(RetryDelay(settings, attempts));
    }

    lemma FailureIsVisible(rest: seq<QueuedOperation>)
      requires Knows(rest) && rest != []
      ensures IsFailed(View(), Ids(rest)[0]) <==> rest[0].failed
      ensures Ids(rest)[0] == rest[0].id && Ids(rest)[1..] == Ids(rest[1..]) && Knows(rest[1..])
    {
      assert KnowsOp(rest[0]);
    }

    /** Passes over the operations of the snapshot that are not pending. */
    method SkipFailed(snapshot: seq<QueuedOperation>) returns (rest: seq<QueuedOperation>)
      requires Valid() && Knows(snapshot)
      ensures Knows(rest) && Advance(View(), Ids(rest)) == Advance(View(), Ids(snapshot))
      ensures rest != [] ==> !rest[0].failed
    {
      rest := snapshot;
      while rest != [] && rest[0].failed
        invariant Knows(rest) && Advance(View(), Ids(rest)) == Advance(View(), Ids(snapshot))
        decreases |rest|
      {
        FailureIsVisible(rest);
        rest := rest[1..];
      }
    }

    /** The loop head: send the next pending operation, or end the flush. */
    method Drain(snapshot: seq<QueuedOperation>) returns (sent: Option<QueuedOperation>)
      requires Valid() && Knows(snapshot)
      modifies this`frame, this`flushing
      ensures Valid() && View() == Advance(old(View()), Ids(snapshot))
      ensures sent.Some? <==> frame.Fetching?
      ensures sent.Some? ==> sent.value == frame.op && !sent.value.failed
    {
      var rest := SkipFailed(snapshot);
      if rest == [] {
        assert Ids(rest) == [];
        Suspend(NoFrame);
        return None;
      }
      FailureIsVisible(rest);
      Suspend(Fetching(rest[0], rest[1..]));
      return Some(rest[0]);
    }

    /** The flush stops at `f`, or ends. */
    method Suspend(f: Frame)
      requires Valid() && KnowsFrame(f)
      modifies this`frame, this`flushing
      ensures Valid() && frame == f && View() == old(View()).(flush := FrameView(f))
    {
      flushing, frame := !f.NoFrame?, f;
    }

    method BeginFlush() returns (sent: Option<QueuedOperation>)
      requires Valid()
      modifies this`frame, this`flushing
      ensures Valid() && View() == QueueModel.BeginFlush(old(View()))
    {
      if flushing {
        return None;
      }
      sent := Drain(operations);
    }

    /** Overwrites the fields of one operation. */
    method Update(operation: QueuedOperation, attempts: nat, failed: bool, lastError: LastError)
      requires Valid() && KnowsOp(operation)
      modifies operation
      ensures Valid() && View() == old(View()).(ops := old(Ops())[operation.id := OpState(attempts, failed, lastError)])
    {
      operation.attempts, operation.failed, operation.lastError := attempts, failed, lastError;
      OneOperationChanged(operation);
    }

    method OnNetworkError()
      requires Valid() && frame.Fetching?
      modifies this`frame, this`saved, frame.op
      ensures Valid() && View() == NetworkDown(old(View()))
    {
      var operation := frame.op;
      assert Ops()[operation.id] == operation.View();
      Update(operation, operation.attempts + 1, operation.failed, Network);
      PersistIn(PersistingLast(operation));
    }

    method OnDelivered()
      requires Valid() && frame.Fetching?
      modifies this`frame, this`saved, this`operations
      ensures Valid() && View() == Delivered(old(View()))
    {
      RemoveFromQueue(frame.op.id);
      PersistIn(Persisting(frame.rest));
    }

    method OnRefused(status: int)
      requires Valid() && frame.Fetching?
      modifies this`frame, frame.op
      ensures Valid() && View() == Refused(old(View()), status)
    {
      assert Ops()[frame.op.id] == frame.op.View();
      Update(frame.op, frame.op.attempts + 1, frame.op.failed, frame.op.lastError);
      MoveTo(ReadingBody(frame.op, status, frame.rest));
    }

    method OnBodyRead()
      requires Valid() && frame.ReadingBody?
      modifies this`frame, this`saved, this`retryTimer, frame.op
      ensures Valid() && View() == BodyRead(settings, old(View()))
    {
      var operation, status := frame.op, frame.status;
      var over := GivesUp(settings, status, operation.attempts);
      assert Ops()[operation.id] == operation.View();
      Update(operation, operation.attempts, operation.failed || over, Http(status));
      if !over {
        ScheduleRetry(operation.attempts);
      }
      PersistIn(Persisting(frame.rest));
    }

    method OnPersisted() returns (sent: Option<QueuedOperation>)
      requires Valid() && frame.Persisting?
      modifies this`frame, this`flushing
      ensures Valid() && View() == Continue(old(View()))
    {
      sent := Drain(frame.rest);
    }

    method OnLastPersisted()
      requires Valid() && frame.PersistingLast?
      modifies this`frame, this`flushing, this`retryTimer
      ensures Valid() && View() == BackOff(settings, old(View()))
    {
      ScheduleRetry(frame.op.attempts);
      flushing, frame := false, NoFrame;
    }

    method OnTimer() returns (sent: Option<QueuedOperation>)
      requires Valid() && retryTimer.Some?
      modifies this`frame, this`flushing, this`retryTimer
      ensures Valid() && View() == TimerFires(old(View()))
    {
      retryTimer := None;
      sent := BeginFlush();
    }
  }
}
